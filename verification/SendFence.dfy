/**
 Source fence of the sender loop: over every interleaving, a source that was reported as released is never read.
 */
module SendFence {
  import opened Common
  import opened SendProtocol

  /** Handler `hd` is inside a write that reads source `m`. */
  ghost predicate Holds(hd: Handler, m: nat) {
    hd.phase.Writing? && m in MetasOf(hd.phase.ready)
  }

  ghost function Writers(handlers: seq<Handler>, m: nat): set<nat> {
    set h: nat | h < |handlers| && Holds(handlers[h], m)
  }

  ghost function AckedBy(peers: set<int>, acked: set<Ack>, m: nat): set<int> {
    set d | d in peers && Ack(m, d) in acked
  }

  function Tid(s: State, m: nat): string
    requires m < |s.metas|
  {
    s.metas[m].transferId
  }

  /** Source `m` was handed to a handler of rank `d`. */
  predicate Served(s: State, m: nat, d: int) {
    m < |s.metas| && Turn(Tid(s, m), d) in s.served && s.served[Turn(Tid(s, m), d)].meta == m
  }

  // ---------------------------------------------------------------- invariant

  /** Every waiter waits for a transfer that it is the one to have pulled, and that was not served to it yet. */
  ghost predicate WaiterValid(s: State, h: nat, r: string)
    requires h < |s.handlers| && r in s.handlers[h].waiting
  {
    var m, d := s.handlers[h].waiting[r], s.handlers[h].rank;
    && m < |s.metas| && d in s.peers
    && Turn(Tid(s, m), d) in s.used && s.used[Turn(Tid(s, m), d)] == Origin(h, r) && Turn(Tid(s, m), d) !in s.served
  }

  ghost predicate WaitersValid(s: State) {
    forall h: nat, r {:trigger WaiterValid(s, h, r)} {:trigger r in s.handlers[h].waiting} ::
      h < |s.handlers| && r in s.handlers[h].waiting ==> WaiterValid(s, h, r)
  }

  ghost predicate ReadingValid(s: State, k: Turn)
    requires k in s.served
  {
    var m := s.served[k].meta;
    m < |s.metas| && Tid(s, m) == k.transferId && k.rank in s.peers && k in s.used
  }

  ghost predicate ServedValid(s: State) {
    && (forall k :: k in s.served ==> ReadingValid(s, k))
    && (forall a :: a in s.acked ==> Served(s, a.meta, a.rank))
  }

  /** A write reads a published source, on behalf of a rank it was served to and that has not acknowledged it. */
  ghost predicate WriterValid(s: State, h: nat, m: nat)
    requires h < |s.handlers|
  {
    && m < |s.metas| && s.metas[m].deadline.Some? && s.metas[m].needSend == |s.peers|
    && Turn(Tid(s, m), s.handlers[h].rank) in s.served
    && s.served[Turn(Tid(s, m), s.handlers[h].rank)] == Reading(m, h)
    && Ack(m, s.handlers[h].rank) !in s.acked
  }

  ghost predicate WritersValid(s: State) {
    forall h: nat, m: nat {:trigger Holds(s.handlers[h], m)} ::
      h < |s.handlers| && Holds(s.handlers[h], m) ==> WriterValid(s, h, m)
  }

  ghost predicate DistinctMetas(entries: seq<Entry>) {
    forall i, j :: 0 <= i < j < |entries| ==> entries[i].meta != entries[j].meta
  }

  /** A write reads each source once. */
  ghost predicate EntriesApart(s: State) {
    forall h :: 0 <= h < |s.handlers| && s.handlers[h].phase.Writing? ==> DistinctMetas(s.handlers[h].phase.ready)
  }

  /** `sending` counts the writes in flight and `sent` the acknowledged ranks. */
  ghost predicate CountValid(s: State, m: nat)
    requires m < |s.metas|
  {
    && s.metas[m].sending == |Writers(s.handlers, m)|
    && s.metas[m].sent == |AckedBy(s.peers, s.acked, m)|
    && (s.metas[m].needSend == 0 || s.metas[m].needSend == |s.peers|)
  }

  ghost predicate Counted(s: State) {
    forall m: nat :: m < |s.metas| ==> CountValid(s, m)
  }

  /** Every source is in the table, being drained, or released; what is released is not read. */
  ghost predicate SourceValid(s: State, m: nat)
    requires m < |s.metas|
  {
    && (Live(s, m) || m in s.released || s.draining == Some(m))
    && (m in s.released ==> !Live(s, m) && s.draining != Some(m) && s.metas[m].sending == 0)
    && (Live(s, m) && s.metas[m].ready ==> s.metas[m].deadline.Some?)
  }

  /** While a source is drained, its name can only come back for a rank it was not served to. */
  ghost predicate DrainValid(s: State) {
    s.draining.Some? ==>
      var m := s.draining.value;
      m < |s.metas| && !Live(s, m) && (Tid(s, m) in s.table ==> exists d :: d in s.peers && !Served(s, m, d))
  }

  ghost predicate Lifecycle(s: State) {
    && (forall m: nat :: m < |s.metas| ==> SourceValid(s, m))
    && (forall m :: m in s.released ==> m < |s.metas|)
    && DrainValid(s)
  }

  ghost predicate HandlersValid(s: State) {
    WaitersValid(s) && ServedValid(s) && WritersValid(s) && EntriesApart(s)
  }

  ghost predicate Inv(s: State) {
    s.peers != {} && TableValid(s) && HandlersValid(s) && Counted(s) && Lifecycle(s)
  }

  /** No write reads `m`, and none can start: the identity check fails for it. */
  ghost predicate Fenced(s: State, m: nat) {
    m < |s.metas| && Writers(s.handlers, m) == {} && !Live(s, m)
  }

  lemma ReleasedIsFenced(s: State, m: nat)
    requires Inv(s) && m in s.released
    ensures Fenced(s, m)
  {
    assert SourceValid(s, m) && CountValid(s, m);
  }

  lemma InitInv(peers: set<int>)
    requires peers != {}
    ensures Inv(Init(peers))
  {
  }

  // ---------------------------------------------------------------- worker steps

  /** Only the table and fields that no counter depends on change; new sources start at zero. */
  ghost predicate SourcesExtended(s: State, s1: State) {
    && s1.handlers == s.handlers && s1.peers == s.peers
    && s1.used == s.used && s1.served == s.served && s1.acked == s.acked
    && |s.metas| <= |s1.metas|
    && (forall m :: 0 <= m < |s.metas| ==>
      && s1.metas[m].transferId == s.metas[m].transferId && s1.metas[m].needSend == s.metas[m].needSend
      && s1.metas[m].sent == s.metas[m].sent && s1.metas[m].sending == s.metas[m].sending
      && (s.metas[m].deadline.Some? ==> s1.metas[m].deadline.Some?))
    && (forall m :: |s.metas| <= m < |s1.metas| ==>
      s1.metas[m].needSend == s1.metas[m].sent == s1.metas[m].sending == 0)
  }

  lemma ExtensionKeepsCounts(s: State, s1: State)
    requires ServedValid(s) && WritersValid(s) && Counted(s) && SourcesExtended(s, s1)
    ensures Counted(s1)
  {
    forall m: nat | m < |s1.metas|
      ensures CountValid(s1, m)
    {
      if m < |s.metas| {
        assert CountValid(s, m);
      } else {
        NoWriterBeyond(s, m);
      }
    }
  }

  lemma NoWriterBeyond(s: State, m: nat)
    requires ServedValid(s) && WritersValid(s) && m >= |s.metas|
    ensures Writers(s.handlers, m) == {} && AckedBy(s.peers, s.acked, m) == {}
  {
    forall h: nat | h < |s.handlers|
      ensures !Holds(s.handlers[h], m)
    {
    }
  }

  /** The handlers' part of the invariant, for steps that leave the handlers alone. */
  lemma WorkerStepInv(s: State, s1: State)
    requires Inv(s) && SourcesExtended(s, s1) && TableValid(s1) && Lifecycle(s1)
    ensures Inv(s1)
  {
    ExtensionKeepsCounts(s, s1);
  }

  lemma SetDefaultLifecycle(s: State, requestId: string, transferId: string)
    requires TableValid(s) && Lifecycle(s) && ServedValid(s)
    requires s.draining.Some? && Tid(s, s.draining.value) == transferId ==>
               exists d :: d in s.peers && !Served(s, s.draining.value, d)
    ensures TableValid(SetDefault(s, requestId, transferId)) && Lifecycle(SetDefault(s, requestId, transferId))
    ensures SourcesExtended(s, SetDefault(s, requestId, transferId))
  {
    if transferId !in s.table {
      var s1 := SetDefault(s, requestId, transferId);
      forall m: nat | m < |s1.metas|
        ensures SourceValid(s1, m)
      {
        if m < |s.metas| { assert SourceValid(s, m); }
      }
      if s.draining.Some? {
        assert forall d :: Served(s1, s.draining.value, d) ==> Served(s, s.draining.value, d);
      }
    }
  }

  /** Changes to fields of one source that no counter depends on. */
  lemma RewriteInv(s: State, m: nat, meta: SendMeta)
    requires Inv(s) && m < |s.metas|
    requires meta.transferId == s.metas[m].transferId && meta.needSend == s.metas[m].needSend
    requires meta.sent == s.metas[m].sent && meta.sending == s.metas[m].sending
    requires s.metas[m].deadline.Some? ==> meta.deadline.Some?
    requires Live(s, m) && meta.ready ==> meta.deadline.Some?
    ensures Inv(s.(metas := s.metas[m := meta]))
  {
    var s1 := s.(metas := s.metas[m := meta]);
    forall k: nat | k < |s1.metas|
      ensures SourceValid(s1, k)
    {
      assert SourceValid(s, k);
    }
    if s.draining.Some? {
      assert forall d :: Served(s1, s.draining.value, d) ==> Served(s, s.draining.value, d);
    }
    WorkerStepInv(s, s1);
  }

  lemma PrepareInv(s: State, requestId: string, transferId: string)
    requires Inv(s) && s.draining.None?
    ensures Inv(Prepare(s, requestId, transferId))
  {
    SetDefaultLifecycle(s, requestId, transferId);
    var s1 := SetDefault(s, requestId, transferId);
    WorkerStepInv(s, s1);
    var m := s1.table[transferId];
    assert SourceValid(s1, m);
    RewriteInv(s1, m, s1.metas[m].(requestId := requestId));
  }

  lemma PublishInv(s: State, requestId: string, transferId: string, blocks: seq<seq<int>>, deadline: int)
    requires Inv(s) && s.draining.None?
    ensures Inv(Publish(s, requestId, transferId, blocks, deadline))
  {
    PrepareInv(s, requestId, transferId);
    var s1 := Prepare(s, requestId, transferId);
    var m := s1.table[transferId];
    RewriteInv(s1, m, s1.metas[m].(blocks := blocks, deadline := Some(deadline), ready := true));
  }

  lemma CancelBeginInv(s: State, requestId: string, transferId: string)
    requires Inv(s) && s.draining.None?
    ensures Inv(CancelBegin(s, requestId, transferId))
  {
    var s1 := CancelBegin(s, requestId, transferId);
    forall k: nat | k < |s1.metas|
      ensures SourceValid(s1, k)
    {
      assert SourceValid(s, k);
    }
    WorkerStepInv(s, s1);
  }

  lemma CancelEndInv(s: State, requestId: string)
    requires Inv(s) && Enabled(s, DoCancelEnd(requestId))
    ensures Inv(CancelEnd(s, requestId))
  {
    var s1 := CancelEnd(s, requestId);
    forall k: nat | k < |s1.metas|
      ensures SourceValid(s1, k)
    {
      assert SourceValid(s, k);
    }
    WorkerStepInv(s, s1);
  }

  lemma PollInv(s: State, now: int)
    requires Inv(s) && s.draining.None?
    ensures Inv(Poll(s, now))
  {
    var s1 := Poll(s, now);
    var gone := ExpiredIds(s, now);
    forall k: nat | k < |s1.metas|
      ensures SourceValid(s1, k)
    {
      assert SourceValid(s, k);
      if Live(s, k) && Tid(s, k) in gone {
        assert k in set t | t in gone :: s.table[t];
      }
    }
    WorkerStepInv(s, s1);
  }

  // ---------------------------------------------------------------- a new handler

  /** Everything `OpenTable` leaves alone, and what it records. */
  lemma {:induction false} OpenTableInv(s: State, rank: int, pulls: seq<Pull>)
    requires Inv(s) && rank in s.peers && DistinctPulls(pulls)
    requires forall p :: p in pulls ==> Turn(p.transferId, rank) !in s.used
    ensures var s1 := OpenTable(s, rank, pulls).0;
            && Inv(s1) && s1.handlers == s.handlers && s1.served == s.served && s1.peers == s.peers
            && s1.released == s.released && s1.finished == s.finished
            && forall k :: k in s1.used && (k !in s.used || s1.used[k] != s.used[k]) ==>
              exists p :: p in pulls && k == Turn(p.transferId, rank)
  {
    if pulls != [] {
      var n := |pulls| - 1;
      var p := pulls[n];
      OpenTableInv(s, rank, pulls[..n]);
      var s1 := OpenTable(s, rank, pulls[..n]).0;
      assert p in pulls && Turn(p.transferId, rank) !in s1.used;
      assert !exists m: nat :: Served(s1, m, rank) && Tid(s1, m) == p.transferId;
      SetDefaultLifecycle(s1, "", p.transferId);
      var s2 := SetDefault(s1, "", p.transferId);
      WorkerStepInv(s1, s2);
      UseInv(s2, Turn(p.transferId, rank), Origin(|s.handlers|, p.request));
    }
  }

  /** Recording a new pull disturbs no waiter. */
  lemma UseInv(s: State, k: Turn, v: Origin)
    requires Inv(s) && k !in s.used
    ensures Inv(s.(used := s.used[k := v]))
  {
    var s1 := s.(used := s.used[k := v]);
    forall h: nat, r | h < |s1.handlers| && r in s1.handlers[h].waiting
      ensures WaiterValid(s1, h, r)
    {
      assert WaiterValid(s, h, r);
    }
    forall h: nat, m: nat | h < |s1.handlers| && Holds(s1.handlers[h], m)
      ensures WriterValid(s1, h, m)
    {
      assert WriterValid(s, h, m);
    }
    forall m: nat | m < |s1.metas|
      ensures CountValid(s1, m) && SourceValid(s1, m)
    {
      assert CountValid(s, m) && SourceValid(s, m);
    }
    assert s.draining.Some? ==> forall d :: Served(s1, s.draining.value, d) ==> Served(s, s.draining.value, d);
  }

  /** The new handler waits for the table entry of every transfer it pulls, and is recorded as its puller. */
  lemma {:induction false} OpenTableWaiting(s: State, rank: int, pulls: seq<Pull>)
    requires TableValid(s) && DistinctPulls(pulls)
    ensures var (s1, waiting) := OpenTable(s, rank, pulls);
            && TableValid(s1)
            && (forall r :: r in waiting ==> exists p :: p in pulls && p.request == r)
            && forall p :: p in pulls ==>
              && p.transferId in s1.table && p.request in waiting && waiting[p.request] == s1.table[p.transferId]
              && Turn(p.transferId, rank) in s1.used
              && s1.used[Turn(p.transferId, rank)] == Origin(|s.handlers|, p.request)
  {
    if pulls != [] {
      var n := |pulls| - 1;
      OpenTableWaiting(s, rank, pulls[..n]);
      assert forall p :: p in pulls <==> p in pulls[..n] || p == pulls[n];
    }
  }

  /** A new handler that waits for pulls recorded as its own. */
  lemma AddHandlerInv(s: State, hd: Handler)
    requires Inv(s) && hd.phase.Waiting? && hd.rank in s.peers
    requires forall r :: r in hd.waiting ==>
               && hd.waiting[r] < |s.metas| && Turn(Tid(s, hd.waiting[r]), hd.rank) in s.used
               && s.used[Turn(Tid(s, hd.waiting[r]), hd.rank)] == Origin(|s.handlers|, r)
               && Turn(Tid(s, hd.waiting[r]), hd.rank) !in s.served
    ensures Inv(s.(handlers := s.handlers + [hd]))
  {
    var s1 := s.(handlers := s.handlers + [hd]);
    var n := |s.handlers|;
    forall h: nat, r | h < |s1.handlers| && r in s1.handlers[h].waiting
      ensures WaiterValid(s1, h, r)
    {
      if h < n { assert WaiterValid(s, h, r); }
    }
    forall h: nat, m: nat | h < |s1.handlers| && Holds(s1.handlers[h], m)
      ensures WriterValid(s1, h, m)
    {
      assert WriterValid(s, h, m);
    }
    forall m: nat | m < |s1.metas|
      ensures CountValid(s1, m) && SourceValid(s1, m)
    {
      assert CountValid(s, m) && SourceValid(s, m);
      assert Writers(s1.handlers, m) == Writers(s.handlers, m);
    }
    assert s.draining.Some? ==> forall d :: Served(s1, s.draining.value, d) ==> Served(s, s.draining.value, d);
  }

  lemma OpenInv(s: State, rank: int, pulls: seq<Pull>)
    requires Inv(s) && CanOpen(s, rank, pulls)
    ensures Inv(Open(s, rank, pulls))
  {
    OpenTableInv(s, rank, pulls);
    OpenTableWaiting(s, rank, pulls);
    var (s1, waiting) := OpenTable(s, rank, pulls);
    forall r | r in waiting
      ensures waiting[r] < |s1.metas| && Turn(Tid(s1, waiting[r]), rank) in s1.used
      ensures s1.used[Turn(Tid(s1, waiting[r]), rank)] == Origin(|s1.handlers|, r)
      ensures Turn(Tid(s1, waiting[r]), rank) !in s1.served
    {
      var p :| p in pulls && p.request == r;
      assert Turn(p.transferId, rank) !in s.used;
    }
    AddHandlerInv(s1, Handler(rank, set p | p in pulls :: p.request, waiting, Waiting, []));
  }

  // ---------------------------------------------------------------- waiters wake up

  lemma {:induction false} LiveEntriesMember(s: State, done: seq<Entry>, e: Entry)
    ensures e in LiveEntries(s, done) <==> e in done && Live(s, e.meta)
  {
    if done != [] {
      var n := |done| - 1;
      LiveEntriesMember(s, done[..n], e);
      assert e in done <==> e in done[..n] || e == done[n];
    }
  }

  lemma {:induction false} LiveEntriesApart(s: State, done: seq<Entry>)
    requires DistinctMetas(done)
    ensures DistinctMetas(LiveEntries(s, done))
  {
    if done != [] {
      var n := |done| - 1;
      LiveEntriesApart(s, done[..n]);
      forall e | e in LiveEntries(s, done[..n])
        ensures e.meta != done[n].meta
      {
        LiveEntriesMember(s, done[..n], e);
      }
    }
  }

  /** A source that handler `h` starts to read: live, published, and pulled but not yet served. */
  ghost predicate WokenSource(s: State, h: nat, m: nat)
    requires h < |s.handlers|
  {
    && m < |s.metas| && Live(s, m) && s.metas[m].deadline.Some? && s.handlers[h].rank in s.peers
    && Turn(Tid(s, m), s.handlers[h].rank) in s.used && Turn(Tid(s, m), s.handlers[h].rank) !in s.served
    && s.used[Turn(Tid(s, m), s.handlers[h].rank)].handler == h
    && var r := s.used[Turn(Tid(s, m), s.handlers[h].rank)].request;
    r in s.handlers[h].waiting && s.handlers[h].waiting[r] == m
  }

  /** Only handler `h` changes. */
  ghost predicate SameButOne(a: seq<Handler>, b: seq<Handler>, h: nat) {
    && |a| == |b| && h < |a| && a[h].rank == b[h].rank
    && forall g :: 0 <= g < |a| && g != h ==> a[g] == b[g]
  }

  /** Handler `h` starts a write that reads the sources `ms`; everything `Wake` changes, field by field. */
  ghost predicate WriteStarts(s: State, s1: State, h: nat, ms: set<nat>) {
    && SameButOne(s.handlers, s1.handlers, h) && s.handlers[h].phase.Waiting?
    && s1.handlers[h].phase.Writing? && MetasOf(s1.handlers[h].phase.ready) == ms
    && DistinctMetas(s1.handlers[h].phase.ready)
    && (forall r :: r in s1.handlers[h].waiting ==>
      && r in s.handlers[h].waiting && s1.handlers[h].waiting[r] == s.handlers[h].waiting[r]
      && s.handlers[h].waiting[r] !in ms)
    && (forall m :: m in ms ==> WokenSource(s, h, m))
    && |s1.metas| == |s.metas|
    && (forall m :: 0 <= m < |s.metas| ==>
      s1.metas[m] == if m in ms then StartMeta(s.metas[m], |s.peers|) else s.metas[m])
    && (forall k :: k in s.served ==> k in s1.served && s1.served[k] == s.served[k])
    && (forall k :: k in s1.served && k !in s.served ==>
      && k.rank == s.handlers[h].rank && k.transferId in s.table && s.table[k.transferId] in ms
      && s1.served[k] == Reading(s.table[k.transferId], h))
    && (forall m :: m in ms ==> Turn(Tid(s, m), s.handlers[h].rank) in s1.served)
    && s1.table == s.table && s1.used == s.used && s1.acked == s.acked && s1.peers == s.peers
    && s1.draining == s.draining && s1.released == s.released
  }

  lemma Woken(s: State, h: nat, done: seq<Entry>, failed: set<string>, m: nat)
    requires Inv(s) && CanWake(s, h, done, failed) && m in MetasOf(LiveEntries(s, done))
    ensures WokenSource(s, h, m)
  {
    var e :| e in LiveEntries(s, done) && e.meta == m;
    LiveEntriesMember(s, done, e);
    assert WaiterValid(s, h, e.request) && SourceValid(s, m);
  }

  lemma StillWaiting(s: State, h: nat, done: seq<Entry>, failed: set<string>, r: string)
    requires WaitersValid(s) && CanWake(s, h, done, failed)
    requires r in s.handlers[h].waiting && r !in IdsOf(done)
    ensures s.handlers[h].waiting[r] !in MetasOf(LiveEntries(s, done))
  {
    var m := s.handlers[h].waiting[r];
    forall e | e in LiveEntries(s, done)
      ensures e.meta != m
    {
      LiveEntriesMember(s, done, e);
      assert WaiterValid(s, h, e.request) && WaiterValid(s, h, r);
      assert e.request in IdsOf(done);
    }
  }

  lemma WakeStarts(s: State, h: nat, done: seq<Entry>, failed: set<string>)
    requires Inv(s) && CanWake(s, h, done, failed)
    ensures WriteStarts(s, Wake(s, h, done, failed), h, MetasOf(LiveEntries(s, done)))
  {
    var ms := MetasOf(LiveEntries(s, done));
    LiveEntriesApart(s, done);
    forall m | m in ms
      ensures WokenSource(s, h, m)
    {
      Woken(s, h, done, failed, m);
    }
    forall r | r in s.handlers[h].waiting && r !in IdsOf(done)
      ensures s.handlers[h].waiting[r] !in ms
    {
      StillWaiting(s, h, done, failed, r);
    }
    WakeFields(s, h, done, failed, ms);
  }

  /** `WriteStarts` from what is known about the sources. */
  lemma WakeFields(s: State, h: nat, done: seq<Entry>, failed: set<string>, ms: set<nat>)
    requires TableValid(s) && h < |s.handlers| && ms == MetasOf(LiveEntries(s, done)) && s.handlers[h].phase.Waiting?
    requires DistinctMetas(LiveEntries(s, done))
    requires forall m :: m in ms ==> WokenSource(s, h, m)
    requires forall r :: r in s.handlers[h].waiting && r !in IdsOf(done) ==> s.handlers[h].waiting[r] !in ms
    ensures WriteStarts(s, Wake(s, h, done, failed), h, ms)
  {
    var s1 := Wake(s, h, done, failed);
    assert s1.handlers[h].waiting == s.handlers[h].waiting - IdsOf(done);
    assert s1.handlers[h].phase.ready == LiveEntries(s, done);
    assert s1.served == AddReadings(s.served, s.table, ms, s.handlers[h].rank, h);
  }

  lemma StartWaiters(s: State, s1: State, h: nat, ms: set<nat>)
    requires WaitersValid(s) && TableValid(s) && WriteStarts(s, s1, h, ms)
    ensures WaitersValid(s1)
  {
    forall g: nat, r | g < |s1.handlers| && r in s1.handlers[g].waiting
      ensures WaiterValid(s1, g, r)
    {
      assert r in s.handlers[g].waiting && WaiterValid(s, g, r);
      var k := Turn(Tid(s, s.handlers[g].waiting[r]), s.handlers[g].rank);
      if k in s1.served {
        StartOwner(s, s1, h, ms, g, r, k);
      }
    }
  }

  /** The pull that a write takes up is the one of its own handler. */
  lemma StartOwner(s: State, s1: State, h: nat, ms: set<nat>, g: nat, r: string, k: Turn)
    requires WaitersValid(s) && TableValid(s) && WriteStarts(s, s1, h, ms)
    requires g < |s1.handlers| && r in s1.handlers[g].waiting && r in s.handlers[g].waiting && WaiterValid(s, g, r)
    requires k == Turn(Tid(s, s.handlers[g].waiting[r]), s.handlers[g].rank)
    ensures k !in s1.served
  {
  }

  lemma StartReading(s: State, s1: State, h: nat, ms: set<nat>, k: Turn)
    requires ServedValid(s) && TableValid(s) && WriteStarts(s, s1, h, ms) && k in s1.served
    ensures ReadingValid(s1, k)
  {
    if k in s.served {
      assert ReadingValid(s, k);
    } else {
      assert WokenSource(s, h, s.table[k.transferId]);
    }
  }

  lemma StartReadings(s: State, s1: State, h: nat, ms: set<nat>)
    requires ServedValid(s) && TableValid(s) && WriteStarts(s, s1, h, ms)
    ensures ServedValid(s1)
  {
    forall k | k in s1.served
      ensures ReadingValid(s1, k)
    {
      StartReading(s, s1, h, ms, k);
    }
    forall a | a in s1.acked
      ensures Served(s1, a.meta, a.rank)
    {
      assert Served(s, a.meta, a.rank);
    }
  }

  lemma StartWriter(s: State, s1: State, h: nat, ms: set<nat>, g: nat, m: nat)
    requires ServedValid(s) && WritersValid(s) && Counted(s) && WriteStarts(s, s1, h, ms)
    requires g < |s1.handlers| && Holds(s1.handlers[g], m)
    ensures WriterValid(s1, g, m)
  {
    if g == h {
      assert WokenSource(s, h, m) && CountValid(s, m);
    } else {
      assert Holds(s.handlers[g], m) && WriterValid(s, g, m);
    }
  }

  lemma StartWriters(s: State, s1: State, h: nat, ms: set<nat>)
    requires ServedValid(s) && WritersValid(s) && EntriesApart(s) && Counted(s) && WriteStarts(s, s1, h, ms)
    ensures WritersValid(s1) && EntriesApart(s1)
  {
    forall g: nat, m: nat | g < |s1.handlers| && Holds(s1.handlers[g], m)
      ensures WriterValid(s1, g, m)
    {
      StartWriter(s, s1, h, ms, g, m);
    }
  }

  lemma WritersReplaced(a: seq<Handler>, b: seq<Handler>, h: nat, m: nat)
    requires SameButOne(a, b, h)
    ensures Writers(b, m) == Writers(a, m) - {h} + (if Holds(b[h], m) then {h} else {})
    ensures h in Writers(a, m) <==> Holds(a[h], m)
  {
  }

  lemma StartCount(s: State, s1: State, h: nat, ms: set<nat>, m: nat)
    requires m < |s.metas| && CountValid(s, m) && WriteStarts(s, s1, h, ms)
    ensures CountValid(s1, m)
  {
    WritersReplaced(s.handlers, s1.handlers, h, m);
    assert s1.metas[m] == if m in ms then StartMeta(s.metas[m], |s.peers|) else s.metas[m];
  }

  lemma StartLifecycle(s: State, s1: State, h: nat, ms: set<nat>)
    requires Lifecycle(s) && TableValid(s) && WriteStarts(s, s1, h, ms)
    ensures Lifecycle(s1)
  {
    forall m: nat | m < |s1.metas|
      ensures SourceValid(s1, m)
    {
      assert SourceValid(s, m);
      if m in ms { assert WokenSource(s, h, m); }
    }
    if s.draining.Some? {
      var m := s.draining.value;
      assert forall d :: Served(s1, m, d) ==> Served(s, m, d);
    }
  }

  lemma WakeInv(s: State, h: nat, done: seq<Entry>, failed: set<string>)
    requires Inv(s) && CanWake(s, h, done, failed)
    ensures Inv(Wake(s, h, done, failed))
  {
    var ms := MetasOf(LiveEntries(s, done));
    WakeStarts(s, h, done, failed);
    StartInv(s, Wake(s, h, done, failed), h, ms);
  }

  lemma StartInv(s: State, s1: State, h: nat, ms: set<nat>)
    requires Inv(s) && WriteStarts(s, s1, h, ms)
    ensures Inv(s1)
  {
    StartWaiters(s, s1, h, ms);
    StartReadings(s, s1, h, ms);
    StartWriters(s, s1, h, ms);
    forall m: nat | m < |s1.metas|
      ensures CountValid(s1, m)
    {
      StartCount(s, s1, h, ms, m);
    }
    StartLifecycle(s, s1, h, ms);
  }

  // ---------------------------------------------------------------- end of a write

  /**
   Handler `h` leaves its write, having acknowledged the sources `oks`; `gone` are those whose table entry is
   popped. Everything `Finish` and `WriteRaises` change, field by field.
   */
  ghost predicate WriteEnds(s: State, s1: State, h: nat, oks: set<nat>, gone: set<nat>) {
    && SameButOne(s.handlers, s1.handlers, h) && s.handlers[h].phase.Writing? && !s1.handlers[h].phase.Writing?
    && oks <= MetasOf(s.handlers[h].phase.ready) && gone <= oks
    && (forall r :: r in s1.handlers[h].waiting ==>
      r in s.handlers[h].waiting && s1.handlers[h].waiting[r] == s.handlers[h].waiting[r])
    && |s1.metas| == |s.metas|
    && (forall m :: 0 <= m < |s.metas| ==>
      s1.metas[m] == EndMeta(s.metas[m], m in oks, m in MetasOf(s.handlers[h].phase.ready)))
    && (forall m :: m in gone ==>
      m < |s.metas| && s.metas[m].sent + 1 == s.metas[m].needSend && s.metas[m].transferId in s.table)
    && (forall t :: t in s1.table ==> t in s.table && s1.table[t] == s.table[t])
    && (forall t :: t in s.table ==>
      (t in s1.table <==> forall m :: m in gone ==> s.metas[m].transferId != t))
    && (forall a :: a in s1.acked <==> a in s.acked || (a.meta in oks && a.rank == s.handlers[h].rank))
    && s1.used == s.used && s1.served == s.served && s1.peers == s.peers && s1.draining == s.draining
    && s1.released == s.released + gone
  }

  lemma EndReadings(s: State, s1: State, h: nat, oks: set<nat>, gone: set<nat>)
    requires ServedValid(s) && WritersValid(s) && WriteEnds(s, s1, h, oks, gone)
    ensures ServedValid(s1)
  {
    forall k | k in s1.served
      ensures ReadingValid(s1, k)
    {
      assert ReadingValid(s, k);
    }
    forall a | a in s1.acked
      ensures Served(s1, a.meta, a.rank)
    {
      if a in s.acked {
        assert Served(s, a.meta, a.rank);
      } else {
        assert Holds(s.handlers[h], a.meta) && WriterValid(s, h, a.meta);
      }
    }
  }

  lemma EndWriters(s: State, s1: State, h: nat, oks: set<nat>, gone: set<nat>)
    requires WritersValid(s) && EntriesApart(s) && WriteEnds(s, s1, h, oks, gone)
    ensures WritersValid(s1) && EntriesApart(s1)
  {
    forall g: nat, m: nat | g < |s1.handlers| && Holds(s1.handlers[g], m)
      ensures WriterValid(s1, g, m)
    {
      assert WriterValid(s, g, m);
      if m in oks { assert Holds(s.handlers[h], m) && WriterValid(s, h, m); }
    }
  }

  lemma EndAcks(s: State, s1: State, h: nat, oks: set<nat>, gone: set<nat>, m: nat)
    requires ServedValid(s) && WritersValid(s) && WriteEnds(s, s1, h, oks, gone)
    ensures m in oks ==> s.handlers[h].rank !in AckedBy(s.peers, s.acked, m)
    ensures AckedBy(s1.peers, s1.acked, m)
            == AckedBy(s.peers, s.acked, m) + if m in oks then {s.handlers[h].rank} else {}
  {
    if m in oks {
      assert Holds(s.handlers[h], m) && WriterValid(s, h, m);
      assert ReadingValid(s, Turn(Tid(s, m), s.handlers[h].rank));
    }
  }

  lemma EndCount(s: State, s1: State, h: nat, oks: set<nat>, gone: set<nat>, m: nat)
    requires ServedValid(s) && WritersValid(s) && Counted(s) && WriteEnds(s, s1, h, oks, gone) && m < |s.metas|
    ensures CountValid(s1, m)
  {
    assert CountValid(s, m);
    EndAcks(s, s1, h, oks, gone, m);
    WritersReplaced(s.handlers, s1.handlers, h, m);
  }

  lemma FullSubset<T>(a: set<T>, b: set<T>)
    requires a <= b && |a| == |b|
    ensures a == b
  {
    assert |b - a| == 0;
  }

  /** A source is completed only when every paired rank acknowledged it: then nobody reads it any more. */
  lemma CompletedIsQuiet(s: State, s1: State, h: nat, oks: set<nat>, gone: set<nat>, m: nat)
    requires Inv(s) && WriteEnds(s, s1, h, oks, gone) && m in gone
    ensures m < |s.metas| && Live(s, m) && s1.metas[m].sending == 0 && AckedBy(s1.peers, s1.acked, m) == s.peers
  {
    assert Holds(s.handlers[h], m) && WriterValid(s, h, m);
    EndReadings(s, s1, h, oks, gone);
    EndWriters(s, s1, h, oks, gone);
    EndCount(s, s1, h, oks, gone, m);
    FullSubset(AckedBy(s1.peers, s1.acked, m), s.peers);
    WritersReplaced(s.handlers, s1.handlers, h, m);
    assert CountValid(s, m) && SourceValid(s, m);
    assert forall d :: d in s.peers ==> Served(s1, m, d);
  }

  lemma EndSource(s: State, s1: State, h: nat, oks: set<nat>, gone: set<nat>, m: nat)
    requires Lifecycle(s) && Counted(s) && WriteEnds(s, s1, h, oks, gone) && m < |s.metas|
    requires Live(s1, m) <==> Live(s, m) && m !in gone
    requires m in gone ==> Live(s, m) && s1.metas[m].sending == 0
    ensures SourceValid(s1, m)
  {
    assert SourceValid(s, m);
  }

  lemma EndInv(s: State, s1: State, h: nat, oks: set<nat>, gone: set<nat>)
    requires Inv(s) && WriteEnds(s, s1, h, oks, gone)
    ensures Inv(s1)
  {
    EndReadings(s, s1, h, oks, gone);
    EndWriters(s, s1, h, oks, gone);
    forall m | m in gone
      ensures m < |s.metas| && Live(s, m) && s1.metas[m].sending == 0
    {
      CompletedIsQuiet(s, s1, h, oks, gone, m);
    }
    forall m: nat | m < |s1.metas|
      ensures CountValid(s1, m) && SourceValid(s1, m)
    {
      EndCount(s, s1, h, oks, gone, m);
      EndSource(s, s1, h, oks, gone, m);
    }
    EndDrain(s, s1, h, oks, gone);
  }

  lemma EndDrain(s: State, s1: State, h: nat, oks: set<nat>, gone: set<nat>)
    requires DrainValid(s) && TableValid(s) && WriteEnds(s, s1, h, oks, gone)
    ensures DrainValid(s1) && TableValid(s1)
  {
    if s.draining.Some? {
      assert forall d :: Served(s1, s.draining.value, d) ==> Served(s, s.draining.value, d);
    }
  }

  lemma {:induction false} SelectMember(entries: seq<Entry>, ids: set<string>, wanted: bool, e: Entry)
    ensures e in Select(entries, ids, wanted) <==> e in entries && (e.request in ids) == wanted
  {
    if entries != [] {
      var n := |entries| - 1;
      SelectMember(entries[..n], ids, wanted, e);
      assert e in entries <==> e in entries[..n] || e == entries[n];
    }
  }

  /** The sources that `Finish` acknowledges. */
  function Oks(s: State, h: nat, success: bool): set<nat>
    requires h < |s.handlers| && s.handlers[h].phase.Writing?
  {
    MetasOf(if success then Select(s.handlers[h].phase.ready, s.handlers[h].phase.failed, false) else [])
  }

  /** Sources whose table entry the acknowledgements `oks` pop. */
  function Gone(s: State, oks: set<nat>): set<nat> {
    Completed(s.table, s.metas, oks)
  }

  lemma FinishEnds(s: State, h: nat, success: bool)
    requires h < |s.handlers| && s.handlers[h].phase.Writing?
    ensures var oks := Oks(s, h, success); WriteEnds(s, Finish(s, h, success), h, oks, Gone(s, oks))
  {
    var ready, failed := s.handlers[h].phase.ready, s.handlers[h].phase.failed;
    var ok := if success then Select(ready, failed, false) else [];
    forall e | e in ok
      ensures e in ready
    {
      SelectMember(ready, failed, false, e);
    }
    assert MetasOf(ok) <= MetasOf(ready);
  }

  lemma FinishInv(s: State, h: nat, success: bool)
    requires Inv(s) && h < |s.handlers| && s.handlers[h].phase.Writing?
    ensures Inv(Finish(s, h, success))
  {
    FinishEnds(s, h, success);
    var oks := Oks(s, h, success);
    EndInv(s, Finish(s, h, success), h, oks, Gone(s, oks));
  }

  lemma RaiseInv(s: State, h: nat)
    requires Inv(s) && h < |s.handlers| && s.handlers[h].phase.Writing?
    ensures Inv(WriteRaises(s, h))
  {
    EndInv(s, WriteRaises(s, h), h, {}, {});
  }

  /** A waiting handler gives up. */
  lemma TimeOutInv(s: State, h: nat, pending: seq<string>)
    requires Inv(s) && Enabled(s, DoTimeOut(h, pending))
    ensures Inv(TimeOut(s, h, pending))
  {
    CloseInv(s, TimeOut(s, h, pending), h);
  }

  lemma CloseInv(s: State, s1: State, h: nat)
    requires Inv(s) && SameButOne(s.handlers, s1.handlers, h) && s1 == s.(handlers := s1.handlers)
    requires s1.handlers[h].waiting == map[] && !s.handlers[h].phase.Writing? && !s1.handlers[h].phase.Writing?
    ensures Inv(s1)
  {
    forall g: nat, r | g < |s1.handlers| && r in s1.handlers[g].waiting
      ensures WaiterValid(s1, g, r)
    {
      assert WaiterValid(s, g, r);
    }
    forall g: nat, m: nat | g < |s1.handlers| && Holds(s1.handlers[g], m)
      ensures WriterValid(s1, g, m)
    {
      assert WriterValid(s, g, m);
    }
    CloseSources(s, s1, h);
    assert s.draining.Some? ==> forall d :: Served(s1, s.draining.value, d) ==> Served(s, s.draining.value, d);
  }

  lemma CloseSources(s: State, s1: State, h: nat)
    requires Counted(s) && Lifecycle(s) && SameButOne(s.handlers, s1.handlers, h) && s1 == s.(handlers := s1.handlers)
    requires !s.handlers[h].phase.Writing? && !s1.handlers[h].phase.Writing?
    ensures forall m: nat :: m < |s1.metas| ==> CountValid(s1, m) && SourceValid(s1, m)
  {
    forall m: nat | m < |s1.metas|
      ensures CountValid(s1, m) && SourceValid(s1, m)
    {
      assert CountValid(s, m) && SourceValid(s, m);
      WritersReplaced(s.handlers, s1.handlers, h, m);
    }
  }

  // ---------------------------------------------------------------- whole runs

  lemma StepInv(s: State, step: Step)
    requires Inv(s) && Enabled(s, step)
    ensures Inv(Apply(s, step))
  {
    match step
    case DoPrepare(requestId, transferId) => PrepareInv(s, requestId, transferId);
    case DoPublish(requestId, transferId, blocks, deadline) => PublishInv(s, requestId, transferId, blocks, deadline);
    case DoCancelBegin(requestId, transferId) => CancelBeginInv(s, requestId, transferId);
    case DoCancelEnd(requestId) => CancelEndInv(s, requestId);
    case DoPoll(now) => PollInv(s, now);
    case DoOpen(rank, pulls) => OpenInv(s, rank, pulls);
    case DoWake(h, done, failed) => WakeInv(s, h, done, failed);
    case DoFinish(h, success) => FinishInv(s, h, success);
    case DoRaise(h) => RaiseInv(s, h);
    case DoTimeOut(h, pending) => TimeOutInv(s, h, pending);
  }

  lemma {:induction false} RunInv(run: seq<State>, steps: seq<Step>, i: nat)
    requires IsRun(run, steps) && i < |run|
    ensures Inv(run[i])
  {
    if i == 0 {
      InitInv(run[0].peers);
    } else {
      RunInv(run, steps, i - 1);
      StepInv(run[i - 1], steps[i - 1]);
    }
  }

  /** No step takes a release back, and only a write that ends or nothing at all reports requests as finished. */
  lemma StepReleases(s: State, step: Step)
    requires Inv(s) && Enabled(s, step)
    ensures s.released <= Apply(s, step).released
    ensures !step.DoFinish? ==> Apply(s, step).finished <= s.finished
  {
    match step
    case DoOpen(rank, pulls) => OpenTableInv(s, rank, pulls);
    case _ =>
  }

  lemma {:induction false} ReleasedForever(run: seq<State>, steps: seq<Step>, i: nat, j: nat)
    requires IsRun(run, steps) && i <= j < |run|
    ensures run[i].released <= run[j].released
  {
    if i < j {
      ReleasedForever(run, steps, i, j - 1);
      RunInv(run, steps, j - 1);
      StepReleases(run[j - 1], steps[j - 1]);
    }
  }

  /**
   Main result. Once a source is reported as finished or expired, or its cancellation has returned, no write in
   flight reads it, in any later state of any run, and none can start.
   */
  lemma SourceFence(run: seq<State>, steps: seq<Step>, i: nat, j: nat, m: nat)
    requires IsRun(run, steps) && i <= j < |run| && m in run[i].released
    ensures Fenced(run[j], m)
  {
    ReleasedForever(run, steps, i, j);
    RunInv(run, steps, j);
    ReleasedIsFenced(run[j], m);
  }

  /** A write that completes a request reports a live source that every paired rank acknowledged. */
  lemma FinishReportsLive(s: State, h: nat, success: bool, requestId: string) returns (m: nat)
    requires Inv(s) && h < |s.handlers| && s.handlers[h].phase.Writing?
    requires requestId in Finish(s, h, success).finished && requestId !in s.finished
    ensures Live(s, m) && s.metas[m].requestId == requestId && m in Finish(s, h, success).released
    ensures AckedBy(s.peers, Finish(s, h, success).acked, m) == s.peers
  {
    FinishEnds(s, h, success);
    m := FinishedSource(s, h, success, requestId);
    CompletedIsQuiet(s, Finish(s, h, success), h, Oks(s, h, success), Gone(s, Oks(s, h, success)), m);
  }

  lemma FinishedSource(s: State, h: nat, success: bool, requestId: string) returns (m: nat)
    requires h < |s.handlers| && s.handlers[h].phase.Writing?
    requires requestId in Finish(s, h, success).finished && requestId !in s.finished
    ensures m in Gone(s, Oks(s, h, success)) && m < |s.metas| && s.metas[m].requestId == requestId
  {
    var oks := Oks(s, h, success);
    m :| m in Gone(s, oks) && s.metas[m].requestId == requestId;
  }

  /**
   A cancelled source is never afterwards the reason for reporting a request as finished: whatever makes a request
   finished later is another source, and all paired ranks acknowledged it.
   */
  lemma CancelledNeverFinishes(run: seq<State>, steps: seq<Step>, i: nat, k: nat, m: nat, requestId: string)
    requires IsRun(run, steps) && i < k < |steps|
    requires steps[i].DoCancelEnd? && run[i].draining == Some(m)
    requires requestId in run[k + 1].finished && requestId !in run[k].finished
    ensures steps[i].requestId !in run[i + 1].finished
    ensures exists m': nat :: m' != m && Live(run[k], m') && run[k].metas[m'].requestId == requestId
                              && AckedBy(run[k].peers, run[k + 1].acked, m') == run[k].peers
  {
    assert run[i + 1] == Apply(run[i], steps[i]) && m in run[i + 1].released;
    SourceFence(run, steps, i + 1, k, m);
    RunInv(run, steps, k);
    StepReleases(run[k], steps[k]);
    assert steps[k].DoFinish? && run[k + 1] == Apply(run[k], steps[k]);
    var m' := FinishReportsLive(run[k], steps[k].h, steps[k].success, requestId);
  }
}
