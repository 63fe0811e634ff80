/**
 Safety of the release barrier over every run. Requests do not interfere: the invariant speaks of one at a time.
 */
module ReleaseSafety {
  import SQ = SaveQueue
  import opened ReleaseBarrier

  // ---------------------------------------------------------------- what metadata on the way will do

  /** After the metadata `ds`, the pool would hold a save of request `r`; `now` tells whether it holds one now. */
  predicate Owes(r: string, now: bool, ds: seq<Delta>) {
    if ds == [] then now
    else
      var d := ds[|ds| - 1];
      (Owes(r, now, ds[..|ds| - 1]) && r !in d.preempted) || r in Saved(d.saves)
  }

  lemma {:induction false} OwesFirst(r: string, now: bool, ds: seq<Delta>)
    requires ds != []
    ensures Owes(r, now, ds) == Owes(r, (now && r !in ds[0].preempted) || r in Saved(ds[0].saves), ds[1..])
  {
    var n := |ds| - 1;
    if n > 0 {
      OwesFirst(r, now, ds[..n]);
      assert ds[1..][..n - 1] == ds[..n][1..];
      assert ds[1..][n - 1] == ds[n];
    } else {
      assert ds[..0] == [];
    }
  }

  lemma {:induction false} OwesMonotone(r: string, now: bool, later: bool, ds: seq<Delta>)
    requires now ==> later
    ensures Owes(r, now, ds) ==> Owes(r, later, ds)
  {
    if ds != [] {
      OwesMonotone(r, now, later, ds[..|ds| - 1]);
    }
  }

  /** Without further saves, only what the pool holds now is owed. */
  lemma {:induction false} OwesQuiet(r: string, now: bool, ds: seq<Delta>)
    requires forall k :: 0 <= k < |ds| ==> r !in Saved(ds[k].saves)
    ensures Owes(r, now, ds) ==> now
  {
    if ds != [] {
      OwesQuiet(r, now, ds[..|ds| - 1]);
    }
  }

  lemma {:induction false} OwesKept(r: string, ds: seq<Delta>)
    requires forall k :: 0 <= k < |ds| ==> r !in ds[k].preempted
    ensures Owes(r, true, ds)
  {
    if ds != [] {
      OwesKept(r, ds[..|ds| - 1]);
    }
  }

  // ---------------------------------------------------------------- invariant of one request

  /** Metadata `k` carries the wait of `r` exactly when that is its place. */
  ghost predicate DeltaAt(s: System, r: string, k: int)
    requires 0 <= k < |s.deltas|
  {
    r in s.deltas[k].waits <==> r in s.place && s.place[r] == InDelta(k)
  }

  ghost predicate OutputAt(s: System, r: string, k: int)
    requires 0 <= k < |s.outputs|
  {
    r in s.outputs[k] <==> r in s.place && s.place[r] == InOutput(k)
  }

  /** The wait of `r` is in exactly one place, if any. */
  ghost predicate Located(s: System, r: string) {
    && s.cycled <= |s.deltas| && s.collected <= |s.outputs|
    && (r in s.sch.delayed <==> r in s.place)
    && (r in s.sch.waits <==> r in s.place && s.place[r].Pending?)
    && (r in s.worker.waits <==> r in s.place && s.place[r].Held?)
    && (r in s.place && s.place[r].InDelta? ==> s.cycled <= s.place[r].k < |s.deltas|)
    && (r in s.place && s.place[r].InOutput? ==> s.collected <= s.place[r].k < |s.outputs|)
    && (forall k :: s.cycled <= k < |s.deltas| ==> DeltaAt(s, r, k))
    && forall k :: s.collected <= k < |s.outputs| ==> OutputAt(s, r, k)
  }

  /** The wait comes with metadata `k` or later. */
  ghost predicate NotBefore(s: System, r: string, k: int) {
    r in s.place ==> s.place[r].Pending? || (s.place[r].InDelta? && s.place[r].k >= k)
  }

  ghost predicate QuietAt(s: System, r: string, k: int)
    requires 0 <= k < |s.deltas|
  {
    && (r in Saved(s.deltas[k].saves) || r in OfKind(s.deltas[k].states, Cancelled) ==> NotBefore(s, r, k))
    && (r in s.deltas[k].preempted ==> NotBefore(s, r, k + 1))
  }

  /** Once its wait is on the way, nothing is submitted, cancelled or preempted for a request. */
  ghost predicate Quiet(s: System, r: string) {
    && (r in OfKind(s.sch.states, Cancelled) ==> NotBefore(s, r, |s.deltas|))
    && forall k :: s.cycled <= k < |s.deltas| ==> QuietAt(s, r, k)
  }

  ghost predicate ReadyAt(s: System, r: string, k: int)
    requires 0 <= k < |s.deltas|
  {
    r in OfKind(s.deltas[k].states, Ready) <==> r in s.deltas[k].waits && s.deltas[k].waits[r].kvTransfer
  }

  /** A send is published together with the wait for it. */
  ghost predicate ReadyWithWait(s: System, r: string) {
    && (r in OfKind(s.sch.states, Ready) <==> r in s.sch.waits && s.sch.waits[r].kvTransfer)
    && forall k :: s.cycled <= k < |s.deltas| ==> ReadyAt(s, r, k)
  }

  /** The wait of `r`, wherever it is. */
  ghost predicate StoreSaveIs(s: System, r: string, b: bool)
    requires Located(s, r)
  {
    r in s.place ==>
      match s.place[r]
      case Pending => s.sch.waits[r].storeSave == b
      case InDelta(k) => assert DeltaAt(s, r, k); s.deltas[k].waits[r].storeSave == b
      case Held => s.worker.waits[r].wait.storeSave == b
      case InOutput(_) => true
  }

  /** The scheduler knows of every save that the pool has or will get, and the wait says so. */
  ghost predicate SavesKnown(s: System, r: string)
    requires Located(s, r)
  {
    && (Owes(r, r in s.saves, s.deltas[s.cycled..]) ==> r in s.sch.saving)
    && StoreSaveIs(s, r, r in s.sch.saving)
  }

  /** The worker's records agree with what the pool and the transfer have not reported. */
  ghost predicate RecordsExact(s: System, r: string) {
    && (r in s.worker.onSave <==> r in s.saves)
    && (r in s.sends ==> r in s.worker.waits)
    && (r in s.worker.waits ==>
      && !IsFinished(s.worker.waits[r])
      && (r in s.sends <==> s.worker.waits[r].wait.kvTransfer && !s.worker.waits[r].sendDone)
      && (r in s.saves <==> s.worker.waits[r].wait.storeSave && !s.worker.waits[r].saveDone))
    && (r in s.place && s.place[r].InOutput? ==> r !in s.saves && r !in s.sends)
  }

  ghost predicate RequestInv(s: System, r: string) {
    Located(s, r) && Quiet(s, r) && ReadyWithWait(s, r) && SavesKnown(s, r) && RecordsExact(s, r)
  }

  ghost predicate Inv(s: System) {
    forall r :: RequestInv(s, r)
  }

  // ---------------------------------------------------------------- building metadata

  lemma BuildLocated(s: System, saves: seq<SaveRequest>, preempted: set<string>, r: string)
    requires Located(s, r) && Enabled(s, DoBuild(saves, preempted))
    ensures Located(Build(s, saves, preempted), r)
  {
    var s1 := Build(s, saves, preempted);
    forall k | s1.cycled <= k < |s1.deltas|
      ensures DeltaAt(s1, r, k)
    {
      assert k < |s.deltas| ==> DeltaAt(s, r, k);
    }
    forall k | s1.collected <= k < |s1.outputs|
      ensures OutputAt(s1, r, k)
    {
      assert OutputAt(s, r, k);
    }
  }

  lemma BuildQuiet(s: System, saves: seq<SaveRequest>, preempted: set<string>, r: string)
    requires Located(s, r) && Quiet(s, r) && Enabled(s, DoBuild(saves, preempted))
    ensures Quiet(Build(s, saves, preempted), r)
  {
    var s1 := Build(s, saves, preempted);
    forall k | s1.cycled <= k < |s1.deltas|
      ensures QuietAt(s1, r, k)
    {
      assert k < |s.deltas| ==> QuietAt(s, r, k);
    }
  }

  lemma BuildReady(s: System, saves: seq<SaveRequest>, preempted: set<string>, r: string)
    requires ReadyWithWait(s, r) && Enabled(s, DoBuild(saves, preempted))
    ensures ReadyWithWait(Build(s, saves, preempted), r)
  {
    var s1 := Build(s, saves, preempted);
    forall k | s1.cycled <= k < |s1.deltas|
      ensures ReadyAt(s1, r, k)
    {
      assert k < |s.deltas| ==> ReadyAt(s, r, k);
    }
  }

  lemma BuildSaves(s: System, saves: seq<SaveRequest>, preempted: set<string>, r: string)
    requires RequestInv(s, r) && Enabled(s, DoBuild(saves, preempted))
    requires Located(Build(s, saves, preempted), r)
    ensures SavesKnown(Build(s, saves, preempted), r)
  {
    var s1 := Build(s, saves, preempted);
    var ds, ds1 := s.deltas[s.cycled..], s1.deltas[s.cycled..];
    assert ds1 == ds + [s1.deltas[|s.deltas|]] && ds1[..|ds|] == ds;
  }

  lemma BuildInv(s: System, saves: seq<SaveRequest>, preempted: set<string>, r: string)
    requires RequestInv(s, r) && Enabled(s, DoBuild(saves, preempted))
    ensures RequestInv(Build(s, saves, preempted), r)
  {
    BuildLocated(s, saves, preempted, r);
    BuildQuiet(s, saves, preempted, r);
    BuildReady(s, saves, preempted, r);
    BuildSaves(s, saves, preempted, r);
  }

  // ---------------------------------------------------------------- finishing a request

  /** Nothing that the request's wait depends on changes; in particular it keeps its place on the way. */
  ghost predicate SameForRequest(s: System, s1: System, r: string) {
    && s1.deltas == s.deltas && s1.cycled == s.cycled && s1.outputs == s.outputs && s1.collected == s.collected
    && s1.worker == s.worker && s1.saves.Keys == s.saves.Keys && s1.sends == s.sends
    && (r in s1.sch.delayed <==> r in s1.place)
    && (r in s1.sch.waits <==> r in s1.place && s1.place[r].Pending?)
    && (r in s.place ==> r in s1.place && s1.place[r] == s.place[r])
    && (r in s1.place && r !in s.place ==> s1.place[r] == Pending)
    && (r in s.sch.waits ==> r in s1.sch.waits && s1.sch.waits[r] == s.sch.waits[r])
  }

  lemma SameLocated(s: System, s1: System, r: string)
    requires Located(s, r) && SameForRequest(s, s1, r)
    ensures Located(s1, r)
  {
    forall k | s1.cycled <= k < |s1.deltas|
      ensures DeltaAt(s1, r, k)
    {
      assert DeltaAt(s, r, k);
    }
    forall k | s1.collected <= k < |s1.outputs|
      ensures OutputAt(s1, r, k)
    {
      assert OutputAt(s, r, k);
    }
  }

  lemma SameQuiet(s: System, s1: System, r: string)
    requires Located(s, r) && Quiet(s, r) && ReadyWithWait(s, r) && SameForRequest(s, s1, r)
    requires r in OfKind(s1.sch.states, Cancelled) ==> NotBefore(s1, r, |s1.deltas|)
    requires r in OfKind(s1.sch.states, Ready) <==> r in s1.sch.waits && s1.sch.waits[r].kvTransfer
    ensures Quiet(s1, r) && ReadyWithWait(s1, r)
  {
    forall k | s1.cycled <= k < |s1.deltas|
      ensures QuietAt(s1, r, k) && ReadyAt(s1, r, k)
    {
      assert QuietAt(s, r, k) && ReadyAt(s, r, k);
    }
  }

  lemma PrepareInv(s: System, q: string, r: string)
    requires RequestInv(s, r)
    ensures RequestInv(s.(sch := Prepare(s.sch, q)), r)
  {
    var s1 := s.(sch := Prepare(s.sch, q));
    assert OfKind(s1.sch.states, Ready) == OfKind(s.sch.states, Ready);
    assert OfKind(s1.sch.states, Cancelled) == OfKind(s.sch.states, Cancelled);
    SameLocated(s, s1, r);
    SameQuiet(s, s1, r);
  }

  lemma FinishStates(s: Issuer, q: string, remoteDecode: bool, capped: bool, anyBlocks: bool)
    ensures var s1 := Finish(s, q, remoteDecode, capped, anyBlocks);
            var wait := WaitOf(s, q, remoteDecode, capped, anyBlocks);
            && OfKind(s1.states, Ready) == OfKind(s.states, Ready) + (if wait.kvTransfer then {q} else {})
            && OfKind(s1.states, Cancelled)
               == OfKind(s.states, Cancelled) + if remoteDecode && !wait.kvTransfer then {q} else {}
  {
    var wait := WaitOf(s, q, remoteDecode, capped, anyBlocks);
    if remoteDecode {
      var x := SourceState(q, if wait.kvTransfer then Ready else Cancelled);
      assert x in s.states + [x];
      assert forall y :: y in s.states + [x] <==> y in s.states || y == x;
    }
  }

  lemma FinishInv(s: System, q: string, remoteDecode: bool, capped: bool, anyBlocks: bool, r: string)
    requires RequestInv(s, r) && Enabled(s, DoFinish(q, remoteDecode, capped, anyBlocks))
    ensures RequestInv(FinishRequest(s, q, remoteDecode, capped, anyBlocks), r)
  {
    var s1 := FinishRequest(s, q, remoteDecode, capped, anyBlocks);
    assert SameForRequest(s, s1, r);
    SameLocated(s, s1, r);
    FinishStates(s.sch, q, remoteDecode, capped, anyBlocks);
    SameQuiet(s, s1, r);
  }

  // ---------------------------------------------------------------- a worker cycle

  /** The worker's records of `r` before it polls. */
  lemma UpdatedRecord(w: Holder, d: Delta, r: string)
    requires r in w.waits ==> r !in d.preempted && r !in d.waits && r !in Saved(d.saves)
    ensures var w1 := Updated(w, d);
            && (r in w1.onSave <==> (r in w.onSave && r !in d.preempted) || r in Saved(d.saves))
            && (r in w1.waits <==> r in w.waits || r in d.waits)
            && (r in w.waits ==> w1.waits[r] == w.waits[r])
            && (r !in w.waits && r in d.waits ==> w1.waits[r] == WaitState(d.waits[r], r !in w1.onSave, false))
  {
  }

  lemma MarkedRecord(w: Holder, saved: set<string>, sent: set<string>, r: string)
    ensures var w1 := Marked(w, saved, sent);
            && (r in w1.onSave <==> r in w.onSave && r !in saved)
            && (r in w1.waits <==> r in w.waits)
            && (r in w.waits ==> w1.waits[r] == WaitState(w.waits[r].wait, w.waits[r].saveDone || r in saved,
                                                          w.waits[r].sendDone || r in sent))
  {
  }

  /** What the next metadata means for `r`. */
  ghost predicate NextFor(s: System, r: string) {
    && s.cycled < |s.deltas|
    && var d := s.deltas[s.cycled];
    && (r in d.waits <==> r in s.place && s.place[r] == InDelta(s.cycled))
    && (r in s.worker.waits ==> r !in d.preempted && r !in d.waits && r !in Saved(d.saves)
                                && r !in OfKind(d.states, Cancelled))
    && (r in OfKind(d.states, Ready) <==> r in d.waits && d.waits[r].kvTransfer)
    && (r in s.place && (s.place[r].InOutput? || s.place[r].Held?) ==>
         r !in d.preempted && r !in Saved(d.saves) && r !in OfKind(d.states, Cancelled))
    && (r in d.preempted ==> r !in d.waits)
  }

  lemma NextIsKnown(s: System, r: string)
    requires Located(s, r) && Quiet(s, r) && ReadyWithWait(s, r) && s.cycled < |s.deltas|
    ensures NextFor(s, r)
  {
    assert DeltaAt(s, r, s.cycled) && QuietAt(s, r, s.cycled) && ReadyAt(s, r, s.cycled);
  }

  lemma CycleQuiet(sizes: seq<nat>, s: System, sent: set<string>, r: string)
    requires SQ.SizesPositive(sizes) && Located(s, r) && Quiet(s, r) && ReadyWithWait(s, r)
    requires Enabled(s, DoCycle(sent)) && CyclePlaces(s, Cycle(sizes, s, sent), r)
    ensures Quiet(Cycle(sizes, s, sent), r) && ReadyWithWait(Cycle(sizes, s, sent), r)
  {
    var s1 := Cycle(sizes, s, sent);
    forall k | s1.cycled <= k < |s1.deltas|
      ensures QuietAt(s1, r, k) && ReadyAt(s1, r, k)
    {
      assert QuietAt(s, r, k) && ReadyAt(s, r, k);
    }
  }

  /** How a cycle moves the wait of `r`. */
  ghost predicate CyclePlaces(s: System, s1: System, r: string) {
    && (r in s1.place <==> r in s.place)
    && (r in s.place ==>
      match s.place[r]
      case Pending => s1.place[r].Pending?
      case InDelta(k) => if k == s.cycled then s1.place[r].Held? || s1.place[r] == InOutput(|s.outputs|)
                         else s1.place[r] == s.place[r]
      case Held => s1.place[r].Held? || s1.place[r] == InOutput(|s.outputs|)
      case InOutput(_) => s1.place[r] == s.place[r])
    && (r in s1.worker.waits <==> r in s1.place && s1.place[r].Held?)
    && (r in s1.worker.waits ==>
      if r in s.worker.waits then s1.worker.waits[r].wait == s.worker.waits[r].wait
      else s.cycled < |s.deltas| && r in s.deltas[s.cycled].waits
           && s1.worker.waits[r].wait == s.deltas[s.cycled].waits[r])
    && |s1.outputs| == |s.outputs| + 1
    && (r in s1.outputs[|s.outputs|] <==> r in s1.place && s1.place[r] == InOutput(|s.outputs|))
  }

  lemma CycleMoves(sizes: seq<nat>, s: System, sent: set<string>, r: string)
    requires SQ.SizesPositive(sizes) && Located(s, r) && NextFor(s, r)
    ensures CyclePlaces(s, Cycle(sizes, s, sent), r)
  {
    var d := s.deltas[s.cycled];
    var submitted := Submit(sizes, s.saves - d.preempted, d.saves);
    UpdatedRecord(s.worker, d, r);
    MarkedRecord(Updated(s.worker, d), submitted.Keys - SQ.Poll(submitted).Keys, sent, r);
  }

  lemma CycleLocated(sizes: seq<nat>, s: System, sent: set<string>, r: string)
    requires SQ.SizesPositive(sizes) && Located(s, r) && NextFor(s, r)
    requires CyclePlaces(s, Cycle(sizes, s, sent), r)
    ensures Located(Cycle(sizes, s, sent), r)
  {
    var s1 := Cycle(sizes, s, sent);
    forall k | s1.cycled <= k < |s1.deltas|
      ensures DeltaAt(s1, r, k)
    {
      assert DeltaAt(s, r, k);
    }
    forall k | s1.collected <= k < |s1.outputs|
      ensures OutputAt(s1, r, k)
    {
      assert k < |s.outputs| ==> OutputAt(s, r, k);
    }
  }

  /** The worker has the wait of `r`, or gets it with the next metadata. */
  ghost predicate AboutToBeHeld(s: System, r: string) {
    r in s.place && (s.place[r].Held? || s.place[r] == InDelta(s.cycled))
  }

  /** What a worker cycle does to the records of one request. */
  lemma CycleRecords(sizes: seq<nat>, s: System, sent: set<string>, r: string)
    requires SQ.SizesPositive(sizes) && Located(s, r) && RecordsExact(s, r) && NextFor(s, r)
    requires StoreSaveIs(s, r, r in s.sch.saving) && Enabled(s, DoCycle(sent))
    requires AboutToBeHeld(s, r) && (r in s.saves || r in Saved(s.deltas[s.cycled].saves)) ==> r in s.sch.saving
    ensures RecordsExact(Cycle(sizes, s, sent), r)
  {
    var d := s.deltas[s.cycled];
    var submitted := Submit(sizes, s.saves - d.preempted, d.saves);
    var saved := submitted.Keys - SQ.Poll(submitted).Keys;
    UpdatedRecord(s.worker, d, r);
    MarkedRecord(Updated(s.worker, d), saved, sent, r);
    var w, w1 := s.worker, Marked(Updated(s.worker, d), saved, sent);
    assert r in submitted <==> r in Updated(w, d).onSave;
    assert r in w1.onSave <==> r in SQ.Poll(submitted);
  }

  lemma CycleSaves(sizes: seq<nat>, s: System, sent: set<string>, r: string)
    requires SQ.SizesPositive(sizes) && RequestInv(s, r) && Enabled(s, DoCycle(sent))
    requires Located(Cycle(sizes, s, sent), r) && CyclePlaces(s, Cycle(sizes, s, sent), r)
    ensures SavesKnown(Cycle(sizes, s, sent), r)
  {
    var s1, ds := Cycle(sizes, s, sent), s.deltas[s.cycled..];
    var d := ds[0];
    OwesFirst(r, r in s.saves, ds);
    OwesMonotone(r, r in s1.saves, (r in s.saves && r !in d.preempted) || r in Saved(d.saves), ds[1..]);
    assert s1.deltas[s1.cycled..] == ds[1..];
  }

  lemma CycleInv(sizes: seq<nat>, s: System, sent: set<string>, r: string)
    requires SQ.SizesPositive(sizes) && RequestInv(s, r) && Enabled(s, DoCycle(sent))
    ensures RequestInv(Cycle(sizes, s, sent), r)
  {
    NextIsKnown(s, r);
    CycleMoves(sizes, s, sent, r);
    CycleLocated(sizes, s, sent, r);
    CycleQuiet(sizes, s, sent, r);
    if AboutToBeHeld(s, r) {
      OwedAtLeast(s, r);
    }
    CycleRecords(sizes, s, sent, r);
    CycleSaves(sizes, s, sent, r);
  }

  /** A save that the next metadata leaves in the pool of a finished request is known to the scheduler. */
  lemma OwedAtLeast(s: System, r: string)
    requires RequestInv(s, r) && s.cycled < |s.deltas| && AboutToBeHeld(s, r)
    ensures r in s.saves || r in Saved(s.deltas[s.cycled].saves) ==> r in s.sch.saving
  {
    if r in s.saves || r in Saved(s.deltas[s.cycled].saves) {
      var ds := s.deltas[s.cycled..];
      forall k | 0 <= k < |ds|
        ensures r !in ds[k].preempted
      {
        assert QuietAt(s, r, s.cycled + k);
      }
      OwesFirst(r, r in s.saves, ds);
      OwesKept(r, ds[1..]);
    }
  }

  // ---------------------------------------------------------------- collecting a result

  lemma CollectLocated(s: System, r: string)
    requires Located(s, r) && Enabled(s, DoCollect)
    ensures Located(Collect(s), r)
    ensures r in s.outputs[s.collected] <==> r in s.place && s.place[r] == InOutput(s.collected)
  {
    var s1 := Collect(s);
    assert OutputAt(s, r, s.collected);
    forall k | s1.cycled <= k < |s1.deltas|
      ensures DeltaAt(s1, r, k)
    {
      assert DeltaAt(s, r, k);
    }
    forall k | s1.collected <= k < |s1.outputs|
      ensures OutputAt(s1, r, k)
    {
      assert OutputAt(s, r, k);
    }
  }

  lemma CollectQuiet(s: System, r: string)
    requires Located(s, r) && Quiet(s, r) && ReadyWithWait(s, r) && Enabled(s, DoCollect)
    ensures Quiet(Collect(s), r) && ReadyWithWait(Collect(s), r)
  {
    var s1 := Collect(s);
    CollectLocated(s, r);
    forall k | s1.cycled <= k < |s1.deltas|
      ensures QuietAt(s1, r, k) && ReadyAt(s1, r, k)
    {
      assert QuietAt(s, r, k) && ReadyAt(s, r, k);
    }
  }

  /** Nothing is owed to a request that was reported. */
  lemma ReportedOwesNothing(s: System, r: string)
    requires RequestInv(s, r) && r in s.place && s.place[r].InOutput?
    ensures !Owes(r, r in s.saves, s.deltas[s.cycled..])
  {
    forall k | 0 <= k < |s.deltas[s.cycled..]|
      ensures r !in Saved(s.deltas[s.cycled..][k].saves)
    {
      assert QuietAt(s, r, s.cycled + k);
    }
    OwesQuiet(r, r in s.saves, s.deltas[s.cycled..]);
  }

  lemma CollectInv(s: System, r: string)
    requires RequestInv(s, r) && Enabled(s, DoCollect)
    ensures RequestInv(Collect(s), r)
  {
    CollectLocated(s, r);
    CollectQuiet(s, r);
    if r in s.outputs[s.collected] {
      ReportedOwesNothing(s, r);
    }
  }

  lemma SaveEndsInv(s: System, q: string, outcome: SQ.Outcome, r: string)
    requires RequestInv(s, r) && Enabled(s, DoSaveEnds(q, outcome))
    ensures RequestInv(s.(saves := s.saves[q := SQ.Complete(s.saves[q], outcome)]), r)
  {
    var s1 := s.(saves := s.saves[q := SQ.Complete(s.saves[q], outcome)]);
    assert s1.saves.Keys == s.saves.Keys;
    SameLocated(s, s1, r);
    SameQuiet(s, s1, r);
  }

  // ---------------------------------------------------------------- whole runs

  lemma StepInv(sizes: seq<nat>, s: System, step: Step, r: string)
    requires SQ.SizesPositive(sizes) && RequestInv(s, r) && Enabled(s, step)
    ensures RequestInv(Apply(sizes, s, step), r)
  {
    match step
    case DoPrepare(q) => PrepareInv(s, q, r);
    case DoBuild(saves, preempted) => BuildInv(s, saves, preempted, r);
    case DoFinish(q, remoteDecode, capped, anyBlocks) => FinishInv(s, q, remoteDecode, capped, anyBlocks, r);
    case DoCycle(sent) => CycleInv(sizes, s, sent, r);
    case DoCollect => CollectInv(s, r);
    case DoSaveEnds(q, outcome) => SaveEndsInv(s, q, outcome, r);
  }

  lemma {:induction false} RunInv(sizes: seq<nat>, run: seq<System>, steps: seq<Step>, i: nat, r: string)
    requires SQ.SizesPositive(sizes) && IsRun(sizes, run, steps) && i < |run|
    ensures RequestInv(run[i], r)
  {
    if i > 0 {
      RunInv(sizes, run, steps, i - 1, r);
      StepInv(sizes, run[i - 1], steps[i - 1], r);
    }
  }

  // ---------------------------------------------------------------- main results

  /**
   Main result. Between cycles the worker's record of running saves is exactly the pool's, a send that can still report
   has its wait record, and a wait is held only while a save or the send it waits for has not ended.
   */
  lemma RecordsAlwaysExact(sizes: seq<nat>, run: seq<System>, steps: seq<Step>, i: nat, r: string)
    requires SQ.SizesPositive(sizes) && IsRun(sizes, run, steps) && i < |run|
    ensures r in run[i].worker.onSave <==> r in run[i].saves
    ensures r in run[i].sends ==> r in run[i].worker.waits
    ensures r in run[i].worker.waits ==>
              var wait := run[i].worker.waits[r].wait;
              (wait.storeSave && r in run[i].saves) || (wait.kvTransfer && r in run[i].sends)
  {
    RunInv(sizes, run, steps, i, r);
  }

  /**
   Main result. When a request is reported for release it is delayed, the pool holds no save of it, none is on its way,
   and no send of it can still be reported; this stays so until the scheduler has collected the report.
   */
  lemma ReleaseIsSafe(sizes: seq<nat>, run: seq<System>, steps: seq<Step>, i: nat, k: nat, r: string)
    requires SQ.SizesPositive(sizes) && IsRun(sizes, run, steps) && i < |run|
    requires run[i].collected <= k < |run[i].outputs| && r in run[i].outputs[k]
    ensures r in run[i].sch.delayed && SQ.Accepted(run[i].saves, r) == [] && r !in run[i].sends
    ensures run[i].cycled <= |run[i].deltas| && !Owes(r, r in run[i].saves, run[i].deltas[run[i].cycled..])
  {
    RunInv(sizes, run, steps, i, r);
    assert OutputAt(run[i], r, k);
    ReportedOwesNothing(run[i], r);
  }

  /** A delayed request is waiting to be announced, announced, held by the worker, or reported; nothing gets lost. */
  lemma DelayedIsSomewhere(sizes: seq<nat>, run: seq<System>, steps: seq<Step>, i: nat, r: string)
    requires SQ.SizesPositive(sizes) && IsRun(sizes, run, steps) && i < |run| && r in run[i].sch.delayed
    ensures || r in run[i].sch.waits
            || (exists k :: run[i].cycled <= k < |run[i].deltas| && r in run[i].deltas[k].waits)
            || r in run[i].worker.waits
            || exists k :: run[i].collected <= k < |run[i].outputs| && r in run[i].outputs[k]
  {
    RunInv(sizes, run, steps, i, r);
    var s := run[i];
    match s.place[r]
    case InDelta(k) => assert DeltaAt(s, r, k);
    case InOutput(k) => assert OutputAt(s, r, k);
    case _ =>
  }

  /** A report stays the one report of its request until the request finishes anew. */
  lemma StepKeepsReport(sizes: seq<nat>, s: System, step: Step, k: nat, r: string)
    requires SQ.SizesPositive(sizes) && Located(s, r) && Enabled(s, step) && (step.DoCycle? ==> NextFor(s, r))
    requires r !in s.place || s.place[r] == InOutput(k)
    requires !(step.DoFinish? && step.request == r)
    ensures var s1 := Apply(sizes, s, step); r !in s1.place || s1.place[r] == InOutput(k)
  {
    match step
    case DoCycle(sent) => CycleMoves(sizes, s, sent, r);
    case _ =>
  }

  lemma {:induction false} ReportStays(sizes: seq<nat>, run: seq<System>, steps: seq<Step>, i: nat, j: nat, k: nat,
                                       r: string)
    requires SQ.SizesPositive(sizes) && IsRun(sizes, run, steps) && i <= j < |run|
    requires r in run[i].place && run[i].place[r] == InOutput(k)
    requires forall m :: i <= m < j ==> !(steps[m].DoFinish? && steps[m].request == r)
    ensures r !in run[j].place || run[j].place[r] == InOutput(k)
  {
    if i < j {
      ReportStays(sizes, run, steps, i, j - 1, k, r);
      RunInv(sizes, run, steps, j - 1, r);
      if steps[j - 1].DoCycle? {
        NextIsKnown(run[j - 1], r);
      }
      StepKeepsReport(sizes, run[j - 1], steps[j - 1], k, r);
    }
  }

  /** A cycle reports what it holds or has just been told of, and puts it in its own output. */
  lemma CycleReports(sizes: seq<nat>, s: System, sent: set<string>, r: string)
    requires SQ.SizesPositive(sizes) && RequestInv(s, r) && Enabled(s, DoCycle(sent))
    requires r in Cycle(sizes, s, sent).outputs[|s.outputs|]
    ensures r in s.place && !s.place[r].InOutput?
    ensures r in Cycle(sizes, s, sent).place && Cycle(sizes, s, sent).place[r] == InOutput(|s.outputs|)
  {
    NextIsKnown(s, r);
    CycleMoves(sizes, s, sent, r);
  }

  /**
   Main result. A finished request is reported once: two cycles report the same request only if it finished again in
   between.
   */
  lemma ReportedOnce(sizes: seq<nat>, run: seq<System>, steps: seq<Step>, i: nat, j: nat, r: string)
    requires SQ.SizesPositive(sizes) && IsRun(sizes, run, steps) && i < j < |steps|
    requires steps[i].DoCycle? && r in run[i + 1].outputs[|run[i].outputs|]
    requires steps[j].DoCycle? && r in run[j + 1].outputs[|run[j].outputs|]
    ensures exists m :: i < m < j && steps[m].DoFinish? && steps[m].request == r
  {
    RunInv(sizes, run, steps, i, r);
    CycleReports(sizes, run[i], steps[i].sent, r);
    RunInv(sizes, run, steps, j, r);
    CycleReports(sizes, run[j], steps[j].sent, r);
    if forall m :: i + 1 <= m < j ==> !(steps[m].DoFinish? && steps[m].request == r) {
      ReportStays(sizes, run, steps, i + 1, j, |run[i].outputs|, r);
    }
  }
}
