/**
 The receiver loop in its own form: tables that are updated in place, request by request. Every method is one stretch
 of code between two awaits and takes the loop from one state of `ReceiveProtocol` to the next, so that the results
 about runs of the receiver hold for it.
 */
module ReceiveLoop {
  import opened Common
  import opened SendProtocol
  import opened SendResponses
  import R = ReceiveProtocol
  import F = ReceiveFence
  import T = Topology

  /** How `recv` returns: with an exception that changed nothing, normally, or with an exception after registering. */
  datatype StartOutcome = Rejected | Started | Raised

  datatype Report = Report(requestId: string, failed: bool)

  class Receiver {
    const rank: nat
    const size: int
    var recvEvents: map<string, R.Event>
    var receiveFutures: map<string, bool>
    var failedRecv: set<string>
    var finishedRecving: set<string>
    var invalid: map<string, set<int>>
    var retiredRecvs: set<string>
    var receiveError: bool
    /** The pull tasks with their `PullReqMeta` counters and the peers' `remaining` sets. */
    var groups: seq<R.Group>
    ghost var fencing: Option<set<string>>

    ghost function View(): R.Receiver
      reads this
    {
      R.Receiver(rank, size, recvEvents, receiveFutures, failedRecv, finishedRecving, invalid, retiredRecvs,
                 receiveError, groups, fencing)
    }

    constructor (rank: nat, size: int)
      ensures View() == R.Empty(rank, size)
    {
      this.rank, this.size := rank, size;
      recvEvents, receiveFutures, invalid := map[], map[], map[];
      failedRecv, finishedRecving, retiredRecvs := {}, {}, {};
      receiveError, groups, fencing := false, [], None;
    }

    /** The checks of `_start_receive`, event by event against everything seen so far. */
    method Validate(events: seq<R.RecvEvent>) returns (ok: bool)
      ensures ok <==> R.CanRegister(View(), events)
    {
      ghost var s := View();
      var requestIds := recvEvents.Keys + invalid.Keys;
      var transferIds := retiredRecvs + set r | r in recvEvents :: recvEvents[r].transferId;
      assert transferIds == s.retired + R.TransferIds(s);
      for i := 0 to |events|
        invariant forall k :: 0 <= k < i ==> R.IsNew(s, events, k)
        invariant requestIds == SeenRequests(s, events[..i]) && transferIds == SeenTransfers(s, events[..i])
      {
        IsNewIff(s, events, i);
        if events[i].request in requestIds || events[i].transferId in transferIds {
          return false;
        }
        requestIds := requestIds + {events[i].request};
        transferIds := transferIds + {events[i].transferId};
      }
      ok := true;
    }

    /**
     `_start_receive` with `_start_load_kv`; `known` are the TP sizes of the engines that D has talked to before. It is
     rejected with nothing changed, or all events are registered; then it may still raise.
     */
    method Start(events: seq<R.RecvEvent>, known: map<string, int>) returns (outcome: StartOutcome)
      requires rank < size && forall e :: e in known ==> known[e] > 0
      modifies this
      ensures outcome.Rejected? <==> old(receiveError) || !R.CanRegister(old(View()), events)
      ensures outcome.Rejected? ==> View() == old(View())
      ensures !outcome.Rejected? ==>
                var sizes := R.KnownSizes(R.Engines(events), known);
                && |R.Register(old(View()), events).0.groups| == |old(groups)| + |sizes|
                && View() == R.Launch(R.Register(old(View()), events).0, |old(groups)|, sizes)
                && (outcome.Raised? <==> R.LaunchRaises(size, sizes))
      ensures !outcome.Rejected? ==> forall i :: 0 <= i < |events| ==> IsRecorded(recvEvents, events[i])
      ensures !outcome.Rejected? ==> forall i, j :: 0 <= i < |events| && 0 <= j < |events| ==>
                (Together(recvEvents, events[i], events[j]) <==> events[i].engine == events[j].engine)
      ensures !outcome.Rejected? ==>
                forall i :: 0 <= i < |events| ==> HasEngine(recvEvents, |old(groups)|, events, events[i])
      ensures !outcome.Rejected? ==> forall q :: q in recvEvents <==>
                q in old(recvEvents) || exists i :: 0 <= i < |events| && events[i].request == q
    {
      outcome := Rejected;
      if !receiveError {
        var ok := Validate(events);
        if ok {
          ghost var s := View();
          var first := |groups|;
          var engines := RegisterAll(events);
          RegisterOrder(s, events);
          RegisterMeans(s, events);
          RegisteredEngines(s, events);
          var raised := StartLoads(first, R.KnownSizes(engines, known));
          outcome := if raised then Raised else Started;
        }
      }
    }

    /** One pull dictionary per engine, filled in the order of the events. */
    method RegisterAll(events: seq<R.RecvEvent>) returns (engines: seq<string>)
      modifies this
      ensures View() == R.Register(old(View()), events).0 && engines == R.Engines(events)
    {
      ghost var s := View();
      var toRecv: map<string, nat> := map[];
      engines := [];
      for i := 0 to |events|
        invariant View() == R.Register(s, events[..i]).0 && toRecv == R.Register(s, events[..i]).1
        invariant engines == R.Engines(events[..i])
      {
        assert events[..i + 1][..i] == events[..i];
        RegisterOrder(s, events[..i]);
        var e := events[i];
        var g := if e.engine in toRecv then toRecv[e.engine] else |groups|;
        if e.engine !in toRecv {
          engines := engines + [e.engine];
        }
        toRecv := toRecv[e.engine := g];
        RegisterOne(e, g);
      }
      assert events[..|events|] == events;
    }

    /** `_start_load_kv`: the groups from `first` on in turn. */
    method StartLoads(first: nat, sizes: seq<Option<int>>) returns (raised: bool)
      requires first + |sizes| <= |groups| && R.SizesValid(View(), sizes)
      modifies `groups
      ensures View() == R.Launch(old(View()), first, sizes)
      ensures raised <==> R.LaunchRaises(size, sizes)
      ensures |groups| == |old(groups)| && forall h :: 0 <= h < |groups| ==>
                groups[h].members == old(groups)[h].members
                && groups[h].progress == LaunchedProgress(size, sizes, old(groups)[h].progress, h - first)
    {
      LaunchedAll(View(), first, sizes);
      raised := LaunchEach(first, sizes);
    }

    /** The loop over the engines. */
    method LaunchEach(first: nat, sizes: seq<Option<int>>) returns (raised: bool)
      requires first + |sizes| <= |groups| && R.SizesValid(View(), sizes)
      modifies `groups
      ensures View() == R.Launch(old(View()), first, sizes)
      ensures raised <==> R.LaunchRaises(size, sizes)
    {
      ghost var end := R.Launch(View(), first, sizes);
      for k := 0 to |sizes|
        invariant first + |sizes| <= |groups| && R.SizesValid(View(), sizes[k..])
        invariant R.Launch(View(), first + k, sizes[k..]) == end
        invariant forall j :: 0 <= j < k ==> !R.Raises(size, sizes[j])
      {
        assert sizes[k..][1..] == sizes[k + 1..] && sizes[k..][0] == sizes[k];
        if sizes[k].Some? {
          var ok := ReceiveKv(first + k, sizes[k].value);
          if !ok {
            assert R.Raises(size, sizes[k]);
            AbandonRest(first + k, |sizes| - k);
            return true;
          }
        }
      }
      raised := false;
    }

    /** `receive_kv`; false stands for its exception. */
    method ReceiveKv(g: nat, remoteSize: int) returns (ok: bool)
      requires g < |groups| && rank < size && remoteSize > 0
      modifies `groups
      ensures ok <==> T.IntegerRatio(size, remoteSize)
      ensures View() == if ok then R.Resolve(old(View()), g, remoteSize) else old(View())
    {
      var targets := T.TargetRanks(rank, size, remoteSize);
      ok := targets.Success?;
      if ok {
        var group := groups[g];
        var counts := map q | q in group.members :: |targets.value| as int;
        var peers: seq<R.Peer> := [];
        for k := 0 to |targets.value|
          invariant |peers| == k && forall p :: 0 <= p < k ==> peers[p] == R.NewPeer(group.members.Keys)
        {
          peers := peers + [R.NewPeer(group.members.Keys)];
        }
        assert peers == seq(|targets.value|, _ => R.NewPeer(group.members.Keys));
        groups := groups[g := group.(progress := R.Pulling(remoteSize), counts := counts, peers := peers)];
      }
    }

    /** The exception leaves the loop: no task pulls the rest of the groups. */
    method AbandonRest(g: nat, n: nat)
      requires g + n <= |groups|
      modifies `groups
      ensures View() == R.AbandonFrom(old(View()), g, n)
    {
      ghost var end := R.AbandonFrom(View(), g, n);
      for k := 0 to n
        invariant g + n <= |groups| && R.AbandonFrom(View(), g + k, n - k) == end
      {
        groups := groups[g + k := groups[g + k].(progress := R.Stuck)];
      }
    }

    method RegisterOne(e: R.RecvEvent, g: nat)
      requires g <= |groups|
      modifies `groups, `receiveFutures, `recvEvents
      ensures View() == R.AddEvent(old(View()), e, g)
    {
      if g == |groups| {
        groups := groups + [R.Group(map[], R.Discovering, map[], [])];
      }
      receiveFutures := receiveFutures[e.request := false];
      recvEvents := recvEvents[e.request := R.Event(e.transferId, e.blocks, g)];
      groups := groups[g := groups[g].(members := groups[g].members[e.request := e.transferId])];
    }

    /** `_finish_receive`. */
    method FinishReceive(request: string, failed: bool)
      modifies `failedRecv, `finishedRecving, `receiveFutures
      ensures failedRecv == old(failedRecv) + (if failed then {request} else {})
      ensures finishedRecving == old(finishedRecving) + {request}
      ensures receiveFutures == R.MarkDone(old(receiveFutures), {request})
    {
      if failed {
        failedRecv := failedRecv + {request};
      }
      finishedRecving := finishedRecving + {request};
      if request in receiveFutures && !receiveFutures[request] {
        receiveFutures := receiveFutures[request := true];
      }
    }

    /** The requests that a response fails, in some order. */
    method ErrorList(response: Response, remaining: set<string>) returns (errs: seq<string>)
      requires !R.Terminal(response) ==> NoDuplicates(response.err)
      ensures R.Elements(errs) == R.Errors(response, remaining) && NoDuplicates(errs)
    {
      if !R.Terminal(response) {
        return response.err;
      }
      errs := [];
      var left := remaining - R.Elements(response.ok);
      while left != {}
        invariant left <= R.Errors(response, remaining)
        invariant R.Elements(errs) == R.Errors(response, remaining) - left && NoDuplicates(errs)
        decreases left
      {
        var q :| q in left;
        assert q !in R.Elements(errs);
        assert R.Elements(errs + [q]) == R.Elements(errs) + {q};
        errs := errs + [q];
        left := left - {q};
      }
    }

    /** `process_pulling_result`. */
    method ProcessPullingResult(g: nat, p: nat, response: Response)
      requires g < |groups| && p < |groups[g].peers|
      requires NoDuplicates(response.ok) && (!R.Terminal(response) ==> NoDuplicates(response.err))
      requires R.Elements(response.ok) !! R.Errors(response, groups[g].peers[p].remaining)
      requires R.AnsweredBy(response, groups[g].peers[p]) <= groups[g].counts.Keys
      modifies this
      ensures View() == R.Process(old(View()), g, p, response)
    {
      ghost var s := View();
      ghost var answered := R.AnsweredBy(response, groups[g].peers[p]);
      var errs := ErrorList(response, groups[g].peers[p].remaining);
      failedRecv := failedRecv + R.Elements(errs);
      DistinctConcat(response.ok, errs);
      CountDownAll(g, response.ok + errs);
      assert R.Elements(response.ok + errs) == answered;
      var group, peer := groups[g], groups[g].peers[p];
      peer := peer.(remaining := peer.remaining - R.Elements(response.ok) - R.Elements(errs),
                    open := !R.Terminal(response), heard := peer.heard + [response],
                    oks := peer.oks + R.Elements(response.ok), errs := peer.errs + R.Elements(errs));
      groups := groups[g := group.(peers := group.peers[p := peer])];
    }

    /** `pull_tasks_count -= 1` for each request; at zero its receive is finished. */
    method CountDownAll(g: nat, ids: seq<string>)
      requires g < |groups| && NoDuplicates(ids) && R.Elements(ids) <= groups[g].counts.Keys
      modifies `groups, `failedRecv, `finishedRecving, `receiveFutures
      ensures var group, done := old(groups)[g], R.Completed(old(groups)[g].counts, R.Elements(ids));
              && groups == old(groups)[g := group.(counts := R.CountDown(group.counts, R.Elements(ids)))]
              && finishedRecving == old(finishedRecving) + done
              && receiveFutures == R.MarkDone(old(receiveFutures), done)
              && failedRecv == old(failedRecv)
    {
      ghost var counts := groups[g].counts;
      F.NoneDone(receiveFutures);
      assert R.CountDown(counts, {}) == counts && R.Elements(ids[..0]) == {};
      assert groups == groups[g := groups[g].(counts := counts)];
      for i := 0 to |ids|
        invariant groups == old(groups)[g := old(groups)[g].(counts := R.CountDown(counts, R.Elements(ids[..i])))]
        invariant finishedRecving == old(finishedRecving) + R.Completed(counts, R.Elements(ids[..i]))
        invariant receiveFutures == R.MarkDone(old(receiveFutures), R.Completed(counts, R.Elements(ids[..i])))
        invariant failedRecv == old(failedRecv)
      {
        CountOne(counts, ids, i);
        var q := ids[i];
        var group := groups[g];
        groups := groups[g := group.(counts := group.counts[q := group.counts[q] - 1])];
        if groups[g].counts[q] == 0 {
          FinishReceive(q, q in failedRecv);
        }
      }
      assert ids[..|ids|] == ids;
    }

    /** `fetch_finished_recving_reqs`; nothing is returned for an exception. */
    method Fetch() returns (results: Option<seq<Report>>)
      requires finishedRecving <= recvEvents.Keys
      modifies this
      ensures View() == R.Fetch(old(View()))
      ensures results.None? <==> old(receiveError)
      ensures results.Some? ==> forall r :: r in results.value <==>
                                  r.requestId in old(finishedRecving) && r.failed == (r.requestId in old(failedRecv))
      ensures results.Some? ==> finishedRecving == {} && recvEvents == old(recvEvents) - old(finishedRecving)
      ensures results.Some? ==> forall q :: q in invalid <==>
                                  q in old(invalid) || (q in old(finishedRecving) && q in old(failedRecv))
      ensures results.Some? ==> forall q, b :: q in old(finishedRecving) && q in old(failedRecv) ==>
                                  (b in invalid[q] <==>
                                   b >= 0 && exists ids :: ids in old(recvEvents)[q].blocks && b in ids)
    {
      if receiveError {
        return None;
      }
      ghost var s := View();
      var finished := finishedRecving;
      finishedRecving := {};
      var list: seq<Report> := [];
      var left := finished;
      while left != {}
        invariant left <= finished && View() == CollectAll(s, finished - left)
        invariant forall r :: r in list <==> r.requestId in finished - left && r.failed == (r.requestId in s.failed)
        decreases left
      {
        var q :| q in left;
        CollectNext(s, finished - left, q);
        assert finished - (left - {q}) == finished - left + {q};
        var report := CollectOne(q);
        list := list + [report];
        left := left - {q};
      }
      assert finished - left == finished;
      results := Some(list);
    }

    method CollectOne(q: string) returns (report: Report)
      requires q in recvEvents
      modifies `recvEvents, `invalid, `failedRecv, `retiredRecvs, `receiveFutures
      ensures View() == Collect(old(View()), q)
      ensures report == Report(q, q in old(failedRecv))
    {
      var event := recvEvents[q];
      recvEvents := recvEvents - {q};
      var failed := q in failedRecv;
      if failed {
        invalid := invalid[q := R.Destination(event)];
      }
      report := Report(q, failed);
      failedRecv := failedRecv - {q};
      retiredRecvs := retiredRecvs + {event.transferId};
      receiveFutures := receiveFutures - {q};
    }

    /** `_take_receive_errors`; nothing is returned for an exception. */
    method TakeErrors() returns (blocks: Option<set<int>>)
      modifies `invalid
      ensures View() == R.TakeErrors(old(View()))
      ensures blocks.None? <==> receiveError
      ensures blocks.Some? ==> forall b :: b in blocks.value <==> exists q :: q in old(invalid) && b in old(invalid)[q]
    {
      if receiveError {
        return None;
      }
      blocks := Some(set q, b | q in invalid && b in invalid[q] :: b);
      invalid := map[];
    }

    /** What `_wait_for_receives` does once its futures are done; false stands for an exception. */
    method FenceReturns(ids: set<string>) returns (ok: bool)
      requires fencing == Some(ids)
      modifies this
      ensures View() == R.FenceEnd(old(View()))
      ensures ok <==> !old(receiveError)
      ensures ok ==> recvEvents == old(recvEvents) - ids && invalid == old(invalid) - ids
      ensures ok ==> finishedRecving == old(finishedRecving) - ids && failedRecv == old(failedRecv) - ids
      ensures ok ==> forall q :: q in ids && q in old(recvEvents) ==> old(recvEvents)[q].transferId in retiredRecvs
    {
      ok := !receiveError;
      fencing := None;
      if ok {
        ghost var s := View();
        var left := ids;
        assert ids - left == {} && DiscardAll(s, {}) == s;
        while left != {}
          invariant left <= ids && View() == DiscardAll(s, ids - left)
          decreases left
        {
          var q :| q in left;
          DiscardNext(s, ids - left, q);
          assert ids - (left - {q}) == ids - left + {q};
          DiscardOne(q);
          left := left - {q};
        }
        assert ids - left == ids;
        finishedRecving := finishedRecving - ids;
        failedRecv := failedRecv - ids;
      }
    }

    method DiscardOne(q: string)
      modifies `receiveFutures, `recvEvents, `retiredRecvs, `invalid
      ensures View() == Discard(old(View()), q)
    {
      receiveFutures := receiveFutures - {q};
      if q in recvEvents {
        retiredRecvs := retiredRecvs + {recvEvents[q].transferId};
        recvEvents := recvEvents - {q};
      }
      invalid := invalid - {q};
    }
  }

  /** Request ids that a further event must not have. */
  function SeenRequests(s: R.Receiver, events: seq<R.RecvEvent>): set<string> {
    s.events.Keys + s.invalid.Keys + F.RequestsOf(events)
  }

  function SeenTransfers(s: R.Receiver, events: seq<R.RecvEvent>): set<string> {
    s.retired + R.TransferIds(s) + F.TransfersOf(events)
  }

  lemma IsNewIff(s: R.Receiver, events: seq<R.RecvEvent>, i: nat)
    requires i < |events|
    ensures R.IsNew(s, events, i) <==> events[i].request !in SeenRequests(s, events[..i])
                                       && events[i].transferId !in SeenTransfers(s, events[..i])
  {
    assert forall j :: 0 <= j < i ==> events[j] in events[..i];
  }

  /** New groups come in the order of their engines. */
  lemma {:induction false} RegisterOrder(s: R.Receiver, events: seq<R.RecvEvent>)
    ensures var (s1, of) := R.Register(s, events);
            && |s1.groups| == |s.groups| + |R.Engines(events)| && forall e :: e in of <==> e in R.Engines(events)
  {
    if events != [] {
      RegisterOrder(s, events[..|events| - 1]);
    }
  }

  /** The receive of an event is recorded with its transfer id and blocks. */
  predicate IsRecorded(recvEvents: map<string, R.Event>, e: R.RecvEvent) {
    && e.request in recvEvents
    && recvEvents[e.request].transferId == e.transferId && recvEvents[e.request].blocks == e.blocks
  }

  /** The groups of the engines are new and different. */
  ghost predicate GroupsApart(of: map<string, nat>, first: nat, end: nat) {
    && (forall e :: e in of ==> first <= of[e] < end)
    && forall e, f :: e in of && f in of && of[e] == of[f] ==> e == f
  }

  /** Both receives are pulled by the same group. */
  predicate Together(recvEvents: map<string, R.Event>, e: R.RecvEvent, f: R.RecvEvent) {
    e.request in recvEvents && f.request in recvEvents && recvEvents[e.request].group == recvEvents[f.request].group
  }

  predicate InGroup(recvEvents: map<string, R.Event>, of: map<string, nat>, e: R.RecvEvent) {
    IsRecorded(recvEvents, e) && e.engine in of && recvEvents[e.request].group == of[e.engine]
  }

  lemma {:induction false} EnginesApart(s: R.Receiver, events: seq<R.RecvEvent>)
    ensures var (s1, of) := R.Register(s, events); GroupsApart(of, |s.groups|, |s1.groups|)
    ensures |s.groups| <= |R.Register(s, events).0.groups|
  {
    if events != [] {
      EnginesApart(s, events[..|events| - 1]);
    }
  }

  lemma {:induction false} RegisteredIds(s: R.Receiver, events: seq<R.RecvEvent>)
    ensures var s1 := R.Register(s, events).0;
            forall q :: q in s1.events <==> q in s.events || exists e :: e in events && e.request == q
  {
    if events != [] {
      var n := |events| - 1;
      RegisteredIds(s, events[..n]);
      assert forall e :: e in events <==> e in events[..n] || e == events[n];
    }
  }

  /** New receives are recorded as they were asked for, each in the group of its engine. */
  lemma {:induction false} RegisterGroups(s: R.Receiver, events: seq<R.RecvEvent>, i: nat)
    requires R.CanRegister(s, events) && i < |events|
    ensures var (s1, of) := R.Register(s, events); InGroup(s1.events, of, events[i])
  {
    var n := |events| - 1;
    if i < n {
      F.CanRegisterPrefix(s, events, n);
      RegisterGroups(s, events[..n], i);
      assert R.IsNew(s, events, n);
    }
  }

  lemma RegisterMeans(s: R.Receiver, events: seq<R.RecvEvent>)
    requires R.CanRegister(s, events)
    ensures var s1 := R.Register(s, events).0;
            && (forall i :: 0 <= i < |events| ==> IsRecorded(s1.events, events[i]))
            && (forall i, j :: 0 <= i < |events| && 0 <= j < |events| ==>
                 (Together(s1.events, events[i], events[j]) <==> events[i].engine == events[j].engine))
            && forall q :: q in s1.events <==>
                 q in s.events || exists i :: 0 <= i < |events| && events[i].request == q
  {
    var (s1, of) := R.Register(s, events);
    EnginesApart(s, events);
    RegisteredIds(s, events);
    forall i | 0 <= i < |events|
      ensures InGroup(s1.events, of, events[i])
    {
      RegisterGroups(s, events, i);
    }
  }

  /** The group of the receive is the one whose engine comes at that place in the order of the engines. */
  predicate HasEngine(recvEvents: map<string, R.Event>, first: nat, events: seq<R.RecvEvent>, e: R.RecvEvent) {
    && e.request in recvEvents
    && var k := recvEvents[e.request].group - first;
    0 <= k < |R.Engines(events)| && R.Engines(events)[k] == e.engine
  }

  lemma RegisteredEngines(s: R.Receiver, events: seq<R.RecvEvent>)
    requires R.CanRegister(s, events)
    ensures var s1 := R.Register(s, events).0;
            forall i :: 0 <= i < |events| ==> HasEngine(s1.events, |s.groups|, events, events[i])
  {
    var (s1, of) := R.Register(s, events);
    EngineOrder(s, events);
    forall i | 0 <= i < |events|
      ensures HasEngine(s1.events, |s.groups|, events, events[i])
    {
      RegisterGroups(s, events, i);
    }
  }

  lemma {:induction false} EngineOrder(s: R.Receiver, events: seq<R.RecvEvent>)
    ensures var (s1, of) := R.Register(s, events);
            && |s1.groups| == |s.groups| + |R.Engines(events)|
            && forall e :: e in of ==>
                 0 <= of[e] - |s.groups| < |R.Engines(events)| && R.Engines(events)[of[e] - |s.groups|] == e
  {
    RegisterOrder(s, events);
    if events != [] {
      EngineOrder(s, events[..|events| - 1]);
    }
  }

  // ---------------------------------------------------------------- launching

  /**
   How far a group is once its call has been launched as number `k`: left alone by an earlier exception or the cause of
   one, waiting for its engine, or pulled from an engine of known size. Other groups stay as they are.
   */
  function LaunchedProgress(size: int, sizes: seq<Option<int>>, before: R.Progress, k: int): R.Progress {
    if k < 0 || k >= |sizes| then before
    else if exists j :: 0 <= j <= k && R.Raises(size, sizes[j]) then R.Stuck
    else if sizes[k].None? then before
    else R.Pulling(sizes[k].value)
  }

  lemma {:induction false} AbandonMeans(s: R.Receiver, g: nat, n: nat)
    requires g + n <= |s.groups|
    ensures var s1 := R.AbandonFrom(s, g, n);
            forall h :: 0 <= h < |s.groups| ==>
              s1.groups[h] == if g <= h < g + n then s.groups[h].(progress := R.Stuck) else s.groups[h]
    decreases n
  {
    if n > 0 {
      AbandonMeans(R.Abandon(s, g), g + 1, n - 1);
    }
  }

  lemma {:induction false} LaunchMeans(s: R.Receiver, g: nat, sizes: seq<Option<int>>, h: nat)
    requires g + |sizes| <= |s.groups| && R.SizesValid(s, sizes) && h < |s.groups|
    ensures var s1 := R.Launch(s, g, sizes);
            && s1.groups[h].members == s.groups[h].members
            && s1.groups[h].progress == LaunchedProgress(s.size, sizes, s.groups[h].progress, h - g)
    decreases |sizes|
  {
    if sizes != [] {
      if R.Raises(s.size, sizes[0]) {
        AbandonMeans(s, g, |sizes|);
      } else {
        FirstLaunched(s, g, sizes[0]);
        LaunchMeans(if sizes[0].None? then s else R.Resolve(s, g, sizes[0].value), g + 1, sizes[1..], h);
        if h != g {
          LaterLaunched(s.size, sizes, s.groups[h].progress, h - g);
        }
      }
    }
  }

  lemma LaunchedAll(s: R.Receiver, g: nat, sizes: seq<Option<int>>)
    requires g + |sizes| <= |s.groups| && R.SizesValid(s, sizes)
    ensures forall h :: 0 <= h < |s.groups| ==>
              var group := R.Launch(s, g, sizes).groups[h];
              && group.members == s.groups[h].members
              && group.progress == LaunchedProgress(s.size, sizes, s.groups[h].progress, h - g)
  {
    forall h: nat | h < |s.groups|
      ensures var group := R.Launch(s, g, sizes).groups[h];
              && group.members == s.groups[h].members
              && group.progress == LaunchedProgress(s.size, sizes, s.groups[h].progress, h - g)
    {
      LaunchMeans(s, g, sizes, h);
    }
  }

  lemma FirstLaunched(s: R.Receiver, g: nat, remoteSize: Option<int>)
    requires g < |s.groups| && s.rank < s.size && !R.Raises(s.size, remoteSize)
    requires remoteSize.Some? ==> remoteSize.value > 0
    ensures remoteSize.Some? ==>
              var s1 := R.Resolve(s, g, remoteSize.value);
              s1 == s.(groups := s1.groups) && |s1.groups| == |s.groups|
              && s1.groups[g].members == s.groups[g].members && s1.groups[g].progress == R.Pulling(remoteSize.value)
              && forall h :: 0 <= h < |s.groups| && h != g ==> s1.groups[h] == s.groups[h]
  {
  }

  lemma LaterLaunched(size: int, sizes: seq<Option<int>>, before: R.Progress, k: int)
    requires sizes != [] && k != 0 && !R.Raises(size, sizes[0])
    ensures LaunchedProgress(size, sizes, before, k) == LaunchedProgress(size, sizes[1..], before, k - 1)
  {
    if 0 < k < |sizes| {
      if j :| 0 <= j <= k && R.Raises(size, sizes[j]) {
        assert sizes[1..][j - 1] == sizes[j];
      }
      if j :| 0 <= j <= k - 1 && R.Raises(size, sizes[1..][j]) {
        assert sizes[j + 1] == sizes[1..][j];
      }
    }
  }

  lemma DistinctConcat(a: seq<string>, b: seq<string>)
    requires NoDuplicates(a) && NoDuplicates(b) && R.Elements(a) !! R.Elements(b)
    ensures NoDuplicates(a + b) && R.Elements(a + b) == R.Elements(a) + R.Elements(b)
  {
    forall i, j | 0 <= i < j < |a + b|
      ensures (a + b)[i] != (a + b)[j]
    {
      if i < |a| <= j {
        assert a[i] in R.Elements(a) && b[j - |a|] in R.Elements(b);
      }
    }
  }

  /** What one more request changes. */
  lemma CountOne(counts: map<string, int>, ids: seq<string>, i: nat)
    requires i < |ids| && NoDuplicates(ids) && R.Elements(ids) <= counts.Keys
    ensures var before, q := R.Elements(ids[..i]), ids[i];
            && q in counts && R.CountDown(counts, before)[q] == counts[q]
            && R.Elements(ids[..i + 1]) == before + {q}
            && R.CountDown(counts, before + {q}) == R.CountDown(counts, before)[q := counts[q] - 1]
            && R.Completed(counts, before + {q})
               == R.Completed(counts, before) + if counts[q] == 1 then {q} else {}
  {
    var before, q := R.Elements(ids[..i]), ids[i];
    assert q !in before;
    assert q in R.Elements(ids);
  }

  lemma CountedOnceIsDistinct(ids: seq<string>, all: set<string>)
    requires multiset(ids) <= multiset(all)
    ensures NoDuplicates(ids)
  {
    forall i, j | 0 <= i < j < |ids|
      ensures ids[i] != ids[j]
    {
      assert ids == ids[..j] + [ids[j]] + ids[j + 1..];
      assert multiset(ids) == multiset(ids[..j]) + multiset{ids[j]} + multiset(ids[j + 1..]);
      assert ids[i] in ids[..j];
      assert multiset(ids)[ids[j]] <= multiset(all)[ids[j]] <= 1;
    }
  }

  /** In every run, what `ProcessPullingResult` relies on holds. */
  lemma PullingResultsOrderly(s: R.Receiver, g: nat, p: nat, response: Response)
    requires F.Inv(s) && R.OpenPeer(s, g, p) && R.Acceptable(s.groups[g], s.groups[g].peers[p], response)
    ensures var peer := s.groups[g].peers[p];
            && NoDuplicates(response.ok) && (!R.Terminal(response) ==> NoDuplicates(response.err))
            && R.Elements(response.ok) !! R.Errors(response, peer.remaining)
            && R.AnsweredBy(response, peer) <= s.groups[g].counts.Keys
  {
    var group, peer := s.groups[g], s.groups[g].peers[p];
    assert F.GroupValid(group, s.error) && F.PeerValid(group.members.Keys, peer, s.error);
    F.AcceptableSplit(group, peer, response, s.error);
    forall q | q in R.Elements(response.ok)
      ensures q !in R.Errors(response, peer.remaining)
    {
      assert q !in R.Elements(response.ok) * R.Errors(response, peer.remaining);
    }
    if ValidStream(peer.heard + [response], group.members.Keys) {
      F.NextMessage(group.members.Keys, peer, response);
      assert multiset(response.ok) <= multiset(response.ok) + multiset(response.err);
      assert multiset(response.err) <= multiset(response.ok) + multiset(response.err);
      CountedOnceIsDistinct(response.ok, peer.remaining);
      CountedOnceIsDistinct(response.err, peer.remaining);
    }
  }

  // ---------------------------------------------------------------- one request after the other

  /** A finished receive is collected. */
  function Collect(s: R.Receiver, q: string): R.Receiver
    requires q in s.events
  {
    s.(events := s.events - {q}, futures := s.futures - {q}, failed := s.failed - {q},
       retired := s.retired + {s.events[q].transferId},
       invalid := if q in s.failed then s.invalid[q := R.Destination(s.events[q])] else s.invalid)
  }

  function Retired(events: map<string, R.Event>, gone: set<string>): set<string> {
    set q | q in gone && q in events :: events[q].transferId
  }

  function Bad(s: R.Receiver, gone: set<string>): (r: map<string, set<int>>)
    ensures forall q :: q in r <==> q in gone && q in s.failed && q in s.events
    ensures forall q :: q in r ==> r[q] == R.Destination(s.events[q])
  {
    map q | q in gone && q in s.failed && q in s.events :: R.Destination(s.events[q])
  }

  function CollectAll(s: R.Receiver, gone: set<string>): R.Receiver {
    s.(events := s.events - gone, futures := s.futures - gone, failed := s.failed - gone, finished := {},
       retired := s.retired + Retired(s.events, gone), invalid := s.invalid + Bad(s, gone))
  }

  lemma BadNext(s: R.Receiver, gone: set<string>, q: string)
    requires q in s.events && q !in gone
    ensures s.invalid + Bad(s, gone + {q})
            == if q in s.failed then (s.invalid + Bad(s, gone))[q := R.Destination(s.events[q])]
               else s.invalid + Bad(s, gone)
  {
  }

  lemma CollectNext(s: R.Receiver, gone: set<string>, q: string)
    requires q in s.events && q !in gone
    ensures q in CollectAll(s, gone).events && (q in CollectAll(s, gone).failed <==> q in s.failed)
    ensures Collect(CollectAll(s, gone), q) == CollectAll(s, gone + {q})
  {
    BadNext(s, gone, q);
    assert s.events - gone - {q} == s.events - (gone + {q});
    assert s.futures - gone - {q} == s.futures - (gone + {q});
    assert s.failed - gone - {q} == s.failed - (gone + {q});
  }

  /** A request is discarded behind a fence. */
  function Discard(s: R.Receiver, q: string): R.Receiver {
    s.(events := s.events - {q}, futures := s.futures - {q}, invalid := s.invalid - {q},
       retired := s.retired + if q in s.events then {s.events[q].transferId} else {})
  }

  function DiscardAll(s: R.Receiver, gone: set<string>): R.Receiver {
    s.(events := s.events - gone, futures := s.futures - gone, invalid := s.invalid - gone,
       retired := s.retired + Retired(s.events, gone))
  }

  lemma DiscardNext(s: R.Receiver, gone: set<string>, q: string)
    requires q !in gone
    ensures Discard(DiscardAll(s, gone), q) == DiscardAll(s, gone + {q})
  {
    assert s.events - gone - {q} == s.events - (gone + {q});
    assert s.futures - gone - {q} == s.futures - (gone + {q});
    assert s.invalid - gone - {q} == s.invalid - (gone + {q});
  }
}
