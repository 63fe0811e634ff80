/**
 The sender loop in its own form: source records that are updated in place and the table that names them. Every
 method is one stretch of code between two awaits and takes the loop from one state of `SendProtocol` to the next, so
 that the results about runs of the sender hold for it.
 */
module SendLoop {
  import opened Common
  import opened SendProtocol
  import opened SendFence
  import O = SendOutcomes

  datatype Report = Report(requestId: string, timedOut: bool)

  class Sender {
    var reqsNeedSend: map<string, nat>
    /** Every source record ever created; its place is its identity. */
    var metas: seq<SendMeta>
    var finishedSending: set<string>
    const peers: set<int>
    /** Handlers and history: the rest of the protocol's state. */
    ghost var rest: State

    ghost function View(): State
      reads this
    {
      rest.(table := reqsNeedSend, metas := metas, finished := finishedSending, peers := peers)
    }

    constructor (peers: set<int>)
      ensures View() == Init(peers)
    {
      this.peers := peers;
      reqsNeedSend, metas, finishedSending := map[], [], {};
      rest := Init(peers);
    }

    /** `reqs_need_send.setdefault`. */
    method GetOrCreate(requestId: string, transferId: string) returns (m: nat)
      requires TableValid(View())
      modifies `reqsNeedSend, `metas
      ensures View() == SetDefault(old(View()), requestId, transferId) && TableValid(View())
      ensures transferId in reqsNeedSend && m == reqsNeedSend[transferId]
      ensures transferId in old(reqsNeedSend) ==> reqsNeedSend == old(reqsNeedSend) && metas == old(metas)
    {
      if transferId !in reqsNeedSend {
        reqsNeedSend := reqsNeedSend[transferId := |metas|];
        metas := metas + [Fresh(requestId, transferId)];
      }
      m := reqsNeedSend[transferId];
    }

    /** `_prepare_send`. */
    method Prepare(requestId: string, transferId: string) returns (m: nat)
      requires TableValid(View())
      modifies `reqsNeedSend, `metas
      ensures View() == SendProtocol.Prepare(old(View()), requestId, transferId) && TableValid(View())
      ensures transferId in reqsNeedSend && m == reqsNeedSend[transferId] && metas[m].requestId == requestId
      ensures transferId in old(reqsNeedSend) ==> reqsNeedSend == old(reqsNeedSend)
    {
      m := GetOrCreate(requestId, transferId);
      metas := metas[m := metas[m].(requestId := requestId)];
    }

    /** `_publish_send`. */
    method Publish(requestId: string, transferId: string, blocks: seq<seq<int>>, deadline: int)
      requires TableValid(View())
      modifies `reqsNeedSend, `metas
      ensures View() == SendProtocol.Publish(old(View()), requestId, transferId, blocks, deadline)
      ensures transferId in reqsNeedSend && reqsNeedSend[transferId] < |metas|
      ensures var meta := metas[reqsNeedSend[transferId]];
              && meta.requestId == requestId && meta.transferId == transferId && meta.blocks == blocks
              && meta.deadline == Some(deadline) && meta.ready
      ensures transferId in old(reqsNeedSend) ==> reqsNeedSend == old(reqsNeedSend)
    {
      var m := Prepare(requestId, transferId);
      metas := metas[m := metas[m].(blocks := blocks)];
      metas := metas[m := metas[m].(deadline := Some(deadline))];
      metas := metas[m := metas[m].(ready := true)];
    }

    /** `_cancel_send` up to its drain loop; `source` is what the loop watches. */
    method CancelBegin(requestId: string, transferId: string) returns (source: Option<nat>)
      requires TableValid(View()) && rest.draining.None?
      modifies this
      ensures View() == SendProtocol.CancelBegin(old(View()), requestId, transferId)
      ensures source == View().draining
      ensures transferId !in reqsNeedSend && (source.Some? <==> transferId in old(reqsNeedSend))
      ensures source.Some? ==> source.value < |metas| && metas[source.value].ready
      ensures source.Some? ==> source.value == old(reqsNeedSend)[transferId]
    {
      source := None;
      if transferId in reqsNeedSend {
        var m := reqsNeedSend[transferId];
        reqsNeedSend := reqsNeedSend - {transferId};
        metas := metas[m := metas[m].(ready := true)];
        source := Some(m);
        rest := rest.(draining := source);
      } else {
        finishedSending := finishedSending - {requestId};
      }
    }

    /** One turn of the drain loop, with the rest of `_cancel_send` once the loop is left. */
    method DrainTurn(requestId: string, m: nat) returns (done: bool)
      requires View().draining == Some(m) && m < |metas|
      modifies `finishedSending, `rest
      ensures done <==> Enabled(old(View()), DoCancelEnd(requestId))
      ensures View() == if done then CancelEnd(old(View()), requestId) else old(View())
    {
      done := metas[m].sending == 0;
      if done {
        finishedSending := finishedSending - {requestId};
        rest := rest.(draining := None, released := rest.released + {m});
      }
    }

    /** The transfers that `_preempt_send` cancels. */
    method ToPreempt(requestId: string) returns (ids: seq<string>)
      requires TableValid(View())
      ensures NoDuplicates(ids)
      ensures forall t :: t in ids <==>
                t in reqsNeedSend && metas[reqsNeedSend[t]].requestId == requestId && metas[reqsNeedSend[t]].ready
    {
      ids := [];
      var left := reqsNeedSend.Keys;
      while left != {}
        invariant left <= reqsNeedSend.Keys && NoDuplicates(ids)
        invariant forall t :: t in ids <==>
                    t in reqsNeedSend.Keys - left
                    && metas[reqsNeedSend[t]].requestId == requestId && metas[reqsNeedSend[t]].ready
        decreases left
      {
        var t :| t in left;
        if metas[reqsNeedSend[t]].requestId == requestId && metas[reqsNeedSend[t]].ready {
          ids := ids + [t];
        }
        left := left - {t};
      }
    }

    /** `fetch_finished_sending_reqs`. */
    method FetchFinished(now: int) returns (results: seq<Report>)
      requires TableValid(View())
      modifies this
      ensures View() == Poll(old(View()), now)
      ensures forall t :: t in reqsNeedSend <==>
                t in old(reqsNeedSend) && !O.Overdue(old(metas)[old(reqsNeedSend)[t]], now)
      ensures forall r :: r in results <==>
                if r.timedOut then
                  exists t :: t in old(reqsNeedSend) && O.Overdue(old(metas)[old(reqsNeedSend)[t]], now)
                              && old(metas)[old(reqsNeedSend)[t]].requestId == r.requestId
                else r.requestId in old(finishedSending)
    {
      var finished := TakeFinished();
      var expired := DropExpired(now);
      results := finished + expired;
    }

    method TakeFinished() returns (results: seq<Report>)
      modifies `finishedSending
      ensures finishedSending == {}
      ensures forall r :: r in results <==> !r.timedOut && r.requestId in old(finishedSending)
    {
      results := [];
      while finishedSending != {}
        invariant finishedSending <= old(finishedSending)
        invariant forall r :: r in results <==> !r.timedOut && r.requestId in old(finishedSending) - finishedSending
        decreases finishedSending
      {
        var r :| r in finishedSending;
        results := results + [Report(r, false)];
        finishedSending := finishedSending - {r};
      }
    }

    method DropExpired(now: int) returns (results: seq<Report>)
      requires TableValid(View()) && finishedSending == {}
      modifies `reqsNeedSend, `rest
      ensures View() == Poll(old(View()), now)
      ensures forall r :: r in results <==> r.timedOut && Reported(old(View()), ExpiredIds(old(View()), now), r)
    {
      ghost var s := View();
      ghost var gone := ExpiredIds(s, now);
      results := [];
      var left := reqsNeedSend.Keys;
      while left != {}
        invariant left <= s.table.Keys && rest == old(rest) && reqsNeedSend == s.table - (gone - left)
        invariant forall r :: r in results <==> r.timedOut && Reported(s, gone - left, r)
        decreases left
      {
        var t :| t in left;
        var meta := metas[reqsNeedSend[t]];
        if meta.requestId != "" && meta.deadline.Some? && meta.deadline.value < now && meta.sending == 0 {
          results := results + [Report(meta.requestId, true)];
          reqsNeedSend := reqsNeedSend - {t};
          assert gone - (left - {t}) == gone - left + {t};
        } else {
          assert gone - (left - {t}) == gone - left;
        }
        left := left - {t};
      }
      rest := rest.(released := rest.released + set t | t in gone :: s.table[t]);
    }

    /** `send_kv_to_decode` up to its first wait: placeholders for what P has not prepared yet. */
    method Open(rank: int, pulls: seq<Pull>) returns (pending: map<string, nat>)
      requires TableValid(View())
      modifies this
      ensures View() == SendProtocol.Open(old(View()), rank, pulls)
      ensures pending == View().handlers[|View().handlers| - 1].waiting
    {
      ghost var s := View();
      pending := map[];
      for i := 0 to |pulls|
        invariant View() == OpenTable(s, rank, pulls[..i]).0 && pending == OpenTable(s, rank, pulls[..i]).1
        invariant TableValid(View()) && rest.handlers == s.handlers
      {
        assert pulls[..i + 1][..i] == pulls[..i];
        var m := GetOrCreate("", pulls[i].transferId);
        pending := pending[pulls[i].request := m];
        rest := rest.(used := rest.used[Turn(pulls[i].transferId, rank) := Origin(|s.handlers|, pulls[i].request)]);
      }
      assert pulls[..|pulls|] == pulls;
      rest := rest.(handlers := rest.handlers
                    + [Handler(rank, set p | p in pulls :: p.request, pending, Waiting, [])]);
    }

    /** Some waiters woke up; `failed` are the requests that planning will reject. */
    method Wake(h: nat, done: seq<Entry>, ghost failed: set<string>)
      returns (ready: seq<Entry>, expired: seq<string>)
      requires TableValid(View()) && CanWake(View(), h, done, failed) && DistinctMetas(done)
      modifies `metas, `rest
      ensures View() == SendProtocol.Wake(old(View()), h, done, failed)
      ensures View().handlers[h].phase == Writing(ready, failed, expired, View().handlers[h].waiting == map[])
      ensures forall e :: e in ready <==> e in done && O.IsNamed(old(reqsNeedSend), old(metas), e.meta)
      ensures forall q :: q in expired <==>
                exists e :: e in done && e.request == q && !O.IsNamed(old(reqsNeedSend), old(metas), e.meta)
      ensures forall e :: e in ready ==> metas[e.meta].sending == old(metas)[e.meta].sending + 1
    {
      ghost var s := View();
      ready, expired := StartReading(done);
      ghost var hd := s.handlers[h];
      ghost var waiting := hd.waiting - IdsOf(done);
      rest := rest.(handlers := s.handlers[h := hd.(waiting := waiting,
                                                    phase := Writing(ready, failed, expired, waiting == map[]))],
                    served := AddReadings(s.served, s.table, MetasOf(ready), hd.rank, h));
      O.WakeMeans(s, done);
    }

    /** The identity check, and `sending += 1` for the sources that pass it. */
    method StartReading(done: seq<Entry>) returns (ready: seq<Entry>, expired: seq<string>)
      requires DistinctMetas(done) && forall e :: e in done ==> e.meta < |metas|
      modifies `metas
      ensures ready == LiveEntries(old(View()), done) && expired == DeadIds(old(View()), done)
      ensures metas == StartSending(old(metas), MetasOf(ready), |peers|)
    {
      ready, expired := StartEach(View(), done);
    }

    method StartEach(ghost s: State, done: seq<Entry>) returns (ready: seq<Entry>, expired: seq<string>)
      requires s.table == reqsNeedSend && s.metas == metas
      requires DistinctMetas(done) && forall e :: e in done ==> e.meta < |metas|
      modifies `metas
      ensures ready == LiveEntries(s, done) && expired == DeadIds(s, done)
      ensures metas == StartSending(s.metas, MetasOf(ready), |peers|)
    {
      ready, expired := [], [];
      for i := 0 to |done|
        invariant ready == LiveEntries(s, done[..i]) && expired == DeadIds(s, done[..i])
        invariant metas == StartSending(s.metas, MetasOf(LiveEntries(s, done[..i])), |peers|)
      {
        var live := StartEntry(s, done, i);
        if live {
          ready := ready + [done[i]];
        } else {
          expired := expired + [done[i].request];
        }
      }
      assert done[..|done|] == done;
    }

    /** Entry `i` in turn. */
    method StartEntry(ghost s: State, done: seq<Entry>, i: nat) returns (live: bool)
      requires i < |done| && DistinctMetas(done) && done[i].meta < |metas|
      requires s.table == reqsNeedSend
      requires metas == StartSending(s.metas, MetasOf(LiveEntries(s, done[..i])), |peers|)
      modifies `metas
      ensures live == Live(s, done[i].meta)
      ensures LiveEntries(s, done[..i + 1]) == LiveEntries(s, done[..i]) + (if live then [done[i]] else [])
      ensures DeadIds(s, done[..i + 1]) == DeadIds(s, done[..i]) + (if live then [] else [done[i].request])
      ensures metas == StartSending(s.metas, MetasOf(LiveEntries(s, done[..i + 1])), |peers|)
    {
      StartOne(s, done, i, |peers|);
      live := StartIfLive(done[i].meta);
    }

    method StartIfLive(m: nat) returns (live: bool)
      requires m < |metas|
      modifies `metas
      ensures live == old(metas[m].transferId in reqsNeedSend && reqsNeedSend[metas[m].transferId] == m)
      ensures metas == if live then old(metas)[m := StartMeta(old(metas)[m], |peers|)] else old(metas)
    {
      live := metas[m].transferId in reqsNeedSend && reqsNeedSend[metas[m].transferId] == m;
      if live {
        metas := metas[m := metas[m].(sending := metas[m].sending + 1)];
        if metas[m].needSend == 0 {
          metas := metas[m := metas[m].(needSend := |peers|)];
        }
      }
    }

    /** The write returned: acknowledge the planned requests, then stop reading. */
    method Finish(h: nat, ready: seq<Entry>, failed: set<string>, expired: seq<string>, last: bool, success: bool)
      returns (response: Response)
      requires h < |View().handlers| && View().handlers[h].phase == Writing(ready, failed, expired, last)
      requires Orderly(View(), ready)
      modifies this
      ensures View() == SendProtocol.Finish(old(View()), h, success)
      ensures response == Answer(old(View()).handlers[h].phase, success)
      ensures forall q :: q in response.ok <==> success && q !in failed && O.IsFor(ready, q)
      ensures forall q :: q in response.err <==> (O.IsFor(ready, q) && (!success || q in failed)) || q in expired
      ensures response.status == if last then FINISH else CONTINUE
      ensures |metas| == |old(metas)|
      ensures forall m :: 0 <= m < |metas| ==>
                metas[m].sent == old(metas)[m].sent + if success && O.Sends(ready, failed, m) then 1 else 0
      ensures forall r :: r in finishedSending <==>
                r in old(finishedSending)
                || exists m: nat :: O.Completes(old(View()), ready, failed, success, m) && old(metas)[m].requestId == r
      ensures forall t :: t in reqsNeedSend <==>
                t in old(reqsNeedSend)
                && !(exists m: nat ::
                       O.Completes(old(View()), ready, failed, success, m) && old(metas)[m].transferId == t)
    {
      ghost var s := View();
      ghost var oks := MetasOf(Succeeded(s.handlers[h].phase, success));
      O.FinishMeans(s, h, success);
      O.AnswersMean(s.handlers[h].phase, success);
      response := WriteReturned(ready, failed, expired, last, success);
      ghost var hd := s.handlers[h];
      rest := rest.(handlers := s.handlers[h := hd.(phase := if last then Closed else Waiting,
                                                    out := hd.out + [response])],
                    acked := AddAcks(s.acked, oks, hd.rank),
                    released := s.released + Completed(s.table, s.metas, oks));
    }

    /** Nobody woke up in time: whatever is still waiting is answered with an error. */
    method TimeOut(h: nat, pending: map<string, nat>) returns (response: Response)
      requires h < |View().handlers| && View().handlers[h].phase.Waiting?
      requires View().handlers[h].waiting == pending && pending != map[]
      modifies `rest
      ensures Enumerates(response.err, pending.Keys) && response.ok == [] && response.status == FINISH
      ensures old(Enabled(View(), DoTimeOut(h, response.err)))
      ensures View() == SendProtocol.TimeOut(old(View()), h, response.err)
    {
      ghost var s := View();
      var ids: seq<string> := [];
      var left := pending.Keys;
      while left != {}
        invariant left <= pending.Keys && multiset(ids) + multiset(left) == multiset(pending.Keys)
        decreases left
      {
        var q :| q in left;
        ids := ids + [q];
        assert multiset(left) == multiset(left - {q}) + multiset{q};
        left := left - {q};
      }
      response := Response(FINISH, [], ids);
      ghost var hd := s.handlers[h];
      rest := rest.(handlers := s.handlers[h := hd.(waiting := map[], phase := Closed, out := hd.out + [response])]);
    }

    /** The write raised: the `finally` block still stops the reading. */
    method Abandon(h: nat, ready: seq<Entry>)
      requires h < |View().handlers| && View().handlers[h].phase.Writing? && View().handlers[h].phase.ready == ready
      requires Orderly(View(), ready)
      modifies `metas, `rest
      ensures View() == WriteRaises(old(View()), h)
    {
      ghost var s := View();
      NothingAcknowledged(Ledger(reqsNeedSend, metas, finishedSending));
      StopReading(ready, s.metas, {});
      rest := rest.(handlers := s.handlers[h := s.handlers[h].(waiting := map[], phase := Closed)]);
    }

    method WriteReturned(ready: seq<Entry>, failed: set<string>, expired: seq<string>, last: bool, success: bool)
      returns (response: Response)
      requires Orderly(View(), ready)
      modifies `reqsNeedSend, `metas, `finishedSending
      ensures var phase := Writing(ready, failed, expired, last);
              var oks := MetasOf(Succeeded(phase, success));
              var gone := Completed(old(reqsNeedSend), old(metas), oks);
              && response == Answer(phase, success)
              && metas == EndSending(old(metas), oks, MetasOf(ready))
              && reqsNeedSend == Pop(old(reqsNeedSend), old(metas), gone)
              && finishedSending == old(finishedSending) + Owners(old(metas), gone)
    {
      ghost var oks := MetasOf(Succeeded(Writing(ready, failed, expired, last), success));
      var ok, err := SortOut(ready, failed, success);
      StopReading(ready, old(metas), oks);
      response := Response(if last then FINISH else CONTINUE, ok, err + expired);
    }

    /** The successful and the failed requests of a write. */
    method SortOut(ready: seq<Entry>, failed: set<string>, success: bool) returns (ok: seq<string>, err: seq<string>)
      requires Orderly(View(), ready)
      modifies `reqsNeedSend, `metas, `finishedSending
      ensures Ledger(reqsNeedSend, metas, finishedSending)
              == Acknowledged(Ledger(old(reqsNeedSend), old(metas), old(finishedSending)),
                              MetasOf(if success then Select(ready, failed, false) else []))
      ensures ok == if success then Requests(Select(ready, failed, false)) else []
      ensures err == Requests(Select(ready, failed, true))
                     + if success then [] else Requests(Select(ready, failed, false))
    {
      ok := [];
      err := Requests(Select(ready, failed, true));
      if success {
        PlannedOrderly(View(), ready, failed);
        ok := Acknowledge(ready, failed);
      } else {
        err := err + Requests(Select(ready, failed, false));
        NothingAcknowledged(Ledger(reqsNeedSend, metas, finishedSending));
      }
    }

    /** `sent += 1` for the planned requests; the last acknowledgement finishes a send. */
    method Acknowledge(ready: seq<Entry>, failed: set<string>) returns (ok: seq<string>)
      requires SourcesApart(metas, Select(ready, failed, false))
      modifies `reqsNeedSend, `metas, `finishedSending
      ensures Ledger(reqsNeedSend, metas, finishedSending)
              == Acknowledged(Ledger(old(reqsNeedSend), old(metas), old(finishedSending)),
                              MetasOf(Select(ready, failed, false)))
      ensures ok == Requests(Select(ready, failed, false))
    {
      ghost var start := Ledger(reqsNeedSend, metas, finishedSending);
      ok := AcknowledgeEach(ready, failed);
      AcknowledgedInTurn(start, Select(ready, failed, false));
    }

    /** One after the other. */
    method AcknowledgeEach(ready: seq<Entry>, failed: set<string>) returns (ok: seq<string>)
      requires InLedger(Ledger(reqsNeedSend, metas, finishedSending), Select(ready, failed, false))
      modifies `reqsNeedSend, `metas, `finishedSending
      ensures Ledger(reqsNeedSend, metas, finishedSending)
              == AcknowledgeAll(Ledger(old(reqsNeedSend), old(metas), old(finishedSending)),
                                Select(ready, failed, false))
      ensures ok == Requests(Select(ready, failed, false))
    {
      ghost var start := Ledger(reqsNeedSend, metas, finishedSending);
      ok := [];
      for i := 0 to |ready|
        invariant InLedger(start, Select(ready[..i], failed, false))
        invariant Ledger(reqsNeedSend, metas, finishedSending)
               == AcknowledgeAll(start, Select(ready[..i], failed, false))
        invariant ok == Requests(Select(ready[..i], failed, false))
      {
        var planned := AcknowledgeTurn(start, ready, failed, i);
        if planned {
          ok := ok + [ready[i].request];
        }
      }
      assert ready[..|ready|] == ready;
    }

    /** Entry `i` in turn. */
    method AcknowledgeTurn(ghost start: Ledger, ready: seq<Entry>, failed: set<string>, i: nat)
      returns (planned: bool)
      requires i < |ready| && InLedger(start, Select(ready, failed, false))
      requires InLedger(start, Select(ready[..i], failed, false))
      requires Ledger(reqsNeedSend, metas, finishedSending)
               == AcknowledgeAll(start, Select(ready[..i], failed, false))
      modifies `reqsNeedSend, `metas, `finishedSending
      ensures planned <==> ready[i].request !in failed
      ensures Requests(Select(ready[..i + 1], failed, false))
              == if planned then Requests(Select(ready[..i], failed, false)) + [ready[i].request]
                 else Requests(Select(ready[..i], failed, false))
      ensures InLedger(start, Select(ready[..i + 1], failed, false))
      ensures Ledger(reqsNeedSend, metas, finishedSending)
              == AcknowledgeAll(start, Select(ready[..i + 1], failed, false))
    {
      SelectNext(ready, failed, i);
      planned := ready[i].request !in failed;
      if planned {
        AcknowledgeEntry(start, Select(ready[..i], failed, false), ready[i]);
      }
    }

    method AcknowledgeEntry(ghost start: Ledger, ghost planned: seq<Entry>, e: Entry)
      requires e.meta < |start.metas| && InLedger(start, planned)
      requires Ledger(reqsNeedSend, metas, finishedSending) == AcknowledgeAll(start, planned)
      modifies `reqsNeedSend, `metas, `finishedSending
      ensures Ledger(reqsNeedSend, metas, finishedSending) == AcknowledgeAll(start, planned + [e])
    {
      AcknowledgeNext(start, planned, e);
      CountSent(e.meta);
    }

    method CountSent(m: nat)
      requires m < |metas|
      modifies `reqsNeedSend, `metas, `finishedSending
      ensures Ledger(reqsNeedSend, metas, finishedSending)
              == AcknowledgeOne(Ledger(old(reqsNeedSend), old(metas), old(finishedSending)), m)
    {
      metas := metas[m := metas[m].(sent := metas[m].sent + 1)];
      if metas[m].sent == metas[m].needSend && metas[m].transferId in reqsNeedSend {
        finishedSending := finishedSending + {metas[m].requestId};
        reqsNeedSend := reqsNeedSend - {metas[m].transferId};
      }
    }

    /** `sending -= 1` for every source that was read. */
    method StopReading(ready: seq<Entry>, ghost before: seq<SendMeta>, ghost oks: set<nat>)
      requires metas == EndSending(before, oks, {}) && DistinctMetas(ready)
      requires forall e :: e in ready ==> e.meta < |before| && before[e.meta].sending > 0
      modifies `metas
      ensures metas == EndSending(before, oks, MetasOf(ready))
    {
      for i := 0 to |ready|
        invariant metas == EndSending(before, oks, MetasOf(ready[..i]))
      {
        var m := ready[i].meta;
        assert ready[i] in ready && m !in MetasOf(ready[..i]);
        assert MetasOf(ready[..i + 1]) == MetasOf(ready[..i]) + {m} by {
          assert forall e :: e in ready[..i + 1] <==> e in ready[..i] || e == ready[i];
        }
        metas := metas[m := metas[m].(sending := metas[m].sending - 1)];
      }
      assert ready[..|ready|] == ready;
    }
  }

  /** A write reads different sources of different transfers, and counts as reading each of them. */
  ghost predicate Orderly(s: State, ready: seq<Entry>) {
    && DistinctMetas(ready)
    && (forall e :: e in ready ==> e.meta < |s.metas| && s.metas[e.meta].sending > 0)
    && forall e, f :: e in ready && f in ready && s.metas[e.meta].transferId == s.metas[f.meta].transferId ==>
         e.meta == f.meta
  }

  /** In every run, what `Finish` relies on holds. */
  lemma WritesOrderly(s: State, h: nat)
    requires Inv(s) && h < |s.handlers| && s.handlers[h].phase.Writing?
    ensures Orderly(s, s.handlers[h].phase.ready)
  {
    var ready := s.handlers[h].phase.ready;
    forall e | e in ready
      ensures WriterValid(s, h, e.meta) && s.metas[e.meta].sending > 0
    {
      assert Holds(s.handlers[h], e.meta) && WriterValid(s, h, e.meta) && CountValid(s, e.meta);
      assert h in Writers(s.handlers, e.meta);
    }
  }

  lemma NotYetStarted(s: State, done: seq<Entry>, i: nat)
    requires i < |done| && DistinctMetas(done)
    ensures done[i].meta !in MetasOf(LiveEntries(s, done[..i]))
  {
    forall e | e in LiveEntries(s, done[..i])
      ensures e.meta != done[i].meta
    {
      LiveEntriesMember(s, done[..i], e);
    }
  }

  /** What one more waiter adds to the sources that are read. */
  lemma StartOne(s: State, done: seq<Entry>, i: nat, need: nat)
    requires i < |done| && DistinctMetas(done) && done[i].meta < |s.metas|
    ensures var m, before := done[i].meta, StartSending(s.metas, MetasOf(LiveEntries(s, done[..i])), need);
            && before[m] == s.metas[m]
            && LiveEntries(s, done[..i + 1]) == LiveEntries(s, done[..i]) + (if Live(s, m) then [done[i]] else [])
            && DeadIds(s, done[..i + 1]) == DeadIds(s, done[..i]) + (if Live(s, m) then [] else [done[i].request])
            && StartSending(s.metas, MetasOf(LiveEntries(s, done[..i + 1])), need)
               == if Live(s, m) then before[m := StartMeta(s.metas[m], need)] else before
  {
    assert done[..i + 1][..i] == done[..i];
    NotYetStarted(s, done, i);
    if Live(s, done[i].meta) {
      assert MetasOf(LiveEntries(s, done[..i]) + [done[i]]) == MetasOf(LiveEntries(s, done[..i])) + {done[i].meta};
    }
  }

  // ---------------------------------------------------------------- acknowledging one after the other

  /** What acknowledgements change. */
  datatype Ledger = Ledger(table: map<string, nat>, metas: seq<SendMeta>, finished: set<string>)

  /** Requester ids of the sources `ms`. */
  function Owners(metas: seq<SendMeta>, ms: set<nat>): set<string>
    requires forall m :: m in ms ==> m < |metas|
  {
    set m | m in ms :: metas[m].requestId
  }

  /** The entries' sources exist. */
  predicate InLedger(a: Ledger, ok: seq<Entry>) {
    forall e :: e in ok ==> e.meta < |a.metas|
  }

  function AcknowledgeOne(a: Ledger, m: nat): Ledger
    requires m < |a.metas|
  {
    var meta := a.metas[m].(sent := a.metas[m].sent + 1);
    var done := meta.sent == meta.needSend && meta.transferId in a.table;
    Ledger(if done then a.table - {meta.transferId} else a.table, a.metas[m := meta],
           if done then a.finished + {meta.requestId} else a.finished)
  }

  function AcknowledgeAll(a: Ledger, ok: seq<Entry>): (r: Ledger)
    requires InLedger(a, ok)
    ensures |r.metas| == |a.metas|
  {
    if ok == [] then a else AcknowledgeOne(AcknowledgeAll(a, ok[..|ok| - 1]), ok[|ok| - 1].meta)
  }

  lemma AcknowledgeNext(a: Ledger, ok: seq<Entry>, e: Entry)
    requires e.meta < |a.metas| && InLedger(a, ok)
    ensures AcknowledgeAll(a, ok + [e]) == AcknowledgeOne(AcknowledgeAll(a, ok), e.meta)
  {
    assert (ok + [e])[..|ok|] == ok;
  }

  /** The sources `oks` acknowledged together. */
  function Acknowledged(a: Ledger, oks: set<nat>): Ledger {
    var gone := Completed(a.table, a.metas, oks);
    Ledger(Pop(a.table, a.metas, gone), EndSending(a.metas, oks, {}), a.finished + Owners(a.metas, gone))
  }

  lemma NothingAcknowledged(a: Ledger)
    ensures Acknowledged(a, {}) == a
  {
    assert EndSending(a.metas, {}, {}) == a.metas;
    assert Completed(a.table, a.metas, {}) == {};
  }

  ghost predicate ApartFrom(a: Ledger, oks: set<nat>, m: nat) {
    && m < |a.metas| && m !in oks
    && forall k :: k in oks ==> k < |a.metas| && a.metas[k].transferId != a.metas[m].transferId
  }

  lemma CompletedOne(a: Ledger, oks: set<nat>, m: nat)
    requires ApartFrom(a, oks, m)
    ensures Completed(a.table, a.metas, oks + {m})
            == Completed(a.table, a.metas, oks)
               + if a.metas[m].sent + 1 == a.metas[m].needSend && a.metas[m].transferId in a.table then {m} else {}
  {
  }

  lemma PopOne(a: Ledger, gone: set<nat>, m: nat)
    requires ApartFrom(a, gone, m)
    ensures a.metas[m].transferId in Pop(a.table, a.metas, gone) <==> a.metas[m].transferId in a.table
    ensures Pop(a.table, a.metas, gone + {m}) == Pop(a.table, a.metas, gone) - {a.metas[m].transferId}
    ensures Owners(a.metas, gone + {m}) == Owners(a.metas, gone) + {a.metas[m].requestId}
  {
  }

  lemma EndOne(a: Ledger, oks: set<nat>, m: nat)
    requires ApartFrom(a, oks, m)
    ensures EndSending(a.metas, oks, {})[m] == a.metas[m]
    ensures EndSending(a.metas, oks + {m}, {})
            == EndSending(a.metas, oks, {})[m := a.metas[m].(sent := a.metas[m].sent + 1)]
  {
  }

  /** `AcknowledgeOne` by its fields. */
  lemma OneMoreFields(l: Ledger, l1: Ledger, meta: SendMeta, m: nat, done: bool)
    requires m < |l.metas| && l.metas[m] == meta
    requires done <==> meta.sent + 1 == meta.needSend && meta.transferId in l.table
    requires l1.metas == l.metas[m := meta.(sent := meta.sent + 1)]
    requires l1.table == if done then l.table - {meta.transferId} else l.table
    requires l1.finished == if done then l.finished + {meta.requestId} else l.finished
    ensures AcknowledgeOne(l, m) == l1
  {
  }

  predicate LastAcknowledgement(a: Ledger, m: nat)
    requires m < |a.metas|
  {
    a.metas[m].sent + 1 == a.metas[m].needSend && a.metas[m].transferId in a.table
  }

  lemma MoreTable(a: Ledger, oks: set<nat>, m: nat)
    requires ApartFrom(a, oks, m)
    ensures var l, l1 := Acknowledged(a, oks), Acknowledged(a, oks + {m});
            && (a.metas[m].transferId in l.table <==> a.metas[m].transferId in a.table)
            && l1.table == if LastAcknowledgement(a, m) then l.table - {a.metas[m].transferId} else l.table
  {
    CompletedOne(a, oks, m);
    PopOne(a, Completed(a.table, a.metas, oks), m);
    assert Completed(a.table, a.metas, oks) + {} == Completed(a.table, a.metas, oks);
  }

  lemma MoreFinished(a: Ledger, oks: set<nat>, m: nat)
    requires ApartFrom(a, oks, m)
    ensures Acknowledged(a, oks + {m}).finished
            == if LastAcknowledgement(a, m) then Acknowledged(a, oks).finished + {a.metas[m].requestId}
               else Acknowledged(a, oks).finished
  {
    CompletedOne(a, oks, m);
    PopOne(a, Completed(a.table, a.metas, oks), m);
    assert Completed(a.table, a.metas, oks) + {} == Completed(a.table, a.metas, oks);
  }

  /** Acknowledging one more source, whose transfer was not acknowledged so far. */
  lemma OneMore(a: Ledger, oks: set<nat>, m: nat)
    requires ApartFrom(a, oks, m)
    ensures AcknowledgeOne(Acknowledged(a, oks), m) == Acknowledged(a, oks + {m})
  {
    MoreTable(a, oks, m);
    MoreFinished(a, oks, m);
    EndOne(a, oks, m);
    OneMoreFields(Acknowledged(a, oks), Acknowledged(a, oks + {m}), a.metas[m], m, LastAcknowledgement(a, m));
  }

  ghost predicate SourcesApart(metas: seq<SendMeta>, ok: seq<Entry>) {
    && (forall e :: e in ok ==> e.meta < |metas|)
    && forall i, j :: 0 <= i < j < |ok| ==>
         ok[i].meta != ok[j].meta && metas[ok[i].meta].transferId != metas[ok[j].meta].transferId
  }

  /** One after the other is the same as together, if the sources belong to different transfers. */
  lemma {:induction false} AcknowledgedInTurn(a: Ledger, ok: seq<Entry>)
    requires SourcesApart(a.metas, ok)
    ensures AcknowledgeAll(a, ok) == Acknowledged(a, MetasOf(ok))
  {
    if ok == [] {
      NothingAcknowledged(a);
    } else {
      var n := |ok| - 1;
      AcknowledgedInTurn(a, ok[..n]);
      assert MetasOf(ok) == MetasOf(ok[..n]) + {ok[n].meta} by {
        assert forall e :: e in ok <==> e in ok[..n] || e == ok[n];
      }
      OneMore(a, MetasOf(ok[..n]), ok[n].meta);
    }
  }

  lemma {:induction false} SelectPrefix(entries: seq<Entry>, ids: set<string>, wanted: bool, i: nat)
    requires i <= |entries|
    ensures Select(entries[..i], ids, wanted) <= Select(entries, ids, wanted)
  {
    if i < |entries| {
      var n := |entries| - 1;
      assert entries[..n][..i] == entries[..i];
      SelectPrefix(entries[..n], ids, wanted, i);
    } else {
      assert entries[..i] == entries;
    }
  }

  lemma SelectNext(ready: seq<Entry>, failed: set<string>, i: nat)
    requires i < |ready|
    ensures Select(ready[..i + 1], failed, false)
            == if ready[i].request in failed then Select(ready[..i], failed, false)
               else Select(ready[..i], failed, false) + [ready[i]]
    ensures Requests(Select(ready[..i + 1], failed, false))
            == if ready[i].request in failed then Requests(Select(ready[..i], failed, false))
               else Requests(Select(ready[..i], failed, false)) + [ready[i].request]
    ensures Select(ready[..i + 1], failed, false) <= Select(ready, failed, false)
    ensures ready[i].request !in failed ==> ready[i] in Select(ready, failed, false)
  {
    assert ready[..i + 1][..i] == ready[..i];
    SelectPrefix(ready, failed, false, i + 1);
    SelectMember(ready, failed, false, ready[i]);
  }

  lemma {:induction false} PlannedOrderly(s: State, ready: seq<Entry>, failed: set<string>)
    requires Orderly(s, ready)
    ensures SourcesApart(s.metas, Select(ready, failed, false))
  {
    if ready != [] {
      var n := |ready| - 1;
      PlannedOrderly(s, ready[..n], failed);
      forall e | e in Select(ready[..n], failed, false)
        ensures e in ready && e.meta != ready[n].meta
      {
        SelectMember(ready[..n], failed, false, e);
      }
    }
  }

  /** A report is about a finished request, or about the owner of one of the expired sources `gone`. */
  ghost predicate Reported(s: State, gone: set<string>, r: Report)
    requires TableValid(s) && gone <= s.table.Keys
  {
    if r.timedOut then exists t :: t in gone && s.metas[s.table[t]].requestId == r.requestId
    else r.requestId in s.finished
  }
}
