/**
 The worker in its own form: the dictionaries that `get_finished` and `handle_preemptions` update, request by request.
 Calls into the pool and the transfer appear as what is submitted and what they report.
 */
module WorkerLoop {
  import opened Arithmetic
  import opened Common
  import RB = ReleaseBarrier
  import LS = LoadStages
  import opened TwoStage

  /** A receive that is handed to the transfer. */
  datatype Recv = Recv(request: string, transferId: string, blocks: seq<seq<int>>)

  class Worker {
    var onLoadRequests: map<string, LS.LoadRequest>
    var onSaveRequests: set<string>
    var onTransfer: map<string, LS.TransferState>
    var finishedWaits: map<string, RB.WaitState>
    var loadErrors: set<int>

    ghost function Holder(): RB.Holder
      reads this
    {
      RB.Holder(onSaveRequests, finishedWaits)
    }

    ghost function Loader(): LS.Loader
      reads this
    {
      LS.Loader(onLoadRequests, onTransfer)
    }

    constructor ()
      ensures Holder() == RB.START.worker && Loader() == LS.Loader(map[], map[]) && loadErrors == {}
    {
      onLoadRequests, onTransfer, finishedWaits := map[], map[], map[];
      onSaveRequests, loadErrors := {}, {};
    }

    /** `handle_preemptions`. */
    method HandlePreemptions(preempted: set<string>)
      modifies `onLoadRequests, `onSaveRequests, `onTransfer, `finishedWaits
      ensures Holder() == RB.Forget(old(Holder()), preempted)
      ensures Loader() == LS.Forget(old(Loader()), preempted)
      ensures onLoadRequests == old(onLoadRequests) - preempted && onTransfer == old(onTransfer) - preempted
      ensures onSaveRequests == old(onSaveRequests) - preempted && finishedWaits == old(finishedWaits) - preempted
    {
      var left := preempted;
      assert preempted - left == {};
      while left != {}
        invariant left <= preempted
        invariant onSaveRequests == old(onSaveRequests) - (preempted - left)
        invariant finishedWaits == old(finishedWaits) - (preempted - left)
        invariant onTransfer == old(onTransfer) - (preempted - left)
        invariant onLoadRequests == old(onLoadRequests) - (preempted - left)
        decreases left
      {
        var r :| r in left;
        assert preempted - (left - {r}) == preempted - left + {r};
        onSaveRequests := onSaveRequests - {r};
        onTransfer := onTransfer - {r};
        onLoadRequests := onLoadRequests - {r};
        finishedWaits := finishedWaits - {r};
        left := left - {r};
      }
      assert preempted - left == preempted;
    }

    /** `update_load_metadata`. */
    method UpdateLoadMetadata(loads: seq<LS.LoadRequest>, plans: seq<TransferPlan>)
      modifies `onLoadRequests, `onTransfer
      ensures Loader() == LS.Loader(LS.AddLoads(old(onLoadRequests), loads), LS.AddPlans(old(onTransfer), plans))
      ensures forall r :: r in onTransfer && r !in old(onTransfer) ==>
                var st := onTransfer[r];
                && st.plan in plans && st.plan.requestId == r
                && st.stage == if st.plan.hit > st.plan.computed then LS.PoolLoading else LS.PoolDone
    {
      for i := 0 to |loads|
        invariant onLoadRequests == LS.AddLoads(old(onLoadRequests), loads[..i]) && onTransfer == old(onTransfer)
      {
        assert loads[..i + 1][..i] == loads[..i];
        onLoadRequests := onLoadRequests[loads[i].request := loads[i]];
      }
      assert loads[..|loads|] == loads;
      for i := 0 to |plans|
        invariant onTransfer == LS.AddPlans(old(onTransfer), plans[..i])
        invariant onLoadRequests == LS.AddLoads(old(onLoadRequests), loads)
      {
        assert plans[..i + 1][..i] == plans[..i];
        if plans[i].requestId !in onTransfer {
          var stage := if plans[i].hit > plans[i].computed then LS.PoolLoading else LS.PoolDone;
          onTransfer := onTransfer[plans[i].requestId := LS.TransferState(plans[i], stage, [], 0)];
        }
      }
      assert plans[..|plans|] == plans;
    }

    /** `update_save_metadata`: a running wait is reopened by a further save. */
    method UpdateSaveMetadata(saves: seq<RB.SaveRequest>)
      modifies `onSaveRequests, `finishedWaits
      ensures Holder() == RB.Saving(old(Holder()), RB.Saved(saves))
    {
      assert RB.Saved([]) == {};
      for i := 0 to |saves|
        invariant Holder() == RB.Saving(old(Holder()), RB.Saved(saves[..i]))
      {
        var r := saves[i].request;
        assert RB.Saved(saves[..i + 1]) == RB.Saved(saves[..i]) + {r} by {
          assert forall x :: x in saves[..i + 1] <==> x in saves[..i] || x == saves[i];
        }
        SavingNext(old(Holder()), RB.Saved(saves[..i]), r);
        onSaveRequests := onSaveRequests + {r};
        if r in finishedWaits {
          finishedWaits := finishedWaits[r := finishedWaits[r].(saveDone := false)];
        }
      }
      assert saves[..|saves|] == saves;
    }

    /** The end of `update_finished_metadata`. */
    method UpdateWaits(waits: map<string, RB.Wait>)
      modifies `finishedWaits
      ensures Holder() == RB.Awaiting(old(Holder()), waits)
    {
      var left := waits.Keys;
      while left != {}
        invariant left <= waits.Keys
        invariant finishedWaits.Keys == old(finishedWaits).Keys + (waits.Keys - left)
        invariant forall r :: r in finishedWaits ==>
                    finishedWaits[r] == if r in old(finishedWaits) then old(finishedWaits)[r]
                                        else RB.WaitState(waits[r], r !in onSaveRequests, false)
        decreases left
      {
        var r :| r in left;
        if r !in finishedWaits {
          finishedWaits := finishedWaits[r := RB.WaitState(waits[r], r !in onSaveRequests, false)];
        }
        left := left - {r};
      }
    }

    /** `_aggregate_send_finished`. */
    method AggregateSendFinished(saved: set<string>, sent: set<string>) returns (finished: set<string>)
      modifies `onSaveRequests, `finishedWaits
      ensures finished == RB.FinishedIds(RB.Marked(old(Holder()), saved, sent))
      ensures Holder() == RB.DropFinished(RB.Marked(old(Holder()), saved, sent))
    {
      MarkSaves(saved);
      MarkSends(sent);
      assert finishedWaits == RB.Marked(old(Holder()), saved, sent).waits;
      ghost var waits := finishedWaits;
      finished := {};
      var left := finishedWaits.Keys;
      while left != {}
        invariant left <= waits.Keys && onSaveRequests == old(onSaveRequests) - saved
        invariant finished == set r | r in waits && r !in left && RB.IsFinished(waits[r])
        invariant finishedWaits == waits - finished
        decreases left
      {
        var r :| r in left;
        if RB.IsFinished(finishedWaits[r]) {
          finished := finished + {r};
          finishedWaits := finishedWaits - {r};
        }
        left := left - {r};
      }
    }

    method MarkSaves(saved: set<string>)
      modifies `onSaveRequests, `finishedWaits
      ensures Holder() == RB.Marked(old(Holder()), saved, {})
    {
      var left := saved;
      while left != {}
        invariant left <= saved && onSaveRequests == old(onSaveRequests) - (saved - left)
        invariant finishedWaits == map r | r in old(finishedWaits) ::
                    old(finishedWaits)[r].(saveDone := old(finishedWaits)[r].saveDone || r in saved - left)
        decreases left
      {
        var r :| r in left;
        onSaveRequests := onSaveRequests - {r};
        if r in finishedWaits {
          finishedWaits := finishedWaits[r := finishedWaits[r].(saveDone := true)];
        }
        left := left - {r};
      }
    }

    method MarkSends(sent: set<string>)
      modifies `finishedWaits
      ensures Holder() == RB.Marked(old(Holder()), {}, sent)
    {
      var left := sent;
      while left != {}
        invariant left <= sent
        invariant finishedWaits == map r | r in old(finishedWaits) ::
                    old(finishedWaits)[r].(sendDone := old(finishedWaits)[r].sendDone || r in sent - left)
        decreases left
      {
        var r :| r in left;
        if r in finishedWaits {
          finishedWaits := finishedWaits[r := finishedWaits[r].(sendDone := true)];
        }
        left := left - {r};
      }
    }

    /** The loop of `_aggregate_recv_finished` over the pool's results. */
    method CollectLoads(results: map<string, LS.LoadResult>) returns (finished: set<string>)
      modifies `onLoadRequests
      ensures onLoadRequests == old(onLoadRequests) - results.Keys
      ensures finished == results.Keys - onTransfer.Keys
    {
      finished := {};
      var left := results.Keys;
      assert results.Keys - left == {};
      while left != {}
        invariant left <= results.Keys && onLoadRequests == old(onLoadRequests) - (results.Keys - left)
        invariant finished == (results.Keys - left) - onTransfer.Keys
        decreases left
      {
        var r :| r in left;
        assert results.Keys - (left - {r}) == results.Keys - left + {r};
        onLoadRequests := onLoadRequests - {r};
        if r !in onTransfer {
          finished := finished + {r};
        }
        left := left - {r};
      }
      assert results.Keys - left == results.Keys;
    }

    /** The loop that starts the receives of requests whose Store stage is over. */
    method StartTransfers(results: map<string, LS.LoadResult>) returns (events: seq<Recv>)
      requires LS.ResultsFit(Loader(), results)
      modifies `onTransfer
      ensures onTransfer == LS.Advanced(old(Loader()), results)
      ensures NoDuplicates(events)
      ensures forall e :: e in events <==>
                StartedBy(LS.Advanced(old(Loader()), results), LS.Receives(old(Loader()), results), e)
    {
      ghost var w := Loader();
      ghost var next, starts := LS.Advanced(w, results), LS.Receives(w, results);
      SweepEnds(onTransfer, next, {});
      assert onTransfer - {} == onTransfer && next - {} == next;
      events := [];
      var left := onTransfer.Keys;
      while left != {}
        invariant left <= w.onTransfer.Keys && onTransfer == Swept(w.onTransfer, next, {}, left)
        invariant NoDuplicates(events)
        invariant forall e :: e in events <==> StartedBy(next, starts - left, e)
        decreases left
      {
        var r :| r in left;
        SweepNext(w.onTransfer, next, {}, left, r);
        var event := StartIfReady(r, results, next[r], r in starts);
        StartedNext(next, starts, left, r, events, event);
        events := if event.Some? then events + [event.value] else events;
        left := left - {r};
      }
      assert starts - left == starts;
    }

    /** One request in that loop. */
    method StartIfReady(r: string, results: map<string, LS.LoadResult>, ghost next: LS.TransferState, ghost due: bool)
      returns (event: Option<Recv>)
      requires r in onTransfer && PlanShaped(onTransfer[r].plan)
      requires r in results ==> onTransfer[r].plan.computed <= results[r].loaded
      requires due <==> LS.StoreStageOver(onTransfer[r], r, results)
      requires next == if due then LS.ToReceive(onTransfer[r], r, results) else onTransfer[r]
      modifies `onTransfer
      ensures onTransfer == old(onTransfer)[r := next]
      ensures event == if due then Some(RecvOf(r, next)) else None
    {
      var st := onTransfer[r];
      event := None;
      if LS.StoreStageOver(st, r, results) {
        var recv := StartTransfer(r, LS.ActualPrefix(st, r, results), next);
        event := Some(recv);
      } else {
        assert onTransfer[r := st] == onTransfer;
      }
    }

    /** `_start_transfer`. */
    method StartTransfer(r: string, actual: nat, ghost next: LS.TransferState) returns (event: Recv)
      requires r in onTransfer && PlanShaped(onTransfer[r].plan) && onTransfer[r].plan.computed <= actual
      requires next == onTransfer[r].(stage := LS.TransferLoading, suffix := LS.Suffix(onTransfer[r].plan, actual),
                                      actual := actual)
      modifies `onTransfer
      ensures onTransfer == old(onTransfer)[r := next] && event == RecvOf(r, next)
    {
      var st := onTransfer[r];
      var suffix := SuffixBlocks(st.plan, actual);
      assert suffix == LS.Suffix(st.plan, actual);
      st := st.(suffix := suffix, actual := actual);
      event := Recv(r, st.plan.transferId, suffix);
      st := st.(stage := LS.TransferLoading);
      onTransfer := onTransfer[r := st];
    }

    /** The loop over the ended receives; those that ask for more than the local prefix are reported. */
    method CollectReceives(received: map<string, bool>) returns (finished: set<string>)
      modifies `onTransfer, `loadErrors
      ensures onTransfer == old(onTransfer) - received.Keys
      ensures finished == set r | r in received && r in old(onTransfer)
                                  && old(onTransfer)[r].plan.target > old(onTransfer)[r].plan.computed
      ensures loadErrors == old(loadErrors) + LS.FailedSuffixes(old(onTransfer), received)
    {
      ghost var before := onTransfer;
      finished := {};
      var left := received.Keys;
      assert received.Keys - left == {};
      while left != {}
        invariant left <= received.Keys && onTransfer == before - (received.Keys - left)
        invariant finished == set r | r in received && r !in left && r in before
                                      && before[r].plan.target > before[r].plan.computed
        invariant loadErrors == old(loadErrors) + FailedSoFar(before, received, left)
        decreases left
      {
        var r :| r in left;
        assert received.Keys - (left - {r}) == received.Keys - left + {r};
        if r in onTransfer {
          var st := onTransfer[r];
          onTransfer := onTransfer - {r};
          if received[r] {
            loadErrors := loadErrors + set group, b | group in st.suffix && b in group && b >= 0 :: b;
          }
          if st.plan.target > st.plan.computed {
            finished := finished + {r};
          }
        }
        left := left - {r};
      }
      assert received.Keys - left == received.Keys;
    }

    /** `_aggregate_recv_finished`. */
    method AggregateRecvFinished(results: map<string, LS.LoadResult>, received: map<string, bool>)
      returns (finished: set<string>, events: seq<Recv>)
      requires LS.ResultsFit(Loader(), results)
      modifies `onLoadRequests, `onTransfer, `loadErrors
      ensures Loader() == LS.Aggregate(old(Loader()), results, received)
      ensures finished == LS.FinishedRecv(old(Loader()), results, received)
      ensures forall r :: r in finished <==>
                || (r in results && r !in old(onTransfer))
                || (r in received && r in old(onTransfer)
                    && old(onTransfer)[r].plan.target > old(onTransfer)[r].plan.computed)
      ensures forall r :: r in onTransfer <==> r in old(onTransfer) && r !in received
      ensures NoDuplicates(events)
      ensures forall e :: e in events <==>
                StartedBy(LS.Advanced(old(Loader()), results), LS.Receives(old(Loader()), results), e)
      ensures loadErrors == old(loadErrors) + LS.FailedSuffixes(LS.Advanced(old(Loader()), results), received)
      ensures InProgress(old(onTransfer), received) ==>
                forall b :: b in loadErrors <==> b in old(loadErrors) || FailedBlock(old(onTransfer), received, b)
    {
      AggregateMeans(Loader(), results, received);
      finished, events := AggregateInTurn(results, received);
    }

    /** Its three loops. */
    method AggregateInTurn(results: map<string, LS.LoadResult>, received: map<string, bool>)
      returns (finished: set<string>, events: seq<Recv>)
      requires LS.ResultsFit(Loader(), results)
      modifies `onLoadRequests, `onTransfer, `loadErrors
      ensures Loader() == LS.Aggregate(old(Loader()), results, received)
      ensures finished == LS.FinishedRecv(old(Loader()), results, received)
      ensures NoDuplicates(events)
      ensures forall e :: e in events <==>
                StartedBy(LS.Advanced(old(Loader()), results), LS.Receives(old(Loader()), results), e)
      ensures loadErrors == old(loadErrors) + LS.FailedSuffixes(LS.Advanced(old(Loader()), results), received)
    {
      FinishedAfter(Loader(), results, received);
      var plain := CollectLoads(results);
      events := StartTransfers(results);
      var done := CollectReceives(received);
      finished := plain + done;
    }

    /** Blocks that the pool reports as untrusted count at once, unless a transfer in progress may overwrite them. */
    method RecordErrors(invalid: set<int>, broken: set<int>)
      requires forall r :: r in onTransfer ==> PlanShaped(onTransfer[r].plan)
      modifies `loadErrors
      ensures loadErrors == old(loadErrors) + (invalid - LS.Overwritable(Loader())) + broken
      ensures forall b :: b in loadErrors <==>
                || b in old(loadErrors) || b in broken || (b in invalid && !MayOverwrite(onTransfer, b))
    {
      var candidates: set<int> := {};
      var left := onTransfer.Keys;
      while left != {}
        invariant left <= onTransfer.Keys && loadErrors == old(loadErrors)
        invariant candidates
               == set r, b | r in onTransfer && r !in left && b in LS.PlanCandidates(onTransfer[r].plan) :: b
        decreases left
      {
        var r :| r in left;
        var blocks := CandidateBlocks(onTransfer[r].plan);
        assert forall b :: b in blocks <==> b in LS.PlanCandidates(onTransfer[r].plan);
        candidates := candidates + blocks;
        left := left - {r};
      }
      assert candidates == LS.Overwritable(Loader());
      loadErrors := loadErrors + (invalid - candidates);
      loadErrors := loadErrors + broken;
      forall b
        ensures b in LS.Overwritable(Loader()) <==> MayOverwrite(onTransfer, b)
      {
        OverwritableMeans(Loader(), b);
      }
    }

    /**
     `get_finished`: take in the metadata, then turn what the pool and the transfer report into what the scheduler is
     told.
     */
    method GetFinished(loading: LS.Delta, saving: RB.Delta, results: map<string, LS.LoadResult>, invalid: set<int>,
                       received: map<string, bool>, broken: set<int>, saved: set<string>, sent: set<string>)
      returns (finishedSend: set<string>, finishedRecv: set<string>, events: seq<Recv>)
      requires LS.ResultsFit(LS.Update(Loader(), loading), results)
      modifies this
      ensures var w := LS.Update(old(Loader()), loading);
              && Loader() == LS.Aggregate(w, results, received)
              && finishedRecv == LS.FinishedRecv(w, results, received)
              && loadErrors == LS.LoadErrors(old(loadErrors), w, invalid, broken, results, received)
              && (forall r :: r in finishedRecv <==>
                   || (r in results && r !in w.onTransfer)
                   || (r in received && r in w.onTransfer
                       && w.onTransfer[r].plan.target > w.onTransfer[r].plan.computed))
              && (InProgress(w.onTransfer, received) ==>
                   forall b :: b in loadErrors <==>
                     || b in old(loadErrors) || b in broken || FailedBlock(w.onTransfer, received, b)
                     || (b in invalid && !MayOverwrite(w.onTransfer, b)))
              && NoDuplicates(events)
              && (forall e :: e in events <==> StartedBy(LS.Advanced(w, results), LS.Receives(w, results), e))
              && forall e :: e in events ==>
                   && e.request in w.onTransfer && e.transferId == w.onTransfer[e.request].plan.transferId
                   && e.blocks == LS.Advanced(w, results)[e.request].suffix
      ensures var w := RB.Awaiting(RB.Saving(old(Holder()), RB.Saved(saving.saves)), saving.waits);
              && finishedSend == RB.FinishedIds(RB.Marked(w, saved, sent))
              && Holder() == RB.DropFinished(RB.Marked(w, saved, sent))
    {
      UpdateLoadMetadata(loading.loads, loading.plans);
      UpdateSaveMetadata(saving.saves);
      UpdateWaits(saving.waits);
      RecordErrors(invalid, broken);
      finishedRecv, events := AggregateRecvFinished(results, received);
      finishedSend := AggregateSendFinished(saved, sent);
    }
  }

  /** Only receives that are in progress end. */
  ghost predicate InProgress(onTransfer: map<string, LS.TransferState>, received: map<string, bool>) {
    forall r :: r in received && r in onTransfer ==> onTransfer[r].stage.TransferLoading?
  }

  /** Block `b` was requested for a receive that has failed. */
  ghost predicate FailedBlock(onTransfer: map<string, LS.TransferState>, received: map<string, bool>, b: int) {
    b >= 0 && exists r, group ::
                r in received && received[r] && r in onTransfer && group in onTransfer[r].suffix && b in group
  }

  /** Block `b` starts in the Store's range of the plan. */
  ghost predicate InStoreRange(plan: TransferPlan, g: nat, i: nat, b: int)
    requires PlanShaped(plan)
  {
    && g < |plan.sizes| && i < |plan.allBlocks[g]| && plan.allBlocks[g][i] == b
    && plan.computed <= i * plan.sizes[g] < plan.hit
  }

  ghost predicate AllShaped(onTransfer: map<string, LS.TransferState>) {
    forall r :: r in onTransfer ==> PlanShaped(onTransfer[r].plan)
  }

  /** Block `b` lies in the Store's range of a request that a transfer is to complete. */
  ghost predicate MayOverwrite(onTransfer: map<string, LS.TransferState>, b: int)
    requires AllShaped(onTransfer)
  {
    exists r, g: nat, i: nat :: r in onTransfer && InStoreRange(onTransfer[r].plan, g, i, b)
  }

  lemma CandidatesMean(plan: TransferPlan, b: int)
    requires PlanShaped(plan)
    ensures b in LS.PlanCandidates(plan) <==> exists g: nat, i: nat :: InStoreRange(plan, g, i, b)
  {
    forall g: nat, i: nat | g < |plan.sizes|
      ensures Candidate(plan, g, i) <==>
                plan.computed <= i * plan.sizes[g] < plan.hit && i < |plan.allBlocks[g]|
    {
      CeilDivIff(plan.computed, plan.sizes[g], i);
      CeilDivIff(plan.hit, plan.sizes[g], i);
    }
    if b in LS.PlanCandidates(plan) {
      var g: nat, i :| Candidate(plan, g, i) && plan.allBlocks[g][i] == b;
      assert InStoreRange(plan, g, i, b);
    }
    if exists g: nat, i: nat :: InStoreRange(plan, g, i, b) {
      var g: nat, i: nat :| InStoreRange(plan, g, i, b);
      assert Candidate(plan, g, i);
    }
  }

  lemma OverwritableMeans(w: LS.Loader, b: int)
    requires AllShaped(w.onTransfer)
    ensures b in LS.Overwritable(w) <==> MayOverwrite(w.onTransfer, b)
  {
    forall r | r in w.onTransfer
      ensures b in LS.PlanCandidates(w.onTransfer[r].plan) <==>
                exists g: nat, i: nat :: InStoreRange(w.onTransfer[r].plan, g, i, b)
    {
      CandidatesMean(w.onTransfer[r].plan, b);
    }
  }

  /** One more save. */
  lemma SavingNext(w: RB.Holder, requests: set<string>, r: string)
    ensures var w0, w1 := RB.Saving(w, requests), RB.Saving(w, requests + {r});
            && w1.onSave == w0.onSave + {r}
            && w1.waits == if r in w0.waits then w0.waits[r := w0.waits[r].(saveDone := false)] else w0.waits
  {
  }

  /** Starting receives leaves the plans as they are. */
  lemma FinishedAfter(w: LS.Loader, results: map<string, LS.LoadResult>, received: map<string, bool>)
    requires LS.ResultsFit(w, results)
    ensures var next := LS.Advanced(w, results);
            LS.FinishedRecv(w, results, received)
            == (results.Keys - w.onTransfer.Keys)
               + set r | r in received && r in next && next[r].plan.target > next[r].plan.computed
  {
  }

  lemma AggregateMeans(w: LS.Loader, results: map<string, LS.LoadResult>, received: map<string, bool>)
    requires LS.ResultsFit(w, results)
    ensures forall r :: r in LS.FinishedRecv(w, results, received) <==>
              || (r in results && r !in w.onTransfer)
              || (r in received && r in w.onTransfer && w.onTransfer[r].plan.target > w.onTransfer[r].plan.computed)
    ensures InProgress(w.onTransfer, received) ==>
              forall b :: b in LS.FailedSuffixes(LS.Advanced(w, results), received) <==>
                          FailedBlock(w.onTransfer, received, b)
  {
    forall b | InProgress(w.onTransfer, received)
      ensures b in LS.FailedSuffixes(LS.Advanced(w, results), received) <==> FailedBlock(w.onTransfer, received, b)
    {
      SuffixesMean(w, results, received, b);
    }
  }

  lemma SuffixesMean(w: LS.Loader, results: map<string, LS.LoadResult>, received: map<string, bool>, b: int)
    requires LS.ResultsFit(w, results) && InProgress(w.onTransfer, received)
    ensures b in LS.FailedSuffixes(LS.Advanced(w, results), received) <==> FailedBlock(w.onTransfer, received, b)
  {
    forall r | r in received && r in w.onTransfer
      ensures LS.Advanced(w, results)[r] == w.onTransfer[r]
    {
    }
  }

  function RecvOf(r: string, st: LS.TransferState): Recv {
    Recv(r, st.plan.transferId, st.suffix)
  }

  ghost predicate StartedBy(next: map<string, LS.TransferState>, starts: set<string>, e: Recv) {
    e.request in starts && e.request in next && e == RecvOf(e.request, next[e.request])
  }

  /** One more request of those that are left. */
  lemma StartedNext(next: map<string, LS.TransferState>, starts: set<string>, left: set<string>, r: string,
                    events: seq<Recv>, event: Option<Recv>)
    requires r in left && r in next && NoDuplicates(events)
    requires forall e :: e in events <==> StartedBy(next, starts - left, e)
    requires event == if r in starts then Some(RecvOf(r, next[r])) else None
    ensures var events1 := if event.Some? then events + [event.value] else events;
            NoDuplicates(events1) && forall e :: e in events1 <==> StartedBy(next, starts - (left - {r}), e)
  {
    if event.Some? {
      assert !StartedBy(next, starts - left, event.value);
    }
  }

  /** Failed suffix blocks of the receives that are not left. */
  function FailedSoFar(onTransfer: map<string, LS.TransferState>, received: map<string, bool>, left: set<string>)
    : set<int>
  {
    set r, group, b | r in received && r !in left && received[r] && r in onTransfer
                      && group in onTransfer[r].suffix && b in group && b >= 0 :: b
  }
}
