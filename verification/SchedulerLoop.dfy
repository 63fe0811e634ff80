/** The scheduler in its own form: the collections that vLLM's calls update, and the metadata built for each step. */
module SchedulerLoop {
  import opened Arithmetic
  import opened Common
  import C = Chunks
  import SR = SaveRanges
  import RB = ReleaseBarrier
  import LS = LoadStages
  import opened TwoStage

  /**
   A scheduled request as the scheduler output lists it. A new one brings its whole block table, a cached one the blocks
   it got, if any; tokens and hashes are those of the request object.
   */
  datatype Item = Item(request: string, isNew: bool, blocks: Option<seq<seq<int>>>, tokenCount: nat, numTokens: nat,
                       hashes: seq<C.Hash>)

  /** Tracked requests and the saves built so far. */
  datatype Saves = Saves(tracked: map<string, SR.Tracked>, requests: seq<RB.SaveRequest>)

  /** The request when its save is built; a cached one may fail with a changed number of groups. */
  function Refreshed(t: SR.Tracked, item: Item): Option<SR.Tracked> {
    var blocks := if item.isNew then item.blocks else SR.Appended(t.blocks, item.blocks);
    if blocks.None? then None
    else Some(t.(blocks := blocks.value, numTokens := item.numTokens, hashes := item.hashes))
  }

  /** Saves are built for tracked requests, not for what is being loaded, and for decode only on demand. */
  predicate Skipped(s: Saves, item: Item, loading: set<string>, decodeSave: bool) {
    || item.request !in s.tracked || (item.isNew && item.request in loading)
    || (s.tracked[item.request].decode && !decodeSave)
  }

  function SaveItem(size: nat, s: Saves, item: Item, loading: set<string>, decodeSave: bool): Option<Saves>
    requires size > 0
  {
    if Skipped(s, item, loading, decodeSave) then Some(s)
    else
      match Refreshed(s.tracked[item.request], item)
      case None => None
      case Some(t) =>
        var save := SR.BuildSave(size, t, item.tokenCount);
        Some(Saves(s.tracked[item.request := SR.AfterSave(size, t, item.tokenCount)],
                   s.requests + if save.Some? then [RB.SaveRequest(item.request, save.value)] else []))
  }

  function SaveItems(size: nat, s: Saves, items: seq<Item>, loading: set<string>, decodeSave: bool): Option<Saves>
    requires size > 0
  {
    if items == [] then Some(s)
    else
      match SaveItems(size, s, items[..|items| - 1], loading, decodeSave)
      case None => None
      case Some(s1) => SaveItem(size, s1, items[|items| - 1], loading, decodeSave)
  }

  /** The saves of a step, if this side saves at all, and how far each request is saved then. */
  function DueSaves(size: nat, saves: bool, decodeSave: bool, tracked: map<string, SR.Tracked>, loading: set<string>,
                    items: seq<Item>): Option<Saves>
    requires size > 0
  {
    if saves then SaveItems(size, Saves(tracked, []), items, loading, decodeSave) else Some(Saves(tracked, []))
  }

  /** An allocated request is tracked from now on; a further allocation brings its whole block table. */
  function Tracking(tracked: map<string, SR.Tracked>, r: string, allBlocks: seq<seq<int>>, initial: SR.Tracked)
    : map<string, SR.Tracked>
  {
    tracked[r := if r !in tracked then initial.(blocks := allBlocks)
                 else if allBlocks != [] then tracked[r].(blocks := allBlocks)
                 else tracked[r]]
  }

  class Scheduler {
    const blockSize: nat
    const isProducer: bool
    const isConsumer: bool
    const decodeSave: bool
    const hasMamba: bool
    var trackedRequests: map<string, SR.Tracked>
    var loadDecisions: map<string, LS.LoadSpec>
    var transferDecisions: map<string, LS.TransferSpec>
    var batchPoolLoads: seq<LS.LoadRequest>
    var batchTransfers: seq<TransferPlan>
    /** Requests whose parameters say `do_remote_prefill`. */
    var remotePrefill: set<string>
    var nextLoadId: nat
    var finishedWaits: map<string, RB.Wait>
    var savingRequests: set<string>
    var delayedReleases: set<string>
    var transferringRequests: set<string>
    var batchTransferState: seq<RB.SourceState>

    ghost function Decider(): LS.Decider
      reads this
    {
      LS.Decider(loadDecisions, transferDecisions, batchPoolLoads, batchTransfers, remotePrefill, nextLoadId)
    }

    ghost function Issuer(): RB.Issuer
      reads this
    {
      RB.Issuer(savingRequests, delayedReleases, finishedWaits, batchTransferState)
    }

    constructor (blockSize: nat, isProducer: bool, isConsumer: bool, decodeSave: bool, hasMamba: bool)
      ensures Issuer() == RB.START.sch && Decider() == LS.Decider(map[], map[], [], [], {}, 0)
      ensures trackedRequests == map[] && this.blockSize == blockSize && this.isProducer == isProducer
      ensures this.isConsumer == isConsumer && this.decodeSave == (decodeSave && isConsumer)
      ensures this.hasMamba == hasMamba
    {
      this.blockSize, this.isProducer, this.isConsumer := blockSize, isProducer, isConsumer;
      this.decodeSave, this.hasMamba := decodeSave && isConsumer, hasMamba;
      trackedRequests, loadDecisions, transferDecisions, finishedWaits := map[], map[], map[], map[];
      batchPoolLoads, batchTransfers, batchTransferState := [], [], [];
      remotePrefill, savingRequests, delayedReleases, transferringRequests, nextLoadId := {}, {}, {}, {}, 0;
    }

    /** The tokens that D asks for: the last one is recomputed when there are Mamba layers. */
    function Target(promptTokens: nat): (tokens: nat)
      ensures !hasMamba || promptTokens <= 1 ==> tokens == promptTokens
      ensures hasMamba && promptTokens > 1 ==> tokens + 1 == promptTokens
    {
      if hasMamba && promptTokens > 1 then promptTokens - 1 else promptTokens
    }

    /**
     `get_num_new_matched_tokens`; `lookup` is the Store's answer, if there is one yet. Nothing is returned while the
     lookup is pending.
     */
    method GetNumNewMatchedTokens(r: string, promptTokens: nat, computed: nat, lookup: Option<nat>)
      returns (external: Option<int>, asynchronous: bool)
      requires blockSize > 0 && (r in remotePrefill ==> isConsumer)
      modifies `loadDecisions, `transferDecisions
      ensures external.None? <==> Target(promptTokens) >= blockSize && lookup.None?
      ensures external.None? ==> Decider() == old(Decider()) && !asynchronous
      ensures external.Some? ==>
                var hit := if Target(promptTokens) < blockSize then 0 else lookup.value;
                && Decider() == LS.Match(old(Decider()), r, computed, hit, Target(promptTokens))
                && (asynchronous <==> external.value > 0)
                && loadDecisions == (if hit > computed then old(loadDecisions)[r := LS.LoadSpec(computed, hit)]
                                     else old(loadDecisions) - {r})
                && (if r in remotePrefill then
                      && transferDecisions
                         == old(transferDecisions)[r := LS.TransferSpec(computed, hit, Target(promptTokens))]
                      && external == Some(Target(promptTokens) - computed)
                    else
                      && transferDecisions == old(transferDecisions)
                      && external == Some(if hit > computed then hit - computed else 0))
    {
      var target := Target(promptTokens);
      var lookupTokens := target / blockSize * blockSize;
      var hit := 0;
      if lookupTokens >= blockSize {
        if lookup.None? {
          return None, false;
        }
        hit := lookup.value;
      }
      loadDecisions := loadDecisions - {r};
      if hit > computed {
        loadDecisions := loadDecisions[r := LS.LoadSpec(computed, hit)];
      }
      if r !in remotePrefill {
        external := Some(Max(0, hit - computed));
        asynchronous := external.value > 0;
        return;
      }
      transferDecisions := transferDecisions - {r};
      transferDecisions := transferDecisions[r := LS.TransferSpec(computed, hit, target)];
      external := Some(target - computed);
      asynchronous := external.value > 0;
    }

    /** P announces a request that it will send, once, if the request has a transfer id and is not received itself. */
    ghost predicate Announces(r: string, remoteDecode: bool, named: bool)
      reads this
    {
      r !in transferDecisions && isProducer && remoteDecode && r !in transferringRequests && named
    }

    /**
     `update_state_after_alloc`: decisions become operations of the next step. `remoteDecode` tells that P is to send
     the request's cache and `named` that the request has a transfer id.
     */
    method UpdateStateAfterAlloc(r: string, a: LS.Allocation, initial: SR.Tracked, remoteDecode: bool, named: bool)
      modifies this
      ensures Decider() == LS.Allocate(old(Decider()), r, a)
      ensures Issuer() == if old(Announces(r, remoteDecode, named)) then RB.Prepare(old(Issuer()), r) else old(Issuer())
      ensures transferringRequests
              == old(transferringRequests) + if old(Announces(r, remoteDecode, named)) then {r} else {}
      ensures trackedRequests == Tracking(old(trackedRequests), r, a.allBlocks, initial)
      ensures loadDecisions == old(loadDecisions) - {r} && transferDecisions == old(transferDecisions) - {r}
      ensures r in old(loadDecisions) ==>
                var spec := old(loadDecisions)[r];
                batchPoolLoads == old(batchPoolLoads)
                                  + [LS.LoadRequest(r, a.allBlocks, a.hashes, spec.computed, spec.hit, nextLoadId)]
      ensures r in old(transferDecisions) ==>
                var spec := old(transferDecisions)[r];
                batchTransfers == old(batchTransfers)
                                  + [TransferPlan(r, a.transferId, spec.computed, spec.hit, spec.target, a.allBlocks,
                                                  a.externalBlocks, a.sizes, a.windows, nextLoadId)]
      ensures r !in old(loadDecisions) ==> batchPoolLoads == old(batchPoolLoads)
      ensures r !in old(transferDecisions) ==> batchTransfers == old(batchTransfers)
      ensures r in old(loadDecisions) || r in old(transferDecisions) ==> nextLoadId == old(nextLoadId) + 1
      ensures remotePrefill == old(remotePrefill) - if r in old(transferDecisions) then {r} else {}
      ensures batchTransferState
              == old(batchTransferState)
                 + if old(r !in transferDecisions && isProducer && remoteDecode && r !in transferringRequests && named)
                   then [RB.SourceState(r, RB.Prepared)] else []
      ensures r in trackedRequests && (r !in old(trackedRequests) || a.allBlocks != [] ==>
                trackedRequests[r].blocks == a.allBlocks)
    {
      Track(r, a.allBlocks, initial);
      var remote := r in transferDecisions;
      ConsumeDecisions(r, a);
      if !remote && isProducer && remoteDecode && r !in transferringRequests && named {
        batchTransferState := batchTransferState + [RB.SourceState(r, RB.Prepared)];
        transferringRequests := transferringRequests + {r};
      }
    }

    method Track(r: string, allBlocks: seq<seq<int>>, initial: SR.Tracked)
      modifies `trackedRequests
      ensures trackedRequests == Tracking(old(trackedRequests), r, allBlocks, initial)
    {
      if r !in trackedRequests {
        trackedRequests := trackedRequests[r := initial.(blocks := allBlocks)];
      } else if allBlocks != [] {
        trackedRequests := trackedRequests[r := trackedRequests[r].(blocks := allBlocks)];
      }
    }

    method ConsumeDecisions(r: string, a: LS.Allocation)
      modifies `loadDecisions, `transferDecisions, `batchPoolLoads, `batchTransfers, `remotePrefill, `nextLoadId
      ensures Decider() == LS.Allocate(old(Decider()), r, a)
    {
      var load := if r in loadDecisions then Some(loadDecisions[r]) else None;
      var transfer := if r in transferDecisions then Some(transferDecisions[r]) else None;
      loadDecisions := loadDecisions - {r};
      transferDecisions := transferDecisions - {r};
      if load.Some? || transfer.Some? {
        nextLoadId := nextLoadId + 1;
      }
      if load.Some? {
        batchPoolLoads := batchPoolLoads
          + [LS.LoadRequest(r, a.allBlocks, a.hashes, load.value.computed, load.value.hit, nextLoadId)];
      }
      if transfer.Some? {
        batchTransfers := batchTransfers
          + [TransferPlan(r, a.transferId, transfer.value.computed, transfer.value.hit, transfer.value.target,
                          a.allBlocks, a.externalBlocks, a.sizes, a.windows, nextLoadId)];
        remotePrefill := remotePrefill - {r};
      }
    }

    /** The part of `build_connector_meta` that builds saves. */
    method BuildSaves(items: seq<Item>) returns (saves: seq<RB.SaveRequest>)
      requires blockSize > 0
      requires SaveItems(blockSize, Saves(trackedRequests, []), items, Loading(batchPoolLoads), decodeSave).Some?
      modifies `trackedRequests, `savingRequests
      ensures Saves(trackedRequests, saves)
              == SaveItems(blockSize, Saves(old(trackedRequests), []), items, Loading(batchPoolLoads), decodeSave).value
      ensures savingRequests == old(savingRequests) + RB.Saved(saves)
    {
      ghost var start := Saves(trackedRequests, []);
      var loading := set x | x in batchPoolLoads :: x.request;
      assert loading == Loading(batchPoolLoads);
      saves := [];
      for i := 0 to |items|
        invariant SaveItems(blockSize, start, items[..i], loading, decodeSave) == Some(Saves(trackedRequests, saves))
        invariant savingRequests == old(savingRequests) + RB.Saved(saves)
      {
        PrefixDefined(blockSize, start, items, i + 1, loading, decodeSave);
        assert items[..i + 1][..i] == items[..i];
        ghost var before := Saves(trackedRequests, saves);
        assert SaveItems(blockSize, start, items[..i + 1], loading, decodeSave)
            == SaveItem(blockSize, before, items[i], loading, decodeSave);
        var save := BuildSave(items[i], loading, before);
        assert saves + [] == saves;
        if save.Some? {
          assert RB.Saved(saves + [save.value]) == RB.Saved(saves) + {items[i].request} by {
            assert forall x :: x in saves + [save.value] <==> x in saves || x == save.value;
          }
          saves := saves + [save.value];
        }
      }
      assert items[..|items|] == items;
    }

    /** One scheduled request, with `_append_blocks` and `_build_save_meta`. */
    method BuildSave(item: Item, loading: set<string>, ghost s: Saves) returns (save: Option<RB.SaveRequest>)
      requires blockSize > 0 && s.tracked == trackedRequests && SaveItem(blockSize, s, item, loading, decodeSave).Some?
      modifies `trackedRequests, `savingRequests
      ensures Saves(trackedRequests, s.requests + if save.Some? then [save.value] else [])
              == SaveItem(blockSize, s, item, loading, decodeSave).value
      ensures save.Some? ==> save.value.request == item.request
      ensures savingRequests == old(savingRequests) + if save.Some? then {item.request} else {}
      ensures !Skipped(s, item, loading, decodeSave) ==>
                item.request in trackedRequests
                && SR.CaughtUp(blockSize, trackedRequests[item.request], item.tokenCount)
                && Some(trackedRequests[item.request].blocks)
                   == if item.isNew then item.blocks
                      else SR.Appended(old(trackedRequests)[item.request].blocks, item.blocks)
      ensures save.Some? ==>
                && item.request in trackedRequests && save.value.event.hashes == item.hashes
                && save.value.event.blocks == trackedRequests[item.request].blocks
                && save.value.event.end == trackedRequests[item.request].saved
    {
      save := None;
      var r := item.request;
      if r !in trackedRequests || (item.isNew && r in loading) || (trackedRequests[r].decode && !decodeSave) {
        return;
      }
      var blocks := item.blocks;
      if !item.isNew {
        blocks := SR.AppendBlocks(trackedRequests[r].blocks, item.blocks);
      }
      var t := trackedRequests[r].(blocks := blocks.value, numTokens := item.numTokens, hashes := item.hashes);
      trackedRequests := trackedRequests[r := t];
      var event := SR.BuildSave(blockSize, t, item.tokenCount);
      SR.SaveCatchesUp(blockSize, t, item.tokenCount);
      if event.Some? {
        trackedRequests := trackedRequests[r := t.(saved := event.value.end)];
        savingRequests := savingRequests + {r};
        save := Some(RB.SaveRequest(r, event.value));
      }
    }

    /** What the listed requests can be saved: requires that no cached request changes its number of groups. */
    ghost predicate Savable(items: seq<Item>)
      reads this
      requires blockSize > 0
    {
      DueSaves(blockSize, isProducer || decodeSave, decodeSave, trackedRequests, Loading(batchPoolLoads), items).Some?
    }

    ghost function Due(items: seq<Item>): Saves
      reads this
      requires blockSize > 0 && Savable(items)
    {
      DueSaves(blockSize, isProducer || decodeSave, decodeSave, trackedRequests, Loading(batchPoolLoads), items).value
    }

    method BuildDueSaves(items: seq<Item>) returns (saves: seq<RB.SaveRequest>)
      requires blockSize > 0 && Savable(items)
      modifies `trackedRequests, `savingRequests
      ensures Saves(trackedRequests, saves) == old(Due(items))
      ensures savingRequests == old(savingRequests) + RB.Saved(saves)
    {
      saves := [];
      if isProducer || decodeSave {
        saves := BuildSaves(items);
      } else {
        assert RB.Saved([]) == {};
      }
    }

    /** `build_connector_meta`. */
    method BuildConnectorMeta(items: seq<Item>, finished: set<string>, preempted: set<string>)
      returns (loading: LS.Delta, saving: RB.Delta)
      requires blockSize > 0 && Savable(items)
      modifies this
      ensures loading == LS.Publish(old(Decider()), finished, preempted)
      ensures Decider() == LS.AfterPublish(old(Decider()), finished, preempted)
      ensures saving == RB.Published(old(Issuer()), old(Due(items)).requests, preempted)
      ensures Issuer() == RB.AfterBuild(old(Issuer()), old(Due(items)).requests, preempted)
      ensures transferringRequests == old(transferringRequests) - preempted
      ensures trackedRequests == old(Due(items)).tracked - preempted
      ensures loading.preempted == preempted && saving.preempted == preempted
      ensures forall x :: x in loading.loads <==> x in old(batchPoolLoads) && x.request !in preempted
      ensures forall x :: x in loading.plans <==>
                x in old(batchTransfers) && x.requestId !in finished && x.requestId !in preempted
      ensures forall x :: x in saving.saves <==> x in old(Due(items)).requests && x.request !in preempted
      ensures forall x :: x in saving.states <==> x in old(batchTransferState) && x.request !in preempted
      ensures saving.waits == old(finishedWaits) - preempted
      ensures batchPoolLoads == [] && batchTransfers == [] && batchTransferState == [] && finishedWaits == map[]
      ensures delayedReleases == old(delayedReleases) - preempted
    {
      var saves := BuildDueSaves(items);
      loading := PublishLoads(finished, preempted);
      saving := PublishSaves(saves, preempted);
      transferringRequests := transferringRequests - preempted;
    }

    method PublishLoads(finished: set<string>, preempted: set<string>) returns (loading: LS.Delta)
      modifies `loadDecisions, `transferDecisions, `batchPoolLoads, `batchTransfers
      ensures loading == LS.Publish(old(Decider()), finished, preempted)
      ensures Decider() == LS.AfterPublish(old(Decider()), finished, preempted)
    {
      batchPoolLoads := LS.KeepLoads(batchPoolLoads, preempted);
      batchTransfers := LS.KeepPlans(batchTransfers, finished + preempted);
      loadDecisions := loadDecisions - finished - preempted;
      transferDecisions := transferDecisions - finished - preempted;
      loading := LS.Delta(batchPoolLoads, batchTransfers, preempted);
      batchPoolLoads, batchTransfers := [], [];
    }

    /** `saving` already holds the requests of `built`. */
    method PublishSaves(built: seq<RB.SaveRequest>, preempted: set<string>) returns (saving: RB.Delta)
      modifies `trackedRequests, `finishedWaits, `savingRequests, `delayedReleases, `batchTransferState
      ensures saving == RB.Published(old(Issuer()), built, preempted)
      ensures Issuer() == RB.Issuer(old(savingRequests) - preempted, old(delayedReleases) - preempted, map[], [])
      ensures trackedRequests == old(trackedRequests) - preempted
    {
      batchTransferState := RB.WithoutStates(batchTransferState, preempted);
      finishedWaits := finishedWaits - preempted;
      delayedReleases := delayedReleases - preempted;
      trackedRequests := trackedRequests - preempted;
      savingRequests := savingRequests - preempted;
      saving := RB.Delta(RB.WithoutSaves(built, preempted), batchTransferState, finishedWaits, preempted);
      batchTransferState, finishedWaits := [], map[];
    }

    /** `request_finished`; `remoteDecode` tells that P is to send the request's cache. */
    method RequestFinished(r: string, remoteDecode: bool, capped: bool, blocks: seq<seq<int>>) returns (delay: bool)
      modifies `trackedRequests, `finishedWaits, `savingRequests, `delayedReleases, `batchTransferState,
               `transferringRequests
      ensures Issuer() == RB.Finish(old(Issuer()), r, isProducer && remoteDecode, capped, AnyBlocks(blocks))
      ensures delay <==>
                var wait := RB.WaitOf(old(Issuer()), r, isProducer && remoteDecode, capped, AnyBlocks(blocks));
                wait.storeSave || wait.kvTransfer
      ensures trackedRequests == if delay then old(trackedRequests) else old(trackedRequests) - {r}
      ensures transferringRequests == if delay then old(transferringRequests) else old(transferringRequests) - {r}
      ensures var some := exists ids :: ids in blocks && ids != [];
              var send, save := isProducer && remoteDecode && capped && some, r in old(savingRequests) && some;
              && (delay <==> send || save)
              && batchTransferState == old(batchTransferState)
                                       + (if send then [RB.SourceState(r, RB.Ready)]
                                          else if isProducer && remoteDecode then [RB.SourceState(r, RB.Cancelled)]
                                          else [])
              && finishedWaits == (if delay then old(finishedWaits)[r := RB.Wait(save, send)] else old(finishedWaits))
              && delayedReleases == old(delayedReleases) + (if delay then {r} else {})
              && savingRequests == old(savingRequests) - (if delay then {} else {r})
    {
      SomeBlocks(blocks);
      var transferDelay := false;
      if isProducer && remoteDecode {
        if capped && AnyBlocks(blocks) {
          batchTransferState := batchTransferState + [RB.SourceState(r, RB.Ready)];
          transferDelay := true;
        } else {
          batchTransferState := batchTransferState + [RB.SourceState(r, RB.Cancelled)];
        }
      }
      var saveDelay := r in savingRequests && AnyBlocks(blocks);
      delay := saveDelay || transferDelay;
      if delay {
        finishedWaits := finishedWaits[r := RB.Wait(saveDelay, transferDelay)];
        delayedReleases := delayedReleases + {r};
      } else {
        trackedRequests := trackedRequests - {r};
        savingRequests := savingRequests - {r};
        transferringRequests := transferringRequests - {r};
      }
    }

    /** `update_connector_output`. */
    method UpdateConnectorOutput(completed: set<string>)
      modifies `trackedRequests, `finishedWaits, `savingRequests, `delayedReleases, `transferringRequests
      ensures Issuer() == RB.Complete(old(Issuer()), completed)
      ensures trackedRequests == old(trackedRequests) - completed
      ensures transferringRequests == old(transferringRequests) - completed
      ensures delayedReleases == old(delayedReleases) - completed && finishedWaits == old(finishedWaits) - completed
      ensures savingRequests == old(savingRequests) - completed
    {
      delayedReleases := delayedReleases - completed;
      var left := completed;
      assert completed - left == {};
      while left != {}
        invariant left <= completed && delayedReleases == old(delayedReleases) - completed
        invariant finishedWaits == old(finishedWaits) - (completed - left)
        invariant trackedRequests == old(trackedRequests) - (completed - left)
        invariant savingRequests == old(savingRequests) - (completed - left)
        invariant transferringRequests == old(transferringRequests) - (completed - left)
        decreases left
      {
        var r :| r in left;
        assert completed - (left - {r}) == completed - left + {r};
        finishedWaits := finishedWaits - {r};
        trackedRequests := trackedRequests - {r};
        savingRequests := savingRequests - {r};
        transferringRequests := transferringRequests - {r};
        left := left - {r};
      }
      assert completed - left == completed;
    }
  }

  function Loading(loads: seq<LS.LoadRequest>): set<string> {
    set x | x in loads :: x.request
  }

  /** Python's `any(block_ids)`. */
  predicate AnyBlocks(blocks: seq<seq<int>>) {
    exists g :: 0 <= g < |blocks| && blocks[g] != []
  }

  lemma SomeBlocks(blocks: seq<seq<int>>)
    ensures AnyBlocks(blocks) <==> exists ids :: ids in blocks && ids != []
  {
    if AnyBlocks(blocks) {
      var g :| 0 <= g < |blocks| && blocks[g] != [];
      assert blocks[g] in blocks;
    }
  }

  lemma {:induction false} PrefixDefined(size: nat, s: Saves, items: seq<Item>, n: nat, loading: set<string>,
                                         decodeSave: bool)
    requires size > 0 && n <= |items| && SaveItems(size, s, items, loading, decodeSave).Some?
    ensures SaveItems(size, s, items[..n], loading, decodeSave).Some?
  {
    if n == |items| {
      assert items[..n] == items;
    } else {
      assert items[..|items| - 1][..n] == items[..n];
      PrefixDefined(size, s, items[..|items| - 1], n, loading, decodeSave);
    }
  }
}
