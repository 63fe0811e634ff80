/**
 Loading a request: the scheduler's lookup decisions become a Store load and a transfer plan, and the worker starts
 the receive from P only when the Store load has ended or was never needed.
 */
module LoadStages {
  import C = Chunks
  import opened TwoStage

  /** `KVPoolLoadSpec` and `TransferSpec`. */
  datatype LoadSpec = LoadSpec(computed: nat, hit: nat)

  datatype TransferSpec = TransferSpec(computed: nat, hit: nat, target: nat)

  /** `KVPoolLoadRequest`. */
  datatype LoadRequest = LoadRequest(request: string, blocks: seq<seq<int>>, hashes: seq<C.Hash>, start: nat, end: nat,
                                     loadId: nat)

  /** The part of `MTSCConnectorMetadata` that concerns loads. */
  datatype Delta = Delta(loads: seq<LoadRequest>, plans: seq<TransferPlan>, preempted: set<string>)

  /** What a request brings to `update_state_after_alloc`: its block tables, hashes and the layout of the groups. */
  datatype Allocation = Allocation(transferId: string, allBlocks: seq<seq<int>>, externalBlocks: seq<seq<int>>,
                                   hashes: seq<C.Hash>, sizes: seq<nat>, windows: seq<nat>)

  /** The scheduler's collections; `remote` are the requests that D is to receive from a P engine. */
  datatype Decider = Decider(loads: map<string, LoadSpec>, transfers: map<string, TransferSpec>,
                             batchLoads: seq<LoadRequest>, batchPlans: seq<TransferPlan>, remote: set<string>,
                             nextLoadId: nat)

  // ---------------------------------------------------------------- scheduler

  /** `get_num_new_matched_tokens` once the lookup has answered. */
  function Match(s: Decider, r: string, computed: nat, hit: nat, target: nat): Decider {
    s.(loads := if hit > computed then s.loads[r := LoadSpec(computed, hit)] else s.loads - {r},
       transfers := if r in s.remote then s.transfers[r := TransferSpec(computed, hit, target)] else s.transfers)
  }

  function LoadFor(s: Decider, r: string, a: Allocation, id: nat): LoadRequest
    requires r in s.loads
  {
    LoadRequest(r, a.allBlocks, a.hashes, s.loads[r].computed, s.loads[r].hit, id)
  }

  function PlanFor(s: Decider, r: string, a: Allocation, id: nat): TransferPlan
    requires r in s.transfers
  {
    var t := s.transfers[r];
    TransferPlan(r, a.transferId, t.computed, t.hit, t.target, a.allBlocks, a.externalBlocks, a.sizes, a.windows, id)
  }

  /** `update_state_after_alloc`. */
  function Allocate(s: Decider, r: string, a: Allocation): Decider {
    var id := s.nextLoadId + if r in s.loads || r in s.transfers then 1 else 0;
    Decider(s.loads - {r}, s.transfers - {r},
            s.batchLoads + (if r in s.loads then [LoadFor(s, r, a, id)] else []),
            s.batchPlans + (if r in s.transfers then [PlanFor(s, r, a, id)] else []),
            if r in s.transfers then s.remote - {r} else s.remote, id)
  }

  function KeepLoads(loads: seq<LoadRequest>, gone: set<string>): (r: seq<LoadRequest>)
    ensures forall x :: x in r <==> x in loads && x.request !in gone
  {
    if loads == [] then []
    else
      var n := |loads| - 1;
      var r := KeepLoads(loads[..n], gone);
      assert forall x :: x in loads <==> x in loads[..n] || x == loads[n];
      if loads[n].request in gone then r else r + [loads[n]]
  }

  function KeepPlans(plans: seq<TransferPlan>, gone: set<string>): (r: seq<TransferPlan>)
    ensures forall x :: x in r <==> x in plans && x.requestId !in gone
  {
    if plans == [] then []
    else
      var n := |plans| - 1;
      var r := KeepPlans(plans[..n], gone);
      assert forall x :: x in plans <==> x in plans[..n] || x == plans[n];
      if plans[n].requestId in gone then r else r + [plans[n]]
  }

  /** `build_connector_meta`: plans of finished and preempted requests and loads of preempted ones are dropped. */
  function Publish(s: Decider, finished: set<string>, preempted: set<string>): Delta {
    Delta(KeepLoads(s.batchLoads, preempted), KeepPlans(s.batchPlans, finished + preempted), preempted)
  }

  function AfterPublish(s: Decider, finished: set<string>, preempted: set<string>): Decider {
    s.(loads := s.loads - finished - preempted, transfers := s.transfers - finished - preempted,
       batchLoads := [], batchPlans := [])
  }

  // ---------------------------------------------------------------- worker

  datatype Stage = PoolLoading | PoolDone | TransferLoading

  /** `_TransferState`. */
  datatype TransferState = TransferState(plan: TransferPlan, stage: Stage, suffix: seq<seq<int>>, actual: nat)

  /** The worker's collections. */
  datatype Loader = Loader(onLoad: map<string, LoadRequest>, onTransfer: map<string, TransferState>)

  datatype LoadResult = LoadResult(loaded: nat, error: bool)

  /** `handle_preemptions`. */
  function Forget(w: Loader, preempted: set<string>): Loader {
    Loader(w.onLoad - preempted, w.onTransfer - preempted)
  }

  function AddLoads(onLoad: map<string, LoadRequest>, loads: seq<LoadRequest>): (r: map<string, LoadRequest>)
    ensures forall q :: q in r <==> q in onLoad || exists x :: x in loads && x.request == q
    ensures forall q :: q in r ==>
              (q in onLoad && r[q] == onLoad[q]) || exists x :: x in loads && x.request == q && r[q] == x
  {
    if loads == [] then onLoad
    else
      var n := |loads| - 1;
      assert forall x :: x in loads <==> x in loads[..n] || x == loads[n];
      AddLoads(onLoad, loads[..n])[loads[n].request := loads[n]]
  }

  function Started(plan: TransferPlan): TransferState {
    TransferState(plan, if plan.hit > plan.computed then PoolLoading else PoolDone, [], 0)
  }

  /** A second plan for a request is ignored. */
  function AddPlans(onTransfer: map<string, TransferState>, plans: seq<TransferPlan>): (r: map<string, TransferState>)
    ensures forall q :: q in r <==> q in onTransfer || exists x :: x in plans && x.requestId == q
    ensures forall q :: q in onTransfer ==> r[q] == onTransfer[q]
    ensures forall q :: q in r && q !in onTransfer ==>
              exists x :: x in plans && x.requestId == q && r[q] == Started(x)
  {
    if plans == [] then onTransfer
    else
      var n := |plans| - 1;
      var r := AddPlans(onTransfer, plans[..n]);
      assert forall x :: x in plans <==> x in plans[..n] || x == plans[n];
      if plans[n].requestId in r then r else r[plans[n].requestId := Started(plans[n])]
  }

  /** `update_load_metadata`. */
  function Update(w: Loader, d: Delta): Loader {
    Loader(AddLoads(w.onLoad, d.loads), AddPlans(w.onTransfer, d.plans))
  }

  function Suffix(plan: TransferPlan, actual: nat): (r: seq<seq<int>>)
    requires PlanShaped(plan) && plan.computed <= actual
    ensures |r| == |plan.sizes| && forall g :: 0 <= g < |r| ==> r[g] == GroupSuffix(plan, actual, g)
  {
    seq(|plan.sizes|, g requires 0 <= g < |plan.sizes| => GroupSuffix(plan, actual, g))
  }

  /** The Store stage of a request has ended, now or without having begun. */
  predicate StoreStageOver(st: TransferState, r: string, results: map<string, LoadResult>) {
    st.stage.PoolDone? || (st.stage.PoolLoading? && r in results)
  }

  /** How far the Store stage got. */
  function ActualPrefix(st: TransferState, r: string, results: map<string, LoadResult>): nat
    requires StoreStageOver(st, r, results)
  {
    if st.stage.PoolDone? then st.plan.computed else results[r].loaded
  }

  /** A load result lies in its range. */
  predicate ResultsFit(w: Loader, results: map<string, LoadResult>) {
    forall r :: r in w.onTransfer ==>
      PlanShaped(w.onTransfer[r].plan) && (r in results ==> w.onTransfer[r].plan.computed <= results[r].loaded)
  }

  /** `_start_transfer`. */
  function ToReceive(st: TransferState, r: string, results: map<string, LoadResult>): TransferState
    requires StoreStageOver(st, r, results) && PlanShaped(st.plan)
    requires r in results ==> st.plan.computed <= results[r].loaded
  {
    var actual := ActualPrefix(st, r, results);
    st.(stage := TransferLoading, suffix := Suffix(st.plan, actual), actual := actual)
  }

  /** The requests whose receive is submitted. */
  function Receives(w: Loader, results: map<string, LoadResult>): set<string> {
    set r | r in w.onTransfer && StoreStageOver(w.onTransfer[r], r, results)
  }

  function Advanced(w: Loader, results: map<string, LoadResult>): (r: map<string, TransferState>)
    requires ResultsFit(w, results)
    ensures r.Keys == w.onTransfer.Keys
    ensures forall q :: q in r ==>
              r[q] == if StoreStageOver(w.onTransfer[q], q, results) then ToReceive(w.onTransfer[q], q, results)
                      else w.onTransfer[q]
  {
    map q | q in w.onTransfer ::
      if StoreStageOver(w.onTransfer[q], q, results) then ToReceive(w.onTransfer[q], q, results) else w.onTransfer[q]
  }

  /** `_aggregate_recv_finished`; `received` tells of each ended receive whether it failed. */
  function Aggregate(w: Loader, results: map<string, LoadResult>, received: map<string, bool>): Loader
    requires ResultsFit(w, results)
  {
    Loader(w.onLoad - results.Keys, Advanced(w, results) - received.Keys)
  }

  /** The requests reported as received. */
  function FinishedRecv(w: Loader, results: map<string, LoadResult>, received: map<string, bool>): set<string> {
    (results.Keys - w.onTransfer.Keys)
    + set r | r in received && r in w.onTransfer && w.onTransfer[r].plan.target > w.onTransfer[r].plan.computed
  }

  // ---------------------------------------------------------------- errors

  function PlanCandidates(plan: TransferPlan): (r: set<int>)
    requires PlanShaped(plan)
    ensures forall b :: b in r <==> exists g: nat, i :: Candidate(plan, g, i) && plan.allBlocks[g][i] == b
  {
    set g: nat, i | 0 <= g < |plan.sizes| && 0 <= i < |plan.allBlocks[g]| && Candidate(plan, g, i) ::
      plan.allBlocks[g][i]
  }

  /** Blocks that a transfer in progress may still overwrite. */
  function Overwritable(w: Loader): set<int>
    requires forall r :: r in w.onTransfer ==> PlanShaped(w.onTransfer[r].plan)
  {
    set r, b | r in w.onTransfer && b in PlanCandidates(w.onTransfer[r].plan) :: b
  }

  /** The requested blocks of a receive that failed. */
  function FailedSuffixes(onTransfer: map<string, TransferState>, received: map<string, bool>): set<int> {
    set r, group, b | r in received && received[r] && r in onTransfer && group in onTransfer[r].suffix
                      && b in group && b >= 0 :: b
  }

  /** `_load_errors` after a cycle in which the pool reported `invalid` and the transfer `broken`. */
  function LoadErrors(errors: set<int>, w: Loader, invalid: set<int>, broken: set<int>,
                      results: map<string, LoadResult>, received: map<string, bool>): set<int>
    requires ResultsFit(w, results)
  {
    errors + (invalid - Overwritable(w)) + broken + FailedSuffixes(Advanced(w, results), received)
  }
}
