/**
 Two-stage loading over every run: order, completeness, and no untrusted block that goes unreported.
 */
module LoadSafety {
  import LP = LoadPrefix
  import C = Chunks
  import P = Planner
  import K = Copies
  import RG = Regions
  import RS = Resharding
  import TP = Topology
  import opened TwoStage
  import opened LoadStages

  /**
   All metadata built so far with the number that the worker has consumed; `poolLoads` and `recvs` are the loads and
   receives that the pool and the transfer have accepted and not reported. `errors` are the blocks that the worker will
   report as not loaded. The databases of the pool never change.
   */
  datatype System = System(dbs: seq<C.Database>, sch: Decider, deltas: seq<Delta>, cycled: nat, worker: Loader,
                           poolLoads: set<string>, recvs: set<string>, errors: set<int>)

  function Start(dbs: seq<C.Database>): System {
    System(dbs, Decider(map[], map[], [], [], {}, 0), [], 0, Loader(map[], map[]), {}, {}, {})
  }

  function LoadNames(loads: seq<LoadRequest>): set<string> {
    set x | x in loads :: x.request
  }

  function PlanNames(plans: seq<TransferPlan>): set<string> {
    set x | x in plans :: x.requestId
  }

  function Names(d: Delta): set<string> {
    LoadNames(d.loads) + PlanNames(d.plans)
  }

  /** The worker before it polls. */
  function Updated(s: System): Loader
    requires s.cycled < |s.deltas|
  {
    var d := s.deltas[s.cycled];
    Update(Forget(s.worker, d.preempted), d)
  }

  /** What the pool was asked to load. */
  function EventOf(l: LoadRequest): LP.LoadEvent {
    LP.LoadEvent(l.start, l.end, l.hashes, l.blocks)
  }

  /** The pool accepted the load, and its result lies in the range. */
  predicate EndsInRange(dbs: seq<C.Database>, l: LoadRequest, result: LoadResult) {
    LP.LoadValid(dbs, EventOf(l)) && l.start <= result.loaded <= l.end
  }

  predicate LoadsEndInRange(dbs: seq<C.Database>, w: Loader, results: map<string, LoadResult>) {
    forall r :: r in results && r in w.onLoad ==> EndsInRange(dbs, w.onLoad[r], results[r])
  }

  /** The blocks that the ended load of `r` leaves untrusted: what it was to load beyond its result. */
  function UntrustedBy(dbs: seq<C.Database>, w: Loader, results: map<string, LoadResult>, r: string): set<int>
    requires LoadsEndInRange(dbs, w, results)
  {
    if r in results && r in w.onLoad then
      assert EndsInRange(dbs, w.onLoad[r], results[r]);
      LP.RangeBlocks(dbs, EventOf(w.onLoad[r]), results[r].loaded, w.onLoad[r].end)
    else {}
  }

  /** What the pool's `take_errors` returns in a cycle. */
  function Untrusted(dbs: seq<C.Database>, w: Loader, results: map<string, LoadResult>): set<int>
    requires LoadsEndInRange(dbs, w, results)
  {
    set r, b | r in results && b in UntrustedBy(dbs, w, results, r) :: b
  }

  /** `broken` are the blocks that the transfer reports on its own. */
  function Cycle(s: System, results: map<string, LoadResult>, received: map<string, bool>, broken: set<int>): System
    requires s.cycled < |s.deltas| && ResultsFit(Updated(s), results) && LoadsEndInRange(s.dbs, Updated(s), results)
  {
    var d, w := s.deltas[s.cycled], Updated(s);
    s.(cycled := s.cycled + 1, worker := Aggregate(w, results, received),
       poolLoads := s.poolLoads - d.preempted + LoadNames(d.loads) - results.Keys,
       recvs := s.recvs - d.preempted - received.Keys + Receives(w, results),
       errors := LoadErrors(s.errors, w, Untrusted(s.dbs, w, results), broken, results, received))
  }

  datatype Step =
    | DoArrive(r: string)
    | DoMatch(r: string, computed: nat, hit: nat, target: nat)
    | DoAllocate(r: string, a: Allocation)
    | DoBuild(finished: set<string>, preempted: set<string>)
    | DoCycle(results: map<string, LoadResult>, received: map<string, bool>, broken: set<int>)
    | DoReport

  predicate AllocationShaped(a: Allocation) {
    && |a.allBlocks| == |a.externalBlocks| == |a.sizes| == |a.windows|
    && forall g :: 0 <= g < |a.sizes| ==> a.sizes[g] > 0
  }

  /** The worker or its backends have something of `r`. */
  predicate BusyNow(s: System, r: string) {
    r in s.poolLoads || r in s.recvs || r in s.worker.onTransfer
  }

  /** After the metadata `ds`, they would still have. */
  predicate Busy(r: string, now: bool, ds: seq<Delta>) {
    if ds == [] then now
    else
      var d := ds[|ds| - 1];
      (Busy(r, now, ds[..|ds| - 1]) && r !in d.preempted) || r in Names(d)
  }

  /**
   vLLM allocates a request again only when its load has been reported or preempted. The backends report what they
   accepted, and a load ends within its range.
   */
  predicate Enabled(s: System, step: Step) {
    match step
    case DoAllocate(r, a) =>
      && AllocationShaped(a) && s.cycled <= |s.deltas| && r !in LoadNames(s.sch.batchLoads)
      && r !in PlanNames(s.sch.batchPlans) && !Busy(r, BusyNow(s, r), s.deltas[s.cycled..])
    case DoCycle(results, received, _) =>
      && s.cycled < |s.deltas|
      && results.Keys <= s.poolLoads - s.deltas[s.cycled].preempted + LoadNames(s.deltas[s.cycled].loads)
      && received.Keys <= s.recvs - s.deltas[s.cycled].preempted
      && ResultsFit(Updated(s), results) && LoadsEndInRange(s.dbs, Updated(s), results)
    case _ => true
  }

  /** `DoReport` is `get_block_ids_with_load_errors`: vLLM is told the errors, which then start anew. */
  function Apply(s: System, step: Step): System
    requires Enabled(s, step)
  {
    match step
    case DoArrive(r) => s.(sch := s.sch.(remote := s.sch.remote + {r}))
    case DoMatch(r, computed, hit, target) => s.(sch := Match(s.sch, r, computed, hit, target))
    case DoAllocate(r, a) => s.(sch := Allocate(s.sch, r, a))
    case DoBuild(finished, preempted) =>
      s.(sch := AfterPublish(s.sch, finished, preempted), deltas := s.deltas + [Publish(s.sch, finished, preempted)])
    case DoCycle(results, received, broken) => Cycle(s, results, received, broken)
    case DoReport => s.(errors := {})
  }

  ghost predicate IsRun(run: seq<System>, steps: seq<Step>) {
    && |run| == |steps| + 1 && run[0] == Start(run[0].dbs)
    && forall i :: 0 <= i < |steps| ==> Taken(run, steps, i)
  }

  /** Step `i` leads from state `i` to the next. */
  ghost predicate Taken(run: seq<System>, steps: seq<Step>, i: int)
    requires 0 <= i < |steps| && |run| == |steps| + 1
  {
    Enabled(run[i], steps[i]) && run[i + 1] == Apply(run[i], steps[i])
  }

  // ---------------------------------------------------------------- metadata on the way

  lemma {:induction false} BusyFirst(r: string, now: bool, ds: seq<Delta>)
    requires ds != []
    ensures Busy(r, now, ds) == Busy(r, (now && r !in ds[0].preempted) || r in Names(ds[0]), ds[1..])
  {
    var n := |ds| - 1;
    if n > 0 {
      BusyFirst(r, now, ds[..n]);
      assert ds[1..][..n - 1] == ds[..n][1..];
      assert ds[1..][n - 1] == ds[n];
    } else {
      assert ds[..0] == [];
    }
  }

  lemma {:induction false} BusyMonotone(r: string, now: bool, later: bool, ds: seq<Delta>)
    requires now ==> later
    ensures Busy(r, now, ds) ==> Busy(r, later, ds)
  {
    if ds != [] {
      BusyMonotone(r, now, later, ds[..|ds| - 1]);
    }
  }

  // ---------------------------------------------------------------- invariant of one request

  /** A load and a plan of the same allocation. */
  predicate Paired(l: LoadRequest, p: TransferPlan) {
    && l.request == p.requestId && l.start == p.computed && l.end == p.hit && l.blocks == p.allBlocks
    && l.loadId == p.loadId && p.hit > p.computed
  }

  /** The decisions for a request agree. */
  ghost predicate DecisionsAgree(s: Decider, r: string) {
    r in s.transfers ==>
      && r in s.remote
      && (r in s.loads <==> s.transfers[r].hit > s.transfers[r].computed)
      && (r in s.loads ==> s.loads[r] == LoadSpec(s.transfers[r].computed, s.transfers[r].hit))
  }

  /** Every plan of `r` that waits for the Store comes with its load, and a load next to a plan belongs to it. */
  ghost predicate BatchPaired(loads: seq<LoadRequest>, plans: seq<TransferPlan>, r: string) {
    && (forall p :: p in plans && p.requestId == r ==> PlanShaped(p))
    && (forall p :: p in plans && p.requestId == r && p.hit > p.computed ==> exists l :: l in loads && Paired(l, p))
    && forall l, p :: l in loads && p in plans && l.request == r && p.requestId == r ==> Paired(l, p)
  }

  ghost predicate DeltaPaired(s: System, r: string, k: int)
    requires 0 <= k < |s.deltas|
  {
    BatchPaired(s.deltas[k].loads, s.deltas[k].plans, r)
  }

  /** What metadata `k` brings for `r` finds nothing of `r`. */
  ghost predicate FreshAt(s: System, r: string, k: int)
    requires 0 <= s.cycled <= k < |s.deltas|
  {
    r in Names(s.deltas[k]) ==> !Busy(r, BusyNow(s, r), s.deltas[s.cycled..k])
  }

  ghost predicate FreshBatch(s: System, r: string)
    requires s.cycled <= |s.deltas|
  {
    r in LoadNames(s.sch.batchLoads) || r in PlanNames(s.sch.batchPlans) ==>
      !Busy(r, BusyNow(s, r), s.deltas[s.cycled..])
  }

  /** The stage of a request says which backend works for it. */
  ghost predicate StagesExact(s: System, r: string) {
    && (r in s.worker.onLoad <==> r in s.poolLoads)
    && (r in s.recvs ==> r in s.worker.onTransfer && s.worker.onTransfer[r].stage.TransferLoading?)
    && (r in s.worker.onTransfer ==>
      var st := s.worker.onTransfer[r];
      && PlanShaped(st.plan) && !st.stage.PoolDone?
      && (st.stage.PoolLoading? <==> r in s.poolLoads)
      && (st.stage.PoolLoading? ==> r in s.worker.onLoad && Paired(s.worker.onLoad[r], st.plan))
      && (st.stage.TransferLoading? <==> r in s.recvs)
      && (st.stage.TransferLoading? ==> st.plan.computed <= st.actual && st.suffix == Suffix(st.plan, st.actual)))
  }

  ghost predicate RequestInv(s: System, r: string) {
    && s.cycled <= |s.deltas|
    && DecisionsAgree(s.sch, r) && BatchPaired(s.sch.batchLoads, s.sch.batchPlans, r)
    && (forall k :: 0 <= k < |s.deltas| ==> DeltaPaired(s, r, k))
    && (forall k :: s.cycled <= k < |s.deltas| ==> FreshAt(s, r, k))
    && FreshBatch(s, r) && StagesExact(s, r)
  }

  // ---------------------------------------------------------------- scheduler steps

  /** Steps that change only decisions and batches. */
  lemma SchedulerStep(s: System, sch: Decider, r: string)
    requires RequestInv(s, r)
    requires DecisionsAgree(sch, r) && BatchPaired(sch.batchLoads, sch.batchPlans, r) && FreshBatch(s.(sch := sch), r)
    ensures RequestInv(s.(sch := sch), r)
  {
    var s1 := s.(sch := sch);
    forall k | 0 <= k < |s1.deltas|
      ensures DeltaPaired(s1, r, k)
    {
      assert DeltaPaired(s, r, k);
    }
    forall k | s1.cycled <= k < |s1.deltas|
      ensures FreshAt(s1, r, k)
    {
      assert FreshAt(s, r, k);
    }
  }

  lemma ReportInv(s: System, r: string)
    requires RequestInv(s, r)
    ensures RequestInv(s.(errors := {}), r)
  {
    var s1 := s.(errors := {});
    forall k | 0 <= k < |s1.deltas|
      ensures DeltaPaired(s1, r, k)
    {
      assert DeltaPaired(s, r, k);
    }
    forall k | s1.cycled <= k < |s1.deltas|
      ensures FreshAt(s1, r, k)
    {
      assert FreshAt(s, r, k);
    }
  }

  lemma AllocatePairs(s: Decider, q: string, a: Allocation, r: string)
    requires DecisionsAgree(s, q) && BatchPaired(s.batchLoads, s.batchPlans, r) && AllocationShaped(a)
    requires q !in LoadNames(s.batchLoads) && q !in PlanNames(s.batchPlans)
    ensures BatchPaired(Allocate(s, q, a).batchLoads, Allocate(s, q, a).batchPlans, r)
  {
    var s1 := Allocate(s, q, a);
    assert forall l :: l in s.batchLoads ==> l.request in LoadNames(s.batchLoads);
    assert forall p :: p in s.batchPlans ==> p.requestId in PlanNames(s.batchPlans);
    forall p | p in s1.batchPlans && p.requestId == r && p.hit > p.computed
      ensures exists l :: l in s1.batchLoads && Paired(l, p)
    {
      if p in s.batchPlans {
        var l :| l in s.batchLoads && Paired(l, p);
        assert l in s1.batchLoads;
      } else {
        assert LoadFor(s, q, a, s1.nextLoadId) in s1.batchLoads;
      }
    }
  }

  lemma AllocateNames(s: Decider, q: string, a: Allocation)
    ensures LoadNames(Allocate(s, q, a).batchLoads) <= LoadNames(s.batchLoads) + {q}
    ensures PlanNames(Allocate(s, q, a).batchPlans) <= PlanNames(s.batchPlans) + {q}
  {
  }

  lemma AllocateInv(s: System, q: string, a: Allocation, r: string)
    requires RequestInv(s, r) && RequestInv(s, q) && Enabled(s, DoAllocate(q, a))
    ensures RequestInv(s.(sch := Allocate(s.sch, q, a)), r)
  {
    AllocatePairs(s.sch, q, a, r);
    AllocateNames(s.sch, q, a);
    SchedulerStep(s, Allocate(s.sch, q, a), r);
  }

  lemma PublishPairs(s: Decider, finished: set<string>, preempted: set<string>, r: string)
    requires BatchPaired(s.batchLoads, s.batchPlans, r)
    ensures var d := Publish(s, finished, preempted);
            && BatchPaired(d.loads, d.plans, r)
            && (r in Names(d) ==> r !in preempted && (r in LoadNames(s.batchLoads) || r in PlanNames(s.batchPlans)))
  {
    var d := Publish(s, finished, preempted);
    forall p | p in d.plans && p.requestId == r && p.hit > p.computed
      ensures exists l :: l in d.loads && Paired(l, p)
    {
      var l :| l in s.batchLoads && Paired(l, p);
      assert l in d.loads;
    }
  }

  lemma BuildInv(s: System, finished: set<string>, preempted: set<string>, r: string)
    requires RequestInv(s, r)
    ensures RequestInv(Apply(s, DoBuild(finished, preempted)), r)
  {
    var s1 := Apply(s, DoBuild(finished, preempted));
    PublishPairs(s.sch, finished, preempted, r);
    forall k | 0 <= k < |s1.deltas|
      ensures DeltaPaired(s1, r, k)
    {
      assert k < |s.deltas| ==> DeltaPaired(s, r, k);
    }
    forall k | s1.cycled <= k < |s1.deltas|
      ensures FreshAt(s1, r, k)
    {
      assert s1.deltas[s1.cycled..k] == s.deltas[s.cycled..k];
      assert k < |s.deltas| ==> FreshAt(s, r, k);
      assert s.deltas[s.cycled..|s.deltas|] == s.deltas[s.cycled..];
    }
  }

  // ---------------------------------------------------------------- worker cycle

  /** Metadata that names a request finds nothing of it. */
  lemma NamedIsNew(s: System, r: string)
    requires RequestInv(s, r) && s.cycled < |s.deltas| && r in Names(s.deltas[s.cycled])
    ensures !BusyNow(s, r) && r !in s.worker.onLoad
  {
    assert FreshAt(s, r, s.cycled);
    assert s.deltas[s.cycled..s.cycled] == [];
  }

  /** A new plan waits for the Store exactly if its load comes with it. */
  lemma NewPlan(d: Delta, r: string, x: TransferPlan)
    requires BatchPaired(d.loads, d.plans, r) && x in d.plans && x.requestId == r
    ensures PlanShaped(x) && (x.hit > x.computed <==> r in LoadNames(d.loads))
    ensures forall l :: l in d.loads && l.request == r ==> Paired(l, x)
  {
    if x.hit > x.computed {
      var l :| l in d.loads && Paired(l, x);
    }
    if r in LoadNames(d.loads) {
      var l :| l in d.loads && l.request == r;
      assert Paired(l, x);
    }
  }

  /** The worker's state of a request that the metadata gives a plan. */
  lemma PlannedRequest(s: System, r: string)
    requires RequestInv(s, r) && s.cycled < |s.deltas| && r in PlanNames(s.deltas[s.cycled].plans)
    ensures var d, w := s.deltas[s.cycled], Updated(s);
            && r in w.onTransfer && PlanShaped(w.onTransfer[r].plan)
            && w.onTransfer[r].stage == (if r in LoadNames(d.loads) then PoolLoading else PoolDone)
            && (r in LoadNames(d.loads) ==> r in w.onLoad && Paired(w.onLoad[r], w.onTransfer[r].plan))
  {
    NamedIsNew(s, r);
    var d, w := s.deltas[s.cycled], Updated(s);
    assert DeltaPaired(s, r, s.cycled);
    assert r in w.onTransfer && r !in s.worker.onTransfer;
    var x :| x in d.plans && x.requestId == r && w.onTransfer[r] == Started(x);
    NewPlan(d, r, x);
    if r in LoadNames(d.loads) {
      var l :| l in d.loads && l.request == r && w.onLoad[r] == l;
    }
  }

  /** The worker's state of `r` before it polls. */
  lemma UpdatedRequest(s: System, r: string)
    requires RequestInv(s, r) && s.cycled < |s.deltas|
    ensures var d, w := s.deltas[s.cycled], Updated(s);
            && (r in w.onLoad <==> (r in s.worker.onLoad && r !in d.preempted) || r in LoadNames(d.loads))
            && (r in w.onTransfer <==> (r in s.worker.onTransfer && r !in d.preempted) || r in PlanNames(d.plans))
            && (r in s.worker.onTransfer && r !in d.preempted ==>
                 w.onTransfer[r] == s.worker.onTransfer[r] && r !in Names(d))
            && (r in w.onTransfer && r in PlanNames(d.plans) ==>
                 !BusyNow(s, r) && PlanShaped(w.onTransfer[r].plan)
                 && w.onTransfer[r].stage
                    == if r in LoadNames(d.loads) then PoolLoading else PoolDone)
  {
    var d := s.deltas[s.cycled];
    if r in Names(d) {
      NamedIsNew(s, r);
    }
    if r in PlanNames(d.plans) {
      PlannedRequest(s, r);
    }
  }

  /** A request that waits for the Store has its load, of the same range, blocks and number. */
  lemma UpdatedPaired(s: System, r: string)
    requires RequestInv(s, r) && s.cycled < |s.deltas|
    ensures var w := Updated(s);
            r in w.onTransfer && w.onTransfer[r].stage.PoolLoading? ==>
              r in w.onLoad && Paired(w.onLoad[r], w.onTransfer[r].plan)
  {
    UpdatedRequest(s, r);
    if r in PlanNames(s.deltas[s.cycled].plans) {
      PlannedRequest(s, r);
    }
  }

  lemma CycleStages(s: System, results: map<string, LoadResult>, received: map<string, bool>, broken: set<int>,
                    r: string)
    requires RequestInv(s, r) && Enabled(s, DoCycle(results, received, broken))
    ensures StagesExact(Cycle(s, results, received, broken), r)
  {
    UpdatedRequest(s, r);
    UpdatedPaired(s, r);
  }

  lemma CycleBusy(s: System, results: map<string, LoadResult>, received: map<string, bool>, broken: set<int>, r: string)
    requires RequestInv(s, r) && Enabled(s, DoCycle(results, received, broken))
    ensures BusyNow(Cycle(s, results, received, broken), r) ==>
              (BusyNow(s, r) && r !in s.deltas[s.cycled].preempted) || r in Names(s.deltas[s.cycled])
  {
    UpdatedRequest(s, r);
    CycleTables(s, results, received, broken, r);
  }

  lemma CycleTables(s: System, results: map<string, LoadResult>, received: map<string, bool>, broken: set<int>,
                    r: string)
    requires Enabled(s, DoCycle(results, received, broken))
    requires var d := s.deltas[s.cycled];
             r in Updated(s).onTransfer ==>
               (r in s.worker.onTransfer && r !in d.preempted) || r in PlanNames(d.plans)
    ensures BusyNow(Cycle(s, results, received, broken), r) ==>
              (BusyNow(s, r) && r !in s.deltas[s.cycled].preempted) || r in Names(s.deltas[s.cycled])
  {
  }

  lemma CycleFresh(s: System, s1: System, r: string, k: int)
    requires 0 <= s.cycled < k < |s.deltas| && FreshAt(s, r, k)
    requires s1.cycled == s.cycled + 1 && s1.deltas == s.deltas
    requires BusyNow(s1, r) ==>
               (BusyNow(s, r) && r !in s.deltas[s.cycled].preempted) || r in Names(s.deltas[s.cycled])
    ensures FreshAt(s1, r, k)
  {
    var d, ds := s.deltas[s.cycled], s.deltas[s.cycled..k];
    BusyFirst(r, BusyNow(s, r), ds);
    BusyMonotone(r, BusyNow(s1, r), (BusyNow(s, r) && r !in d.preempted) || r in Names(d), ds[1..]);
    assert s1.deltas[s1.cycled..k] == ds[1..];
  }

  lemma CycleBatch(s: System, s1: System, r: string)
    requires s.cycled < |s.deltas| && FreshBatch(s, r)
    requires s1.cycled == s.cycled + 1 && s1.deltas == s.deltas && s1.sch == s.sch
    requires BusyNow(s1, r) ==>
               (BusyNow(s, r) && r !in s.deltas[s.cycled].preempted) || r in Names(s.deltas[s.cycled])
    ensures FreshBatch(s1, r)
  {
    var d, ds := s.deltas[s.cycled], s.deltas[s.cycled..];
    BusyFirst(r, BusyNow(s, r), ds);
    BusyMonotone(r, BusyNow(s1, r), (BusyNow(s, r) && r !in d.preempted) || r in Names(d), ds[1..]);
    assert s1.deltas[s1.cycled..] == ds[1..];
  }

  lemma CycleInv(s: System, results: map<string, LoadResult>, received: map<string, bool>, broken: set<int>, r: string)
    requires RequestInv(s, r) && Enabled(s, DoCycle(results, received, broken))
    ensures RequestInv(Cycle(s, results, received, broken), r)
  {
    var s1 := Cycle(s, results, received, broken);
    CycleStages(s, results, received, broken, r);
    CycleBusy(s, results, received, broken, r);
    forall k | 0 <= k < |s1.deltas|
      ensures DeltaPaired(s1, r, k)
    {
      assert DeltaPaired(s, r, k);
    }
    forall k | s1.cycled <= k < |s1.deltas|
      ensures FreshAt(s1, r, k)
    {
      CycleFresh(s, s1, r, k);
    }
    CycleBatch(s, s1, r);
  }

  // ---------------------------------------------------------------- whole runs

  lemma StepInv(s: System, step: Step, r: string)
    requires (forall q :: RequestInv(s, q)) && Enabled(s, step)
    ensures RequestInv(Apply(s, step), r)
  {
    assert RequestInv(s, r);
    match step
    case DoArrive(q) => SchedulerStep(s, s.sch.(remote := s.sch.remote + {q}), r);
    case DoMatch(q, computed, hit, target) => SchedulerStep(s, Match(s.sch, q, computed, hit, target), r);
    case DoAllocate(q, a) => AllocateInv(s, q, a, r);
    case DoBuild(finished, preempted) => BuildInv(s, finished, preempted, r);
    case DoCycle(results, received, broken) => CycleInv(s, results, received, broken, r);
    case DoReport => ReportInv(s, r);
  }

  lemma {:induction false} RunInv(run: seq<System>, steps: seq<Step>, i: nat)
    requires IsRun(run, steps) && i < |run|
    ensures forall r :: RequestInv(run[i], r)
  {
    if i > 0 {
      RunInv(run, steps, i - 1);
      assert Taken(run, steps, i - 1);
      forall r
        ensures RequestInv(run[i], r)
      {
        StepInv(run[i - 1], steps[i - 1], r);
      }
    }
  }

  /** What is known about a request around step `i` of a run. */
  lemma AtStep(run: seq<System>, steps: seq<Step>, i: nat, r: string)
    requires IsRun(run, steps) && i < |steps|
    ensures Enabled(run[i], steps[i]) && run[i + 1] == Apply(run[i], steps[i])
    ensures RequestInv(run[i], r) && RequestInv(run[i + 1], r)
  {
    assert Taken(run, steps, i);
    RunInv(run, steps, i);
    RunInv(run, steps, i + 1);
  }

  // ---------------------------------------------------------------- main results

  /** Main result. A plan that will wait for the Store travels with the load of the same range, blocks and number. */
  lemma PlansComeWithLoads(run: seq<System>, steps: seq<Step>, i: nat, k: nat, p: TransferPlan)
    requires IsRun(run, steps) && i < |run| && k < |run[i].deltas| && p in run[i].deltas[k].plans && p.hit > p.computed
    ensures exists l :: l in run[i].deltas[k].loads && Paired(l, p)
  {
    RunInv(run, steps, i);
    assert RequestInv(run[i], p.requestId) && DeltaPaired(run[i], p.requestId, k);
  }

  /** Main result. No request is stuck: the pool loads for it, or the transfer receives for it, and not both. */
  lemma NeverStuck(run: seq<System>, steps: seq<Step>, i: nat, r: string)
    requires IsRun(run, steps) && i < |run| && r in run[i].worker.onTransfer
    ensures r in run[i].poolLoads <==> r !in run[i].recvs
    ensures r in run[i].recvs <==> run[i].worker.onTransfer[r].stage.TransferLoading?
  {
    RunInv(run, steps, i);
    assert RequestInv(run[i], r);
  }

  /**
   Main result. When a receive is submitted, no receive of the request is in progress, and its Store load has ended or
   was never needed; it asks for the suffix after what the Store delivered.
   */
  lemma StoreBeforeReceive(run: seq<System>, steps: seq<Step>, i: nat, r: string)
    requires IsRun(run, steps) && i < |steps| && steps[i].DoCycle?
    requires run[i].cycled < |run[i].deltas| && r in Receives(Updated(run[i]), steps[i].results)
    ensures r !in run[i].recvs - run[i].deltas[run[i].cycled].preempted
    ensures r !in run[i + 1].poolLoads && r in run[i + 1].recvs && r in run[i + 1].worker.onTransfer
    ensures var st := run[i + 1].worker.onTransfer[r];
            && PlanShaped(st.plan) && st.plan.computed <= st.actual && st.suffix == Suffix(st.plan, st.actual)
            && (r in steps[i].results ==> st.actual == steps[i].results[r].loaded)
            && (r !in steps[i].results ==> st.plan.hit <= st.plan.computed && st.actual == st.plan.computed)
  {
    AtStep(run, steps, i, r);
    UpdatedRequest(run[i], r);
    ReceivesMean(run[i], steps[i].results, r);
  }

  lemma ReceivesMean(s: System, results: map<string, LoadResult>, r: string)
    requires RequestInv(s, r) && s.cycled < |s.deltas| && r in Receives(Updated(s), results)
    requires results.Keys <= s.poolLoads - s.deltas[s.cycled].preempted + LoadNames(s.deltas[s.cycled].loads)
    ensures r !in s.recvs - s.deltas[s.cycled].preempted
    ensures r !in results ==> r !in s.poolLoads - s.deltas[s.cycled].preempted + LoadNames(s.deltas[s.cycled].loads)
                              && Updated(s).onTransfer[r].plan.hit <= Updated(s).onTransfer[r].plan.computed
  {
    UpdatedRequest(s, r);
    var d := s.deltas[s.cycled];
    assert DeltaPaired(s, r, s.cycled);
    if r !in results {
      assert r in PlanNames(d.plans);
      var x :| x in d.plans && x.requestId == r && Updated(s).onTransfer[r] == Started(x);
    }
  }

  /** In step `i` the worker reports that `r` has been received. */
  ghost predicate ReportsReceived(run: seq<System>, steps: seq<Step>, i: nat, r: string)
    requires IsRun(run, steps)
  {
    && i < |steps| && steps[i].DoCycle? && Enabled(run[i], steps[i])
    && r in FinishedRecv(Updated(run[i]), steps[i].results, steps[i].received)
  }

  /** The metadata consumed in step `i` names the request. */
  ghost predicate NamedIn(run: seq<System>, steps: seq<Step>, i: nat, r: string)
    requires i < |steps| && i < |run|
  {
    steps[i].DoCycle? && run[i].cycled < |run[i].deltas| && r in Names(run[i].deltas[run[i].cycled])
  }

  /** A reported request is not busy any more; nothing is reported that is not busy or has just been named. */
  lemma ReportedIsIdle(run: seq<System>, steps: seq<Step>, i: nat, r: string)
    requires IsRun(run, steps) && ReportsReceived(run, steps, i, r)
    ensures !BusyNow(run[i + 1], r)
    ensures BusyNow(run[i], r) || NamedIn(run, steps, i, r)
  {
    AtStep(run, steps, i, r);
    UpdatedRequest(run[i], r);
  }

  lemma IdleStep(s: System, step: Step, r: string)
    requires RequestInv(s, r) && Enabled(s, step) && !BusyNow(s, r)
    requires step.DoCycle? ==> r !in Names(s.deltas[s.cycled])
    ensures !BusyNow(Apply(s, step), r)
  {
    match step
    case DoCycle(results, received, broken) => CycleBusy(s, results, received, broken, r);
    case _ =>
  }

  lemma {:induction false} StaysIdle(run: seq<System>, steps: seq<Step>, i: nat, j: nat, r: string)
    requires IsRun(run, steps) && i <= j < |run| && !BusyNow(run[i], r)
    requires forall n: nat :: i <= n < j ==> !NamedIn(run, steps, n, r)
    ensures !BusyNow(run[j], r)
  {
    if i < j {
      StaysIdle(run, steps, i, j - 1, r);
      AtStep(run, steps, j - 1, r);
      assert !NamedIn(run, steps, j - 1, r);
      IdleStep(run[j - 1], steps[j - 1], r);
    }
  }

  /**
   Main result. A load is reported as received once: two cycles report the same request only if metadata named it again
   in between.
   */
  lemma ReceivedOnce(run: seq<System>, steps: seq<Step>, i: nat, j: nat, r: string)
    requires IsRun(run, steps) && i < j && ReportsReceived(run, steps, i, r) && ReportsReceived(run, steps, j, r)
    ensures exists n: nat :: i < n <= j && NamedIn(run, steps, n, r)
  {
    ReportedIsIdle(run, steps, i, r);
    ReportedIsIdle(run, steps, j, r);
    if forall n: nat :: i < n < j ==> !NamedIn(run, steps, n, r) {
      StaysIdle(run, steps, i + 1, j, r);
    }
  }

  // ---------------------------------------------------------------- no silent bad block

  ghost predicate AllShaped(w: Loader) {
    forall r :: r in w.onTransfer ==> PlanShaped(w.onTransfer[r].plan)
  }

  /** Blocks of a request are in no other request's transfer. */
  ghost predicate BlockOfOnly(w: Loader, r: string, b: int)
    requires AllShaped(w)
  {
    forall q :: q in w.onTransfer && q != r ==> b !in PlanCandidates(w.onTransfer[q].plan)
  }

  /** In step `i` of a run the load of `r` ends and leaves the block untrusted. */
  ghost predicate LeavesUntrusted(run: seq<System>, steps: seq<Step>, i: nat, r: string, b: int) {
    && IsRun(run, steps) && i < |steps| && steps[i].DoCycle? && Enabled(run[i], steps[i])
    && b in UntrustedBy(run[i].dbs, Updated(run[i]), steps[i].results, r)
  }

  /** What the scheduler and vLLM provide for a request of full attention groups. */
  ghost predicate FullAttentionPlan(plan: TransferPlan, dbs: seq<C.Database>) {
    PlanValid(plan) && SameSizes(plan, dbs) && forall g :: 0 <= g < |plan.windows| ==> plan.windows[g] == 0
  }

  /** The block is in the suffix requested from P, at an index that is left to P. */
  ghost predicate LeftToP(st: TransferState, b: int) {
    && PlanShaped(st.plan) && st.plan.computed <= st.actual && st.suffix == Suffix(st.plan, st.actual) && b >= 0
    && exists g: nat, k: nat :: RequestedAt(st.plan, st.actual, g, k, b)
  }

  /** The receive of the request is in progress and is to overwrite the block. */
  ghost predicate AwaitsP(s: System, r: string, b: int) {
    && r in s.worker.onTransfer && s.worker.onTransfer[r].stage.TransferLoading?
    && LeftToP(s.worker.onTransfer[r], b)
  }

  /** An untrusted block of a load without a transfer is an error from the cycle on that reports the request. */
  lemma PoolOnlyReports(run: seq<System>, steps: seq<Step>, i: nat, r: string, b: int)
    requires LeavesUntrusted(run, steps, i, r, b) && r !in Updated(run[i]).onTransfer
    requires BlockOfOnly(Updated(run[i]), r, b)
    ensures b in run[i + 1].errors
    ensures r in FinishedRecv(Updated(run[i]), steps[i].results, steps[i].received)
    ensures r !in run[i + 1].poolLoads && r !in run[i + 1].recvs
  {
    AtStep(run, steps, i, r);
    UpdatedRequest(run[i], r);
    assert b in Untrusted(run[i].dbs, Updated(run[i]), steps[i].results);
  }

  /** The plan and the load of a request name the same blocks, so that a hidden block is in the suffix. */
  lemma HiddenIsLeftToP(dbs: seq<C.Database>, l: LoadRequest, st: TransferState, b: int)
    requires Paired(l, st.plan) && FullAttentionPlan(st.plan, dbs) && LP.LoadValid(dbs, EventOf(l))
    requires st.plan.computed <= st.actual <= st.plan.hit && st.suffix == Suffix(st.plan, st.actual)
    requires b in LP.RangeBlocks(dbs, EventOf(l), st.actual, l.end)
    ensures LeftToP(st, b)
  {
    assert EventOf(l) == LoadOf(st.plan, l.hashes);
    HiddenIsRequested(st.plan, dbs, l.hashes, st.actual, b);
  }

  lemma LoadHandsOver(s: System, step: Step, r: string, b: int)
    requires RequestInv(s, r) && Enabled(s, step) && step.DoCycle? && r in Updated(s).onTransfer
    requires b in UntrustedBy(s.dbs, Updated(s), step.results, r)
    requires FullAttentionPlan(Updated(s).onTransfer[r].plan, s.dbs)
    ensures AwaitsP(Apply(s, step), r, b)
  {
    UpdatedRequest(s, r);
    UpdatedPaired(s, r);
    var w := Updated(s);
    assert EndsInRange(s.dbs, w.onLoad[r], step.results[r]);
    var st := Advanced(w, step.results)[r];
    HiddenIsLeftToP(s.dbs, w.onLoad[r], st, b);
    assert r in Apply(s, step).worker.onTransfer && Apply(s, step).worker.onTransfer[r] == st;
  }

  /** An untrusted block of a load with a transfer is in the suffix that is requested from P in the same cycle. */
  lemma TransferTakesOver(run: seq<System>, steps: seq<Step>, i: nat, r: string, b: int)
    requires LeavesUntrusted(run, steps, i, r, b) && r in Updated(run[i]).onTransfer
    requires FullAttentionPlan(Updated(run[i]).onTransfer[r].plan, run[i].dbs)
    ensures AwaitsP(run[i + 1], r, b)
  {
    AtStep(run, steps, i, r);
    LoadHandsOver(run[i], steps[i], r, b);
  }

  /** In step `m` of a run the request is preempted. */
  ghost predicate PreemptedAt(run: seq<System>, steps: seq<Step>, m: nat, r: string)
    requires m < |steps| && m < |run|
  {
    steps[m].DoCycle? && run[m].cycled < |run[m].deltas| && r in run[m].deltas[run[m].cycled].preempted
  }

  /** In step `m` the receive of the request ends, well or badly. */
  ghost predicate ReceivedAt(run: seq<System>, steps: seq<Step>, m: nat, r: string, failed: bool)
    requires m < |steps| && m < |run|
  {
    steps[m].DoCycle? && r in steps[m].received && steps[m].received[r] == failed
  }

  /** A cycle without a preemption leaves the receive as it is, unless the receive ends in it. */
  lemma CycleKeepsReceive(s: System, step: Step, r: string)
    requires RequestInv(s, r) && Enabled(s, step) && step.DoCycle? && r !in s.deltas[s.cycled].preempted
    requires r in s.worker.onTransfer && s.worker.onTransfer[r].stage.TransferLoading?
    ensures r in Updated(s).onTransfer && Advanced(Updated(s), step.results)[r] == s.worker.onTransfer[r]
    ensures r !in step.received ==>
              r in Apply(s, step).worker.onTransfer && Apply(s, step).worker.onTransfer[r] == s.worker.onTransfer[r]
  {
    UpdatedRequest(s, r);
  }

  /** A receive that fails makes an error of every block that was left to P. */
  lemma FailureIsRecorded(s: System, step: Step, r: string, b: int)
    requires Enabled(s, step) && step.DoCycle? && r in step.received && step.received[r]
    requires r in Updated(s).onTransfer && LeftToP(Advanced(Updated(s), step.results)[r], b)
    ensures b in Apply(s, step).errors
  {
    var st := Advanced(Updated(s), step.results)[r];
    var g: nat, k: nat :| RequestedAt(st.plan, st.actual, g, k, b);
    assert st.suffix[g] in st.suffix;
    assert b in FailedSuffixes(Advanced(Updated(s), step.results), step.received);
  }

  /** The receive of the request is in progress, as it was in the other state. */
  ghost predicate SameReceive(s: System, s1: System, r: string) {
    && r in s.worker.onTransfer && s.worker.onTransfer[r].stage.TransferLoading?
    && r in s1.worker.onTransfer && s1.worker.onTransfer[r] == s.worker.onTransfer[r]
  }

  lemma StepKeepsReceive(s: System, step: Step, r: string)
    requires RequestInv(s, r) && Enabled(s, step) && SameReceive(s, s, r)
    requires step.DoCycle? ==> r !in s.deltas[s.cycled].preempted && r !in step.received
    ensures SameReceive(s, Apply(s, step), r)
  {
    if step.DoCycle? {
      CycleKeepsReceive(s, step, r);
    }
  }

  lemma FailureStep(s: System, step: Step, r: string, b: int)
    requires RequestInv(s, r) && Enabled(s, step) && AwaitsP(s, r, b)
    requires step.DoCycle? && r !in s.deltas[s.cycled].preempted && r in step.received && step.received[r]
    ensures b in Apply(s, step).errors
  {
    CycleKeepsReceive(s, step, r);
    FailureIsRecorded(s, step, r, b);
  }

  /** What is requested from P stays so until the receive ends or the request is preempted. */
  lemma {:induction false} ReceiveStays(run: seq<System>, steps: seq<Step>, i: nat, j: nat, r: string)
    requires IsRun(run, steps) && i <= j < |run| && SameReceive(run[i], run[i], r)
    requires forall m: nat :: i <= m < j ==> !PreemptedAt(run, steps, m, r)
    requires forall m: nat, failed :: i <= m < j ==> !ReceivedAt(run, steps, m, r, failed)
    ensures SameReceive(run[i], run[j], r)
  {
    if i < j {
      ReceiveStays(run, steps, i, j - 1, r);
      AtStep(run, steps, j - 1, r);
      assert !PreemptedAt(run, steps, j - 1, r);
      assert !ReceivedAt(run, steps, j - 1, r, false) && !ReceivedAt(run, steps, j - 1, r, true);
      StepKeepsReceive(run[j - 1], steps[j - 1], r);
    }
  }

  /** Main result. When the receive of a request fails, every block that was left to P is reported. */
  lemma FailedReceiveReports(run: seq<System>, steps: seq<Step>, i: nat, j: nat, r: string, b: int)
    requires IsRun(run, steps) && i <= j < |steps| && AwaitsP(run[i], r, b)
    requires forall m: nat :: i <= m <= j ==> !PreemptedAt(run, steps, m, r)
    requires forall m: nat, failed :: i <= m < j ==> !ReceivedAt(run, steps, m, r, failed)
    requires ReceivedAt(run, steps, j, r, true)
    ensures b in run[j + 1].errors
  {
    ReceiveStays(run, steps, i, j, r);
    AtStep(run, steps, j, r);
    assert !PreemptedAt(run, steps, j, r);
    FailureStep(run[j], steps[j], r, b);
  }

  /**
   Main result. An untrusted block that a transfer hides when the Store load ends is an error once the receive fails,
   however many cycles later.
   */
  lemma HiddenIsReported(run: seq<System>, steps: seq<Step>, i: nat, j: nat, r: string, b: int)
    requires LeavesUntrusted(run, steps, i, r, b) && r in Updated(run[i]).onTransfer
    requires FullAttentionPlan(Updated(run[i]).onTransfer[r].plan, run[i].dbs)
    requires i < j < |steps| && ReceivedAt(run, steps, j, r, true)
    requires forall m: nat :: i < m <= j ==> !PreemptedAt(run, steps, m, r)
    requires forall m: nat, failed :: i < m < j ==> !ReceivedAt(run, steps, m, r, failed)
    ensures b in run[j + 1].errors
  {
    TransferTakesOver(run, steps, i, r, b);
    FailedReceiveReports(run, steps, i + 1, j, r, b);
  }

  lemma ErrorsGrow(s: System, step: Step)
    requires Enabled(s, step) && !step.DoReport?
    ensures s.errors <= Apply(s, step).errors
  {
  }

  /** An error stays one until vLLM is told. */
  lemma {:induction false} ErrorsStay(run: seq<System>, steps: seq<Step>, i: nat, j: nat)
    requires IsRun(run, steps) && i <= j < |run| && forall m :: i <= m < j ==> !steps[m].DoReport?
    ensures run[i].errors <= run[j].errors
  {
    if i < j {
      ErrorsStay(run, steps, i, j - 1);
      AtStep(run, steps, j - 1, "");
      ErrorsGrow(run[j - 1], steps[j - 1]);
    }
  }

  /** The receive `st` of the request is in progress. */
  ghost predicate Receiving(s: System, r: string, st: TransferState) {
    r in s.worker.onTransfer && s.worker.onTransfer[r] == st && st.stage.TransferLoading?
  }

  /** In step `m` the wait for the receive `st` ends: it is preempted, it succeeds, or the block becomes an error. */
  ghost predicate EndsAt(run: seq<System>, steps: seq<Step>, m: nat, r: string, st: TransferState, b: int)
    requires m < |steps| && |run| == |steps| + 1
  {
    || PreemptedAt(run, steps, m, r) || b in run[m + 1].errors
    || (ReceivedAt(run, steps, m, r, false) && Receiving(run[m], r, st))
  }

  /**
   What has become of an untrusted block by state `j`, after the load that left it so ended in step `i`: it was an error
   at once, or a receive that was then to overwrite it is in progress or has ended.
   */
  ghost predicate AccountedFor(run: seq<System>, steps: seq<Step>, i: nat, j: nat, r: string, b: int)
    requires |run| == |steps| + 1 && i < j < |run|
  {
    || b in run[i + 1].errors
    || (AwaitsP(run[i + 1], r, b) && ReceivesOrEnds(run, steps, i + 1, j, r, run[i + 1].worker.onTransfer[r], b))
  }

  ghost predicate ReceivesOrEnds(run: seq<System>, steps: seq<Step>, i: nat, j: nat, r: string, st: TransferState,
                                 b: int)
    requires |run| == |steps| + 1 && i <= j < |run|
  {
    Receiving(run[j], r, st) || exists m: nat :: i <= m < j && EndsAt(run, steps, m, r, st, b)
  }

  /** A receive in progress goes on, or ends: if it fails, the block is an error. */
  lemma ReceivingStep(s: System, step: Step, r: string, st: TransferState, b: int)
    requires RequestInv(s, r) && Enabled(s, step) && Receiving(s, r, st) && LeftToP(st, b)
    requires step.DoCycle? ==> r !in s.deltas[s.cycled].preempted
    ensures step.DoCycle? && r in step.received && step.received[r] ==> b in Apply(s, step).errors
    ensures (step.DoCycle? && r in step.received) || Receiving(Apply(s, step), r, st)
  {
    if step.DoCycle? && r in step.received {
      if step.received[r] {
        FailureStep(s, step, r, b);
      }
    } else {
      StepKeepsReceive(s, step, r);
    }
  }

  /** What becomes of a receive in one step. */
  lemma StepFate(run: seq<System>, steps: seq<Step>, i: nat, r: string, st: TransferState, b: int)
    requires IsRun(run, steps) && i < |steps| && Receiving(run[i], r, st) && LeftToP(st, b)
    ensures EndsAt(run, steps, i, r, st, b) || Receiving(run[i + 1], r, st)
  {
    AtStep(run, steps, i, r);
    if !PreemptedAt(run, steps, i, r) {
      ReceivingStep(run[i], steps[i], r, st, b);
    }
  }

  /** What goes on unless it ends has ended or still goes on. */
  lemma {:induction false} GoesOnOrEnds(run: seq<System>, steps: seq<Step>, i: nat, j: nat, r: string,
                                        st: TransferState, b: int)
    requires |run| == |steps| + 1 && i <= j < |run| && Receiving(run[i], r, st)
    requires forall m: nat :: i <= m < j && Receiving(run[m], r, st) ==>
               EndsAt(run, steps, m, r, st, b) || Receiving(run[m + 1], r, st)
    ensures ReceivesOrEnds(run, steps, i, j, r, st, b)
  {
    if i < j {
      GoesOnOrEnds(run, steps, i, j - 1, r, st, b);
    }
  }

  /** A receive that is to overwrite the block goes on until it ends. */
  lemma ReceiveAccountedFor(run: seq<System>, steps: seq<Step>, i: nat, j: nat, r: string, b: int)
    requires IsRun(run, steps) && i <= j < |run| && AwaitsP(run[i], r, b)
    ensures ReceivesOrEnds(run, steps, i, j, r, run[i].worker.onTransfer[r], b)
  {
    var st := run[i].worker.onTransfer[r];
    forall m: nat | i <= m < j && Receiving(run[m], r, st)
      ensures EndsAt(run, steps, m, r, st, b) || Receiving(run[m + 1], r, st)
    {
      StepFate(run, steps, m, r, st, b);
    }
    GoesOnOrEnds(run, steps, i, j, r, st, b);
  }

  /**
   Main result. No bad block is silent. In every run, a block that a Store load leaves untrusted is recorded as an error
   in the cycle that ends the load, or a receive is then to overwrite it, which at every later time is in progress, has
   succeeded, was preempted, or has failed and made the block an error.
   */
  lemma NoSilentBadBlock(run: seq<System>, steps: seq<Step>, i: nat, j: nat, r: string, b: int)
    requires LeavesUntrusted(run, steps, i, r, b) && i < j < |run|
    requires r !in Updated(run[i]).onTransfer ==> BlockOfOnly(Updated(run[i]), r, b)
    requires r in Updated(run[i]).onTransfer ==> FullAttentionPlan(Updated(run[i]).onTransfer[r].plan, run[i].dbs)
    ensures AccountedFor(run, steps, i, j, r, b)
  {
    if r in Updated(run[i]).onTransfer {
      TransferTakesOver(run, steps, i, r, b);
      ReceiveAccountedFor(run, steps, i + 1, j, r, b);
    } else {
      PoolOnlyReports(run, steps, i, r, b);
    }
  }

  /**
   Main result. Once the paired P ranks have executed their copies, such a block is rewritten: every byte of it is then
   the byte at the same position of the unsharded source block of the same index.
   */
  lemma RewrittenByReceive(st: TransferState, b: int, t: RS.Transfer, ws: seq<K.Write>,
                           source: (int, int) -> K.Byte, unsharded: (int, int, int) -> K.Byte, before: int -> K.Byte,
                           region: nat, y: int)
    returns (g: nat, k: nat)
    requires LeftToP(st, b) && PlanValid(st.plan) && st.actual <= st.plan.target
    requires forall h :: 0 <= h < |st.plan.windows| ==> st.plan.windows[h] == 0
    requires t.requested == st.suffix && RS.Valid(t) && RS.Executes(t, ws) && RS.HoldsShards(t, source, unsharded)
    requires forall h :: 0 <= h < |t.source| && h < |st.plan.sizes| ==> |t.source[h]| == |st.plan.allBlocks[h]|
    requires region < |t.receiver.regions| && 0 <= y < t.receiver.regions[region].kvLen
    ensures PlaceOf(st.plan, g, k, b) && g < |t.source| && k < |t.source[g]|
    ensures TP.EffectiveTp(t.receiver.size, t.heads, t.mla).Success?
    ensures K.ReadAfter(ws, source, before, P.Address(t.receiver.regions[region], b, y))
            == unsharded(region, t.source[g][k],
                         RG.ShardStart(t.receiver.rank, t.receiver.size, t.heads, t.mla,
                                       t.receiver.regions[region].kvLen) + y)
  {
    g, k :| RequestedAt(st.plan, st.actual, g, k, b);
    TwoStageBytes(st.plan, st.actual, t, ws, source, unsharded, before, region, g, k, y);
  }
}
