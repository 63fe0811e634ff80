/**
 When the blocks of a finished request may be released. The scheduler announces what must end first, the worker
 collects the ends, and reports the request once. Metadata and results travel in order.
 */
module ReleaseBarrier {
  import opened SaveEvents
  import SQ = SaveQueue

  /** `FinishedWait`. */
  datatype Wait = Wait(storeSave: bool, kvTransfer: bool)

  /** `_FinishedWaitState`. */
  datatype WaitState = WaitState(wait: Wait, saveDone: bool, sendDone: bool)

  predicate IsFinished(st: WaitState) {
    (!st.wait.storeSave || st.saveDone) && (!st.wait.kvTransfer || st.sendDone)
  }

  datatype SourceKind = Prepared | Ready | Cancelled

  /** `KVTransferSourceState`: a placeholder, or what a finished request means for its source. */
  datatype SourceState = SourceState(request: string, kind: SourceKind)

  datatype SaveRequest = SaveRequest(request: string, event: SaveEvent)

  /** The part of `MTSCConnectorMetadata` that concerns saves, sends and releases. */
  datatype Delta = Delta(saves: seq<SaveRequest>, states: seq<SourceState>, waits: map<string, Wait>,
                         preempted: set<string>)

  /** The scheduler's collections. */
  datatype Issuer = Issuer(saving: set<string>, delayed: set<string>, waits: map<string, Wait>,
                           states: seq<SourceState>)

  /** The worker's collections. */
  datatype Holder = Holder(onSave: set<string>, waits: map<string, WaitState>)

  function Saved(saves: seq<SaveRequest>): set<string> {
    set x | x in saves :: x.request
  }

  function OfKind(states: seq<SourceState>, kind: SourceKind): set<string> {
    set x | x in states && x.kind == kind :: x.request
  }

  // ---------------------------------------------------------------- scheduler

  function WithoutSaves(saves: seq<SaveRequest>, gone: set<string>): (r: seq<SaveRequest>)
    ensures forall x :: x in r <==> x in saves && x.request !in gone
  {
    if saves == [] then []
    else
      var n := |saves| - 1;
      var r := WithoutSaves(saves[..n], gone);
      assert forall x :: x in saves <==> x in saves[..n] || x == saves[n];
      if saves[n].request in gone then r else r + [saves[n]]
  }

  function WithoutStates(states: seq<SourceState>, gone: set<string>): (r: seq<SourceState>)
    ensures forall x :: x in r <==> x in states && x.request !in gone
  {
    if states == [] then []
    else
      var n := |states| - 1;
      var r := WithoutStates(states[..n], gone);
      assert forall x :: x in states <==> x in states[..n] || x == states[n];
      if states[n].request in gone then r else r + [states[n]]
  }

  /** `update_state_after_alloc` announces a request that P is to send. */
  function Prepare(s: Issuer, request: string): Issuer {
    s.(states := s.states + [SourceState(request, Prepared)])
  }

  /** What `build_connector_meta` publishes for the saves it has just built. */
  function Published(s: Issuer, saves: seq<SaveRequest>, preempted: set<string>): Delta {
    Delta(WithoutSaves(saves, preempted), WithoutStates(s.states, preempted), s.waits - preempted, preempted)
  }

  function AfterBuild(s: Issuer, saves: seq<SaveRequest>, preempted: set<string>): Issuer {
    Issuer(s.saving + Saved(saves) - preempted, s.delayed - preempted, map[], [])
  }

  /** The wait of a finished request: saves issued for it, and a send if it stopped at its length on P. */
  function WaitOf(s: Issuer, request: string, remoteDecode: bool, capped: bool, anyBlocks: bool): Wait {
    Wait(request in s.saving && anyBlocks, remoteDecode && capped && anyBlocks)
  }

  /** `request_finished`; the release is delayed if the wait asks for something. */
  function Finish(s: Issuer, request: string, remoteDecode: bool, capped: bool, anyBlocks: bool): Issuer {
    var wait := WaitOf(s, request, remoteDecode, capped, anyBlocks);
    var states := if !remoteDecode then s.states
                  else s.states + [SourceState(request, if wait.kvTransfer then Ready else Cancelled)];
    if wait.storeSave || wait.kvTransfer then
      s.(states := states, waits := s.waits[request := wait], delayed := s.delayed + {request})
    else
      s.(states := states, saving := s.saving - {request})
  }

  /** `update_connector_output`. */
  function Complete(s: Issuer, completed: set<string>): Issuer {
    s.(delayed := s.delayed - completed, waits := s.waits - completed, saving := s.saving - completed)
  }

  // ---------------------------------------------------------------- worker

  /** `handle_preemptions`. */
  function Forget(w: Holder, preempted: set<string>): Holder {
    Holder(w.onSave - preempted, w.waits - preempted)
  }

  /** `update_save_metadata`. */
  function Saving(w: Holder, requests: set<string>): Holder {
    Holder(w.onSave + requests,
           map r | r in w.waits :: if r in requests then w.waits[r].(saveDone := false) else w.waits[r])
  }

  /** The end of `update_finished_metadata`. */
  function Awaiting(w: Holder, waits: map<string, Wait>): Holder {
    w.(waits := map r | r in waits.Keys + w.waits.Keys ::
         if r in w.waits then w.waits[r] else WaitState(waits[r], r !in w.onSave, false))
  }

  /** The first half of `_aggregate_send_finished`. */
  function Marked(w: Holder, saved: set<string>, sent: set<string>): Holder {
    Holder(w.onSave - saved,
           map r | r in w.waits :: w.waits[r].(saveDone := w.waits[r].saveDone || r in saved,
                                               sendDone := w.waits[r].sendDone || r in sent))
  }

  function FinishedIds(w: Holder): set<string> {
    set r | r in w.waits && IsFinished(w.waits[r])
  }

  function DropFinished(w: Holder): Holder {
    w.(waits := w.waits - FinishedIds(w))
  }

  /** The worker before it polls. */
  function Updated(w: Holder, d: Delta): Holder {
    Awaiting(Saving(Forget(w, d.preempted), Saved(d.saves)), d.waits)
  }

  // ---------------------------------------------------------------- pool and transfer

  /** The pool takes the saves of a delta. */
  function Submit(sizes: seq<nat>, saves: SQ.Saves, requests: seq<SaveRequest>): (r: SQ.Saves)
    requires SQ.SizesPositive(sizes)
    ensures r.Keys == saves.Keys + Saved(requests)
  {
    if requests == [] then saves
    else
      var n := |requests| - 1;
      assert forall x :: x in requests <==> x in requests[..n] || x == requests[n];
      SQ.Save(sizes, Submit(sizes, saves, requests[..n]), requests[n].request, requests[n].event)
  }

  /** Published sends that were not reported yet. */
  function Sends(sends: set<string>, d: Delta): set<string> {
    sends - d.preempted - OfKind(d.states, Cancelled) + OfKind(d.states, Ready)
  }

  // ---------------------------------------------------------------- the whole

  /** Where the wait of a delayed request is: a history that no step looks at. */
  datatype Place = Pending | InDelta(k: nat) | Held | InOutput(k: nat)

  /**
   All metadata built and all results produced so far, and how many of each were consumed. `saves` are the uncollected
   saves of the pool and `sends` the unreported sends of the transfer.
   */
  datatype System = System(sch: Issuer, deltas: seq<Delta>, cycled: nat, worker: Holder, saves: SQ.Saves,
                           sends: set<string>, outputs: seq<set<string>>, collected: nat, place: map<string, Place>)

  const START := System(Issuer({}, {}, map[], []), [], 0, Holder({}, map[]), map[], {}, [], 0, map[])

  function MovePending(place: map<string, Place>, k: nat, gone: set<string>): (r: map<string, Place>)
    ensures forall q :: q in r <==> q in place && q !in gone
    ensures forall q :: q in r ==> r[q] == if place[q].Pending? then InDelta(k) else place[q]
  {
    map q | q in place && q !in gone :: if place[q].Pending? then InDelta(k) else place[q]
  }

  function Build(s: System, saves: seq<SaveRequest>, preempted: set<string>): System {
    s.(sch := AfterBuild(s.sch, saves, preempted), deltas := s.deltas + [Published(s.sch, saves, preempted)],
       place := MovePending(s.place, |s.deltas|, preempted))
  }

  function FinishRequest(s: System, request: string, remoteDecode: bool, capped: bool, anyBlocks: bool): System {
    var sch := Finish(s.sch, request, remoteDecode, capped, anyBlocks);
    s.(sch := sch, place := if request in sch.delayed then s.place[request := Pending] else s.place)
  }

  /** Places after a worker cycle that reported `finished` in output `j`. */
  function MoveCycled(place: map<string, Place>, k: nat, finished: set<string>, j: nat): (r: map<string, Place>)
    ensures r.Keys == place.Keys
    ensures forall q :: q in r ==> r[q] == if q in finished then InOutput(j)
                                           else if place[q] == InDelta(k) then Held else place[q]
  {
    map q | q in place ::
      if q in finished then InOutput(j) else if place[q] == InDelta(k) then Held else place[q]
  }

  /** One worker cycle on the next metadata: `handle_preemptions` and `get_finished`; `sent` is what sends ended. */
  function Cycle(sizes: seq<nat>, s: System, sent: set<string>): System
    requires SQ.SizesPositive(sizes) && s.cycled < |s.deltas|
  {
    var d := s.deltas[s.cycled];
    var submitted := Submit(sizes, s.saves - d.preempted, d.saves);
    var polled := SQ.Poll(submitted);
    var w := Marked(Updated(s.worker, d), submitted.Keys - polled.Keys, sent);
    s.(cycled := s.cycled + 1, saves := polled, sends := Sends(s.sends, d) - sent, worker := DropFinished(w),
       outputs := s.outputs + [FinishedIds(w)],
       place := MoveCycled(s.place, s.cycled, FinishedIds(w), |s.outputs|))
  }

  /** `update_connector_output` on the next result. */
  function Collect(s: System): System
    requires s.collected < |s.outputs|
  {
    var completed := s.outputs[s.collected];
    s.(sch := Complete(s.sch, completed), collected := s.collected + 1, place := s.place - completed)
  }

  datatype Step =
    | DoPrepare(request: string)
    | DoBuild(saves: seq<SaveRequest>, preempted: set<string>)
    | DoFinish(request: string, remoteDecode: bool, capped: bool, anyBlocks: bool)
    | DoCycle(sent: set<string>)
    | DoCollect
    | DoSaveEnds(request: string, outcome: SQ.Outcome)

  /**
   What vLLM guarantees: a request finishes once, finished requests are neither scheduled nor preempted, and a request
   that has saved something still has blocks when it finishes. The transfer reports published sends.
   */
  predicate Enabled(s: System, step: Step) {
    match step
    case DoPrepare(_) => true
    case DoBuild(saves, preempted) => Saved(saves) !! s.sch.delayed && preempted !! s.sch.delayed
    case DoFinish(request, _, _, anyBlocks) => request !in s.sch.delayed && (request in s.sch.saving ==> anyBlocks)
    case DoCycle(sent) => s.cycled < |s.deltas| && sent <= Sends(s.sends, s.deltas[s.cycled])
    case DoCollect => s.collected < |s.outputs|
    case DoSaveEnds(request, _) => SQ.Enabled(s.saves, SQ.DoComplete(request, SQ.Succeeded))
  }

  function Apply(sizes: seq<nat>, s: System, step: Step): System
    requires SQ.SizesPositive(sizes) && Enabled(s, step)
  {
    match step
    case DoPrepare(request) => s.(sch := Prepare(s.sch, request))
    case DoBuild(saves, preempted) => Build(s, saves, preempted)
    case DoFinish(request, remoteDecode, capped, anyBlocks) =>
      FinishRequest(s, request, remoteDecode, capped, anyBlocks)
    case DoCycle(sent) => Cycle(sizes, s, sent)
    case DoCollect => Collect(s)
    case DoSaveEnds(request, outcome) => s.(saves := s.saves[request := SQ.Complete(s.saves[request], outcome)])
  }

  ghost predicate IsRun(sizes: seq<nat>, run: seq<System>, steps: seq<Step>)
    requires SQ.SizesPositive(sizes)
  {
    && |run| == |steps| + 1 && run[0] == START
    && forall i :: 0 <= i < |steps| ==> Enabled(run[i], steps[i]) && run[i + 1] == Apply(sizes, run[i], steps[i])
  }
}
