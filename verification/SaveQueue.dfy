/**
 The save queue of the pool: per request one running save, and a pending queue in which events are coalesced. Steps are
 calls made under the task lock and completions of the save lane.
 */
module SaveQueue {
  import opened Arithmetic
  import opened Common
  import opened SaveEvents

  datatype Outcome = Succeeded | Raised(message: string)

  /** A submitted save and, once its future is done, how it ended. */
  datatype Work = Work(event: SaveEvent, outcome: Option<Outcome>)

  /**
   `_SaveState`. The last three fields are history: the works submitted so far, how the collected ones ended, and for
   each work and then each pending event the accepted events it stands for.
   */
  datatype SaveState = SaveState(running: Option<Work>, pending: seq<SaveEvent>, errors: seq<string>,
                                 start: nat, end: nat,
                                 works: seq<SaveEvent>, outcomes: seq<Outcome>, parts: seq<seq<SaveEvent>>)

  type Saves = map<string, SaveState>

  /** A result names the accepted events it covers only as history. */
  datatype SaveResult = SaveResult(requestId: string, error: Option<string>)

  // ---------------------------------------------------------------- one request

  function Opened(e: SaveEvent): SaveState {
    SaveState(None, [], [], e.start, e.end, [], [], [])
  }

  predicate SizesPositive(sizes: seq<nat>) {
    forall g :: 0 <= g < |sizes| ==> sizes[g] > 0
  }

  /** `save` for a request with state `st`, before the queue is advanced. */
  function Enqueue(sizes: seq<nat>, st: SaveState, e: SaveEvent): SaveState
    requires SizesPositive(sizes)
  {
    var n, last := |st.pending| - 1, |st.parts| - 1;
    var joins := st.pending != [] && CanMerge(st.pending[n], e, sizes) && st.parts != [];
    st.(start := Min(st.start, e.start), end := Max(st.end, e.end), pending := Push(sizes, st.pending, e),
        parts := if joins then st.parts[last := st.parts[last] + [e]] else st.parts + [[e]])
  }

  /** The running save is taken off if it is done; its error is kept. */
  function Collect(st: SaveState): SaveState {
    match st.running
    case Some(Work(_, Some(outcome))) =>
      st.(running := None, outcomes := st.outcomes + [outcome],
          errors := if outcome.Raised? then st.errors + [outcome.message] else st.errors)
    case _ => st
  }

  /** The next pending event is submitted if nothing runs. */
  function Submit(st: SaveState): SaveState {
    if st.running.None? && st.pending != [] then
      st.(running := Some(Work(st.pending[0], None)), pending := st.pending[1..], works := st.works + [st.pending[0]])
    else st
  }

  /** `_advance_save`. */
  function Advance(st: SaveState): SaveState {
    Submit(Collect(st))
  }

  predicate Idle(st: SaveState) {
    st.running.None? && st.pending == []
  }

  /** `"; ".join(errors) or None`. */
  function Join(errors: seq<string>): string {
    if errors == [] then ""
    else if |errors| == 1 then errors[0]
    else Join(errors[..|errors| - 1]) + "; " + errors[|errors| - 1]
  }

  function Reported(errors: seq<string>): Option<string> {
    if Join(errors) == "" then None else Some(Join(errors))
  }

  /** The future of the running save is done. */
  function Complete(st: SaveState, outcome: Outcome): SaveState
    requires st.running.Some?
  {
    st.(running := Some(st.running.value.(outcome := Some(outcome))))
  }

  // ---------------------------------------------------------------- all requests

  function Save(sizes: seq<nat>, s: Saves, request: string, e: SaveEvent): Saves
    requires SizesPositive(sizes)
  {
    s[request := Advance(Enqueue(sizes, if request in s then s[request] else Opened(e), e))]
  }

  /** `poll`: every queue moves on, and the idle ones are reported and dropped. */
  function Poll(s: Saves): Saves {
    map r | r in s && !Idle(Advance(s[r])) :: Advance(s[r])
  }

  function PollResults(s: Saves): set<SaveResult> {
    set r | r in s && Idle(Advance(s[r])) :: SaveResult(r, Reported(Advance(s[r]).errors))
  }

  datatype Step =
    | DoSave(request: string, event: SaveEvent)
    | DoComplete(request: string, outcome: Outcome)
    | DoAdvance(request: string)
    | DoPoll
    | DoPreempt(request: string, cancelled: bool)

  /**
   `DoAdvance` is one turn of `wait_for_all_saves`. A preemption returns when the running save could be cancelled or is
   done.
   */
  predicate Enabled(s: Saves, step: Step) {
    match step
    case DoSave(_, event) => event.start <= event.end
    case DoComplete(request, _) => request in s && s[request].running.Some? && s[request].running.value.outcome.None?
    case DoAdvance(request) => request in s
    case DoPoll => true
    case DoPreempt(request, cancelled) =>
      request in s && s[request].running.Some? ==> cancelled || s[request].running.value.outcome.Some?
  }

  function Apply(sizes: seq<nat>, s: Saves, step: Step): Saves
    requires SizesPositive(sizes) && Enabled(s, step)
  {
    match step
    case DoSave(request, event) => Save(sizes, s, request, event)
    case DoComplete(request, outcome) => s[request := Complete(s[request], outcome)]
    case DoAdvance(request) => s[request := Advance(s[request])]
    case DoPoll => Poll(s)
    case DoPreempt(request, _) => s - {request}
  }

  ghost predicate IsRun(sizes: seq<nat>, run: seq<Saves>, steps: seq<Step>)
    requires SizesPositive(sizes)
  {
    && |run| == |steps| + 1 && run[0] == map[]
    && forall i :: 0 <= i < |steps| ==> Enabled(run[i], steps[i]) && run[i + 1] == Apply(sizes, run[i], steps[i])
  }

  // ---------------------------------------------------------------- invariant

  /** `work` is what is left of `events` when they are merged one after the other. */
  predicate StandsFor(sizes: seq<nat>, work: SaveEvent, events: seq<SaveEvent>)
    requires SizesPositive(sizes)
  {
    events != [] && Coalesce(sizes, events) == [work]
  }

  function Errors(outcomes: seq<Outcome>): seq<string> {
    if outcomes == [] then []
    else
      var n := |outcomes| - 1;
      Errors(outcomes[..n]) + if outcomes[n].Raised? then [outcomes[n].message] else []
  }

  function Flatten(parts: seq<seq<SaveEvent>>): seq<SaveEvent> {
    if parts == [] then [] else Flatten(parts[..|parts| - 1]) + parts[|parts| - 1]
  }

  /** The works and pending events, in order. */
  function Queue(st: SaveState): seq<SaveEvent> {
    st.works + st.pending
  }

  /** Books are in order; after `save` something may be pending while nothing runs yet. */
  predicate Consistent(sizes: seq<nat>, st: SaveState)
    requires SizesPositive(sizes)
  {
    && |st.works| == |st.outcomes| + (if st.running.Some? then 1 else 0)
    && (st.running.Some? ==> st.running.value.event == st.works[|st.works| - 1])
    && st.errors == Errors(st.outcomes)
    && AllStandFor(sizes, Queue(st), st.parts)
  }

  predicate AllStandFor(sizes: seq<nat>, queue: seq<SaveEvent>, parts: seq<seq<SaveEvent>>)
    requires SizesPositive(sizes)
  {
    |parts| == |queue| && forall k :: 0 <= k < |parts| ==> StandsFor(sizes, queue[k], parts[k])
  }

  predicate StateValid(sizes: seq<nat>, st: SaveState)
    requires SizesPositive(sizes)
  {
    Consistent(sizes, st) && (st.pending != [] ==> st.running.Some?)
  }

  ghost predicate Inv(sizes: seq<nat>, s: Saves)
    requires SizesPositive(sizes)
  {
    forall r :: r in s ==> StateValid(sizes, s[r])
  }

  lemma PushOne(sizes: seq<nat>, work: SaveEvent, events: seq<SaveEvent>, e: SaveEvent)
    requires SizesPositive(sizes) && StandsFor(sizes, work, events) && CanMerge(work, e, sizes)
    ensures StandsFor(sizes, Merged(work, e), events + [e])
  {
    assert (events + [e])[..|events|] == events;
  }

  lemma Alone(sizes: seq<nat>, e: SaveEvent)
    requires SizesPositive(sizes)
    ensures StandsFor(sizes, e, [e])
  {
    assert [e][..0] == [];
  }

  lemma JoinStands(sizes: seq<nat>, queue: seq<SaveEvent>, parts: seq<seq<SaveEvent>>, e: SaveEvent)
    requires SizesPositive(sizes) && AllStandFor(sizes, queue, parts) && queue != []
    requires CanMerge(queue[|queue| - 1], e, sizes)
    ensures var last := |queue| - 1;
            AllStandFor(sizes, queue[last := Merged(queue[last], e)], parts[last := parts[last] + [e]])
  {
    var last := |parts| - 1;
    PushOne(sizes, queue[last], parts[last], e);
    var queue1, parts1 := queue[last := Merged(queue[last], e)], parts[last := parts[last] + [e]];
    forall k | 0 <= k < |parts1|
      ensures StandsFor(sizes, queue1[k], parts1[k])
    {
      if k < last {
        assert StandsFor(sizes, queue[k], parts[k]);
      }
    }
  }

  lemma JoinFlat(parts: seq<seq<SaveEvent>>, e: SaveEvent)
    requires parts != []
    ensures var last := |parts| - 1; Flatten(parts[last := parts[last] + [e]]) == Flatten(parts) + [e]
  {
    var last := |parts| - 1;
    var parts1 := parts[last := parts[last] + [e]];
    assert parts1[..last] == parts[..last] && parts1[last] == parts[last] + [e];
    assert Flatten(parts[..last]) + (parts[last] + [e]) == Flatten(parts[..last]) + parts[last] + [e];
  }

  /** The last pending event takes in the new one. */
  lemma JoinParts(sizes: seq<nat>, queue: seq<SaveEvent>, parts: seq<seq<SaveEvent>>, e: SaveEvent)
    requires SizesPositive(sizes) && AllStandFor(sizes, queue, parts) && queue != []
    requires CanMerge(queue[|queue| - 1], e, sizes)
    ensures var last := |queue| - 1;
            && AllStandFor(sizes, queue[last := Merged(queue[last], e)], parts[last := parts[last] + [e]])
            && Flatten(parts[last := parts[last] + [e]]) == Flatten(parts) + [e]
  {
    JoinStands(sizes, queue, parts, e);
    JoinFlat(parts, e);
  }

  lemma AppendPart(sizes: seq<nat>, queue: seq<SaveEvent>, parts: seq<seq<SaveEvent>>, e: SaveEvent)
    requires SizesPositive(sizes) && AllStandFor(sizes, queue, parts)
    ensures AllStandFor(sizes, queue + [e], parts + [[e]]) && Flatten(parts + [[e]]) == Flatten(parts) + [e]
  {
    Alone(sizes, e);
    assert (parts + [[e]])[..|parts|] == parts;
  }

  lemma ReplaceLast(works: seq<SaveEvent>, pending: seq<SaveEvent>, e: SaveEvent)
    requires pending != []
    ensures works + (pending[..|pending| - 1] + [e]) == (works + pending)[|works + pending| - 1 := e]
    ensures (works + pending)[|works + pending| - 1] == pending[|pending| - 1]
  {
  }

  lemma EnqueueJoined(sizes: seq<nat>, st: SaveState, e: SaveEvent)
    requires SizesPositive(sizes) && |st.parts| == |Queue(st)|
    requires st.pending != [] && CanMerge(st.pending[|st.pending| - 1], e, sizes)
    ensures var last := |st.parts| - 1;
            && Queue(st)[last] == st.pending[|st.pending| - 1]
            && Queue(Enqueue(sizes, st, e)) == Queue(st)[last := Merged(Queue(st)[last], e)]
            && Enqueue(sizes, st, e).parts == st.parts[last := st.parts[last] + [e]]
  {
    ReplaceLast(st.works, st.pending, Merged(st.pending[|st.pending| - 1], e));
  }

  lemma EnqueueQueue(sizes: seq<nat>, st: SaveState, e: SaveEvent)
    requires SizesPositive(sizes) && AllStandFor(sizes, Queue(st), st.parts)
    ensures var st1 := Enqueue(sizes, st, e);
            AllStandFor(sizes, Queue(st1), st1.parts) && Flatten(st1.parts) == Flatten(st.parts) + [e]
  {
    if st.pending != [] && CanMerge(st.pending[|st.pending| - 1], e, sizes) {
      EnqueueJoined(sizes, st, e);
      JoinParts(sizes, Queue(st), st.parts, e);
    } else {
      AppendPart(sizes, Queue(st), st.parts, e);
      assert st.works + (st.pending + [e]) == Queue(st) + [e];
    }
  }

  lemma EnqueueValid(sizes: seq<nat>, st: SaveState, e: SaveEvent)
    requires SizesPositive(sizes) && Consistent(sizes, st)
    ensures Consistent(sizes, Enqueue(sizes, st, e))
    ensures Flatten(Enqueue(sizes, st, e).parts) == Flatten(st.parts) + [e]
  {
    EnqueueQueue(sizes, st, e);
  }

  lemma AdvanceValid(sizes: seq<nat>, st: SaveState)
    requires SizesPositive(sizes) && Consistent(sizes, st)
    ensures StateValid(sizes, Advance(st))
    ensures Advance(st).parts == st.parts && Queue(Advance(st)) == Queue(st)
  {
    var st1 := Collect(st);
    if st1 != st {
      var outcome := st.running.value.outcome.value;
      assert (st.outcomes + [outcome])[..|st.outcomes|] == st.outcomes;
    }
    assert st1.pending != [] ==> st1.works + st1.pending == st1.works + [st1.pending[0]] + st1.pending[1..];
  }

  lemma SaveValid(sizes: seq<nat>, s: Saves, request: string, event: SaveEvent)
    requires SizesPositive(sizes) && Inv(sizes, s)
    ensures StateValid(sizes, Save(sizes, s, request, event)[request])
  {
    var st := if request in s then s[request] else Opened(event);
    EnqueueValid(sizes, st, event);
    AdvanceValid(sizes, Enqueue(sizes, st, event));
  }

  lemma PollInv(sizes: seq<nat>, s: Saves)
    requires SizesPositive(sizes) && Inv(sizes, s)
    ensures Inv(sizes, Poll(s))
  {
    forall r | r in s
      ensures StateValid(sizes, Advance(s[r]))
    {
      AdvanceValid(sizes, s[r]);
    }
  }

  lemma CompleteValid(sizes: seq<nat>, st: SaveState, outcome: Outcome)
    requires SizesPositive(sizes) && StateValid(sizes, st) && st.running.Some?
    ensures StateValid(sizes, Complete(st, outcome))
  {
    assert Queue(Complete(st, outcome)) == Queue(st);
  }

  lemma StepInv(sizes: seq<nat>, s: Saves, step: Step)
    requires SizesPositive(sizes) && Inv(sizes, s) && Enabled(s, step)
    ensures Inv(sizes, Apply(sizes, s, step))
  {
    match step
    case DoSave(request, event) => SaveValid(sizes, s, request, event);
    case DoComplete(request, outcome) => CompleteValid(sizes, s[request], outcome);
    case DoAdvance(request) => AdvanceValid(sizes, s[request]);
    case DoPoll => PollInv(sizes, s);
    case DoPreempt(_, _) =>
  }

  lemma {:induction false} RunInv(sizes: seq<nat>, run: seq<Saves>, steps: seq<Step>, i: nat)
    requires SizesPositive(sizes) && IsRun(sizes, run, steps) && i < |run|
    ensures Inv(sizes, run[i])
  {
    if i > 0 {
      RunInv(sizes, run, steps, i - 1);
      StepInv(sizes, run[i - 1], steps[i - 1]);
    }
  }

  // ---------------------------------------------------------------- nothing accepted is lost

  /** The events accepted for a request and not yet reported or preempted. */
  function Accepted(s: Saves, request: string): seq<SaveEvent> {
    if request in s then Flatten(s[request].parts) else []
  }

  lemma SaveAccepts(sizes: seq<nat>, s: Saves, request: string, e: SaveEvent)
    requires SizesPositive(sizes) && Inv(sizes, s)
    ensures Accepted(Save(sizes, s, request, e), request) == Accepted(s, request) + [e]
    ensures request in s ==> s[request].works <= Save(sizes, s, request, e)[request].works
  {
    var st := if request in s then s[request] else Opened(e);
    EnqueueValid(sizes, st, e);
    AdvanceValid(sizes, Enqueue(sizes, st, e));
  }

  /** What a step does to the accepted events of a request. */
  function AcceptedAfter(s: Saves, step: Step, request: string): seq<SaveEvent> {
    match step
    case DoSave(r, event) => Accepted(s, request) + (if r == request then [event] else [])
    case DoPoll => if request in s && Idle(Advance(s[request])) then [] else Accepted(s, request)
    case DoPreempt(r, _) => if r == request then [] else Accepted(s, request)
    case _ => Accepted(s, request)
  }

  lemma PollAccepted(sizes: seq<nat>, s: Saves, request: string)
    requires SizesPositive(sizes) && Inv(sizes, s)
    ensures Accepted(Poll(s), request) == AcceptedAfter(s, DoPoll, request)
    ensures request in s && request in Poll(s) ==> s[request].works <= Poll(s)[request].works
  {
    if request in s {
      AdvanceValid(sizes, s[request]);
    }
  }

  /** Only accepting, reporting and preempting change what is outstanding; saves run in the order of submission. */
  lemma StepAccepted(sizes: seq<nat>, s: Saves, step: Step, request: string)
    requires SizesPositive(sizes) && Inv(sizes, s) && Enabled(s, step)
    ensures var s1 := Apply(sizes, s, step);
            && Accepted(s1, request) == AcceptedAfter(s, step, request)
            && (request in s && request in s1 ==> s[request].works <= s1[request].works)
  {
    match step
    case DoSave(r, event) => SaveAccepts(sizes, s, r, event);
    case DoAdvance(r) => AdvanceValid(sizes, s[r]);
    case DoPoll => PollAccepted(sizes, s, request);
    case DoComplete(r, outcome) => assert Complete(s[r], outcome).parts == s[r].parts;
    case DoPreempt(_, _) =>
  }

  /**
   Main result. In every run, the submitted and pending saves of a request are its accepted events in order, adjacent
   ones merged. They write exactly the items that the accepted events write, and wait for exactly their signals.
   */
  lemma AcceptedIsQueued(p: Pool, run: seq<Saves>, steps: seq<Step>, i: nat, request: string)
    requires PoolValid(p) && IsRun(BlockSizes(p), run, steps) && i < |run| && request in run[i]
    requires QueueValid(p, Accepted(run[i], request))
    ensures var st := run[i][request];
            && Accepted(run[i], request) == Flatten(st.parts) && AllStandFor(BlockSizes(p), Queue(st), st.parts)
            && (forall at, item ::
                  QueueWrites(p, Queue(st), at, item) <==> QueueWrites(p, Accepted(run[i], request), at, item))
            && forall x :: QueueAwaits(Queue(st), x) <==> QueueAwaits(Accepted(run[i], request), x)
  {
    RunInv(BlockSizes(p), run, steps, i);
    var st := run[i][request];
    QueueIsParts(p, Queue(st), st.parts);
  }

  lemma {:induction false} QueueIsParts(p: Pool, queue: seq<SaveEvent>, parts: seq<seq<SaveEvent>>)
    requires PoolValid(p) && AllStandFor(BlockSizes(p), queue, parts) && QueueValid(p, Flatten(parts))
    ensures forall at, item :: QueueWrites(p, queue, at, item) <==> QueueWrites(p, Flatten(parts), at, item)
    ensures forall x :: QueueAwaits(queue, x) <==> QueueAwaits(Flatten(parts), x)
  {
    if parts != [] {
      var n := |parts| - 1;
      var before, last := Flatten(parts[..n]), parts[n];
      PrefixValid(p, before, last);
      QueueIsParts(p, queue[..n], parts[..n]);
      CoalescingPreservesMeaning(p, last);
      QueueSnoc(p, queue[..n], queue[n]);
      QueueSnoc(p, [], queue[n]);
      assert queue == queue[..n] + [queue[n]] && [] + [queue[n]] == [queue[n]];
      QueueConcat(p, before, last);
    }
  }

  lemma PrefixValid(p: Pool, a: seq<SaveEvent>, b: seq<SaveEvent>)
    requires PoolValid(p) && QueueValid(p, a + b)
    ensures QueueValid(p, a) && QueueValid(p, b)
  {
    assert forall k :: 0 <= k < |a| ==> (a + b)[k] == a[k];
    assert forall k :: 0 <= k < |b| ==> (a + b)[|a| + k] == b[k];
  }

  lemma QueueConcat(p: Pool, a: seq<SaveEvent>, b: seq<SaveEvent>)
    requires PoolValid(p)
    ensures forall at, item ::
              QueueWrites(p, a + b, at, item) <==> QueueWrites(p, a, at, item) || QueueWrites(p, b, at, item)
    ensures forall x :: QueueAwaits(a + b, x) <==> QueueAwaits(a, x) || QueueAwaits(b, x)
  {
    assert forall k :: 0 <= k < |a| ==> (a + b)[k] == a[k];
    assert forall k :: 0 <= k < |b| ==> (a + b)[|a| + k] == b[k];
  }

  // ---------------------------------------------------------------- results and errors

  /** Every save submitted since the last result has ended, in the order given. */
  ghost predicate AllEnded(st: SaveState) {
    st.pending == [] && |st.outcomes| == |st.works| == |st.parts|
  }

  ghost predicate SomeRaised(st: SaveState) {
    exists k :: 0 <= k < |st.outcomes| && st.outcomes[k].Raised?
  }

  lemma {:induction false} ErrorsEmptyIff(outcomes: seq<Outcome>)
    ensures Errors(outcomes) == [] <==> forall k :: 0 <= k < |outcomes| ==> !outcomes[k].Raised?
    ensures |Errors(outcomes)| <= |outcomes|
  {
    if outcomes != [] {
      ErrorsEmptyIff(outcomes[..|outcomes| - 1]);
    }
  }

  lemma {:induction false} JoinEmptyIff(errors: seq<string>)
    ensures Join(errors) == "" <==> errors == [] || errors == [""]
  {
    if |errors| == 1 {
      assert errors == [errors[0]];
    }
  }

  /**
   Main result. A result is reported only when every accepted event of the request has been saved or has raised. It
   carries an error exactly when some save raised, except when the only error so far has an empty message: then the
   result reads as a success.
   */
  lemma ResultsTellErrors(sizes: seq<nat>, run: seq<Saves>, steps: seq<Step>, i: nat, request: string)
    requires SizesPositive(sizes) && IsRun(sizes, run, steps) && i < |run|
    requires request in run[i] && Idle(Advance(run[i][request]))
    ensures var st := Advance(run[i][request]);
            && AllEnded(st) && st.parts == run[i][request].parts
            && SaveResult(request, Reported(st.errors)) in PollResults(run[i])
            && (Reported(st.errors).Some? <==> SomeRaised(st) && st.errors != [""])
  {
    RunInv(sizes, run, steps, i);
    var st := Advance(run[i][request]);
    AdvanceValid(sizes, run[i][request]);
    ErrorsEmptyIff(st.outcomes);
    JoinEmptyIff(st.errors);
    assert Queue(st) == st.works;
  }

  /** A save that raises without a message is reported as a success. */
  lemma EmptyMessageIsLost(e: SaveEvent)
    ensures var st := Complete(Advance(Enqueue([], Opened(e), e)), Raised(""));
            && SomeRaised(Advance(st)) && Idle(Advance(st))
            && SaveResult("r", None) in PollResults(map["r" := st])
  {
    var st := Complete(Advance(Enqueue([], Opened(e), e)), Raised(""));
    assert Enqueue([], Opened(e), e).pending == [e];
    assert Advance(st).outcomes[0].Raised?;
    assert Advance(st).errors == [""];
    assert "r" in map["r" := st];
  }
}
