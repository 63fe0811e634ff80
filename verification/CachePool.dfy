/**
 The pool in its own form: the dictionaries of saves, loads and untrusted blocks, changed by calls under the task
 lock. Background futures complete between calls; their results are parameters or arbitrary.
 */
module CachePool {
  import opened Arithmetic
  import opened Common
  import opened Chunks
  import opened SaveEvents
  import opened SaveQueue
  import LP = LoadPrefix

  /** `_LoadState`; `outcome` is known once the future is done. */
  datatype LoadState = LoadState(event: LP.LoadEvent, outcome: Option<LP.LoadOutcome>, startedAt: int, timedOut: bool)

  datatype LoadResult = LoadResult(requestId: string, loaded: nat, error: bool)

  predicate LoadStateValid(dbs: seq<Database>, st: LoadState) {
    LP.LoadValid(dbs, st.event)
  }

  predicate LoadsValid(dbs: seq<Database>, loads: map<string, LoadState>) {
    forall r :: r in loads ==> LoadStateValid(dbs, loads[r])
  }

  /** What a finished load amounts to: after a timeout everything it asked for is untrusted. */
  function Final(dbs: seq<Database>, st: LoadState): LP.LoadOutcome
    requires LoadStateValid(dbs, st) && st.outcome.Some?
  {
    if st.timedOut then
      LP.LoadOutcome(st.event.start, true, LP.RangeBlocks(dbs, st.event, st.event.start, st.event.end))
    else st.outcome.value
  }

  /** A load ended in its range, and what it leaves untrusted are its blocks beyond the result. */
  ghost predicate OutcomeFits(dbs: seq<Database>, e: LP.LoadEvent, outcome: LP.LoadOutcome)
    requires LP.LoadValid(dbs, e)
  {
    e.start <= outcome.loaded <= e.end && outcome.invalid == LP.RangeBlocks(dbs, e, outcome.loaded, e.end)
  }

  /** What `LoadPrefix.LoadWork` ensures of the outcome is true of what is reported, also after a timeout. */
  lemma FinalFits(dbs: seq<Database>, st: LoadState)
    requires LoadStateValid(dbs, st) && st.outcome.Some? && OutcomeFits(dbs, st.event, st.outcome.value)
    ensures OutcomeFits(dbs, st.event, Final(dbs, st))
  {
  }

  function Waiting(st: LoadState, now: int, timeout: int): LoadState {
    if now - st.startedAt >= timeout then st.(timedOut := true) else st
  }

  function Done(loads: map<string, LoadState>): set<string> {
    set r | r in loads && loads[r].outcome.Some?
  }

  /** Untrusted blocks of the finished loads `done`. */
  function Untrusted(dbs: seq<Database>, loads: map<string, LoadState>, done: set<string>): (m: map<string, set<int>>)
    requires LoadsValid(dbs, loads) && done <= Done(loads)
    ensures forall r :: r in m <==> r in done && Final(dbs, loads[r]).invalid != {}
    ensures forall r :: r in m ==> m[r] == Final(dbs, loads[r]).invalid
  {
    map r | r in done && Final(dbs, loads[r]).invalid != {} :: Final(dbs, loads[r]).invalid
  }

  class Pool {
    const databases: seq<Database>
    const numBlocks: int
    const loadTimeout: int
    var saveStates: map<string, SaveState>
    var loads: map<string, LoadState>
    var invalid: map<string, set<int>>

    function Sizes(): (sizes: seq<nat>)
      ensures |sizes| == |databases| && forall g :: 0 <= g < |sizes| ==> sizes[g] == databases[g].blockSize
    {
      seq(|databases|, g requires 0 <= g < |databases| => databases[g].blockSize)
    }

    ghost predicate Valid()
      reads this
    {
      && (forall g :: 0 <= g < |databases| ==> DatabaseValid(databases[g]))
      && SizesPositive(Sizes()) && SaveQueue.Inv(Sizes(), saveStates)
      && LoadsValid(databases, loads)
      && forall r :: r in saveStates ==> BlocksFit(saveStates[r])
    }

    /** Every pending event has one block table per group. */
    ghost predicate BlocksFit(st: SaveState) {
      forall k :: 0 <= k < |st.pending| ==> |st.pending[k].blocks| == |databases|
    }

    constructor (databases: seq<Database>, numBlocks: int, loadTimeout: int)
      requires forall g :: 0 <= g < |databases| ==> DatabaseValid(databases[g])
      ensures Valid() && saveStates == map[] && loads == map[] && invalid == map[] && this.databases == databases
    {
      this.databases, this.numBlocks, this.loadTimeout := databases, numBlocks, loadTimeout;
      saveStates, loads, invalid := map[], map[], map[];
    }

    /** `_validate`. */
    predicate Accepts(blocks: seq<seq<int>>, start: nat, end: nat) {
      && start <= end && |blocks| == |databases|
      && forall g, i :: 0 <= g < |blocks| && 0 <= i < |blocks[g]| ==> blocks[g][i] < numBlocks
    }

    method Validate(blocks: seq<seq<int>>, start: nat, end: nat) returns (ok: bool)
      ensures ok <==> Accepts(blocks, start, end)
    {
      if end < start || |blocks| != |databases| {
        return false;
      }
      for g := 0 to |blocks|
        invariant forall h, i :: 0 <= h < g && 0 <= i < |blocks[h]| ==> blocks[h][i] < numBlocks
      {
        for i := 0 to |blocks[g]|
          invariant forall j :: 0 <= j < i ==> blocks[g][j] < numBlocks
        {
          if blocks[g][i] >= numBlocks {
            return false;
          }
        }
      }
      ok := true;
    }

    /** `save`; false stands for an exception. */
    method Save(request: string, event: SaveEvent) returns (ok: bool)
      requires Valid()
      modifies `saveStates
      ensures Valid()
      ensures ok <==> Accepts(event.blocks, event.start, event.end)
      ensures saveStates == if ok then SaveQueue.Save(Sizes(), old(saveStates), request, event) else old(saveStates)
    {
      ok := Validate(event.blocks, event.start, event.end);
      if !ok {
        return;
      }
      StepInv(Sizes(), saveStates, DoSave(request, event));
      var st := if request in saveStates then saveStates[request] else Opened(event);
      st := Append(st, event);
      st := AdvanceSave(st);
      saveStates := saveStates[request := st];
    }

    /** The pending queue takes in an event. */
    method Append(st: SaveState, event: SaveEvent) returns (st1: SaveState)
      requires SizesPositive(Sizes()) && |event.blocks| == |databases| && BlocksFit(st)
      requires st.pending != [] ==> st.parts != []
      ensures st1 == Enqueue(Sizes(), st, event) && BlocksFit(st1)
    {
      st1 := st.(start := Min(st.start, event.start), end := Max(st.end, event.end));
      var n, last := |st.pending| - 1, |st.parts| - 1;
      var merged: Option<SaveEvent> := None;
      if st.pending != [] {
        merged := Merge(st.pending[n], event, Sizes());
      }
      if merged.Some? {
        st1 := st1.(pending := st.pending[..n] + [merged.value], parts := st.parts[last := st.parts[last] + [event]]);
      } else {
        st1 := st1.(pending := st.pending + [event], parts := st.parts + [[event]]);
      }
    }

    /** `_advance_save`. */
    method AdvanceSave(st: SaveState) returns (st1: SaveState)
      ensures st1 == Advance(st)
    {
      st1 := st;
      if st.running.Some? {
        if st.running.value.outcome.None? {
          return;
        }
        var outcome := st.running.value.outcome.value;
        st1 := st1.(outcomes := st1.outcomes + [outcome]);
        if outcome.Raised? {
          st1 := st1.(errors := st1.errors + [outcome.message]);
        }
        st1 := st1.(running := None);
      }
      if st1.pending != [] {
        var event := st1.pending[0];
        st1 := st1.(pending := st1.pending[1..], works := st1.works + [event]);
        st1 := st1.(running := Some(Work(event, None)));
      }
    }

    /** `load`; false stands for an exception. */
    method Load(request: string, event: LP.LoadEvent, now: int) returns (ok: bool)
      requires Valid()
      modifies `loads
      ensures Valid()
      ensures ok <==> Accepts(event.blocks, event.start, event.end) && request !in old(loads) && request !in invalid
      ensures loads == if ok then old(loads)[request := LoadState(event, None, now, false)] else old(loads)
    {
      ok := Validate(event.blocks, event.start, event.end);
      ok := ok && request !in loads && request !in invalid;
      if ok {
        loads := loads[request := LoadState(event, None, now, false)];
      }
    }

    /** The part of `poll` that collects finished loads. */
    method PollLoads(now: int) returns (results: seq<LoadResult>)
      requires Valid()
      modifies `loads, `invalid
      ensures Valid()
      ensures loads == AllWaiting(old(loads), now, loadTimeout) - Done(old(loads))
      ensures invalid == old(invalid) + Untrusted(databases, old(loads), Done(old(loads)))
      ensures forall x :: x in results <==> LoadReported(databases, old(loads), Done(old(loads)), x)
      ensures forall r :: r in loads <==> r in old(loads) && old(loads)[r].outcome.None?
      ensures forall r :: r in loads ==>
                var late := old(loads)[r].timedOut || now >= old(loads)[r].startedAt + loadTimeout;
                loads[r] == old(loads)[r].(timedOut := late)
      ensures forall r :: r in old(loads) && old(loads)[r].outcome.Some? ==>
                exists x :: x in results && x.requestId == r
      ensures forall x :: x in results ==>
                && x.requestId in old(loads) && old(loads)[x.requestId].outcome.Some?
                && IsResult(databases, old(loads)[x.requestId], x.loaded, x.error, InvalidOf(invalid, x.requestId),
                            InvalidOf(old(invalid), x.requestId))
    {
      ghost var before := loads;
      forall r | r in before && before[r].outcome.Some?
        ensures LoadReported(databases, before, Done(before),
                             LoadResult(r, Final(databases, before[r]).loaded, Final(databases, before[r]).error))
      {
      }
      results := CollectLoads(now);
    }

    method CollectLoads(now: int) returns (results: seq<LoadResult>)
      requires LoadsValid(databases, loads)
      modifies `loads, `invalid
      ensures loads == AllWaiting(old(loads), now, loadTimeout) - Done(old(loads))
      ensures invalid == old(invalid) + Untrusted(databases, old(loads), Done(old(loads)))
      ensures forall x :: x in results <==> LoadReported(databases, old(loads), Done(old(loads)), x)
    {
      ghost var before, untrusted, done := loads, invalid, Done(loads);
      ghost var next := AllWaiting(before, now, loadTimeout);
      SweepEnds(before, next, done);
      results := [];
      var left := loads.Keys;
      while left != {}
        invariant left <= before.Keys && loads == Swept(before, next, done, left)
        invariant invalid == untrusted + Untrusted(databases, before, done - left)
        invariant forall x :: x in results <==> LoadReported(databases, before, done - left, x)
        decreases left
      {
        var r :| r in left;
        SweepNext(before, next, done, left, r);
        if r in done {
          UntrustedNext(databases, before, untrusted, done - left, r);
        }
        var collected := PollLoad(r, now);
        if collected.Some? {
          results := results + [collected.value];
        }
        left := left - {r};
      }
    }

    method PollLoad(r: string, now: int) returns (result: Option<LoadResult>)
      requires LoadsValid(databases, loads) && r in loads
      modifies `loads, `invalid
      ensures result.Some? <==> r in Done(old(loads))
      ensures result.None? ==>
                loads == old(loads)[r := Waiting(old(loads)[r], now, loadTimeout)] && invalid == old(invalid)
      ensures result.Some? ==>
                var final := Final(databases, old(loads)[r]);
                && loads == old(loads) - {r} && result.value == LoadResult(r, final.loaded, final.error)
                && invalid == if final.invalid != {} then old(invalid)[r := final.invalid] else old(invalid)
    {
      var st := loads[r];
      result := None;
      if st.outcome.None? {
        if now - st.startedAt >= loadTimeout {
          st := st.(timedOut := true);
        }
        loads := loads[r := st];
      } else {
        var final := Final(databases, st);
        if final.invalid != {} {
          invalid := invalid[r := final.invalid];
        }
        result := Some(LoadResult(r, final.loaded, final.error));
        loads := loads - {r};
      }
    }

    /** The part of `poll` that advances saves and reports the idle ones. */
    method PollSaves() returns (results: seq<SaveResult>)
      requires Valid()
      modifies `saveStates
      ensures Valid()
      ensures saveStates == Poll(old(saveStates))
      ensures forall x :: x in results <==> x in PollResults(old(saveStates))
    {
      PollValid(saveStates);
      results := AdvanceAll();
    }

    method AdvanceAll() returns (results: seq<SaveResult>)
      modifies `saveStates
      ensures saveStates == Poll(old(saveStates))
      ensures forall x :: x in results <==> x in PollResults(old(saveStates))
    {
      ghost var before, next, idle := saveStates, AllAdvanced(saveStates), IdleAfter(saveStates);
      SweepEnds(before, next, idle);
      results := [];
      var left := saveStates.Keys;
      while left != {}
        invariant left <= before.Keys && saveStates == Swept(before, next, idle, left)
        invariant forall x :: x in results <==> SaveReported(next, idle - left, x)
        decreases left
      {
        var r :| r in left;
        SweepNext(before, next, idle, left, r);
        var reported := PollSave(r, next[r], r in idle);
        if reported.Some? {
          results := results + [reported.value];
        }
        left := left - {r};
      }
      PolledAll(before);
    }

    method PollSave(r: string, ghost next: SaveState, ghost idle: bool) returns (result: Option<SaveResult>)
      requires r in saveStates && next == Advance(saveStates[r]) && (idle <==> Idle(next))
      modifies `saveStates
      ensures saveStates == if idle then old(saveStates) - {r} else old(saveStates)[r := next]
      ensures result == if idle then Some(SaveResult(r, Reported(next.errors))) else None
    {
      var st := AdvanceSave(saveStates[r]);
      saveStates := saveStates[r := st];
      result := None;
      if st.running.None? && st.pending == [] {
        result := Some(SaveResult(r, Reported(st.errors)));
        saveStates := saveStates - {r};
      }
    }

    /** Polling keeps the pool valid. */
    lemma PollValid(before: map<string, SaveState>)
      requires SizesPositive(Sizes()) && SaveQueue.Inv(Sizes(), before)
      requires forall r :: r in before ==> BlocksFit(before[r])
      ensures SaveQueue.Inv(Sizes(), Poll(before)) && forall r :: r in Poll(before) ==> BlocksFit(Poll(before)[r])
    {
      StepInv(Sizes(), before, DoPoll);
    }

    method TakeErrors() returns (errors: set<int>)
      modifies `invalid
      ensures invalid == map[]
      ensures forall b :: b in errors <==> exists r :: r in old(invalid) && b in old(invalid)[r]
    {
      errors := set r, b | r in invalid && b in invalid[r] :: b;
      invalid := map[];
    }

    /**
     `preempt`. A running save or load that its executor can no longer cancel is waited for: `fencedSaves` and
     `fencedLoads` are the tables once that is over, and only then is the request dropped from them.
     */
    method Preempt(request: string, saveCancelled: bool, loadCancelled: bool)
      returns (ghost fencedSaves: map<string, SaveState>, ghost fencedLoads: map<string, LoadState>)
      requires Valid()
      modifies this
      ensures Valid()
      ensures SaveAwaited(old(saveStates), fencedSaves, request, saveCancelled)
      ensures SaveQueue.Enabled(fencedSaves, DoPreempt(request, saveCancelled))
      ensures saveStates == Apply(Sizes(), fencedSaves, DoPreempt(request, saveCancelled))
      ensures LoadAwaited(old(loads), fencedLoads, request, loadCancelled)
      ensures loads == fencedLoads - {request} && invalid == old(invalid) - {request}
    {
      AwaitSave(request, saveCancelled);
      fencedSaves := saveStates;
      saveStates := saveStates - {request};
      AwaitLoad(request, loadCancelled);
      fencedLoads := loads;
      loads := loads - {request};
      invalid := invalid - {request};
    }

    method AwaitSave(request: string, cancelled: bool)
      requires Valid()
      modifies `saveStates
      ensures Valid() && SaveAwaited(old(saveStates), saveStates, request, cancelled)
      ensures SaveQueue.Enabled(saveStates, DoPreempt(request, cancelled))
    {
      if request in saveStates {
        var st := saveStates[request];
        if st.running.Some? && !cancelled && st.running.value.outcome.None? {
          var outcome: Outcome := *;
          StepInv(Sizes(), saveStates, DoComplete(request, outcome));
          saveStates := saveStates[request := Complete(st, outcome)];
        }
      }
    }

    /** `_fence_loads` for one request, up to the removal. */
    method AwaitLoad(request: string, cancelled: bool)
      requires Valid()
      modifies `loads
      ensures Valid() && LoadAwaited(old(loads), loads, request, cancelled)
    {
      if request in loads && !cancelled && loads[request].outcome.None? {
        var outcome: LP.LoadOutcome := *;
        loads := loads[request := loads[request].(outcome := Some(outcome))];
      }
    }

    /** `wait_for_all_saves`: all queues run dry; nothing accepted is dropped and no error is forgotten. */
    method WaitForAllSaves()
      requires Valid()
      modifies `saveStates
      ensures Valid() && saveStates.Keys == old(saveStates).Keys
      ensures forall r :: r in saveStates ==>
                StateValid(Sizes(), saveStates[r]) && Drained(old(saveStates)[r], saveStates[r])
    {
      ghost var before := saveStates;
      var left := saveStates.Keys;
      while left != {}
        invariant left <= saveStates.Keys == before.Keys
        invariant forall r :: r in left ==> saveStates[r] == before[r]
        invariant forall r :: r in saveStates && r !in left ==> DrainedState(before[r], saveStates[r])
        decreases left
      {
        var r :| r in left;
        assert r in before && StateValid(Sizes(), before[r]) && BlocksFit(before[r]);
        var st := Drain(saveStates[r]);
        saveStates := saveStates[r := st];
        left := left - {r};
      }
    }

    ghost predicate DrainedState(st: SaveState, st1: SaveState) {
      SizesPositive(Sizes()) && StateValid(Sizes(), st1) && Drained(st, st1)
    }

    method Drain(st: SaveState) returns (st1: SaveState)
      requires SizesPositive(Sizes()) && StateValid(Sizes(), st) && BlocksFit(st)
      ensures DrainedState(st, st1)
    {
      st1 := st;
      while st1.running.Some? || st1.pending != []
        invariant StateValid(Sizes(), st1)
        invariant st1.parts == st.parts && st.errors <= st1.errors
        decreases |st1.pending|, Progress(st1)
      {
        st1 := DrainTurn(st1);
      }
      assert Queue(st1) == st1.works;
    }

    /** One turn of the wait: advance, then wait for the running save. */
    method DrainTurn(st: SaveState) returns (st1: SaveState)
      requires SizesPositive(Sizes()) && StateValid(Sizes(), st) && (st.running.Some? || st.pending != [])
      ensures StateValid(Sizes(), st1) && st1.parts == st.parts && st.errors <= st1.errors
      ensures |st1.pending| < |st.pending| || (|st1.pending| == |st.pending| && Progress(st1) < Progress(st))
    {
      AdvanceValid(Sizes(), st);
      st1 := AdvanceSave(st);
      if st1.running.Some? && st1.running.value.outcome.None? {
        var outcome: Outcome := *;
        st1 := Complete(st1, outcome);
      }
    }
  }

  /** How far the running save is from being collected. */
  function Progress(st: SaveState): nat {
    match st.running
    case None => 0
    case Some(work) => if work.outcome.Some? then 1 else 2
  }

  /** The running save of the request has ended, unless it was cancelled; nothing else changed. */
  ghost predicate SaveAwaited(s: map<string, SaveState>, s1: map<string, SaveState>, r: string, cancelled: bool) {
    if r in s && s[r].running.Some? && s[r].running.value.outcome.None? && !cancelled
    then exists outcome :: s1 == s[r := Complete(s[r], outcome)]
    else s1 == s
  }

  ghost predicate LoadAwaited(s: map<string, LoadState>, s1: map<string, LoadState>, r: string, cancelled: bool) {
    if r in s && s[r].outcome.None? && !cancelled
    then exists outcome :: s1 == s[r := s[r].(outcome := Some(outcome))]
    else s1 == s
  }

  function AllWaiting(loads: map<string, LoadState>, now: int, timeout: int): (r: map<string, LoadState>)
    ensures r.Keys == loads.Keys && forall k :: k in r ==> r[k] == Waiting(loads[k], now, timeout)
  {
    map k | k in loads :: Waiting(loads[k], now, timeout)
  }

  /** A result for one of the finished loads `done`. */
  ghost predicate LoadReported(dbs: seq<Database>, loads: map<string, LoadState>, done: set<string>, x: LoadResult)
    requires LoadsValid(dbs, loads) && done <= Done(loads)
  {
    && x.requestId in done
    && var final := Final(dbs, loads[x.requestId]); x.loaded == final.loaded && x.error == final.error
  }

  function InvalidOf(invalid: map<string, set<int>>, r: string): set<int> {
    if r in invalid then invalid[r] else {}
  }

  /**
   What is reported of a load is how it ended, unless it was late: then nothing counts as loaded, and all its blocks are
   untrusted. `before` are the untrusted blocks of the request before.
   */
  ghost predicate IsResult(dbs: seq<Database>, st: LoadState, loaded: nat, error: bool, invalid: set<int>,
                           before: set<int>)
    requires LoadStateValid(dbs, st) && st.outcome.Some?
  {
    if st.timedOut then
      var blocks := LP.RangeBlocks(dbs, st.event, st.event.start, st.event.end);
      loaded == st.event.start && error && invalid == if blocks == {} then before else blocks
    else
      var outcome := st.outcome.value;
      && loaded == outcome.loaded && error == outcome.error
      && invalid == if outcome.invalid == {} then before else outcome.invalid
  }

  lemma UntrustedNext(dbs: seq<Database>, loads: map<string, LoadState>, base: map<string, set<int>>,
                      done: set<string>, r: string)
    requires LoadsValid(dbs, loads) && done <= Done(loads) && r in Done(loads)
    ensures var bad, blocks := base + Untrusted(dbs, loads, done), Final(dbs, loads[r]).invalid;
            base + Untrusted(dbs, loads, done + {r}) == if blocks != {} then bad[r := blocks] else bad
  {
  }

  function AllAdvanced(saves: map<string, SaveState>): (r: map<string, SaveState>)
    ensures r.Keys == saves.Keys && forall k :: k in r ==> r[k] == Advance(saves[k])
  {
    map k | k in saves :: Advance(saves[k])
  }

  function IdleAfter(saves: map<string, SaveState>): set<string> {
    set r | r in saves && Idle(Advance(saves[r]))
  }

  ghost predicate SaveReported(next: map<string, SaveState>, idle: set<string>, x: SaveResult) {
    x.requestId in idle && x.requestId in next && x.error == Reported(next[x.requestId].errors)
  }

  lemma PolledAll(saves: map<string, SaveState>)
    ensures Poll(saves) == AllAdvanced(saves) - IdleAfter(saves)
    ensures forall x :: x in PollResults(saves) <==> SaveReported(AllAdvanced(saves), IdleAfter(saves), x)
  {
  }

  ghost predicate Drained(st: SaveState, st1: SaveState) {
    Idle(st1) && st1.parts == st.parts && st.errors <= st1.errors && AllEnded(st1)
  }
}
