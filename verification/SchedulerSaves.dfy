/**
 The saves of the scheduler over a whole run: those of a tracked request are a life of `SaveRanges`.
 */
module SchedulerSaves {
  import opened Common
  import SE = SaveEvents
  import SR = SaveRanges
  import RB = ReleaseBarrier
  import L = SchedulerLoop

  /** The scheduler's block size, the groups' block sizes, and whether this side saves at all and saves decode. */
  datatype Setup = Setup(size: nat, sizes: seq<nat>, saves: bool, decodeSave: bool)

  /** The tracked requests, and for each the saves published since it is tracked. */
  datatype Ledger = Ledger(tracked: map<string, SR.Tracked>, sent: map<string, seq<SE.SaveEvent>>)

  datatype Step =
    | DoAllocate(r: string, blocks: seq<seq<int>>, initial: SR.Tracked)
    | DoBuild(items: seq<L.Item>, loading: set<string>, preempted: set<string>)
    | DoForget(gone: set<string>)

  /** The events of one request among the published saves, in order. */
  function EventsOf(saves: seq<RB.SaveRequest>, r: string): seq<SE.SaveEvent> {
    if saves == [] then []
    else
      var n := |saves| - 1;
      EventsOf(saves[..n], r) + if saves[n].request == r then [saves[n].event] else []
  }

  function Since(l: Ledger, r: string): seq<SE.SaveEvent> {
    if r in l.sent then l.sent[r] else []
  }

  /** The steps of `SchedulerLoop.Scheduler`; `DoForget` stands for finished and for released requests. */
  function Apply(c: Setup, l: Ledger, step: Step): Ledger
    requires c.size > 0 && (step.DoBuild? ==> Due(c, l, step).Some?)
  {
    match step
    case DoAllocate(r, blocks, initial) =>
      Ledger(L.Tracking(l.tracked, r, blocks, initial), l.sent[r := if r in l.tracked then Since(l, r) else []])
    case DoBuild(_, _, preempted) =>
      var due := Due(c, l, step).value;
      var published := RB.WithoutSaves(due.requests, preempted);
      Ledger(due.tracked - preempted,
             map r | r in due.tracked && r !in preempted :: Since(l, r) + EventsOf(published, r))
    case DoForget(gone) => Ledger(l.tracked - gone, l.sent - gone)
  }

  function Due(c: Setup, l: Ledger, step: Step): Option<L.Saves>
    requires c.size > 0 && step.DoBuild?
  {
    L.DueSaves(c.size, c.saves, c.decodeSave, l.tracked, step.loading, step.items)
  }

  // ---------------------------------------------------------------- what vLLM guarantees

  /** Hashes and block tables of a request only grow, and the tables reach the scheduled tokens. */
  ghost predicate ItemOrderly(c: Setup, t: SR.Tracked, item: L.Item) {
    && t.hashes <= item.hashes
    && (item.isNew ==> item.blocks.Some? && (t.blocks == [] || SR.TablesGrow(t.blocks, item.blocks.value)))
    && (L.Refreshed(t, item).Some? ==> SR.TablesReach(L.Refreshed(t, item).value, item.tokenCount, c.sizes))
  }

  /** Each request is listed as vLLM promises, when its turn comes. */
  ghost predicate ItemsOrderly(c: Setup, s: L.Saves, items: seq<L.Item>, loading: set<string>)
    requires c.size > 0
  {
    items != [] ==>
      var n := |items| - 1;
      && ItemsOrderly(c, s, items[..n], loading)
      && var before := L.SaveItems(c.size, s, items[..n], loading, c.decodeSave);
      && (before.Some? && items[n].request in before.value.tracked ==>
           ItemOrderly(c, before.value.tracked[items[n].request], items[n]))
  }

  ghost predicate Enabled(c: Setup, l: Ledger, step: Step)
    requires c.size > 0
  {
    match step
    case DoAllocate(r, blocks, initial) =>
      if r in l.tracked then blocks != [] && l.tracked[r].blocks != [] ==> SR.TablesGrow(l.tracked[r].blocks, blocks)
      else initial.saved == 0
    case DoBuild(items, loading, _) =>
      Due(c, l, step).Some? && (c.saves ==> ItemsOrderly(c, L.Saves(l.tracked, []), items, loading))
    case DoForget(_) => true
  }

  ghost predicate IsRun(c: Setup, run: seq<Ledger>, steps: seq<Step>)
    requires c.size > 0
  {
    && |run| == |steps| + 1 && run[0] == Ledger(map[], map[])
    && forall i :: 0 <= i < |steps| ==> Enabled(c, run[i], steps[i]) && run[i + 1] == Apply(c, run[i], steps[i])
  }

  // ---------------------------------------------------------------- lives

  /** The saves are those of a life that has come to the tracked request. */
  ghost predicate LifeOf(c: Setup, t: SR.Tracked, saves: seq<SE.SaveEvent>, lives: seq<SR.Life>, turns: seq<SR.Turn>)
    requires c.size > 0
  {
    && SR.IsLife(c.size, c.sizes, lives, turns)
    && lives[|lives| - 1].saves == saves && SR.Refreshes(lives[|lives| - 1].t, t)
  }

  ghost predicate HasLife(c: Setup, t: SR.Tracked, saves: seq<SE.SaveEvent>)
    requires c.size > 0
  {
    exists lives, turns :: LifeOf(c, t, saves, lives, turns)
  }

  lemma LifeBegins(c: Setup, t: SR.Tracked)
    requires c.size > 0 && t.saved == 0
    ensures HasLife(c, t, [])
  {
    assert LifeOf(c, t, [], [SR.Life(t, [])], []);
  }

  lemma LifeRefreshed(c: Setup, t: SR.Tracked, saves: seq<SE.SaveEvent>, now: SR.Tracked)
    requires c.size > 0 && HasLife(c, t, saves) && SR.Refreshes(t, now)
    ensures HasLife(c, now, saves)
  {
    var lives: seq<SR.Life>, turns: seq<SR.Turn> :| LifeOf(c, t, saves, lives, turns);
    SR.RefreshesFurther(lives[|lives| - 1].t, t, now);
    assert LifeOf(c, now, saves, lives, turns);
  }

  /** A scheduled request takes one more turn of its life. */
  lemma LifeAdvances(c: Setup, now: SR.Tracked, saves: seq<SE.SaveEvent>, tokenCount: nat)
    requires c.size > 0 && HasLife(c, now, saves) && SR.TablesReach(now, tokenCount, c.sizes)
    ensures var save := SR.BuildSave(c.size, now, tokenCount);
            HasLife(c, SR.AfterSave(c.size, now, tokenCount), saves + if save.Some? then [save.value] else [])
  {
    var lives: seq<SR.Life>, turns: seq<SR.Turn> :| LifeOf(c, now, saves, lives, turns);
    var turn := SR.Turn(now, tokenCount);
    var next := SR.Advance(c.size, lives[|lives| - 1], turn);
    SR.LifeExtends(c.size, c.sizes, lives, turns, turn, next);
    assert LifeOf(c, next.t, next.saves, lives + [next], turns + [turn]);
  }

  // ---------------------------------------------------------------- events of one request

  lemma EventsSnoc(saves: seq<RB.SaveRequest>, x: RB.SaveRequest, r: string)
    ensures EventsOf(saves + [x], r) == EventsOf(saves, r) + if x.request == r then [x.event] else []
  {
    assert (saves + [x])[..|saves|] == saves;
  }

  lemma {:induction false} PublishedEvents(saves: seq<RB.SaveRequest>, gone: set<string>, r: string)
    requires r !in gone
    ensures EventsOf(RB.WithoutSaves(saves, gone), r) == EventsOf(saves, r)
  {
    if saves != [] {
      var n := |saves| - 1;
      PublishedEvents(saves[..n], gone, r);
      if saves[n].request !in gone {
        EventsSnoc(RB.WithoutSaves(saves[..n], gone), saves[n], r);
      }
    }
  }

  // ---------------------------------------------------------------- one step

  /** What `r` has after some of the listed requests. */
  ghost predicate GoesOn(c: Setup, s: L.Saves, before: seq<SE.SaveEvent>, r: string)
    requires c.size > 0
  {
    r in s.tracked ==> HasLife(c, s.tracked[r], before + EventsOf(s.requests, r))
  }

  /** The events of `r` that the saves of one item add. */
  function OwnEvents(item: L.Item, save: Option<SE.SaveEvent>, r: string): seq<SE.SaveEvent> {
    if save.Some? && item.request == r then [save.value] else []
  }

  lemma ItemEvents(requests: seq<RB.SaveRequest>, item: L.Item, save: Option<SE.SaveEvent>, r: string)
    ensures EventsOf(requests + (if save.Some? then [RB.SaveRequest(item.request, save.value)] else []), r)
            == EventsOf(requests, r) + OwnEvents(item, save, r)
  {
    if save.Some? {
      EventsSnoc(requests, RB.SaveRequest(item.request, save.value), r);
    } else {
      assert requests + [] == requests;
    }
  }

  /** The item's own request takes one more turn of its life. */
  lemma OwnItemGoesOn(c: Setup, t: SR.Tracked, item: L.Item, before: seq<SE.SaveEvent>)
    requires c.size > 0 && HasLife(c, t, before) && L.Refreshed(t, item).Some? && ItemOrderly(c, t, item)
    ensures var now := L.Refreshed(t, item).value;
            HasLife(c, SR.AfterSave(c.size, now, item.tokenCount),
                    before + OwnEvents(item, SR.BuildSave(c.size, now, item.tokenCount), item.request))
  {
    var now := L.Refreshed(t, item).value;
    RefreshedItem(c, t, item);
    LifeRefreshed(c, t, before, now);
    LifeAdvances(c, now, before, item.tokenCount);
  }

  lemma KeptItem(c: Setup, s: L.Saves, item: L.Item, loading: set<string>)
    requires c.size > 0 && L.SaveItem(c.size, s, item, loading, c.decodeSave).Some?
    requires !L.Skipped(s, item, loading, c.decodeSave)
    ensures L.Refreshed(s.tracked[item.request], item).Some?
    ensures var now := L.Refreshed(s.tracked[item.request], item).value;
            var save := SR.BuildSave(c.size, now, item.tokenCount);
            L.SaveItem(c.size, s, item, loading, c.decodeSave).value
            == L.Saves(s.tracked[item.request := SR.AfterSave(c.size, now, item.tokenCount)],
                       s.requests + if save.Some? then [RB.SaveRequest(item.request, save.value)] else [])
  {
  }

  /** An item that is saved, seen by one request. */
  lemma SavedItemGoesOn(c: Setup, s: L.Saves, item: L.Item, now: SR.Tracked, save: Option<SE.SaveEvent>, s1: L.Saves,
                        before: seq<SE.SaveEvent>, r: string)
    requires c.size > 0 && GoesOn(c, s, before, r) && item.request in s.tracked
    requires ItemOrderly(c, s.tracked[item.request], item) && L.Refreshed(s.tracked[item.request], item) == Some(now)
    requires save == SR.BuildSave(c.size, now, item.tokenCount)
    requires s1.tracked == s.tracked[item.request := SR.AfterSave(c.size, now, item.tokenCount)]
    requires s1.requests == s.requests + if save.Some? then [RB.SaveRequest(item.request, save.value)] else []
    ensures GoesOn(c, s1, before, r)
  {
    var sofar, own := before + EventsOf(s.requests, r), OwnEvents(item, save, r);
    ItemEvents(s.requests, item, save, r);
    assert before + (EventsOf(s.requests, r) + own) == sofar + own;
    if item.request == r {
      OwnItemGoesOn(c, s.tracked[r], item, sofar);
    } else {
      assert sofar + own == sofar;
    }
  }

  lemma ItemGoesOn(c: Setup, s: L.Saves, item: L.Item, loading: set<string>, before: seq<SE.SaveEvent>, r: string)
    requires c.size > 0 && GoesOn(c, s, before, r) && L.SaveItem(c.size, s, item, loading, c.decodeSave).Some?
    requires item.request in s.tracked ==> ItemOrderly(c, s.tracked[item.request], item)
    ensures var s1 := L.SaveItem(c.size, s, item, loading, c.decodeSave).value;
            s1.tracked.Keys == s.tracked.Keys && GoesOn(c, s1, before, r)
  {
    if !L.Skipped(s, item, loading, c.decodeSave) {
      KeptItem(c, s, item, loading);
      var now := L.Refreshed(s.tracked[item.request], item).value;
      SavedItemGoesOn(c, s, item, now, SR.BuildSave(c.size, now, item.tokenCount),
                      L.SaveItem(c.size, s, item, loading, c.decodeSave).value, before, r);
    }
  }

  lemma RefreshedItem(c: Setup, t: SR.Tracked, item: L.Item)
    requires ItemOrderly(c, t, item) && L.Refreshed(t, item).Some?
    ensures SR.Refreshes(t, L.Refreshed(t, item).value)
  {
    if !item.isNew {
      SR.AppendedGrows(t.blocks, item.blocks);
    }
  }

  lemma {:induction false} ItemsGoOn(c: Setup, s: L.Saves, items: seq<L.Item>, loading: set<string>,
                                     before: seq<SE.SaveEvent>, r: string)
    requires c.size > 0 && GoesOn(c, s, before, r) && ItemsOrderly(c, s, items, loading)
    requires L.SaveItems(c.size, s, items, loading, c.decodeSave).Some?
    ensures var s1 := L.SaveItems(c.size, s, items, loading, c.decodeSave).value;
            s1.tracked.Keys == s.tracked.Keys && GoesOn(c, s1, before, r)
  {
    if items != [] {
      var n := |items| - 1;
      ItemsGoOn(c, s, items[..n], loading, before, r);
      ItemGoesOn(c, L.SaveItems(c.size, s, items[..n], loading, c.decodeSave).value, items[n], loading, before, r);
    }
  }

  ghost predicate Inv(c: Setup, l: Ledger)
    requires c.size > 0
  {
    l.sent.Keys == l.tracked.Keys && forall r :: r in l.tracked ==> HasLife(c, l.tracked[r], Since(l, r))
  }

  lemma BuildGoesOn(c: Setup, l: Ledger, step: Step, r: string)
    requires c.size > 0 && Enabled(c, l, step) && step.DoBuild?
    requires r in l.tracked && HasLife(c, l.tracked[r], Since(l, r))
    ensures var due := Due(c, l, step).value;
            r in due.tracked && HasLife(c, due.tracked[r], Since(l, r) + EventsOf(due.requests, r))
  {
    assert Since(l, r) + EventsOf([], r) == Since(l, r);
    if c.saves {
      ItemsGoOn(c, L.Saves(l.tracked, []), step.items, step.loading, Since(l, r), r);
    }
  }

  lemma BuildInv(c: Setup, l: Ledger, step: Step)
    requires c.size > 0 && Inv(c, l) && Enabled(c, l, step) && step.DoBuild?
    ensures Inv(c, Apply(c, l, step))
  {
    var l1, due := Apply(c, l, step), Due(c, l, step).value;
    SameRequests(c, l, step);
    forall r | r in l1.tracked
      ensures HasLife(c, l1.tracked[r], Since(l1, r))
    {
      BuildGoesOn(c, l, step, r);
      PublishedEvents(due.requests, step.preempted, r);
    }
  }

  lemma SameRequests(c: Setup, l: Ledger, step: Step)
    requires c.size > 0 && Enabled(c, l, step) && step.DoBuild?
    ensures Due(c, l, step).value.tracked.Keys == l.tracked.Keys
  {
    if c.saves {
      KeysKept(c, L.Saves(l.tracked, []), step.items, step.loading);
    }
  }

  lemma {:induction false} KeysKept(c: Setup, s: L.Saves, items: seq<L.Item>, loading: set<string>)
    requires c.size > 0 && L.SaveItems(c.size, s, items, loading, c.decodeSave).Some?
    ensures L.SaveItems(c.size, s, items, loading, c.decodeSave).value.tracked.Keys == s.tracked.Keys
  {
    if items != [] {
      KeysKept(c, s, items[..|items| - 1], loading);
    }
  }

  lemma StepInv(c: Setup, l: Ledger, step: Step)
    requires c.size > 0 && Inv(c, l) && Enabled(c, l, step)
    ensures Inv(c, Apply(c, l, step))
  {
    match step
    case DoAllocate(r, blocks, initial) =>
      var t := Apply(c, l, step).tracked[r];
      if r in l.tracked {
        LifeRefreshed(c, l.tracked[r], Since(l, r), t);
      } else {
        LifeBegins(c, t);
      }
    case DoBuild(_, _, _) => BuildInv(c, l, step);
    case DoForget(_) =>
  }

  lemma {:induction false} RunInv(c: Setup, run: seq<Ledger>, steps: seq<Step>, i: nat)
    requires c.size > 0 && IsRun(c, run, steps) && i < |run|
    ensures Inv(c, run[i])
  {
    if i > 0 {
      RunInv(c, run, steps, i - 1);
      StepInv(c, run[i - 1], steps[i - 1]);
    }
  }

  // ---------------------------------------------------------------- main results

  /** Main result. In every run of the scheduler, the saves published for a request since it is tracked are a life. */
  lemma SavesFormLife(c: Setup, run: seq<Ledger>, steps: seq<Step>, i: nat, r: string)
    returns (lives: seq<SR.Life>, turns: seq<SR.Turn>)
    requires c.size > 0 && IsRun(c, run, steps) && i < |run| && r in run[i].tracked
    ensures r in run[i].sent && LifeOf(c, run[i].tracked[r], run[i].sent[r], lives, turns)
  {
    RunInv(c, run, steps, i);
    lives, turns :| LifeOf(c, run[i].tracked[r], run[i].sent[r], lives, turns);
  }

  /**
   Main result. In every run of the scheduler, the saves of a request are aligned and not empty, each starts where the
   one before ended, the first at the beginning or, for decode, after the prompt, and the last ends where the scheduler
   believes the request to be saved.
   */
  lemma ScheduledSavesAreContiguous(c: Setup, run: seq<Ledger>, steps: seq<Step>, i: nat, r: string, k: nat)
    requires c.size > 0 && IsRun(c, run, steps) && i < |run| && r in run[i].tracked && r in run[i].sent
    requires k < |run[i].sent[r]|
    ensures var t, saves := run[i].tracked[r], run[i].sent[r];
            && SR.SaveValid(c.size, t, saves[k])
            && (k > 0 ==> saves[k].start == saves[k - 1].end)
            && (k == 0 ==> saves[0].start == if t.decode then SR.RoundUp(t.promptTokens, c.size) else 0)
            && (k == |saves| - 1 ==> saves[k].end == t.saved)
  {
    var lives, turns := SavesFormLife(c, run, steps, i, r);
    var n := |lives| - 1;
    SR.SavesAreContiguous(c.size, c.sizes, lives, turns, n, k);
    SR.LivesValid(c.size, c.sizes, lives, turns, n);
    if k == 0 {
      SR.FirstSave(c.size, c.sizes, lives, turns, n);
    }
  }

  /** The item is the last one of its request in this step, and its turn to be saved. */
  ghost predicate IsDue(c: Setup, t: SR.Tracked, items: seq<L.Item>, loading: set<string>, k: nat) {
    && k < |items| && (forall j :: k < j < |items| ==> items[j].request != items[k].request)
    && c.saves && !(items[k].isNew && items[k].request in loading) && (t.decode ==> c.decodeSave)
  }

  /** The item brings its request up to date. */
  lemma ItemCatchesUp(c: Setup, s: L.Saves, item: L.Item, loading: set<string>)
    requires c.size > 0 && L.SaveItem(c.size, s, item, loading, c.decodeSave).Some?
    requires !L.Skipped(s, item, loading, c.decodeSave)
    ensures var s1 := L.SaveItem(c.size, s, item, loading, c.decodeSave).value;
            item.request in s1.tracked && IsCaughtUp(c, s1.tracked[item.request], item)
  {
    KeptItem(c, s, item, loading);
    SR.SaveCatchesUp(c.size, L.Refreshed(s.tracked[item.request], item).value, item.tokenCount);
  }

  ghost predicate IsCaughtUp(c: Setup, t: SR.Tracked, item: L.Item)
    requires c.size > 0
  {
    t.numTokens == item.numTokens && SR.CaughtUp(c.size, t, item.tokenCount)
  }

  /** An item leaves other requests alone, and no request changes its side. */
  lemma OtherItem(c: Setup, s: L.Saves, item: L.Item, loading: set<string>, r: string)
    requires c.size > 0 && L.SaveItem(c.size, s, item, loading, c.decodeSave).Some? && r in s.tracked
    ensures var s1 := L.SaveItem(c.size, s, item, loading, c.decodeSave).value;
            && r in s1.tracked && s1.tracked[r].decode == s.tracked[r].decode
            && (item.request != r ==> s1.tracked[r] == s.tracked[r])
  {
  }

  lemma {:induction false} SameSide(c: Setup, s: L.Saves, items: seq<L.Item>, loading: set<string>, r: string)
    requires c.size > 0 && L.SaveItems(c.size, s, items, loading, c.decodeSave).Some? && r in s.tracked
    ensures var s1 := L.SaveItems(c.size, s, items, loading, c.decodeSave).value;
            r in s1.tracked && s1.tracked[r].decode == s.tracked[r].decode
  {
    if items != [] {
      var n := |items| - 1;
      SameSide(c, s, items[..n], loading, r);
      OtherItem(c, L.SaveItems(c.size, s, items[..n], loading, c.decodeSave).value, items[n], loading, r);
    }
  }

  lemma {:induction false} ItemsCatchUp(c: Setup, s: L.Saves, items: seq<L.Item>, loading: set<string>, k: nat)
    requires c.size > 0 && L.SaveItems(c.size, s, items, loading, c.decodeSave).Some?
    requires k < |items| && items[k].request in s.tracked
    requires IsDue(c, s.tracked[items[k].request], items, loading, k)
    ensures var s1 := L.SaveItems(c.size, s, items, loading, c.decodeSave).value;
            items[k].request in s1.tracked && IsCaughtUp(c, s1.tracked[items[k].request], items[k])
  {
    var n := |items| - 1;
    var before := L.SaveItems(c.size, s, items[..n], loading, c.decodeSave).value;
    SameSide(c, s, items[..n], loading, items[k].request);
    if k == n {
      ItemCatchesUp(c, before, items[n], loading);
    } else {
      ItemsCatchUp(c, s, items[..n], loading, k);
      OtherItem(c, before, items[n], loading, items[k].request);
    }
  }

  /**
   Main result. In every run of the scheduler, building the metadata of a step leaves no due block of a scheduled
   request unsaved, unless the request is being loaded, excluded or preempted.
   */
  lemma ScheduledIsSaved(c: Setup, run: seq<Ledger>, steps: seq<Step>, i: nat, k: nat)
    requires c.size > 0 && IsRun(c, run, steps) && i < |steps| && steps[i].DoBuild? && k < |steps[i].items|
    requires var r := steps[i].items[k].request;
             && r in run[i].tracked && r !in steps[i].preempted
             && IsDue(c, run[i].tracked[r], steps[i].items, steps[i].loading, k)
    ensures var r := steps[i].items[k].request;
            r in run[i + 1].tracked && IsCaughtUp(c, run[i + 1].tracked[r], steps[i].items[k])
  {
    assert Enabled(c, run[i], steps[i]) && run[i + 1] == Apply(c, run[i], steps[i]);
    ItemsCatchUp(c, L.Saves(run[i].tracked, []), steps[i].items, steps[i].loading, k);
  }

  /** Main result. Successive saves of a request always merge in the pool, and without changing what is written. */
  lemma ScheduledSavesMerge(p: SE.Pool, c: Setup, run: seq<Ledger>, steps: seq<Step>, i: nat, r: string, k: nat)
    requires SE.PoolValid(p) && c.size == p.lcm && c.sizes == SE.BlockSizes(p)
    requires IsRun(c, run, steps) && i < |run| && r in run[i].sent && r in run[i].tracked && 0 < k < |run[i].sent[r]|
    ensures SE.CanMerge(run[i].sent[r][k - 1], run[i].sent[r][k], SE.BlockSizes(p))
    ensures SE.Aligned(p, run[i].sent[r][k - 1]) && SE.Aligned(p, run[i].sent[r][k])
  {
    var lives, turns := SavesFormLife(c, run, steps, i, r);
    SR.SuccessiveSavesMerge(p, lives, turns, |lives| - 1, k);
  }
}
