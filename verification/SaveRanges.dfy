/**
 Incremental saves of the scheduler: which token range each save of a request covers. Over the life of a request the
 ranges are aligned, follow each other without gap or overlap, and can always be merged.
 */
module SaveRanges {
  import opened Arithmetic
  import opened Common
  import opened Chunks
  import opened SaveEvents

  /** `_TrackedRequest` with what it reads from its request. */
  datatype Tracked = Tracked(numTokens: nat, promptTokens: nat, hashes: seq<Hash>, blocks: seq<seq<int>>,
                             decode: bool, saved: nat)

  function RoundUp(n: nat, size: nat): (r: nat)
    requires size > 0
    ensures n <= r < n + size && r % size == 0
  {
    CeilDivIff(n, size, -1);
    CeilDivBounds(n, size);
    MultipleModZero(CeilDiv(n, size), size);
    CeilDiv(n, size) * size
  }

  function RoundDown(n: nat, size: nat): (r: nat)
    requires size > 0
    ensures r <= n < r + size && r % size == 0
  {
    MultipleModZero(n / size, size);
    n / size * size
  }

  /** Where the next save would start: decode saves leave the prompt to P. */
  function NextStart(size: nat, t: Tracked): nat
    requires size > 0
  {
    if t.decode then Max(t.saved, RoundUp(t.promptTokens, size)) else t.saved
  }

  /** The tokens that are complete: known tokens only, in whole blocks. */
  function Complete(size: nat, t: Tracked, tokenCount: nat): nat
    requires size > 0
  {
    RoundDown(Min(tokenCount, t.numTokens), size)
  }

  /** `_build_save_meta`. */
  function BuildSave(size: nat, t: Tracked, tokenCount: nat): Option<SaveEvent>
    requires size > 0
  {
    if Complete(size, t, tokenCount) <= NextStart(size, t) then None
    else Some(SaveEvent(NextStart(size, t), Complete(size, t, tokenCount), t.hashes, t.blocks, Some(t.promptTokens),
                        NoEvent))
  }

  function AfterSave(size: nat, t: Tracked, tokenCount: nat): Tracked
    requires size > 0
  {
    if BuildSave(size, t, tokenCount).Some? then t.(saved := Complete(size, t, tokenCount)) else t
  }

  /** `_append_blocks`, group by group; there may be nothing to append, and a changed number of groups raises. */
  function Appended(blocks: seq<seq<int>>, more: Option<seq<seq<int>>>): Option<seq<seq<int>>> {
    match more
    case None => Some(blocks)
    case Some(incoming) =>
      if blocks == [] then Some(incoming)
      else if |blocks| != |incoming| then None
      else Some(seq(|blocks|, g requires 0 <= g < |blocks| => blocks[g] + incoming[g]))
  }

  /** The loop over the groups. */
  method AppendBlocks(blocks: seq<seq<int>>, incoming: Option<seq<seq<int>>>) returns (r: Option<seq<seq<int>>>)
    ensures r == Appended(blocks, incoming)
    ensures r.None? <==> incoming.Some? && blocks != [] && |blocks| != |incoming.value|
    ensures incoming.None? ==> r == Some(blocks)
    ensures incoming.Some? && blocks == [] ==> r == incoming
    ensures incoming.Some? && blocks != [] && r.Some? ==>
              |r.value| == |blocks| && forall g :: 0 <= g < |blocks| ==> r.value[g] == blocks[g] + incoming.value[g]
  {
    if incoming.None? {
      return Some(blocks);
    }
    var more := incoming.value;
    if blocks == [] {
      return Some(more);
    }
    if |blocks| != |more| {
      return None;
    }
    var all := blocks;
    for g := 0 to |blocks|
      invariant |all| == |blocks|
      invariant forall h :: 0 <= h < |blocks| ==> all[h] == if h < g then blocks[h] + more[h] else blocks[h]
    {
      all := all[g := all[g] + more[g]];
    }
    r := Some(all);
    assert all == seq(|blocks|, g requires 0 <= g < |blocks| => blocks[g] + more[g]);
  }

  // ---------------------------------------------------------------- the life of a request

  /** A step in which the request is scheduled: what is known of it then, and up to which token it is computed. */
  datatype Turn = Turn(now: Tracked, tokenCount: nat)

  /** The request later on: it may know more tokens and hashes and have more blocks. */
  ghost predicate Refreshes(t: Tracked, now: Tracked) {
    && now.promptTokens == t.promptTokens && now.decode == t.decode && now.saved == t.saved
    && t.hashes <= now.hashes && (t.blocks == [] || TablesGrow(t.blocks, now.blocks))
  }

  lemma RefreshesFurther(t: Tracked, t1: Tracked, t2: Tracked)
    requires Refreshes(t, t1) && Refreshes(t1, t2)
    ensures Refreshes(t, t2)
  {
  }

  lemma AppendedGrows(blocks: seq<seq<int>>, more: Option<seq<seq<int>>>)
    requires Appended(blocks, more).Some?
    ensures blocks == [] || TablesGrow(blocks, Appended(blocks, more).value)
  {
  }

  /** The tracked request and the saves sent so far. */
  datatype Life = Life(t: Tracked, saves: seq<SaveEvent>)

  function Advance(size: nat, life: Life, turn: Turn): Life
    requires size > 0
  {
    var save := BuildSave(size, turn.now, turn.tokenCount);
    Life(AfterSave(size, turn.now, turn.tokenCount), life.saves + if save.Some? then [save.value] else [])
  }

  /** Block tables reach the scheduled tokens. */
  predicate TablesReach(t: Tracked, tokenCount: nat, sizes: seq<nat>) {
    && |t.blocks| == |sizes|
    && forall g :: 0 <= g < |sizes| ==> sizes[g] > 0 && |t.blocks[g]| >= CeilDiv(tokenCount, sizes[g])
  }

  ghost predicate IsLife(size: nat, sizes: seq<nat>, lives: seq<Life>, turns: seq<Turn>)
    requires size > 0
  {
    && |lives| == |turns| + 1
    && lives[0].saves == [] && lives[0].t.saved == 0
    && forall i :: 0 <= i < |turns| ==> TurnTaken(size, sizes, lives[i], turns[i], lives[i + 1])
  }

  ghost predicate TurnTaken(size: nat, sizes: seq<nat>, life: Life, turn: Turn, next: Life)
    requires size > 0
  {
    && Refreshes(life.t, turn.now) && TablesReach(turn.now, turn.tokenCount, sizes)
    && next == Advance(size, life, turn)
  }

  /** A life goes on by one more turn. */
  lemma LifeExtends(size: nat, sizes: seq<nat>, lives: seq<Life>, turns: seq<Turn>, turn: Turn, next: Life)
    requires size > 0 && IsLife(size, sizes, lives, turns) && TurnTaken(size, sizes, lives[|turns|], turn, next)
    ensures IsLife(size, sizes, lives + [next], turns + [turn])
  {
    forall i | 0 <= i < |turns + [turn]|
      ensures TurnTaken(size, sizes, (lives + [next])[i], (turns + [turn])[i], (lives + [next])[i + 1])
    {
      assert i < |turns| ==> TurnTaken(size, sizes, lives[i], turns[i], lives[i + 1]);
    }
  }

  /** A save that is due: aligned, not empty, within the known tokens, and after the prompt for decode. */
  ghost predicate SaveValid(size: nat, t: Tracked, e: SaveEvent)
    requires size > 0
  {
    && e.start % size == 0 && e.end % size == 0 && e.start < e.end
    && (t.decode ==> e.start >= RoundUp(t.promptTokens, size))
  }

  /** `next` continues where `prior` ended, on longer tables of the same request. */
  ghost predicate Continues(prior: SaveEvent, next: SaveEvent) {
    && next.start == prior.end && next.prompt == prior.prompt && prior.hashes <= next.hashes
    && TablesGrow(prior.blocks, next.blocks)
  }

  ghost predicate TablesGrow(older: seq<seq<int>>, newer: seq<seq<int>>) {
    |older| == |newer| && forall g :: 0 <= g < |older| ==> older[g] <= newer[g]
  }

  ghost predicate LifeValid(size: nat, sizes: seq<nat>, life: Life)
    requires size > 0
  {
    var n := |life.saves|;
    && life.t.saved % size == 0
    && (forall k :: 0 <= k < n ==> SaveValid(size, life.t, life.saves[k]) && |life.saves[k].blocks| == |sizes|)
    && (forall k :: 0 < k < n ==> Continues(life.saves[k - 1], life.saves[k]) && Reaches(life.saves[k], sizes))
    && (n == 0 ==> life.t.saved == 0)
    && (n > 0 ==>
      var last := life.saves[n - 1];
      && last.end == life.t.saved && last.prompt == Some(life.t.promptTokens) && last.hashes <= life.t.hashes
      && TablesGrow(last.blocks, life.t.blocks) && NextStart(size, life.t) == life.t.saved)
  }

  ghost predicate Reaches(e: SaveEvent, sizes: seq<nat>) {
    |e.blocks| == |sizes| && forall g :: 0 <= g < |sizes| ==> sizes[g] > 0 && |e.blocks[g]| >= CeilDiv(e.end, sizes[g])
  }

  /** The longer tables of a scheduled request extend those of the last save. */
  lemma ScheduledKeeps(size: nat, sizes: seq<nat>, life: Life, turn: Turn)
    requires size > 0 && LifeValid(size, sizes, life)
    requires Refreshes(life.t, turn.now) && TablesReach(turn.now, turn.tokenCount, sizes)
    ensures LifeValid(size, sizes, life.(t := turn.now))
  {
    if life.saves != [] {
      var last := life.saves[|life.saves| - 1];
      assert last.hashes <= life.t.hashes <= turn.now.hashes;
    }
  }

  lemma AdvanceValid(size: nat, sizes: seq<nat>, life: Life, turn: Turn)
    requires size > 0 && LifeValid(size, sizes, life)
    requires Refreshes(life.t, turn.now) && TablesReach(turn.now, turn.tokenCount, sizes)
    ensures LifeValid(size, sizes, Advance(size, life, turn))
  {
    ScheduledKeeps(size, sizes, life, turn);
    var scheduled := life.(t := turn.now);
    if BuildSave(size, turn.now, turn.tokenCount).Some? {
      SaveTaken(size, sizes, scheduled, turn.tokenCount);
    } else {
      assert Advance(size, life, turn) == scheduled;
    }
  }

  lemma NewSaveValid(size: nat, sizes: seq<nat>, t: Tracked, tokenCount: nat)
    requires size > 0 && t.saved % size == 0 && TablesReach(t, tokenCount, sizes)
    requires BuildSave(size, t, tokenCount).Some?
    ensures SaveValid(size, t, BuildSave(size, t, tokenCount).value)
    ensures Reaches(BuildSave(size, t, tokenCount).value, sizes)
  {
    StartAligned(size, t);
    var e := BuildSave(size, t, tokenCount).value;
    forall g | 0 <= g < |sizes|
      ensures |t.blocks[g]| >= CeilDiv(e.end, sizes[g])
    {
      CeilDivMonotone(e.end, tokenCount, sizes[g]);
    }
  }

  /** A due save continues the saves so far. */
  lemma SaveTaken(size: nat, sizes: seq<nat>, life: Life, tokenCount: nat)
    requires size > 0 && LifeValid(size, sizes, life) && TablesReach(life.t, tokenCount, sizes)
    requires BuildSave(size, life.t, tokenCount).Some?
    ensures LifeValid(size, sizes, Life(AfterSave(size, life.t, tokenCount),
                                        life.saves + [BuildSave(size, life.t, tokenCount).value]))
  {
    NewSaveValid(size, sizes, life.t, tokenCount);
    var e, n := BuildSave(size, life.t, tokenCount).value, |life.saves|;
    var saves, t := life.saves + [e], AfterSave(size, life.t, tokenCount);
    forall k | 0 <= k < |saves|
      ensures SaveValid(size, t, saves[k]) && |saves[k].blocks| == |sizes|
    {
      assert k < n ==> SaveValid(size, life.t, life.saves[k]);
    }
    forall k | 0 < k < |saves|
      ensures Continues(saves[k - 1], saves[k]) && Reaches(saves[k], sizes)
    {
      assert k < n ==> Continues(life.saves[k - 1], life.saves[k]);
    }
  }

  lemma StartAligned(size: nat, t: Tracked)
    requires size > 0 && t.saved % size == 0
    ensures NextStart(size, t) % size == 0
  {
  }

  lemma {:induction false} LivesValid(size: nat, sizes: seq<nat>, lives: seq<Life>, turns: seq<Turn>, i: nat)
    requires size > 0 && IsLife(size, sizes, lives, turns) && i < |lives|
    ensures LifeValid(size, sizes, lives[i])
  {
    if i > 0 {
      LivesValid(size, sizes, lives, turns, i - 1);
      assert TurnTaken(size, sizes, lives[i - 1], turns[i - 1], lives[i]);
      AdvanceValid(size, sizes, lives[i - 1], turns[i - 1]);
    }
  }

  /**
   Main result. The saves of a request are aligned and not empty, decode saves start after the prompt, and each starts
   where the one before ended.
   */
  lemma SavesAreContiguous(size: nat, sizes: seq<nat>, lives: seq<Life>, turns: seq<Turn>, i: nat, k: nat)
    requires size > 0 && IsLife(size, sizes, lives, turns) && i < |lives| && k < |lives[i].saves|
    ensures SaveValid(size, lives[i].t, lives[i].saves[k])
    ensures k > 0 ==> lives[i].saves[k].start == lives[i].saves[k - 1].end
    ensures k == 0 && !lives[i].t.decode ==> lives[i].saves[0].start == 0
  {
    LivesValid(size, sizes, lives, turns, i);
    if k == 0 {
      FirstSave(size, sizes, lives, turns, i);
    }
  }

  lemma {:induction false} FirstSave(size: nat, sizes: seq<nat>, lives: seq<Life>, turns: seq<Turn>, i: nat)
    requires size > 0 && IsLife(size, sizes, lives, turns) && i < |lives| && lives[i].saves != []
    ensures lives[i].saves[0].start == if lives[i].t.decode then RoundUp(lives[i].t.promptTokens, size) else 0
  {
    assert i > 0;
    LivesValid(size, sizes, lives, turns, i - 1);
    assert TurnTaken(size, sizes, lives[i - 1], turns[i - 1], lives[i]);
    if lives[i - 1].saves != [] {
      FirstSave(size, sizes, lives, turns, i - 1);
    }
  }

  /** No save passes the tokens that the request knows when it is sent; it brings all hashes and blocks known then. */
  lemma NeverPassesKnownTokens(size: nat, t: Tracked, tokenCount: nat)
    requires size > 0 && BuildSave(size, t, tokenCount).Some?
    ensures BuildSave(size, t, tokenCount).value.end <= t.numTokens
    ensures BuildSave(size, t, tokenCount).value.end <= tokenCount
    ensures AfterSave(size, t, tokenCount).saved == BuildSave(size, t, tokenCount).value.end > t.saved
    ensures var e := BuildSave(size, t, tokenCount).value;
            && e.hashes == t.hashes && e.blocks == t.blocks && e.prompt == Some(t.promptTokens) && e.ready == NoEvent
  {
  }

  /**
   No whole block of known tokens is left to be saved, except that decode leaves alone what lies before the first block
   after the prompt.
   */
  ghost predicate CaughtUp(size: nat, t: Tracked, tokenCount: nat)
    requires size > 0
  {
    var known := if tokenCount < t.numTokens then tokenCount else t.numTokens;
    known < t.saved + size || (t.decode && known < RoundUp(t.promptTokens, size) + size)
  }

  lemma SaveCatchesUp(size: nat, t: Tracked, tokenCount: nat)
    requires size > 0
    ensures CaughtUp(size, AfterSave(size, t, tokenCount), tokenCount)
  {
  }

  /** Main result. After every turn of a request no block is left that is due. */
  lemma NothingLeft(size: nat, sizes: seq<nat>, lives: seq<Life>, turns: seq<Turn>, i: nat)
    requires size > 0 && IsLife(size, sizes, lives, turns) && i < |turns|
    ensures CaughtUp(size, lives[i + 1].t, turns[i].tokenCount) && lives[i + 1].t.numTokens == turns[i].now.numTokens
  {
    assert TurnTaken(size, sizes, lives[i], turns[i], lives[i + 1]);
    SaveCatchesUp(size, turns[i].now, turns[i].tokenCount);
  }

  /** Main result. Successive saves of a request can always be merged, and without changing what is written. */
  lemma SuccessiveSavesMerge(p: Pool, lives: seq<Life>, turns: seq<Turn>, i: nat, k: nat)
    requires PoolValid(p) && IsLife(p.lcm, BlockSizes(p), lives, turns) && i < |lives| && 0 < k < |lives[i].saves|
    ensures CanMerge(lives[i].saves[k - 1], lives[i].saves[k], BlockSizes(p))
    ensures Aligned(p, lives[i].saves[k - 1]) && Aligned(p, lives[i].saves[k])
  {
    LivesValid(p.lcm, BlockSizes(p), lives, turns, i);
    var prior, next := lives[i].saves[k - 1], lives[i].saves[k];
    assert SaveValid(p.lcm, lives[i].t, prior) && SaveValid(p.lcm, lives[i].t, next);
    assert Continues(prior, next) && Reaches(next, BlockSizes(p));
  }
}
