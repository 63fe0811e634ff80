/** The search for the longest hit that every attention group of a hybrid model can use. */
module HitSearch {
  import opened Arithmetic

  /** A group of layers with one attention type; `longest` is its manager's `find_longest_cache_hit`. */
  datatype AttentionGroup = AttentionGroup(full: bool, blockSize: nat, longest: nat -> nat)

  /**
   What is assumed of a manager: its answer is the greatest length within the bound that is valid for the group. Valid
   lengths respect the alignment that the search passes; full attention can use any aligned part of a valid length.
   */
  ghost predicate Contract(g: AttentionGroup, valid: iset<nat>, lcm: nat)
    requires lcm > 0
  {
    && g.blockSize > 0 && lcm % g.blockSize == 0
    && (forall l :: l in valid ==> l % lcm == 0)
    && (forall bound: nat :: g.longest(bound) in valid && g.longest(bound) <= bound)
    && (forall bound: nat, l: nat :: l in valid && l <= bound ==> l <= g.longest(bound))
    && (g.full ==> forall l: nat, m: nat :: l in valid && m <= l && m % lcm == 0 ==> m in valid)
  }

  ghost predicate Contracts(groups: seq<AttentionGroup>, valid: seq<iset<nat>>, lcm: nat) {
    lcm > 0 && |valid| == |groups| && forall k :: 0 <= k < |groups| ==> Contract(groups[k], valid[k], lcm)
  }

  ghost predicate ValidForAll(valid: seq<iset<nat>>, l: nat) {
    forall k :: 0 <= k < |valid| ==> l in valid[k]
  }

  /** The greatest length within `max` that all groups can use. */
  ghost predicate GreatestCommon(valid: seq<iset<nat>>, max: nat, hit: nat) {
    && hit <= max && ValidForAll(valid, hit)
    && forall l: nat :: l <= max && ValidForAll(valid, l) ==> l <= hit
  }

  /** There is only one such length, so that leaving the search early cannot change its answer. */
  lemma GreatestUnique(valid: seq<iset<nat>>, max: nat, a: nat, b: nat)
    requires GreatestCommon(valid, max, a) && GreatestCommon(valid, max, b)
    ensures a == b
  {
  }

  lemma AlignedFloor(l: nat, size: nat, lcm: nat)
    requires size > 0 && lcm > 0 && lcm % size == 0 && l % lcm == 0
    ensures l / size * size == l
  {
    var n := ModZeroMultiple(l, lcm);
    var k := ModZeroMultiple(lcm, size);
    assert l == (n * k) * size;
    MultipleModZero(n * k, size);
  }

  /** The part of `_find_hit_blocks` for a single attention group. */
  method FindSingle(group: AttentionGroup, ghost valid: iset<nat>, lcm: nat, max: nat) returns (hit: nat)
    requires lcm > 0 && Contract(group, valid, lcm)
    ensures GreatestCommon([valid], max, hit)
  {
    hit := group.longest(max);
    assert [valid][0] == valid;
  }

  /** One group in turn. Bounds no common length away; a full attention group is asked only once. */
  ghost predicate Bounded(valid: seq<iset<nat>>, max: nat, curr: nat) {
    curr <= max && forall l: nat :: l <= max && ValidForAll(valid, l) ==> l <= curr
  }

  /** Group k was asked before and answered at least `hit`, which it can use a part of. */
  ghost predicate Answered(groups: seq<AttentionGroup>, valid: seq<iset<nat>>, lcm: nat, k: nat, hit: nat)
    requires |valid| == |groups| && k < |groups| && lcm > 0
  {
    hit % lcm == 0 && exists l :: l in valid[k] && hit <= l
  }

  /**
   The loop of `_find_hit_blocks`, without eagle groups. `exitEarly` is the shortcut for one full attention group
   followed by one other group.
   */
  method FindHit(groups: seq<AttentionGroup>, ghost valid: seq<iset<nat>>, lcm: nat, max: nat, exitEarly: bool)
    returns (hit: nat)
    requires Contracts(groups, valid, lcm) && |groups| > 1
    requires exitEarly ==> |groups| == 2 && groups[0].full
    ensures GreatestCommon(valid, max, hit)
  {
    hit := max;
    var cached := seq(|groups|, _ => false);
    while true
      invariant |cached| == |groups| && Bounded(valid, max, hit)
      invariant forall k :: 0 <= k < |groups| && cached[k] ==> Answered(groups, valid, lcm, k, hit)
      invariant exitEarly ==> forall k :: 0 <= k < |groups| ==> !cached[k]
      decreases hit
    {
      var curr: nat := hit;
      ghost var asked := cached;
      for k := 0 to |groups|
        invariant |cached| == |groups| && curr <= hit && Bounded(valid, max, curr)
        invariant forall i :: 0 <= i < |groups| ==> (cached[i] <==> asked[i] || i < k)
        invariant k > 0 || (exists i :: 0 <= i < |groups| && asked[i]) ==> curr % lcm == 0
        invariant forall i :: 0 <= i < |groups| && cached[i] ==> Answered(groups, valid, lcm, i, curr)
        invariant k > 0 && !asked[k - 1] ==> curr in valid[k - 1]
        invariant curr == hit ==> forall i :: 0 <= i < k ==> hit in valid[i]
      {
        assert Contract(groups[k], valid[k], lcm);
        if groups[k].full && cached[k] {
          AlignedFloor(curr, groups[k].blockSize, lcm);
          curr := curr / groups[k].blockSize * groups[k].blockSize;
        } else {
          ghost var before := curr;
          curr := groups[k].longest(curr);
          NextAnswer(groups, valid, lcm, max, k, before, curr);
          cached := cached[k := true];
        }
      }
      if curr >= hit {
        break;
      }
      hit := curr;
      if exitEarly {
        EarlyExit(groups, valid, lcm, hit);
        break;
      }
    }
  }

  /** Asking a group lowers the bound to its answer, and keeps what was known about the others. */
  lemma NextAnswer(groups: seq<AttentionGroup>, valid: seq<iset<nat>>, lcm: nat, max: nat, k: nat, before: nat,
                   after: nat)
    requires Contracts(groups, valid, lcm) && k < |groups| && Bounded(valid, max, before)
    requires after == groups[k].longest(before)
    ensures after <= before && after % lcm == 0 && Bounded(valid, max, after)
    ensures Answered(groups, valid, lcm, k, after) && after in valid[k]
    ensures forall i :: 0 <= i < |groups| && Answered(groups, valid, lcm, i, before) ==>
              Answered(groups, valid, lcm, i, after)
  {
    assert Contract(groups[k], valid[k], lcm);
    forall l: nat | l <= max && ValidForAll(valid, l)
      ensures l <= after
    {
      assert l in valid[k] && l <= before;
    }
  }

  /** Two groups, the first with full attention: the answer of the second is usable by the first. */
  lemma EarlyExit(groups: seq<AttentionGroup>, valid: seq<iset<nat>>, lcm: nat, hit: nat)
    requires Contracts(groups, valid, lcm) && |groups| == 2 && groups[0].full
    requires Answered(groups, valid, lcm, 0, hit) && Answered(groups, valid, lcm, 1, hit) && hit in valid[1]
    ensures ValidForAll(valid, hit)
  {
    assert Contract(groups[0], valid[0], lcm);
  }
}
