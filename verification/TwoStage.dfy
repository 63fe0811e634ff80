/**
 Loading in two stages: the Store fills blocks up to its loaded prefix A, then P writes the rest up to the target T.
 */
module TwoStage {
  import opened Arithmetic
  import C = Chunks
  import LP = LoadPrefix
  import P = Planner
  import K = Copies
  import RG = Regions
  import RS = Resharding
  import TP = Topology

  /** `KVTransferPlan`: `computed` is the local prefix L, `hit` the Store hit H, `target` the target T. */
  datatype TransferPlan = TransferPlan(requestId: string, transferId: string, computed: nat, hit: nat, target: nat,
                                       allBlocks: seq<seq<int>>, externalBlocks: seq<seq<int>>, sizes: seq<nat>,
                                       windows: seq<nat>, loadId: nat)

  predicate PlanShaped(plan: TransferPlan) {
    && |plan.allBlocks| == |plan.externalBlocks| == |plan.sizes| == |plan.windows|
    && forall g :: 0 <= g < |plan.sizes| ==> plan.sizes[g] > 0
  }

  /**
   What the scheduler builds: whole local blocks in every group, tables that end at the target, and as external blocks
   the part of each table that is not local.
   */
  predicate PlanValid(plan: TransferPlan) {
    && PlanShaped(plan) && plan.computed <= plan.target && plan.hit <= plan.target
    && forall g :: 0 <= g < |plan.sizes| ==> GroupPlanned(plan, g)
  }

  predicate GroupPlanned(plan: TransferPlan, g: nat)
    requires PlanShaped(plan) && g < |plan.sizes|
  {
    && plan.computed % plan.sizes[g] == 0
    && |plan.allBlocks[g]| == CeilDiv(plan.target, plan.sizes[g])
    && plan.computed / plan.sizes[g] <= |plan.allBlocks[g]|
    && plan.externalBlocks[g] == plan.allBlocks[g][plan.computed / plan.sizes[g]..]
  }

  // ---------------------------------------------------------------- suffix and candidates

  /** `ids[k:]`. */
  function Drop(ids: seq<int>, k: nat): seq<int> {
    if k <= |ids| then ids[k..] else []
  }

  /** `ids[-window:]` unless the window is zero. */
  function Window(ids: seq<int>, window: nat): seq<int> {
    if window == 0 || window >= |ids| then ids else ids[|ids| - window..]
  }

  function GroupSuffix(plan: TransferPlan, actual: nat, g: nat): seq<int>
    requires PlanShaped(plan) && g < |plan.sizes| && plan.computed <= actual
  {
    CeilDivIff(actual - plan.computed, plan.sizes[g], -1);
    Window(Drop(plan.externalBlocks[g], CeilDiv(actual - plan.computed, plan.sizes[g])), plan.windows[g])
  }

  /** `_suffix_blocks`. */
  method SuffixBlocks(plan: TransferPlan, actual: nat) returns (result: seq<seq<int>>)
    requires PlanShaped(plan) && plan.computed <= actual
    ensures |result| == |plan.sizes|
    ensures forall g :: 0 <= g < |result| ==> result[g] == GroupSuffix(plan, actual, g)
  {
    var offset := actual - plan.computed;
    result := [];
    for g := 0 to |plan.sizes|
      invariant |result| == g && forall h :: 0 <= h < g ==> result[h] == GroupSuffix(plan, actual, h)
    {
      CeilDivIff(offset, plan.sizes[g], -1);
      var suffix := Drop(plan.externalBlocks[g], CeilDiv(offset, plan.sizes[g]));
      if plan.windows[g] > 0 && plan.windows[g] < |suffix| {
        suffix := suffix[|suffix| - plan.windows[g]..];
      }
      result := result + [suffix];
    }
  }

  /** Block index `i` of group `g` may be filled by the Store. */
  predicate Candidate(plan: TransferPlan, g: nat, i: int)
    requires PlanShaped(plan)
  {
    && g < |plan.sizes|
    && CeilDiv(plan.computed, plan.sizes[g]) <= i < CeilDiv(plan.hit, plan.sizes[g]) && 0 <= i < |plan.allBlocks[g]|
  }

  /** The candidate blocks of one group. */
  function GroupCandidates(plan: TransferPlan, g: nat): seq<int>
    requires PlanShaped(plan) && g < |plan.sizes|
  {
    LP.Slice(plan.allBlocks[g], CeilDiv(plan.computed, plan.sizes[g]),
             Min(CeilDiv(plan.hit, plan.sizes[g]), |plan.allBlocks[g]|))
  }

  lemma GroupCandidatesMember(plan: TransferPlan, g: nat, b: int)
    requires PlanShaped(plan) && g < |plan.sizes|
    ensures b in GroupCandidates(plan, g) <==> exists i :: Candidate(plan, g, i) && plan.allBlocks[g][i] == b
  {
    CeilDivIff(plan.computed, plan.sizes[g], -1);
    LP.SliceMember(plan.allBlocks[g], CeilDiv(plan.computed, plan.sizes[g]),
                   Min(CeilDiv(plan.hit, plan.sizes[g]), |plan.allBlocks[g]|), b);
  }

  /** `_pool_candidate_block_ids`. */
  method CandidateBlocks(plan: TransferPlan) returns (result: set<int>)
    requires PlanShaped(plan)
    ensures forall b :: b in result <==> exists g: nat, i :: Candidate(plan, g, i) && plan.allBlocks[g][i] == b
  {
    result := {};
    for g := 0 to |plan.sizes|
      invariant forall b :: b in result <==> exists h: nat :: h < g && b in GroupCandidates(plan, h)
    {
      result := result + set b | b in GroupCandidates(plan, g);
    }
    forall b
      ensures b in result <==> exists g: nat, i :: Candidate(plan, g, i) && plan.allBlocks[g][i] == b
    {
      if b in result {
        var g: nat :| g < |plan.sizes| && b in GroupCandidates(plan, g);
        GroupCandidatesMember(plan, g, b);
      }
      if g: nat, i :| Candidate(plan, g, i) && plan.allBlocks[g][i] == b {
        GroupCandidatesMember(plan, g, b);
      }
    }
  }

  /** Without a sliding window the suffix is the tail of the block table from the loaded prefix on. */
  lemma SuffixIsTail(plan: TransferPlan, actual: nat, g: nat)
    requires PlanValid(plan) && g < |plan.sizes| && plan.windows[g] == 0 && plan.computed <= actual <= plan.target
    ensures 0 <= CeilDiv(actual, plan.sizes[g]) <= |plan.allBlocks[g]|
    ensures GroupSuffix(plan, actual, g) == plan.allBlocks[g][CeilDiv(actual, plan.sizes[g])..]
  {
    assert GroupPlanned(plan, g);
    var size := plan.sizes[g];
    var k := ModZeroMultiple(plan.computed, size);
    CeilDivShift(actual - plan.computed, k, size);
    CeilDivMonotone(actual, plan.target, size);
    CeilDivIff(actual - plan.computed, size, -1);
  }

  /** With a window the suffix is the end of that tail, no longer than the window. */
  lemma SuffixIsWindow(plan: TransferPlan, actual: nat, g: nat)
    requires PlanValid(plan) && g < |plan.sizes| && plan.computed <= actual <= plan.target
    ensures var table, left := plan.allBlocks[g], |plan.allBlocks[g]| - CeilDiv(actual, plan.sizes[g]);
            var n := if plan.windows[g] == 0 || left <= plan.windows[g] then left else plan.windows[g];
            0 <= n <= |table| && GroupSuffix(plan, actual, g) == table[|table| - n..]
  {
    var whole := plan.(windows := seq(|plan.windows|, _ => 0));
    assert forall h :: 0 <= h < |plan.sizes| ==> (GroupPlanned(whole, h) <==> GroupPlanned(plan, h));
    SuffixIsTail(whole, actual, g);
    var tail := plan.allBlocks[g][CeilDiv(actual, plan.sizes[g])..];
    assert GroupSuffix(whole, actual, g) == tail;
  }

  // ---------------------------------------------------------------- coverage

  datatype Filler = Local | FromStore | FromP

  /** Who fills block index `i` of group `g` after a load that ended at `actual`. */
  function FilledBy(plan: TransferPlan, actual: nat, g: nat, i: nat): Filler
    requires PlanShaped(plan) && g < |plan.sizes|
  {
    if i < CeilDiv(plan.computed, plan.sizes[g]) then Local
    else if i < CeilDiv(actual, plan.sizes[g]) then FromStore
    else FromP
  }

  /** The request's load, as the scheduler sends it together with the plan. */
  function LoadOf(plan: TransferPlan, hashes: seq<C.Hash>): LP.LoadEvent {
    LP.LoadEvent(plan.computed, plan.hit, hashes, plan.allBlocks)
  }

  predicate SameSizes(plan: TransferPlan, dbs: seq<C.Database>) {
    |dbs| == |plan.sizes| && forall g :: 0 <= g < |dbs| ==> dbs[g].blockSize == plan.sizes[g]
  }

  /** A full attention group stores and loads every chunk. */
  predicate FullMask(plan: TransferPlan, masks: seq<seq<bool>>, g: nat)
    requires PlanShaped(plan) && g < |plan.sizes|
  {
    g < |masks| && |masks[g]| >= CeilDiv(plan.hit, plan.sizes[g]) && forall i :: 0 <= i < |masks[g]| ==> masks[g][i]
  }

  /** A local block lies wholly inside the local prefix. */
  lemma LocalIsWhole(plan: TransferPlan, actual: nat, g: nat, i: nat)
    requires PlanValid(plan) && g < |plan.sizes|
    ensures FilledBy(plan, actual, g, i).Local? <==> (i + 1) * plan.sizes[g] <= plan.computed
  {
    assert GroupPlanned(plan, g);
    var size := plan.sizes[g];
    var k := ModZeroMultiple(plan.computed, size);
    CeilDivExact(k, size);
    if i < k {
      MulMonotone(i + 1, k, size);
    } else {
      MulMonotone(k, i, size);
      assert (i + 1) * size == i * size + size;
    }
  }

  /**
   Store part of the coverage: a block index that the Store is to fill was delivered, whatever happened to others and
   even if the loaded prefix ends inside the block.
   */
  lemma StoreFills(plan: TransferPlan, dbs: seq<C.Database>, hashes: seq<C.Hash>, masks: seq<seq<bool>>,
                   fetches: seq<LP.Fetch>, reply: LP.Reply, loaded: nat, g: nat, i: nat)
    requires PlanValid(plan) && SameSizes(plan, dbs) && plan.computed <= loaded <= plan.hit
    requires LP.LoadValid(dbs, LoadOf(plan, hashes)) && |masks| == |dbs|
    requires g < |dbs| && |hashes| * dbs[g].hashSize >= plan.hit && plan.hit % plan.sizes[g] == 0
    requires FullMask(plan, masks, g)
    requires i < |plan.allBlocks[g]| && plan.allBlocks[g][i] >= 0 && FilledBy(plan, loaded, g, i).FromStore?
    requires forall h: nat, j: nat :: LP.Fetched(dbs, LoadOf(plan, hashes), masks, h, j)
                                      && j < CeilDiv(loaded, dbs[h].blockSize) ==>
               LP.Delivered(fetches, reply, h, j) || !(j < |plan.allBlocks[h]| && plan.allBlocks[h][j] >= 0)
    ensures LP.Delivered(fetches, reply, g, i)
  {
    var size := plan.sizes[g];
    CeilDivIff(plan.computed, size, i);
    CeilDivIff(loaded, size, i);
    CeilDivIff(plan.hit, size, i);
    var k := ModZeroMultiple(plan.hit, size);
    MulCancel(i, k, size);
    MulMonotone(i + 1, k, size);
    C.ChunksCover(dbs[g], hashes, plan.hit, i);
    assert LP.Fetched(dbs, LoadOf(plan, hashes), masks, g, i);
  }

  /**
   P part of the coverage: a block index that P is to fill is requested, and is paired with the source block of the
   same index, because both tables end at the target.
   */
  lemma ReceiverFills(plan: TransferPlan, actual: nat, source: seq<seq<int>>, requested: seq<seq<int>>, g: nat, i: nat)
    requires PlanValid(plan) && plan.computed <= actual <= plan.target && |requested| == |plan.sizes|
    requires forall h :: 0 <= h < |requested| ==> requested[h] == GroupSuffix(plan, actual, h)
    requires P.TablesFit(source, requested) && g < |requested| && plan.windows[g] == 0
    requires |source[g]| == |plan.allBlocks[g]|
    requires i < |plan.allBlocks[g]| && plan.allBlocks[g][i] >= 0 && FilledBy(plan, actual, g, i).FromP?
    ensures K.BlockPair(source[g][i], plan.allBlocks[g][i]) in P.TransferPairs(source, requested)
  {
    SuffixIsTail(plan, actual, g);
    var first := CeilDiv(actual, plan.sizes[g]);
    P.RequestedBlockPaired(source, requested, g, i - first);
  }

  /** A block that the local prefix or the Store fills is not requested from P. */
  lemma OneWriter(plan: TransferPlan, actual: nat, g: nat, i: nat, h: nat)
    requires PlanValid(plan) && plan.computed <= actual <= plan.target
    requires RealBlock(plan, g, i) && !FilledBy(plan, actual, g, i).FromP? && DistinctBlocks(plan)
    requires h < |plan.sizes| && plan.windows[h] == 0
    ensures plan.allBlocks[g][i] !in GroupSuffix(plan, actual, h)
  {
    CeilDivMonotone(plan.computed, actual, plan.sizes[g]);
    SuffixIsTail(plan, actual, h);
    var first := CeilDiv(actual, plan.sizes[h]);
    forall j: nat | first <= j < |plan.allBlocks[h]|
      ensures plan.allBlocks[h][j] != plan.allBlocks[g][i]
    {
      if plan.allBlocks[h][j] >= 0 {
        assert RealBlock(plan, h, j);
      }
    }
  }

  /** Real blocks occur once in the tables of a request. */
  ghost predicate DistinctBlocks(plan: TransferPlan) {
    forall g: nat, i: nat, h: nat, j: nat :: RealBlock(plan, g, i) && RealBlock(plan, h, j) && (g != h || i != j) ==>
      plan.allBlocks[g][i] != plan.allBlocks[h][j]
  }

  predicate RealBlock(plan: TransferPlan, g: nat, i: nat) {
    g < |plan.allBlocks| && i < |plan.allBlocks[g]| && plan.allBlocks[g][i] >= 0
  }

  /** The place of a block index among the pairs that are transferred. */
  lemma PairOfIndex(plan: TransferPlan, actual: nat, t: RS.Transfer, g: nat, i: nat) returns (k: nat)
    requires PlanValid(plan) && plan.computed <= actual <= plan.target && |t.requested| == |plan.sizes|
    requires forall h :: 0 <= h < |t.requested| ==> t.requested[h] == GroupSuffix(plan, actual, h)
    requires P.TablesFit(t.source, t.requested) && g < |t.requested| && plan.windows[g] == 0
    requires |t.source[g]| == |plan.allBlocks[g]|
    requires i < |plan.allBlocks[g]| && plan.allBlocks[g][i] >= 0 && FilledBy(plan, actual, g, i).FromP?
    ensures k < |RS.Pairs(t)| && RS.Pairs(t)[k] == K.BlockPair(t.source[g][i], plan.allBlocks[g][i])
  {
    ReceiverFills(plan, actual, t.source, t.requested, g, i);
    k :| 0 <= k < |RS.Pairs(t)| && RS.Pairs(t)[k] == K.BlockPair(t.source[g][i], plan.allBlocks[g][i]);
  }

  /**
   Main result. After a load that ended at `actual`, once the paired P ranks have executed their copies, every byte of
   every block index that neither the local prefix nor the Store fills holds the byte at the same position of P's
   unsharded block of the same logical index, even if `actual` is unaligned for the group.
   */
  lemma TwoStageBytes(plan: TransferPlan, actual: nat, t: RS.Transfer, ws: seq<K.Write>,
                      source: (int, int) -> K.Byte, unsharded: (int, int, int) -> K.Byte, before: int -> K.Byte,
                      r: nat, g: nat, i: nat, y: int)
    requires PlanValid(plan) && plan.computed <= actual <= plan.target && |t.requested| == |plan.sizes|
    requires forall h :: 0 <= h < |t.requested| ==> t.requested[h] == GroupSuffix(plan, actual, h)
    requires RS.Valid(t) && RS.Executes(t, ws) && RS.HoldsShards(t, source, unsharded)
    requires g < |t.requested| && plan.windows[g] == 0 && |t.source[g]| == |plan.allBlocks[g]|
    requires i < |plan.allBlocks[g]| && plan.allBlocks[g][i] >= 0 && FilledBy(plan, actual, g, i).FromP?
    requires r < |t.receiver.regions| && 0 <= y < t.receiver.regions[r].kvLen
    ensures TP.EffectiveTp(t.receiver.size, t.heads, t.mla).Success?
    ensures K.ReadAfter(ws, source, before, P.Address(t.receiver.regions[r], plan.allBlocks[g][i], y))
            == unsharded(r, t.source[g][i],
                         RG.ShardStart(t.receiver.rank, t.receiver.size, t.heads, t.mla,
                                       t.receiver.regions[r].kvLen) + y)
  {
    var k := PairOfIndex(plan, actual, t, g, i);
    RS.ByteExact(t, ws, source, unsharded, before, r, k, y);
  }

  // ---------------------------------------------------------------- no silent bad block

  /** The block belongs to index `i` of group `g`. */
  ghost predicate PlaceOf(plan: TransferPlan, g: nat, i: nat, b: int)
    requires PlanShaped(plan)
  {
    g < |plan.sizes| && i < |plan.allBlocks[g]| && plan.allBlocks[g][i] == b
  }

  /** The block belongs to an index that is left to P, and it is requested. */
  ghost predicate RequestedAt(plan: TransferPlan, actual: nat, g: nat, i: nat, b: int)
    requires PlanShaped(plan) && plan.computed <= actual
  {
    PlaceOf(plan, g, i, b) && FilledBy(plan, actual, g, i).FromP? && b in GroupSuffix(plan, actual, g)
  }

  /**
   Main result. A block that the Store left untrusted and the candidate filter hides is in the suffix that the receive
   writes and that is reported if the receive fails, at an index that is left to P.
   */
  lemma HiddenIsRequested(plan: TransferPlan, dbs: seq<C.Database>, hashes: seq<C.Hash>, loaded: nat, b: int)
    requires PlanValid(plan) && SameSizes(plan, dbs) && plan.computed <= loaded <= plan.hit
    requires LP.LoadValid(dbs, LoadOf(plan, hashes))
    requires forall g :: 0 <= g < |plan.windows| ==> plan.windows[g] == 0
    requires b in LP.RangeBlocks(dbs, LoadOf(plan, hashes), loaded, plan.hit)
    ensures b >= 0 && exists g: nat, i: nat :: RequestedAt(plan, loaded, g, i, b) && Candidate(plan, g, i)
  {
    var e := LoadOf(plan, hashes);
    LP.RangeBlocksMember(dbs, e, loaded, b);
    var g: nat, i :| LP.Requested(dbs, e, g, i) && CeilDiv(loaded, dbs[g].blockSize) <= i && e.blocks[g][i] == b;
    SuffixIsTail(plan, loaded, g);
    CeilDivMonotone(plan.computed, loaded, plan.sizes[g]);
    var first := CeilDiv(loaded, plan.sizes[g]);
    assert plan.allBlocks[g][first..][i - first] == b;
    assert RequestedAt(plan, loaded, g, i, b) && Candidate(plan, g, i);
  }
}
