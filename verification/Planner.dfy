/**
 The direct-transfer planner: from block tables and registered regions to copy descriptors, and what all paired P
 ranks together do to the memory of one D rank.
 */
module Planner {
  import opened Arithmetic
  import opened Common
  import opened Topology
  import opened Regions
  import opened Copies

  /** A P rank: its place in the TP group and its registered memory. */
  datatype Sender = Sender(rank: nat, size: int, replicated: bool, regions: seq<Region>, numBlocks: nat) {
    predicate Valid() {
      rank < size
    }
  }

  /** What a D rank publishes about itself. */
  datatype Receiver = Receiver(rank: nat, size: int, regions: seq<Region>) {
    predicate Valid() {
      rank < size
    }
  }

  datatype PlanError =
    | GroupCountMismatch | TooFewSourceBlocks | RegionCountMismatch | SourceOutOfRange
    | SourceSliceExceeds | DestinationSliceExceeds

  // ---------------------------------------------------------------- block tables

  /** The last |remote| source blocks, paired in order. */
  function Suffix(local: seq<int>, remote: seq<int>): (pairs: seq<BlockPair>)
    requires |remote| <= |local|
    ensures |pairs| == |remote|
  {
    seq(|remote|, i requires 0 <= i < |remote| => BlockPair(local[|local| - |remote| + i], remote[i]))
  }

  /** Negative destinations are placeholders and are not transferred. */
  function Requested(pairs: seq<BlockPair>): seq<BlockPair> {
    if pairs == [] then []
    else
      var n := |pairs| - 1;
      Requested(pairs[..n]) + if pairs[n].destination >= 0 then [pairs[n]] else []
  }

  /** Every group supplies at least as many blocks as are requested from it. */
  predicate TablesFit(source: seq<seq<int>>, requested: seq<seq<int>>) {
    |source| == |requested| && forall g :: 0 <= g < |source| ==> |requested[g]| <= |source[g]|
  }

  /** Groups are trimmed independently and laid end to end. */
  function TablePairs(source: seq<seq<int>>, requested: seq<seq<int>>): seq<BlockPair>
    requires TablesFit(source, requested)
  {
    if source == [] then []
    else
      var n := |source| - 1;
      TablePairs(source[..n], requested[..n]) + Suffix(source[n], requested[n])
  }

  function TransferPairs(source: seq<seq<int>>, requested: seq<seq<int>>): seq<BlockPair>
    requires TablesFit(source, requested)
  {
    Requested(TablePairs(source, requested))
  }

  /** A non-negative requested block is transferred from the source block at the same distance from the end. */
  lemma {:induction false} RequestedBlockPaired(source: seq<seq<int>>, requested: seq<seq<int>>, g: nat, i: nat)
    requires TablesFit(source, requested) && g < |requested| && i < |requested[g]| && requested[g][i] >= 0
    ensures BlockPair(source[g][|source[g]| - |requested[g]| + i], requested[g][i]) in TransferPairs(source, requested)
  {
    TablePairMember(source, requested, g, i);
    RequestedMember(TablePairs(source, requested),
                    BlockPair(source[g][|source[g]| - |requested[g]| + i], requested[g][i]));
  }

  lemma {:induction false} TablePairMember(source: seq<seq<int>>, requested: seq<seq<int>>, g: nat, i: nat)
    requires TablesFit(source, requested) && g < |requested| && i < |requested[g]|
    ensures BlockPair(source[g][|source[g]| - |requested[g]| + i], requested[g][i]) in TablePairs(source, requested)
  {
    var n := |source| - 1;
    if g < n {
      TablePairMember(source[..n], requested[..n], g, i);
    } else {
      assert Suffix(source[n], requested[n])[i]
          == BlockPair(source[g][|source[g]| - |requested[g]| + i], requested[g][i]);
    }
  }

  lemma {:induction false} RequestedMember(pairs: seq<BlockPair>, b: BlockPair)
    ensures b in Requested(pairs) <==> b in pairs && b.destination >= 0
  {
    if pairs != [] {
      var n := |pairs| - 1;
      RequestedMember(pairs[..n], b);
      assert b in pairs <==> b in pairs[..n] || b == pairs[n];
    }
  }

  // ---------------------------------------------------------------- descriptors of one P rank

  function SliceOf(snd: Sender, rcv: Receiver, i: nat): Slice
    requires snd.Valid() && rcv.Valid() && IntegerRatio(snd.size, rcv.size)
    requires i < |snd.regions| && i < |rcv.regions|
  {
    SenderSlice(snd.rank, snd.size, rcv.rank, rcv.size, snd.regions[i].kvLen, rcv.regions[i].kvLen, snd.replicated)
  }

  function LayoutOf(snd: Sender, rcv: Receiver, i: nat): Layout
    requires snd.Valid() && rcv.Valid() && IntegerRatio(snd.size, rcv.size)
    requires i < |snd.regions| && i < |rcv.regions|
  {
    var s := SliceOf(snd, rcv, i);
    Layout(snd.regions[i].base, snd.regions[i].blockLen, rcv.regions[i].base, rcv.regions[i].blockLen,
           s.srcOffset, s.dstOffset, s.size)
  }

  predicate SourcesInRange(pairs: seq<BlockPair>, numBlocks: nat) {
    forall i :: 0 <= i < |pairs| ==> 0 <= pairs[i].source < numBlocks
  }

  /** Descriptors of the first `n` regions, or the first failure. */
  function RegionCopies(snd: Sender, rcv: Receiver, pairs: seq<BlockPair>, n: nat): Result<seq<Copy>, PlanError>
    requires snd.Valid() && rcv.Valid() && IntegerRatio(snd.size, rcv.size)
    requires n <= |snd.regions| && n <= |rcv.regions|
  {
    if n == 0 then Success([])
    else
      var before := RegionCopies(snd, rcv, pairs, n - 1);
      if before.Failure? then before
      else if !SourcesInRange(pairs, snd.numBlocks) then Failure(SourceOutOfRange)
      else
        var s := SliceOf(snd, rcv, n - 1);
        if !s.copy then before
        else if s.srcOffset + s.size > snd.regions[n - 1].kvLen then Failure(SourceSliceExceeds)
        else if s.dstOffset + s.size > rcv.regions[n - 1].kvLen then Failure(DestinationSliceExceeds)
        else
          Success(before.value + RunCopies(LayoutOf(snd, rcv, n - 1), GroupContiguous(pairs)))
  }

  function RequestCopies(snd: Sender, rcv: Receiver, source: seq<seq<int>>, requested: seq<seq<int>>)
    : Result<seq<Copy>, PlanError>
    requires snd.Valid() && rcv.Valid() && IntegerRatio(snd.size, rcv.size)
  {
    if |source| != |requested| then Failure(GroupCountMismatch)
    else if !TablesFit(source, requested) then Failure(TooFewSourceBlocks)
    else
      var n := Min(|snd.regions|, |rcv.regions|);
      var r := RegionCopies(snd, rcv, TransferPairs(source, requested), n);
      if r.Success? && |snd.regions| != |rcv.regions| then Failure(RegionCountMismatch) else r
  }

  /** `_build_request_transfer_params`: the loops over groups, pairs, regions and runs. */
  method BuildRequestTransferParams(snd: Sender, rcv: Receiver, source: seq<seq<int>>, requested: seq<seq<int>>)
    returns (r: Result<seq<Copy>, PlanError>)
    requires snd.Valid() && rcv.Valid() && IntegerRatio(snd.size, rcv.size)
    ensures r == RequestCopies(snd, rcv, source, requested)
  {
    if |source| != |requested| {
      return Failure(GroupCountMismatch);
    }
    var all: seq<BlockPair> := [];
    for g := 0 to |source|
      invariant TablesFit(source[..g], requested[..g]) && all == TablePairs(source[..g], requested[..g])
    {
      if |source[g]| < |requested[g]| {
        return Failure(TooFewSourceBlocks);
      }
      all := all + Suffix(source[g], requested[g]);
      assert source[..g + 1][..g] == source[..g] && requested[..g + 1][..g] == requested[..g];
    }
    assert source[..|source|] == source && requested[..|requested|] == requested;
    var pairs := SelectRequested(all);
    r := EmitRegions(snd, rcv, pairs, Min(|snd.regions|, |rcv.regions|));
    if r.Success? && |snd.regions| != |rcv.regions| {
      return Failure(RegionCountMismatch);
    }
  }

  /** The loop over the regions. */
  method EmitRegions(snd: Sender, rcv: Receiver, pairs: seq<BlockPair>, n: nat)
    returns (r: Result<seq<Copy>, PlanError>)
    requires snd.Valid() && rcv.Valid() && IntegerRatio(snd.size, rcv.size)
    requires n <= |snd.regions| && n <= |rcv.regions|
    ensures r == RegionCopies(snd, rcv, pairs, n)
  {
    var copies: seq<Copy> := [];
    for i := 0 to n
      invariant RegionCopies(snd, rcv, pairs, i) == Success(copies)
    {
      FailurePropagates(snd, rcv, pairs, i + 1, n);
      if exists k :: 0 <= k < |pairs| && !(0 <= pairs[k].source < snd.numBlocks) {
        return Failure(SourceOutOfRange);
      }
      var runs := GroupContiguous(pairs);
      var s := SliceOf(snd, rcv, i);
      if s.copy {
        if s.srcOffset + s.size > snd.regions[i].kvLen {
          return Failure(SourceSliceExceeds);
        }
        if s.dstOffset + s.size > rcv.regions[i].kvLen {
          return Failure(DestinationSliceExceeds);
        }
        var more := EmitRuns(LayoutOf(snd, rcv, i), runs);
        copies := copies + more;
      }
    }
    r := Success(copies);
  }

  method SelectRequested(all: seq<BlockPair>) returns (pairs: seq<BlockPair>)
    ensures pairs == Requested(all)
  {
    pairs := [];
    for i := 0 to |all|
      invariant pairs == Requested(all[..i])
    {
      if all[i].destination >= 0 {
        pairs := pairs + [all[i]];
      }
      assert all[..i + 1][..i] == all[..i];
    }
    assert all[..|all|] == all;
  }

  /** The inner loops: one descriptor per run when whole blocks are copied, one per block otherwise. */
  method EmitRuns(l: Layout, runs: seq<Run>) returns (copies: seq<Copy>)
    ensures copies == RunCopies(l, runs)
  {
    copies := [];
    for r := 0 to |runs|
      invariant copies == RunCopies(l, runs[..r])
    {
      if CanCoalesce(l) {
        copies := copies + [RunCopy(l, runs[r])];
      } else {
        ghost var start := copies;
        for b := 0 to |runs[r]|
          invariant copies == start + BlockCopies(l, runs[r][..b])
        {
          copies := copies + [BlockCopy(l, runs[r][b])];
        }
        assert runs[r][..|runs[r]|] == runs[r];
      }
      assert runs[..r + 1][..r] == runs[..r];
    }
    assert runs[..|runs|] == runs;
  }

  lemma {:induction false} FailurePropagates(snd: Sender, rcv: Receiver, pairs: seq<BlockPair>, i: nat, n: nat)
    requires snd.Valid() && rcv.Valid() && IntegerRatio(snd.size, rcv.size)
    requires i <= n <= |snd.regions| && n <= |rcv.regions|
    ensures RegionCopies(snd, rcv, pairs, i).Failure? ==>
              RegionCopies(snd, rcv, pairs, n) == RegionCopies(snd, rcv, pairs, i)
  {
    if i < n {
      FailurePropagates(snd, rcv, pairs, i, n - 1);
    }
  }

  // ---------------------------------------------------------------- what one P rank stores

  /** Address of byte `y` of block `b` of a region. */
  function Address(r: Region, b: int, y: int): int {
    r.base + b * r.blockLen + y
  }

  predicate InBlock(r: Region, b: int, x: int) {
    Address(r, b, 0) <= x < Address(r, b, r.kvLen)
  }

  /** No byte belongs to two regions, over the first `numBlocks` blocks. */
  ghost predicate RegionsApart(regions: seq<Region>, numBlocks: nat) {
    forall i, j, b: nat, b': nat, x ::
      0 <= i < j < |regions| && b < numBlocks && b' < numBlocks ==>
        !(InBlock(regions[i], b, x) && InBlock(regions[j], b', x))
  }

  /** Region addresses a descriptor of region `i` may store at. */
  lemma CopyStaysInBlock(snd: Sender, rcv: Receiver, i: nat, b: BlockPair, x: int)
    requires snd.Valid() && rcv.Valid() && IntegerRatio(snd.size, rcv.size)
    requires i < |snd.regions| && i < |rcv.regions|
    requires SliceOf(snd, rcv, i).dstOffset >= 0
    requires Fits(SliceOf(snd, rcv, i), snd.regions[i].kvLen, rcv.regions[i].kvLen)
    requires SliceOf(snd, rcv, i).copy
    ensures Covers(BlockCopy(LayoutOf(snd, rcv, i), b), x) ==> InBlock(rcv.regions[i], b.destination, x)
    ensures Covers(BlockCopy(LayoutOf(snd, rcv, i), b), x)
            <==> SliceCovers(SliceOf(snd, rcv, i), x - Address(rcv.regions[i], b.destination, 0))
  {
  }

  /** Source address of the byte that lands at offset `y` of a block. */
  function SourceAddress(snd: Sender, rcv: Receiver, i: nat, b: BlockPair, y: int): int
    requires snd.Valid() && rcv.Valid() && IntegerRatio(snd.size, rcv.size)
    requires i < |snd.regions| && i < |rcv.regions|
  {
    var s := SliceOf(snd, rcv, i);
    Address(snd.regions[i], b.source, s.srcOffset + (y - s.dstOffset))
  }

  /** A pair of ranks for which the exactness claims are made. */
  ghost predicate PairCompatible(snd: Sender, rcv: Receiver) {
    && snd.Valid() && rcv.Valid() && IntegerRatio(snd.size, rcv.size) && IntegerRatio(rcv.size, snd.size)
    && |snd.regions| == |rcv.regions|
    && forall i :: 0 <= i < |rcv.regions| ==>
      && rcv.regions[i].kvLen <= rcv.regions[i].blockLen
      && RegionCompatible(snd.size, rcv.size, snd.regions[i].kvLen, rcv.regions[i].kvLen, snd.replicated)
  }

  /** The copies of one region. */
  function OneRegion(snd: Sender, rcv: Receiver, pairs: seq<BlockPair>, i: nat): seq<Copy>
    requires snd.Valid() && rcv.Valid() && IntegerRatio(snd.size, rcv.size)
    requires i < |snd.regions| && i < |rcv.regions|
  {
    if SliceOf(snd, rcv, i).copy then RunCopies(LayoutOf(snd, rcv, i), GroupContiguous(pairs)) else []
  }

  /** Planning a compatible pair never fails, and yields the copies region by region. */
  lemma {:induction false} CompatiblePlanSucceeds(snd: Sender, rcv: Receiver, pairs: seq<BlockPair>, n: nat)
    requires PairCompatible(snd, rcv) && n <= |rcv.regions| && SourcesInRange(pairs, snd.numBlocks)
    ensures RegionCopies(snd, rcv, pairs, n).Success?
    ensures n > 0 ==> RegionCopies(snd, rcv, pairs, n - 1).Success?
                      && RegionCopies(snd, rcv, pairs, n).value
                         == RegionCopies(snd, rcv, pairs, n - 1).value + OneRegion(snd, rcv, pairs, n - 1)
  {
    if n > 0 {
      CompatiblePlanSucceeds(snd, rcv, pairs, n - 1);
      CompatibleSliceFits(snd.rank, snd.size, rcv.rank, rcv.size,
                          snd.regions[n - 1].kvLen, rcv.regions[n - 1].kvLen, snd.replicated);
    }
  }

  /** One region stores at a byte of a requested block exactly when the slice covers it. */
  lemma RegionHits(snd: Sender, rcv: Receiver, pairs: seq<BlockPair>, i: nat, k: nat, y: int)
    requires PairCompatible(snd, rcv) && i < |rcv.regions| && DistinctDestinations(pairs)
    requires k < |pairs| && 0 <= y < rcv.regions[i].kvLen
    ensures Hits(OneRegion(snd, rcv, pairs, i), Address(rcv.regions[i], pairs[k].destination, y))
            == if SliceCovers(SliceOf(snd, rcv, i), y) then [SourceAddress(snd, rcv, i, pairs[k], y)] else []
  {
    var s, l := SliceOf(snd, rcv, i), LayoutOf(snd, rcv, i);
    if s.copy {
      var x := Address(rcv.regions[i], pairs[k].destination, y);
      CompatibleSliceFits(snd.rank, snd.size, rcv.rank, rcv.size,
                          snd.regions[i].kvLen, rcv.regions[i].kvLen, snd.replicated);
      CoalescingRefines(l, pairs, x);
      BlockHits(l, pairs, x);
      CopyStaysInBlock(snd, rcv, i, pairs[k], x);
      forall j | 0 <= j < |pairs| && j != k
        ensures !Covers(BlockCopy(l, pairs[j]), x)
      {
        OtherSlot(rcv.regions[i], pairs[k].destination, pairs[j].destination, y);
        CopyStaysInBlock(snd, rcv, i, pairs[j], x);
      }
    }
  }

  lemma OtherSlot(r: Region, b: int, b': int, y: int)
    requires b != b' && 0 <= y < r.kvLen <= r.blockLen
    ensures !InBlock(r, b', Address(r, b, y))
  {
    if b < b' { SlotsApart(b, b', r.blockLen); } else { SlotsApart(b', b, r.blockLen); }
  }

  /** A region stores nothing outside its requested blocks. */
  lemma RegionMisses(snd: Sender, rcv: Receiver, pairs: seq<BlockPair>, i: nat, x: int)
    requires PairCompatible(snd, rcv) && i < |rcv.regions| && DistinctDestinations(pairs)
    requires forall k :: 0 <= k < |pairs| ==> !InBlock(rcv.regions[i], pairs[k].destination, x)
    ensures Hits(OneRegion(snd, rcv, pairs, i), x) == []
  {
    var s, l := SliceOf(snd, rcv, i), LayoutOf(snd, rcv, i);
    if s.copy {
      CompatibleSliceFits(snd.rank, snd.size, rcv.rank, rcv.size,
                          snd.regions[i].kvLen, rcv.regions[i].kvLen, snd.replicated);
      CoalescingRefines(l, pairs, x);
      BlockHits(l, pairs, x);
      forall k | 0 <= k < |pairs|
        ensures !Covers(BlockCopy(l, pairs[k]), x)
      {
        CopyStaysInBlock(snd, rcv, i, pairs[k], x);
      }
    }
  }

  /** Destinations the D side may hand out: distinct, and inside its registered blocks. */
  ghost predicate DestinationsValid(rcv: Receiver, pairs: seq<BlockPair>, numBlocks: nat) {
    && DistinctDestinations(pairs)
    && (forall k :: 0 <= k < |pairs| ==> 0 <= pairs[k].destination < numBlocks)
    && RegionsApart(rcv.regions, numBlocks)
  }

  lemma OtherRegions(rcv: Receiver, pairs: seq<BlockPair>, numBlocks: nat, i: nat, k: nat, y: int, j: nat)
    requires DestinationsValid(rcv, pairs, numBlocks)
    requires i < |rcv.regions| && j < |rcv.regions| && i != j && k < |pairs| && 0 <= y < rcv.regions[i].kvLen
    ensures forall m :: 0 <= m < |pairs| ==>
              !InBlock(rcv.regions[j], pairs[m].destination, Address(rcv.regions[i], pairs[k].destination, y))
  {
    var x := Address(rcv.regions[i], pairs[k].destination, y);
    assert InBlock(rcv.regions[i], pairs[k].destination, x);
  }

  /** What region `j` stores at a byte of a requested block of region `i`. */
  lemma RegionContribution(snd: Sender, rcv: Receiver, pairs: seq<BlockPair>, numBlocks: nat, j: nat, i: nat, k: nat,
                           y: int)
    requires PairCompatible(snd, rcv) && DestinationsValid(rcv, pairs, numBlocks) && j < |rcv.regions|
    requires i < |rcv.regions| && k < |pairs| && 0 <= y < rcv.regions[i].kvLen
    ensures Hits(OneRegion(snd, rcv, pairs, j), Address(rcv.regions[i], pairs[k].destination, y))
            == if i == j && SliceCovers(SliceOf(snd, rcv, i), y) then [SourceAddress(snd, rcv, i, pairs[k], y)] else []
  {
    if i == j {
      RegionHits(snd, rcv, pairs, i, k, y);
    } else {
      OtherRegions(rcv, pairs, numBlocks, i, k, y, j);
      RegionMisses(snd, rcv, pairs, j, Address(rcv.regions[i], pairs[k].destination, y));
    }
  }

  /** All regions together: a byte of a requested block is stored by its own region only. */
  lemma {:induction false} RankHits(snd: Sender, rcv: Receiver, pairs: seq<BlockPair>, numBlocks: nat, n: nat,
                                    i: nat, k: nat, y: int)
    requires PairCompatible(snd, rcv) && SourcesInRange(pairs, snd.numBlocks)
    requires DestinationsValid(rcv, pairs, numBlocks) && n <= |rcv.regions|
    requires i < |rcv.regions| && k < |pairs| && 0 <= y < rcv.regions[i].kvLen
    ensures RegionCopies(snd, rcv, pairs, n).Success?
    ensures Hits(RegionCopies(snd, rcv, pairs, n).value, Address(rcv.regions[i], pairs[k].destination, y))
            == if i < n && SliceCovers(SliceOf(snd, rcv, i), y) then [SourceAddress(snd, rcv, i, pairs[k], y)] else []
  {
    CompatiblePlanSucceeds(snd, rcv, pairs, n);
    if n > 0 {
      RankHits(snd, rcv, pairs, numBlocks, n - 1, i, k, y);
      RegionContribution(snd, rcv, pairs, numBlocks, n - 1, i, k, y);
      HitsConcat(RegionCopies(snd, rcv, pairs, n - 1).value, OneRegion(snd, rcv, pairs, n - 1),
                 Address(rcv.regions[i], pairs[k].destination, y));
    }
  }

  lemma {:induction false} RankMisses(snd: Sender, rcv: Receiver, pairs: seq<BlockPair>, n: nat, x: int)
    requires PairCompatible(snd, rcv) && SourcesInRange(pairs, snd.numBlocks) && DistinctDestinations(pairs)
    requires n <= |rcv.regions|
    requires forall i, k :: 0 <= i < |rcv.regions| && 0 <= k < |pairs| ==>
               !InBlock(rcv.regions[i], pairs[k].destination, x)
    ensures RegionCopies(snd, rcv, pairs, n).Success?
    ensures Hits(RegionCopies(snd, rcv, pairs, n).value, x) == []
  {
    CompatiblePlanSucceeds(snd, rcv, pairs, n);
    if n > 0 {
      RankMisses(snd, rcv, pairs, n - 1, x);
      HitsConcat(RegionCopies(snd, rcv, pairs, n - 1).value, OneRegion(snd, rcv, pairs, n - 1), x);
      RegionMisses(snd, rcv, pairs, n - 1, x);
    }
  }
}
