/**
 Transfer regions, and the slice of one block that one P rank copies to one D rank.
 */
module Regions {
  import opened Arithmetic
  import opened Common
  import opened Topology

  /** One registered KV tensor, or one K/V half of a tensor that stores K and V together. */
  datatype Region = Region(base: int, blockLen: nat, kvLen: nat)

  datatype RegionError = CountMismatch | LengthMismatch(index: nat) | NoTpRatio

  /** Registered tensors expanded into the regions that are copied, K half before V half. */
  function Expansion(bases: seq<int>, lens: seq<nat>, blocksFirst: bool): (r: seq<Region>)
    requires |bases| == |lens|
    ensures |r| == if blocksFirst then 2 * |bases| else |bases|
  {
    if bases == [] then []
    else
      var n := |bases| - 1;
      var kv := if blocksFirst then lens[n] / 2 else lens[n];
      Expansion(bases[..n], lens[..n], blocksFirst)
      + [Region(bases[n], lens[n], kv)]
      + if blocksFirst then [Region(bases[n] + kv, lens[n], kv)] else []
  }

  method ExpandTransferRegions(bases: seq<int>, lens: seq<nat>, blocksFirst: bool) returns (regions: seq<Region>)
    requires |bases| == |lens|
    ensures regions == Expansion(bases, lens, blocksFirst)
  {
    regions := [];
    for i := 0 to |bases|
      invariant regions == Expansion(bases[..i], lens[..i], blocksFirst)
    {
      var kv := if blocksFirst then lens[i] / 2 else lens[i];
      regions := regions + [Region(bases[i], lens[i], kv)];
      if blocksFirst {
        regions := regions + [Region(bases[i] + kv, lens[i], kv)];
      }
      assert bases[..i + 1][..i] == bases[..i] && lens[..i + 1][..i] == lens[..i];
    }
    assert bases[..|bases|] == bases && lens[..|bases|] == lens;
  }

  /** Region number `i` of an expansion, in closed form. */
  lemma {:induction false} ExpansionAt(bases: seq<int>, lens: seq<nat>, blocksFirst: bool, t: nat)
    requires |bases| == |lens| && t < |bases|
    ensures !blocksFirst ==> Expansion(bases, lens, false)[t] == Region(bases[t], lens[t], lens[t])
    ensures blocksFirst ==>
              var h := lens[t] / 2;
              && Expansion(bases, lens, true)[2 * t] == Region(bases[t], lens[t], h)
              && Expansion(bases, lens, true)[2 * t + 1] == Region(bases[t] + h, lens[t], h)
  {
    var n := |bases| - 1;
    if t < n {
      ExpansionAt(bases[..n], lens[..n], blocksFirst, t);
    }
  }

  // ---------------------------------------------------------------- validation

  /** Length relation demanded between one P region and one D region. */
  predicate LengthsAgree(ratio: int, localLen: nat, remoteLen: nat) {
    if ratio == 1 then localLen == remoteLen
    else if ratio > 0 then remoteLen == localLen * ratio
    else localLen == remoteLen * -ratio
  }

  /** Accepts exactly the region lists whose lengths agree pairwise; reports the first that does not. */
  method ValidateRegionLengths(local: seq<Region>, remote: seq<Region>, localSize: int, remoteSize: int,
                               replicated: bool)
    returns (error: Option<RegionError>)
    requires localSize > 0 && remoteSize > 0
    ensures error.None? <==> RegionsValid(local, remote, localSize, remoteSize, replicated)
    ensures error.Some? && error.value.LengthMismatch? ==>
              var ratio := TpRatio(localSize, remoteSize);
              && !replicated && |local| == |remote| && error.value.index < |local| && ratio.Some?
              && !LengthsAgree(ratio.value, local[error.value.index].kvLen, remote[error.value.index].kvLen)
              && forall i :: 0 <= i < error.value.index ==> LengthsAgree(ratio.value, local[i].kvLen, remote[i].kvLen)
  {
    if |local| != |remote| {
      return Some(CountMismatch);
    }
    if replicated {
      return None;
    }
    var ratio := TpRatio(localSize, remoteSize);
    if ratio.None? {
      return Some(NoTpRatio);
    }
    for i := 0 to |local|
      invariant forall k :: 0 <= k < i ==> LengthsAgree(ratio.value, local[k].kvLen, remote[k].kvLen)
    {
      if !LengthsAgree(ratio.value, local[i].kvLen, remote[i].kvLen) {
        return Some(LengthMismatch(i));
      }
    }
    return None;
  }

  /** What `ValidateRegionLengths` accepts. */
  predicate RegionsValid(local: seq<Region>, remote: seq<Region>, localSize: int, remoteSize: int, replicated: bool)
    requires localSize > 0 && remoteSize > 0
  {
    && |local| == |remote|
    && (!replicated ==>
      var ratio := TpRatio(localSize, remoteSize);
      && ratio.Some?
      && forall i :: 0 <= i < |local| ==> LengthsAgree(ratio.value, local[i].kvLen, remote[i].kvLen))
  }

  // ---------------------------------------------------------------- one block

  /** Copy `size` bytes at `srcOffset` of P's block to `dstOffset` of D's block, if `copy`. */
  datatype Slice = Slice(copy: bool, srcOffset: int, dstOffset: int, size: nat)

  function SenderSlice(rank: nat, size: int, remoteRank: nat, remoteSize: int,
                       localLen: nat, remoteLen: nat, replicated: bool): Slice
    requires size > 0 && remoteSize > 0 && IntegerRatio(size, remoteSize)
  {
    var ratio := TpRatio(size, remoteSize).value;
    if ratio == 1 then Slice(true, 0, 0, localLen)
    else if ratio > 0 then
      if replicated then Slice(rank % ratio == 0, 0, 0, localLen)
      else Slice(true, 0, (rank % ratio) * localLen, localLen)
    else if replicated then Slice(true, 0, 0, localLen)
    else Slice(true, (remoteRank % -ratio) * remoteLen, 0, remoteLen)
  }

  /** The two assertions the planner makes about a slice that is copied. */
  predicate Fits(s: Slice, localLen: nat, remoteLen: nat) {
    s.copy ==> s.srcOffset + s.size <= localLen && s.dstOffset + s.size <= remoteLen
  }

  predicate SliceCovers(s: Slice, y: int) {
    s.copy && s.dstOffset <= y < s.dstOffset + s.size
  }

  /**
   Conditions under which the byte-exactness claims are made for one region: P's cache is split and the lengths
   passed validation, or P's cache is replicated and the two block lengths are equal.
   */
  predicate RegionCompatible(size: int, remoteSize: int, localLen: nat, remoteLen: nat, replicated: bool)
    requires size > 0 && remoteSize > 0 && IntegerRatio(size, remoteSize)
  {
    if replicated then localLen == remoteLen
    else LengthsAgree(TpRatio(size, remoteSize).value, localLen, remoteLen)
  }

  /** A pair that passed validation never trips the planner's assertions. */
  lemma CompatibleSliceFits(p: nat, pSize: int, d: nat, dSize: int, pLen: nat, dLen: nat, replicated: bool)
    requires p < pSize && d < dSize && IntegerRatio(pSize, dSize)
    requires RegionCompatible(pSize, dSize, pLen, dLen, replicated)
    ensures var s := SenderSlice(p, pSize, d, dSize, pLen, dLen, replicated);
            s.srcOffset >= 0 && s.dstOffset >= 0 && Fits(s, pLen, dLen)
  {
    var ratio := TpRatio(pSize, dSize).value;
    if ratio > 1 {
      SlotsApart(p % ratio, ratio, pLen);
      MulMonotone(0, p % ratio, pLen);
      assert pLen * ratio == ratio * pLen;
    } else if ratio < 0 {
      SlotsApart(d % -ratio, -ratio, dLen);
      MulMonotone(0, d % -ratio, dLen);
      assert dLen * -ratio == -ratio * dLen;
    }
  }

  /** The one paired P rank that supplies byte `y` of D rank d's block. */
  function Supplier(d: nat, pSize: int, dSize: int, pLen: nat, y: int, replicated: bool): int
    requires pSize > 0 && dSize > 0
    requires 0 <= y && (pSize > dSize && !replicated ==> pLen > 0)
  {
    if pSize >= dSize then
      DivPositive(pSize, dSize);
      d * (pSize / dSize) + (if pSize == dSize || replicated then 0 else y / pLen)
    else
      DivPositive(dSize, pSize);
      d / (dSize / pSize)
  }

  /** Quotient form of the ratio for both orders of the sizes. */
  lemma RatioQuotients(pSize: int, dSize: int)
    requires pSize > 0 && dSize > 0 && IntegerRatio(pSize, dSize)
    ensures pSize >= dSize ==> pSize / dSize == TpRatio(pSize, dSize).value
    ensures pSize < dSize ==> dSize / pSize == -TpRatio(pSize, dSize).value
  {
    var ratio := TpRatio(pSize, dSize).value;
    if pSize >= dSize {
      MultipleModZero(ratio, dSize);
    } else {
      MultipleModZero(-ratio, pSize);
    }
  }

  lemma WideCoverage(p: nat, d: nat, ratio: int, len: nat, y: int)
    requires ratio > 0 && len > 0 && p / ratio == d && y >= 0
    ensures (p % ratio) * len <= y < (p % ratio) * len + len <==> p == d * ratio + y / len
  {
    var o := p % ratio;
    assert p == d * ratio + o;
    assert (o + 1) * len == o * len + len;
    if o * len <= y < o * len + len {
      DivUnique(y, len, o);
    }
  }

  lemma FirstOfGroup(p: nat, d: nat, ratio: int)
    requires ratio > 0 && p / ratio == d
    ensures p % ratio == 0 <==> p == d * ratio
  {
    assert p == d * ratio + p % ratio;
  }

  /**
   Every byte of a compatible D block is covered by exactly one of the paired P ranks, the supplier.
   */
  lemma SliceCoverage(p: nat, pSize: int, d: nat, dSize: int, pLen: nat, dLen: nat, replicated: bool, y: int)
    requires p < pSize && d < dSize && IntegerRatio(pSize, dSize) && IntegerRatio(dSize, pSize)
    requires RegionCompatible(pSize, dSize, pLen, dLen, replicated)
    requires p in Targets(d, dSize, pSize) && 0 <= y < dLen
    ensures pSize > dSize && !replicated ==> pLen > 0
    ensures SliceCovers(SenderSlice(p, pSize, d, dSize, pLen, dLen, replicated), y)
            <==> p == Supplier(d, pSize, dSize, pLen, y, replicated)
  {
    PairedQuotient(p, pSize, d, dSize);
    RatioQuotients(pSize, dSize);
    var ratio := TpRatio(pSize, dSize).value;
    if ratio > 1 {
      FirstOfGroup(p, d, ratio);
      if !replicated {
        PositiveFactor(pLen, ratio, dLen);
        WideCoverage(p, d, ratio, pLen, y);
      }
    }
  }

  lemma PositiveFactor(a: nat, b: nat, c: int)
    requires c == a * b && c > 0
    ensures a > 0 && b > 0
  {
  }

  /** The smaller side's rank is the quotient of the larger side's rank, in terms of the ratio. */
  lemma PairedQuotient(p: nat, pSize: int, d: nat, dSize: int)
    requires p < pSize && d < dSize && IntegerRatio(pSize, dSize) && IntegerRatio(dSize, pSize)
    ensures var ratio := TpRatio(pSize, dSize).value;
            p in Targets(d, dSize, pSize) <==> if ratio > 0 then p / ratio == d else d / -ratio == p
  {
    RatioQuotients(pSize, dSize);
    TargetsMembership(d, dSize, pSize, p);
    if pSize == dSize {
      assert TpRatio(pSize, dSize).value == 1 by { MultipleModZero(1, dSize); }
    }
  }

  /** The supplier is one of the paired ranks. */
  lemma SupplierPaired(d: nat, pSize: int, dSize: int, pLen: nat, dLen: nat, replicated: bool, y: int)
    requires 0 < pSize && d < dSize && IntegerRatio(pSize, dSize) && IntegerRatio(dSize, pSize)
    requires RegionCompatible(pSize, dSize, pLen, dLen, replicated) && 0 <= y < dLen
    ensures pSize > dSize && !replicated ==> pLen > 0
    ensures Supplier(d, pSize, dSize, pLen, y, replicated) in Targets(d, dSize, pSize)
  {
    var ratio := TpRatio(pSize, dSize).value;
    if pSize > dSize {
      assert pSize / dSize == ratio by { MultipleModZero(ratio, dSize); }
      assert (d + 1) * ratio == d * ratio + ratio;
      if !replicated {
        assert pLen > 0;
        var o := y / pLen;
        if o >= ratio { MulMonotone(ratio, o, pLen); }
        DivUnique(d * ratio + o, ratio, d);
        TargetsMembership(d, dSize, pSize, d * ratio + o);
      } else {
        DivUnique(d * ratio, ratio, d);
        TargetsMembership(d, dSize, pSize, d * ratio);
      }
    } else {
      var s := Supplier(d, pSize, dSize, pLen, y, replicated);
      if pSize == dSize { assert pSize / dSize == 1; }
      TargetsMembership(d, dSize, pSize, s);
    }
  }

  /**
   The block lengths of both sides are shards of one unsharded block of `whole` bytes.
   */
  predicate ShardLengths(pSize: int, dSize: int, pLen: nat, dLen: nat, heads: int, mla: bool) {
    var ps, ds := EffectiveTp(pSize, heads, mla), EffectiveTp(dSize, heads, mla);
    ps.Success? && ds.Success? && pLen * ps.value == dLen * ds.value
  }

  /** Position of a rank's block inside the unsharded block. */
  function ShardStart(rank: nat, size: int, heads: int, mla: bool, len: nat): int
    requires EffectiveTp(size, heads, mla).Success?
  {
    ShardOf(rank, size, EffectiveTp(size, heads, mla).value) * len
  }

  /**
   The byte that the supplier copies sits at the same position of the unsharded block on both sides.
   */
  lemma SlicePosition(p: nat, pSize: int, d: nat, dSize: int, pLen: nat, dLen: nat, heads: int, mla: bool, y: int)
    requires p < pSize && d < dSize && IntegerRatio(pSize, dSize) && IntegerRatio(dSize, pSize)
    requires ShardLengths(pSize, dSize, pLen, dLen, heads, mla)
    requires var rep := ReplicatesKvCache(pSize, heads, mla);
             && RegionCompatible(pSize, dSize, pLen, dLen, rep)
             && 0 <= y < dLen && p in Targets(d, dSize, pSize)
             && SliceCovers(SenderSlice(p, pSize, d, dSize, pLen, dLen, rep), y)
    ensures var rep := ReplicatesKvCache(pSize, heads, mla);
            var s := SenderSlice(p, pSize, d, dSize, pLen, dLen, rep);
            ShardStart(p, pSize, heads, mla, pLen) + s.srcOffset + (y - s.dstOffset)
            == ShardStart(d, dSize, heads, mla, dLen) + y
  {
    TargetsMembership(d, dSize, pSize, p);
    if ReplicatesKvCache(pSize, heads, mla) {
      ReplicatedPosition(p, pSize, d, dSize, pLen, heads, mla);
    } else {
      SplitPosition(p, pSize, d, dSize, pLen, dLen, heads, mla, y);
    }
  }

  /** A split producer that passed validation faces a split consumer, and rank equals shard on both sides. */
  lemma SplitShards(pSize: int, dSize: int, pLen: nat, dLen: nat, heads: int, mla: bool)
    requires 0 < pSize && 0 < dSize && IntegerRatio(pSize, dSize)
    requires ShardLengths(pSize, dSize, pLen, dLen, heads, mla) && !ReplicatesKvCache(pSize, heads, mla)
    requires RegionCompatible(pSize, dSize, pLen, dLen, false) && dLen > 0
    ensures EffectiveTp(pSize, heads, mla).value == pSize && EffectiveTp(dSize, heads, mla).value == dSize
  {
    var ds := EffectiveTp(dSize, heads, mla).value;
    var ratio := TpRatio(pSize, dSize).value;
    if ratio < 0 {
      assert pLen * pSize == dLen * (-ratio * pSize) by {
        assert (dLen * -ratio) * pSize == dLen * (-ratio * pSize);
      }
      assert dLen * ds == dLen * dSize;
      SameShardCount(ds, dSize, dLen);
    }
  }

  lemma SplitPosition(p: nat, pSize: int, d: nat, dSize: int, pLen: nat, dLen: nat, heads: int, mla: bool, y: int)
    requires p < pSize && d < dSize && IntegerRatio(pSize, dSize) && IntegerRatio(dSize, pSize)
    requires ShardLengths(pSize, dSize, pLen, dLen, heads, mla) && !ReplicatesKvCache(pSize, heads, mla)
    requires RegionCompatible(pSize, dSize, pLen, dLen, false)
    requires 0 <= y < dLen && p in Targets(d, dSize, pSize)
    ensures var s := SenderSlice(p, pSize, d, dSize, pLen, dLen, false);
            ShardStart(p, pSize, heads, mla, pLen) + s.srcOffset + (y - s.dstOffset)
            == ShardStart(d, dSize, heads, mla, dLen) + y
  {
    PairedQuotient(p, pSize, d, dSize);
    SplitShards(pSize, dSize, pLen, dLen, heads, mla);
    OneRankPerShard(p, pSize);
    OneRankPerShard(d, dSize);
    var ratio := TpRatio(pSize, dSize).value;
    if ratio > 1 {
      SplitProduct(p, d, ratio, pLen);
    } else if ratio < 0 {
      SplitProduct(d, p, -ratio, dLen);
    }
  }

  lemma OneRankPerShard(rank: nat, size: int)
    requires rank < size
    ensures ShardOf(rank, size, size) == rank
  {
    assert size / size == 1;
  }

  lemma SplitProduct(p: nat, d: nat, ratio: int, len: nat)
    requires ratio > 0 && p / ratio == d
    ensures p * len == d * (len * ratio) + (p % ratio) * len
  {
    assert p == d * ratio + p % ratio;
    assert (d * ratio + p % ratio) * len == (d * ratio) * len + (p % ratio) * len;
    assert (d * ratio) * len == d * (len * ratio);
  }

  lemma SameShardCount(a: int, b: int, len: int)
    requires a > 0 && b > 0 && len > 0 && len * a == len * b
    ensures a == b
  {
    if a < b { SlotsApart(a, b, len); } else if b < a { SlotsApart(b, a, len); }
  }

  lemma ReplicatedPosition(p: nat, pSize: int, d: nat, dSize: int, len: nat, heads: int, mla: bool)
    requires p < pSize && d < dSize && IntegerRatio(pSize, dSize) && IntegerRatio(dSize, pSize)
    requires ShardLengths(pSize, dSize, len, len, heads, mla) && ReplicatesKvCache(pSize, heads, mla) && len > 0
    requires p in Targets(d, dSize, pSize) && SenderSlice(p, pSize, d, dSize, len, len, true).copy
    ensures ShardStart(p, pSize, heads, mla, len) == ShardStart(d, dSize, heads, mla, len)
  {
    PairedQuotient(p, pSize, d, dSize);
    var shards := EffectiveTp(pSize, heads, mla).value;
    SameShardCount(shards, EffectiveTp(dSize, heads, mla).value, len);
    ExactDiv(pSize, shards);
    ExactDiv(dSize, shards);
    var ratio := TpRatio(pSize, dSize).value;
    if ratio > 1 {
      FirstOfGroup(p, d, ratio);
      WideShard(d, pSize, dSize, ratio, shards);
    } else if ratio < 0 {
      NarrowShard(d, pSize, dSize, -ratio, shards);
    }
  }

  lemma WideShard(d: nat, pSize: int, dSize: int, ratio: int, shards: int)
    requires 0 < shards <= dSize && pSize == ratio * dSize && ratio > 0 && shards <= pSize
    requires pSize == (pSize / shards) * shards && dSize == (dSize / shards) * shards
    ensures ShardOf(d * ratio, pSize, shards) == ShardOf(d, dSize, shards)
  {
    var a, b := pSize / shards, dSize / shards;
    ScaledQuotient(a, b, ratio, shards);
    DivPositive(dSize, shards);
    ScaledDiv(d, b, ratio);
  }

  lemma NarrowShard(d: nat, pSize: int, dSize: int, q: int, shards: int)
    requires 0 < shards <= pSize && dSize == q * pSize && q > 0 && shards <= dSize
    requires pSize == (pSize / shards) * shards && dSize == (dSize / shards) * shards
    ensures d / q >= 0 && ShardOf(d / q, pSize, shards) == ShardOf(d, dSize, shards)
  {
    var a, b := pSize / shards, dSize / shards;
    ScaledQuotient(b, a, q, shards);
    DivPositive(pSize, shards);
    NestedDiv(d, q, a);
  }

  lemma ExactDiv(size: int, shards: int)
    requires 0 < shards <= size && size % shards == 0
    ensures size == (size / shards) * shards && size / shards >= 1
  {
    DivPositive(size, shards);
  }

  lemma ScaledQuotient(a: int, b: int, ratio: int, shards: int)
    requires shards > 0 && a * shards == ratio * (b * shards)
    ensures a == b * ratio
  {
    assert ratio * (b * shards) == (b * ratio) * shards;
    if a < b * ratio {
      SlotsApart(a, b * ratio, shards);
    } else if a > b * ratio {
      SlotsApart(b * ratio, a, shards);
    }
  }

  lemma ScaledDiv(d: nat, b: int, ratio: int)
    requires b > 0 && ratio > 0
    ensures b * ratio > 0 && (d * ratio) / (b * ratio) == d / b
  {
    var q := d / b;
    MulMonotone(1, b, ratio);
    MulMonotone(q * b, d, ratio);
    MulMonotone(d + 1, (q + 1) * b, ratio);
    assert (q * b) * ratio == q * (b * ratio);
    assert ((q + 1) * b) * ratio == (q + 1) * (b * ratio);
    assert (d + 1) * ratio == d * ratio + ratio;
    DivUnique(d * ratio, b * ratio, q);
  }

  lemma NestedDiv(d: nat, q: int, a: int)
    requires q > 0 && a > 0
    ensures a * q > 0 && (d / q) / a == d / (a * q)
  {
    var e := d / q;
    var f := e / a;
    MulMonotone(1, a, q);
    MulMonotone(f * a, e, q);
    MulMonotone(e + 1, (f + 1) * a, q);
    assert (f * a) * q == f * (a * q);
    assert ((f + 1) * a) * q == (f + 1) * (a * q);
    assert (e + 1) * q == e * q + q;
    DivUnique(d, a * q, f);
  }

  // ---------------------------------------------------------------- replicated producers

  /** Some paired P rank copies into byte `y` of D rank d's block. */
  ghost predicate Written(pSize: int, d: nat, dSize: int, pLen: nat, dLen: nat, replicated: bool, y: int)
    requires 0 < pSize && d < dSize && IntegerRatio(pSize, dSize) && IntegerRatio(dSize, pSize)
  {
    exists p: nat :: p < pSize && p in Targets(d, dSize, pSize)
                     && SliceCovers(SenderSlice(p, pSize, d, dSize, pLen, dLen, replicated), y)
  }

  /** No paired P rank trips the planner's assertions. */
  ghost predicate AllFit(pSize: int, d: nat, dSize: int, pLen: nat, dLen: nat, replicated: bool)
    requires 0 < pSize && d < dSize && IntegerRatio(pSize, dSize) && IntegerRatio(dSize, pSize)
  {
    forall p: nat :: p < pSize && p in Targets(d, dSize, pSize) ==>
      Fits(SenderSlice(p, pSize, d, dSize, pLen, dLen, replicated), pLen, dLen)
  }

  /**
   Region validation accepts any lengths for a replicated producer. Its copies are accepted and complete exactly
   when the block lengths are equal.
   */
  lemma ReplicatedExactness(pSize: int, d: nat, dSize: int, pLen: nat, dLen: nat)
    requires 0 < pSize && d < dSize && IntegerRatio(pSize, dSize) && IntegerRatio(dSize, pSize)
    ensures pLen == dLen <==>
            && AllFit(pSize, d, dSize, pLen, dLen, true)
            && forall y :: 0 <= y < dLen ==> Written(pSize, d, dSize, pLen, dLen, true, y)
  {
    TargetsInRange(d, dSize, pSize);
    RatioQuotients(pSize, dSize);
    var s := Supplier(d, pSize, dSize, pLen, 0, true);
    SupplierPaired(d, pSize, dSize, 1, 1, true, 0);
    assert s in Targets(d, dSize, pSize) && 0 <= s < pSize;
    PairedQuotient(s, pSize, d, dSize);
    var ratio := TpRatio(pSize, dSize).value;
    if ratio > 1 {
      FirstOfGroup(s, d, ratio);
    }
    var slice := SenderSlice(s, pSize, d, dSize, pLen, dLen, true);
    assert slice == Slice(true, 0, 0, pLen);
    if pLen < dLen {
      assert !Written(pSize, d, dSize, pLen, dLen, true, pLen);
    } else if pLen > dLen {
      assert !Fits(slice, pLen, dLen);
    } else {
      assert forall y :: SliceCovers(slice, y) ==> Written(pSize, d, dSize, pLen, dLen, true, y);
    }
  }

  /**
   Grouped-query attention with four KV heads, eight P ranks and two D ranks: validation accepts the regions, every
   slice fits, and yet nobody writes the second head of D rank 0's two-head blocks.
   */
  lemma ReplicatedGap(base: int, bytes: nat)
    requires bytes > 0
    ensures var local, remote := [Region(base, bytes, bytes)], [Region(base, 2 * bytes, 2 * bytes)];
            && ReplicatesKvCache(8, 4, false)
            && ShardLengths(8, 2, bytes, 2 * bytes, 4, false)
            && RegionsValid(local, remote, 8, 2, true)
            && AllFit(8, 0, 2, bytes, 2 * bytes, true)
            && !Written(8, 0, 2, bytes, 2 * bytes, true, bytes)
  {
  }
}
