/**
 Which P rank talks to which D rank, and which shard of the KV heads a rank holds.
 */
module Topology {
  import opened Arithmetic
  import opened Common

  datatype TopologyError = NoIntegerRatio

  /** One size divides the other. */
  predicate IntegerRatio(a: int, b: int)
    requires a > 0 && b > 0
  {
    if a >= b then a % b == 0 else b % a == 0
  }

  /** Positive: a local rank maps into a larger remote block. Negative: it gathers from several. */
  function TpRatio(localSize: int, remoteSize: int): (r: Option<int>)
    requires localSize > 0 && remoteSize > 0
    ensures r.Some? <==> IntegerRatio(localSize, remoteSize)
    ensures r.Some? && r.value > 0 ==> localSize == r.value * remoteSize
    ensures r.Some? && r.value <= 0 ==> r.value < -1 && remoteSize == -r.value * localSize
  {
    if localSize >= remoteSize then
      if localSize % remoteSize == 0 then
        ExactQuotient(localSize, remoteSize);
        Some(localSize / remoteSize)
      else
        None
    else if remoteSize % localSize == 0 then
      ExactQuotient(remoteSize, localSize);
      Some(-(remoteSize / localSize))
    else
      None
  }

  lemma ExactQuotient(a: int, b: int)
    requires a >= b > 0 && a % b == 0
    ensures a == (a / b) * b && a / b >= 1
    ensures a > b ==> a / b >= 2
  {
    if a > b && a / b <= 1 {
      MulMonotone(a / b, 1, b);
    }
  }

  /** The remote ranks that a rank exchanges KV with. */
  function TargetRanks(rank: nat, size: int, remoteSize: int): (r: Result<seq<int>, TopologyError>)
    requires rank < size && remoteSize > 0
    ensures r.Success? <==> IntegerRatio(size, remoteSize)
  {
    if size >= remoteSize then
      if size % remoteSize != 0 then Failure(NoIntegerRatio)
      else
        ExactQuotient(size, remoteSize);
        Success([rank / (size / remoteSize)])
    else if remoteSize % size != 0 then Failure(NoIntegerRatio)
    else
      var ratio := remoteSize / size;
      DivNonNegative(remoteSize, size);
      Success(seq(ratio, offset => rank * ratio + offset))
  }

  /** Targets of a rank when the sizes have an integer ratio. */
  function Targets(rank: nat, size: int, remoteSize: int): seq<int>
    requires rank < size && remoteSize > 0 && IntegerRatio(size, remoteSize)
  {
    TargetRanks(rank, size, remoteSize).value
  }

  /** Membership spelled out: the smaller side's rank is the quotient of the larger side's rank. */
  lemma TargetsMembership(rank: nat, size: int, remoteSize: int, other: int)
    requires rank < size && remoteSize > 0 && IntegerRatio(size, remoteSize)
    ensures size >= remoteSize ==>
              && size / remoteSize > 0
              && (other in Targets(rank, size, remoteSize) <==> other == rank / (size / remoteSize))
    ensures size < remoteSize ==>
              && remoteSize / size > 0
              && (other in Targets(rank, size, remoteSize) <==> other / (remoteSize / size) == rank)
  {
    if size >= remoteSize {
      ExactQuotient(size, remoteSize);
    } else {
      ExactQuotient(remoteSize, size);
      var ratio := remoteSize / size;
      if other / ratio == rank {
        assert rank * ratio <= other < rank * ratio + ratio;
        assert Targets(rank, size, remoteSize)[other - rank * ratio] == other;
      }
      if other in Targets(rank, size, remoteSize) {
        var offset :| 0 <= offset < ratio && other == rank * ratio + offset;
        assert (rank + 1) * ratio == rank * ratio + ratio;
        DivUnique(other, ratio, rank);
      }
    }
  }

  /** P rank p contacts D rank d exactly when D rank d contacts P rank p. */
  lemma SymmetricPairing(p: nat, pSize: int, d: nat, dSize: int)
    requires p < pSize && d < dSize && IntegerRatio(pSize, dSize)
    ensures IntegerRatio(dSize, pSize)
    ensures p in Targets(d, dSize, pSize) <==> d in Targets(p, pSize, dSize)
  {
    if pSize == dSize {
      assert pSize / dSize == 1 && dSize / pSize == 1;
      assert p / 1 == p && d / 1 == d;
    }
    TargetsMembership(d, dSize, pSize, p);
    TargetsMembership(p, pSize, dSize, d);
  }

  /** Targets are distinct ranks of the other side. */
  lemma TargetsInRange(rank: nat, size: int, remoteSize: int)
    requires rank < size && remoteSize > 0 && IntegerRatio(size, remoteSize)
    ensures NoDuplicates(Targets(rank, size, remoteSize))
    ensures forall t :: t in Targets(rank, size, remoteSize) ==> 0 <= t < remoteSize
    ensures Targets(rank, size, remoteSize) != []
  {
    if size >= remoteSize {
      QuotientInRange(rank, size, remoteSize);
    } else {
      SpreadInRange(rank, size, remoteSize);
    }
  }

  /** Targets on a larger side are consecutive ranks. */
  lemma SpreadInRange(rank: nat, size: int, remoteSize: int)
    requires rank < size < remoteSize && remoteSize % size == 0
    ensures var ts := Targets(rank, size, remoteSize);
            NoDuplicates(ts) && ts != [] && forall j :: 0 <= j < |ts| ==> 0 <= ts[j] < remoteSize
  {
    ExactQuotient(remoteSize, size);
    var ts, first := Targets(rank, size, remoteSize), rank * (remoteSize / size);
    assert |ts| == remoteSize / size && forall j :: 0 <= j < |ts| ==> ts[j] == first + j;
    OffsetInRange(rank, size, remoteSize, 0);
    OffsetInRange(rank, size, remoteSize, |ts| - 1);
  }

  lemma QuotientInRange(rank: nat, size: int, remoteSize: int)
    requires rank < size && remoteSize > 0 && size >= remoteSize && size % remoteSize == 0
    ensures size / remoteSize > 0 && 0 <= rank / (size / remoteSize) < remoteSize
  {
    ExactQuotient(size, remoteSize);
    var ratio := size / remoteSize;
    DivNonNegative(rank, ratio);
    assert remoteSize * ratio == size;
    if rank / ratio >= remoteSize {
      MulMonotone(remoteSize, rank / ratio, ratio);
    }
  }

  lemma OffsetInRange(rank: nat, size: int, remoteSize: int, offset: int)
    requires rank < size < remoteSize && remoteSize % size == 0 && 0 <= offset < remoteSize / size
    ensures 0 <= rank * (remoteSize / size) + offset < remoteSize
  {
    ExactQuotient(remoteSize, size);
    SlotsApart(rank, size, remoteSize / size);
    MulMonotone(0, rank, remoteSize / size);
  }

  /** The D ranks that contact a P rank, counted over the whole D side. */
  ghost function Contacting(p: nat, pSize: int, dSize: int): set<int>
    requires p < pSize && dSize > 0 && IntegerRatio(dSize, pSize)
  {
    set d: int | 0 <= d < dSize && p in Targets(d, dSize, pSize)
  }

  /** `need_send` of a P rank is the number of D ranks that contact it. */
  lemma NeedSendCountsContacts(p: nat, pSize: int, dSize: int)
    requires p < pSize && dSize > 0 && IntegerRatio(pSize, dSize)
    ensures IntegerRatio(dSize, pSize)
    ensures |Contacting(p, pSize, dSize)| == |Targets(p, pSize, dSize)|
  {
    var ts := Targets(p, pSize, dSize);
    TargetsInRange(p, pSize, dSize);
    DistinctCount(ts);
    assert Contacting(p, pSize, dSize) == set t | t in ts by {
      forall d: int | 0 <= d < dSize
        ensures p in Targets(d, dSize, pSize) <==> d in ts
      {
        SymmetricPairing(p, pSize, d, dSize);
      }
    }
  }

  /** The target sets of the smaller side split the larger side: every rank belongs to exactly one. */
  lemma TargetsPartition(size: int, remoteSize: int, other: nat)
    requires 0 < size <= remoteSize && IntegerRatio(size, remoteSize) && other < remoteSize
    ensures exists r: nat {:trigger Targets(r, size, remoteSize)} :: r < size && other in Targets(r, size, remoteSize)
    ensures forall r: nat, r': nat | r < size && r' < size ::
              other in Targets(r, size, remoteSize) && other in Targets(r', size, remoteSize) ==> r == r'
  {
    TargetsInRange(other, remoteSize, size);
    var r := Targets(other, remoteSize, size)[0];
    SymmetricPairing(r, size, other, remoteSize);
    assert other in Targets(r, size, remoteSize);
    forall r: nat, r': nat | r < size && r' < size && other in Targets(r, size, remoteSize)
                             && other in Targets(r', size, remoteSize)
      ensures r == r'
    {
      SymmetricPairing(r, size, other, remoteSize);
      SymmetricPairing(r', size, other, remoteSize);
      TargetsMembership(other, remoteSize, size, r);
      TargetsMembership(other, remoteSize, size, r');
    }
  }

  // ---------------------------------------------------------------- shards

  /** KV heads as the cache sees them: MLA keeps one. */
  function Heads(kvHeads: int, isMla: bool): int {
    if isMla then 1 else kvHeads
  }

  /** `effective_tp`: the number of distinct shards of the KV heads over `size` ranks. */
  function EffectiveTp(size: int, kvHeads: int, isMla: bool): (r: Result<int, TopologyError>)
    ensures r.Success? <==> size > 0 && kvHeads > 0 && IntegerRatio(size, Heads(kvHeads, isMla))
    ensures r.Success? ==> r.value == Min(size, Heads(kvHeads, isMla)) && 0 < r.value <= size && size % r.value == 0
  {
    if size <= 0 || kvHeads <= 0 then Failure(NoIntegerRatio)
    else
      var heads := Heads(kvHeads, isMla);
      if Max(size, heads) % Min(size, heads) != 0 then Failure(NoIntegerRatio)
      else
        Success(Min(size, heads))
  }

  /** The producer's shards are copies of each other on several ranks. */
  predicate ReplicatesKvCache(size: int, kvHeads: int, isMla: bool) {
    isMla || size > kvHeads
  }

  /** Which of `shards` shards a rank holds. */
  function ShardOf(rank: nat, size: int, shards: int): int
    requires 0 < shards <= size
  {
    DivPositive(size, shards);
    rank / (size / shards)
  }

  lemma DivPositive(a: int, b: int)
    requires 0 < b <= a
    ensures a / b >= 1
  {
    if a / b <= 0 {
      MulMonotone(a / b, 0, b);
    }
  }

  ghost predicate HeldBySome(shard: nat, size: int, shards: int)
    requires 0 < shards <= size
  {
    exists rank: nat :: rank < size && ShardOf(rank, size, shards) == shard
  }

  /** The effective size counts the shards: every rank holds one of them, and every one of them is held. */
  lemma ShardsAreHeld(size: int, kvHeads: int, isMla: bool)
    requires EffectiveTp(size, kvHeads, isMla).Success?
    ensures var shards := EffectiveTp(size, kvHeads, isMla).value;
            && (forall rank: nat :: rank < size ==> 0 <= ShardOf(rank, size, shards) < shards)
            && forall shard: nat :: shard < shards ==> HeldBySome(shard, size, shards)
  {
    var shards := EffectiveTp(size, kvHeads, isMla).value;
    var n := ModZeroMultiple(size, shards);
    DivPositive(size, shards);
    MultipleModZero(n, shards);
    assert size / shards == n >= 1 && size == shards * n;
    forall rank: nat | rank < size
      ensures 0 <= ShardOf(rank, size, shards) < shards
    {
      DivNonNegative(rank, n);
      assert rank / n * n <= rank < shards * n;
      MulCancel(rank / n, shards, n);
    }
    forall shard: nat | shard < shards
      ensures HeldBySome(shard, size, shards)
    {
      MultipleModZero(shard, n);
      SlotsApart(shard, shards, n);
      assert ShardOf(shard * n, size, shards) == shard;
    }
  }
}
