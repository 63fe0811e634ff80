/**
 Byte-exact resharding: all P ranks paired with one D rank execute their descriptors, in any order, against the
 memory of that D rank.
 */
module Resharding {
  import opened Arithmetic
  import opened Common
  import opened Topology
  import opened Regions
  import opened Copies
  import opened Planner

  /** One transfer: the whole P side, one D rank, both block tables and the head layout of the model. */
  datatype Transfer = Transfer(senders: seq<Sender>, receiver: Receiver, source: seq<seq<int>>,
                               requested: seq<seq<int>>, receiverBlocks: nat, heads: int, mla: bool)

  /** The P side is one TP group of ranks over the same layers. */
  ghost predicate SendersValid(t: Transfer) {
    && |t.senders| > 0 && |t.senders[0].regions| == |t.receiver.regions|
    && forall p :: 0 <= p < |t.senders| ==>
      && t.senders[p].rank == p && t.senders[p].size == |t.senders|
      && t.senders[p].replicated == ReplicatesKvCache(|t.senders|, t.heads, t.mla)
      && |t.senders[p].regions| == |t.receiver.regions|
      && forall i :: 0 <= i < |t.receiver.regions| ==> t.senders[p].regions[i].kvLen == t.senders[0].regions[i].kvLen
  }

  /**
   Lengths of every region: accepted by the P side's validation, equal when the producer is replicated, and shards
   of one unsharded block.
   */
  ghost predicate LengthsValid(t: Transfer)
    requires SendersValid(t) && t.receiver.Valid()
  {
    && RegionsValid(t.senders[0].regions, t.receiver.regions, |t.senders|, t.receiver.size, t.senders[0].replicated)
    && forall i :: 0 <= i < |t.receiver.regions| ==>
      var pLen, dLen := t.senders[0].regions[i].kvLen, t.receiver.regions[i].kvLen;
      && dLen <= t.receiver.regions[i].blockLen
      && (t.senders[0].replicated ==> pLen == dLen)
      && ShardLengths(|t.senders|, t.receiver.size, pLen, dLen, t.heads, t.mla)
  }

  /** Block tables: P has the requested suffixes, and D hands out distinct blocks of its registered memory. */
  ghost predicate TablesValid(t: Transfer) {
    && TablesFit(t.source, t.requested)
    && (forall p :: 0 <= p < |t.senders| ==>
      SourcesInRange(TransferPairs(t.source, t.requested), t.senders[p].numBlocks))
    && DestinationsValid(t.receiver, TransferPairs(t.source, t.requested), t.receiverBlocks)
  }

  ghost predicate Valid(t: Transfer) {
    && SendersValid(t) && t.receiver.Valid()
    && IntegerRatio(|t.senders|, t.receiver.size) && IntegerRatio(t.receiver.size, |t.senders|)
    && LengthsValid(t) && TablesValid(t)
  }

  function Pairs(t: Transfer): seq<BlockPair>
    requires TablesFit(t.source, t.requested)
  {
    TransferPairs(t.source, t.requested)
  }

  /** The P ranks that serve the D rank. */
  ghost predicate Serves(t: Transfer, p: int)
    requires t.receiver.Valid() && |t.senders| > 0 && IntegerRatio(t.receiver.size, |t.senders|)
  {
    p in Targets(t.receiver.rank, t.receiver.size, |t.senders|)
  }

  function Plan(t: Transfer, p: nat): Result<seq<Copy>, PlanError>
    requires p < |t.senders| && t.senders[p].Valid() && t.receiver.Valid()
    requires IntegerRatio(t.senders[p].size, t.receiver.size)
  {
    RequestCopies(t.senders[p], t.receiver, t.source, t.requested)
  }

  lemma Compatible(t: Transfer, p: nat)
    requires Valid(t) && p < |t.senders|
    ensures PairCompatible(t.senders[p], t.receiver)
  {
  }

  /** Every paired P rank builds its descriptors without error. */
  lemma PlansSucceed(t: Transfer, p: nat)
    requires Valid(t) && p < |t.senders|
    ensures PairCompatible(t.senders[p], t.receiver)
    ensures Plan(t, p).Success?
    ensures RegionCopies(t.senders[p], t.receiver, Pairs(t), |t.receiver.regions|) == Plan(t, p)
  {
    Compatible(t, p);
    CompatiblePlanSucceeds(t.senders[p], t.receiver, Pairs(t), |t.receiver.regions|);
  }

  /** The P rank that supplies byte `y` of a block of region `i`. */
  function SupplierOf(t: Transfer, i: nat, y: int): int
    requires |t.senders| > 0 && t.receiver.Valid() && i < |t.senders[0].regions| && 0 <= y
    requires |t.senders| > t.receiver.size && !t.senders[0].replicated ==> t.senders[0].regions[i].kvLen > 0
  {
    Supplier(t.receiver.rank, |t.senders|, t.receiver.size, t.senders[0].regions[i].kvLen, y, t.senders[0].replicated)
  }

  /** The supplier serves the D rank; it alone stores at the byte, once, and reads the right address. */
  lemma ByteHits(t: Transfer, p: nat, i: nat, k: nat, y: int)
    requires Valid(t) && i < |t.receiver.regions| && k < |Pairs(t)| && 0 <= y < t.receiver.regions[i].kvLen
    requires p < |t.senders| && Serves(t, p)
    ensures |t.senders| > t.receiver.size && !t.senders[0].replicated ==> t.senders[0].regions[i].kvLen > 0
    ensures PairCompatible(t.senders[p], t.receiver) && Plan(t, p).Success?
    ensures Hits(Plan(t, p).value, Address(t.receiver.regions[i], Pairs(t)[k].destination, y))
            == if p == SupplierOf(t, i, y) then [SourceAddress(t.senders[p], t.receiver, i, Pairs(t)[k], y)] else []
  {
    PlansSucceed(t, p);
    RankHits(t.senders[p], t.receiver, Pairs(t), t.receiverBlocks, |t.receiver.regions|, i, k, y);
    SliceCoverage(p, |t.senders|, t.receiver.rank, t.receiver.size, t.senders[0].regions[i].kvLen,
                  t.receiver.regions[i].kvLen, t.senders[0].replicated, y);
  }

  lemma SupplierServes(t: Transfer, i: nat, y: int)
    requires Valid(t) && i < |t.receiver.regions| && 0 <= y < t.receiver.regions[i].kvLen
    ensures |t.senders| > t.receiver.size && !t.senders[0].replicated ==> t.senders[0].regions[i].kvLen > 0
    ensures 0 <= SupplierOf(t, i, y) < |t.senders| && Serves(t, SupplierOf(t, i, y))
  {
    SupplierPaired(t.receiver.rank, |t.senders|, t.receiver.size, t.senders[0].regions[i].kvLen,
                   t.receiver.regions[i].kvLen, t.senders[0].replicated, y);
    TargetsInRange(t.receiver.rank, t.receiver.size, |t.senders|);
  }

  // ---------------------------------------------------------------- execution

  /** The writes executed against the D rank are those of its paired P ranks, in any order. */
  ghost predicate Executes(t: Transfer, ws: seq<Write>)
    requires Valid(t)
  {
    forall w :: w in ws <==>
      && 0 <= w.sender < |t.senders| && Serves(t, w.sender)
      && Planned(t, w.sender) && w.copy in Plan(t, w.sender).value
  }

  /** Planning for this rank is defined and succeeds; always true of a valid transfer. */
  predicate Planned(t: Transfer, p: int) {
    && 0 <= p < |t.senders| && t.senders[p].Valid() && t.receiver.Valid()
    && IntegerRatio(t.senders[p].size, t.receiver.size) && Plan(t, p).Success?
  }

  /**
   The cache content before sharding: region, P block id and position inside the unsharded block. Every P rank
   holds its shard of it in registered memory.
   */
  ghost predicate HoldsShards(t: Transfer, source: (int, int) -> Byte, unsharded: (int, int, int) -> Byte)
    requires Valid(t)
  {
    forall p, i, s, z ::
      0 <= p < |t.senders| && 0 <= i < |t.receiver.regions|
      && 0 <= s < t.senders[p].numBlocks && 0 <= z < t.senders[p].regions[i].kvLen ==>
        source(p, Address(t.senders[p].regions[i], s, z))
        == unsharded(i, s, ShardStart(p, |t.senders|, t.heads, t.mla, t.senders[p].regions[i].kvLen) + z)
  }

  /** What D rank's byte must become. */
  function Expected(t: Transfer, unsharded: (int, int, int) -> Byte, i: nat, k: nat, y: int): Byte
    requires t.receiver.Valid() && TablesFit(t.source, t.requested) && k < |Pairs(t)| && i < |t.receiver.regions|
    requires EffectiveTp(t.receiver.size, t.heads, t.mla).Success?
  {
    unsharded(i, Pairs(t)[k].source,
              ShardStart(t.receiver.rank, t.receiver.size, t.heads, t.mla, t.receiver.regions[i].kvLen) + y)
  }

  /** The supplied byte is the one at the same position of the unsharded block. */
  lemma SuppliedByte(t: Transfer, source: (int, int) -> Byte, unsharded: (int, int, int) -> Byte, i: nat, k: nat,
                     y: int)
    requires Valid(t) && HoldsShards(t, source, unsharded)
    requires i < |t.receiver.regions| && k < |Pairs(t)| && 0 <= y < t.receiver.regions[i].kvLen
    ensures |t.senders| > t.receiver.size && !t.senders[0].replicated ==> t.senders[0].regions[i].kvLen > 0
    ensures var p := SupplierOf(t, i, y);
            && 0 <= p < |t.senders| && PairCompatible(t.senders[p], t.receiver)
            && source(p, SourceAddress(t.senders[p], t.receiver, i, Pairs(t)[k], y)) == Expected(t, unsharded, i, k, y)
  {
    SupplierServes(t, i, y);
    var p := SupplierOf(t, i, y);
    Compatible(t, p);
    var pLen, dLen := t.senders[0].regions[i].kvLen, t.receiver.regions[i].kvLen;
    var rep := t.senders[0].replicated;
    SliceCoverage(p, |t.senders|, t.receiver.rank, t.receiver.size, pLen, dLen, rep, y);
    CompatibleSliceFits(p, |t.senders|, t.receiver.rank, t.receiver.size, pLen, dLen, rep);
    SlicePosition(p, |t.senders|, t.receiver.rank, t.receiver.size, pLen, dLen, t.heads, t.mla, y);
    var s := SliceOf(t.senders[p], t.receiver, i);
    var z := s.srcOffset + (y - s.dstOffset);
    assert 0 <= z < t.senders[p].regions[i].kvLen;
    assert 0 <= Pairs(t)[k].source < t.senders[p].numBlocks;
  }

  /** Whatever writes to a byte of a requested block writes the expected value. */
  lemma CoveringWriteIsRight(t: Transfer, ws: seq<Write>, source: (int, int) -> Byte,
                             unsharded: (int, int, int) -> Byte, i: nat, k: nat, y: int, w: Write)
    requires Valid(t) && Executes(t, ws) && HoldsShards(t, source, unsharded) && w in ws
    requires i < |t.receiver.regions| && k < |Pairs(t)| && 0 <= y < t.receiver.regions[i].kvLen
    requires Covers(w.copy, Address(t.receiver.regions[i], Pairs(t)[k].destination, y))
    ensures source(w.sender, w.copy.src + (Address(t.receiver.regions[i], Pairs(t)[k].destination, y) - w.copy.dst))
            == Expected(t, unsharded, i, k, y)
  {
    SuppliedByte(t, source, unsharded, i, k, y);
    ByteHits(t, w.sender, i, k, y);
    HitsMember(Plan(t, w.sender).value, Address(t.receiver.regions[i], Pairs(t)[k].destination, y), w.copy);
  }

  /**
   Main result. After the descriptors of all paired P ranks have run, in any order, every byte of every requested D
   block holds the byte at the same position of the unsharded source block.
   */
  lemma ByteExact(t: Transfer, ws: seq<Write>, source: (int, int) -> Byte, unsharded: (int, int, int) -> Byte,
                  before: int -> Byte, i: nat, k: nat, y: int)
    requires Valid(t) && Executes(t, ws) && HoldsShards(t, source, unsharded)
    requires i < |t.receiver.regions| && k < |Pairs(t)| && 0 <= y < t.receiver.regions[i].kvLen
    ensures ReadAfter(ws, source, before, Address(t.receiver.regions[i], Pairs(t)[k].destination, y))
            == Expected(t, unsharded, i, k, y)
  {
    var x := Address(t.receiver.regions[i], Pairs(t)[k].destination, y);
    var v := Expected(t, unsharded, i, k, y);
    forall w | w in ws && Covers(w.copy, x)
      ensures source(w.sender, w.copy.src + (x - w.copy.dst)) == v
    {
      CoveringWriteIsRight(t, ws, source, unsharded, i, k, y, w);
    }
    SomeoneWrites(t, ws, i, k, y);
    ReadAfterAgreed(ws, source, before, x, v);
  }

  lemma SomeoneWrites(t: Transfer, ws: seq<Write>, i: nat, k: nat, y: int)
    requires Valid(t) && Executes(t, ws)
    requires i < |t.receiver.regions| && k < |Pairs(t)| && 0 <= y < t.receiver.regions[i].kvLen
    ensures exists w :: w in ws && Covers(w.copy, Address(t.receiver.regions[i], Pairs(t)[k].destination, y))
  {
    var x := Address(t.receiver.regions[i], Pairs(t)[k].destination, y);
    SupplierServes(t, i, y);
    var p := SupplierOf(t, i, y);
    ByteHits(t, p, i, k, y);
    var c := HitSource(Plan(t, p).value, x);
    assert Write(p, c) in ws;
  }

  lemma {:induction false} HitSource(cs: seq<Copy>, x: int) returns (c: Copy)
    requires Hits(cs, x) != []
    ensures c in cs && Covers(c, x)
  {
    if Covers(cs[0], x) {
      c := cs[0];
    } else {
      c := HitSource(cs[1..], x);
    }
  }

  /** No other byte of the D rank changes. */
  lemma OthersUnchanged(t: Transfer, ws: seq<Write>, source: (int, int) -> Byte, before: int -> Byte, x: int)
    requires Valid(t) && Executes(t, ws)
    requires forall i, k :: 0 <= i < |t.receiver.regions| && 0 <= k < |Pairs(t)| ==>
               !InBlock(t.receiver.regions[i], Pairs(t)[k].destination, x)
    ensures ReadAfter(ws, source, before, x) == before(x)
  {
    forall w | w in ws
      ensures !Covers(w.copy, x)
    {
      PlansSucceed(t, w.sender);
      RankMisses(t.senders[w.sender], t.receiver, Pairs(t), |t.receiver.regions|, x);
      if Covers(w.copy, x) {
        HitsMember(Plan(t, w.sender).value, x, w.copy);
      }
    }
    ReadAfterAgreed(ws, source, before, x, before(x));
  }

  /** Number of times rank `p` stores at `x`. */
  function Stores(t: Transfer, p: int, x: int): nat {
    if Planned(t, p) then |Hits(Plan(t, p).value, x)| else 0
  }

  /** Number of times the first `n` paired ranks store at `x`. */
  function StoreCount(t: Transfer, n: nat, x: int): nat
    requires t.receiver.Valid() && |t.senders| > 0 && IntegerRatio(t.receiver.size, |t.senders|)
    requires n <= |Targets(t.receiver.rank, t.receiver.size, |t.senders|)|
  {
    if n == 0 then 0
    else StoreCount(t, n - 1, x) + Stores(t, Targets(t.receiver.rank, t.receiver.size, |t.senders|)[n - 1], x)
  }

  /** Every byte of every requested block is stored exactly once over all paired ranks and all their descriptors. */
  lemma StoredOnce(t: Transfer, i: nat, k: nat, y: int)
    requires Valid(t)
    requires i < |t.receiver.regions| && k < |Pairs(t)| && 0 <= y < t.receiver.regions[i].kvLen
    ensures StoreCount(t, |Targets(t.receiver.rank, t.receiver.size, |t.senders|)|,
                       Address(t.receiver.regions[i], Pairs(t)[k].destination, y)) == 1
  {
    var ts := Targets(t.receiver.rank, t.receiver.size, |t.senders|);
    TargetsInRange(t.receiver.rank, t.receiver.size, |t.senders|);
    SupplierServes(t, i, y);
    StoredOncePrefix(t, |ts|, i, k, y);
    assert ts[..|ts|] == ts;
  }

  lemma {:induction false} StoredOncePrefix(t: Transfer, n: nat, i: nat, k: nat, y: int)
    requires Valid(t) && n <= |Targets(t.receiver.rank, t.receiver.size, |t.senders|)|
    requires i < |t.receiver.regions| && k < |Pairs(t)| && 0 <= y < t.receiver.regions[i].kvLen
    ensures |t.senders| > t.receiver.size && !t.senders[0].replicated ==> t.senders[0].regions[i].kvLen > 0
    ensures StoreCount(t, n, Address(t.receiver.regions[i], Pairs(t)[k].destination, y))
            == if SupplierOf(t, i, y) in Targets(t.receiver.rank, t.receiver.size, |t.senders|)[..n] then 1 else 0
  {
    SupplierServes(t, i, y);
    if n > 0 {
      var ts := Targets(t.receiver.rank, t.receiver.size, |t.senders|);
      StoredOncePrefix(t, n - 1, i, k, y);
      RankStores(t, n - 1, i, k, y);
      TargetsInRange(t.receiver.rank, t.receiver.size, |t.senders|);
      PrefixMembership(ts, n, SupplierOf(t, i, y));
    }
  }

  lemma TargetServes(t: Transfer, n: nat)
    requires Valid(t) && n < |Targets(t.receiver.rank, t.receiver.size, |t.senders|)|
    ensures var p := Targets(t.receiver.rank, t.receiver.size, |t.senders|)[n]; 0 <= p < |t.senders| && Serves(t, p)
  {
    TargetsInRange(t.receiver.rank, t.receiver.size, |t.senders|);
  }

  lemma RankStores(t: Transfer, n: nat, i: nat, k: nat, y: int)
    requires Valid(t) && n < |Targets(t.receiver.rank, t.receiver.size, |t.senders|)|
    requires i < |t.receiver.regions| && k < |Pairs(t)| && 0 <= y < t.receiver.regions[i].kvLen
    ensures |t.senders| > t.receiver.size && !t.senders[0].replicated ==> t.senders[0].regions[i].kvLen > 0
    ensures Stores(t, Targets(t.receiver.rank, t.receiver.size, |t.senders|)[n],
                   Address(t.receiver.regions[i], Pairs(t)[k].destination, y))
            == if Targets(t.receiver.rank, t.receiver.size, |t.senders|)[n] == SupplierOf(t, i, y) then 1 else 0
  {
    TargetServes(t, n);
    ByteHits(t, Targets(t.receiver.rank, t.receiver.size, |t.senders|)[n], i, k, y);
  }

  lemma PrefixMembership(ts: seq<int>, n: nat, s: int)
    requires 0 < n <= |ts| && NoDuplicates(ts)
    ensures s in ts[..n] <==> s in ts[..n - 1] || s == ts[n - 1]
    ensures ts[n - 1] !in ts[..n - 1]
  {
    assert ts[..n] == ts[..n - 1] + [ts[n - 1]];
  }

  // ---------------------------------------------------------------- registered tensors

  /** Registered tensors occupy disjoint memory. */
  ghost predicate TensorsDisjoint(bases: seq<int>, lens: seq<nat>, numBlocks: nat)
    requires |bases| == |lens|
  {
    forall t, u :: 0 <= t < u < |bases| ==>
      bases[t] + numBlocks * lens[t] <= bases[u] || bases[u] + numBlocks * lens[u] <= bases[t]
  }

  /** The regions of disjoint tensors are disjoint, K and V halves included. */
  lemma ExpandedRegionsApart(bases: seq<int>, lens: seq<nat>, blocksFirst: bool, numBlocks: nat)
    requires |bases| == |lens| && TensorsDisjoint(bases, lens, numBlocks)
    ensures RegionsApart(Expansion(bases, lens, blocksFirst), numBlocks)
  {
    var rs := Expansion(bases, lens, blocksFirst);
    forall i, j, b: nat, b': nat, x | 0 <= i < j < |rs| && b < numBlocks && b' < numBlocks
      ensures !(InBlock(rs[i], b, x) && InBlock(rs[j], b', x))
    {
      var t, u := if blocksFirst then i / 2 else i, if blocksFirst then j / 2 else j;
      ExpansionAt(bases, lens, blocksFirst, t);
      ExpansionAt(bases, lens, blocksFirst, u);
      SlotBounds(b, numBlocks, lens[t]);
      SlotBounds(b', numBlocks, lens[u]);
      if t == u {
        assert blocksFirst && i == 2 * t && j == 2 * t + 1;
        if b < b' { SlotsApart(b, b', lens[t]); } else if b' < b { SlotsApart(b', b, lens[t]); }
      }
    }
  }

  lemma SlotBounds(b: nat, numBlocks: nat, len: nat)
    requires b < numBlocks
    ensures 0 <= b * len && b * len + len <= numBlocks * len
  {
    SlotsApart(b, numBlocks, len);
    MulMonotone(0, b, len);
  }

  /** The regions of a tensor tile each of its blocks: the whole block, or its K half followed by its V half. */
  lemma RegionsTileBlock(bases: seq<int>, lens: seq<nat>, blocksFirst: bool, t: nat, b: int, z: int)
    requires |bases| == |lens| && t < |bases| && 0 <= z < lens[t] && (blocksFirst ==> lens[t] % 2 == 0)
    ensures var rs := Expansion(bases, lens, blocksFirst);
            exists i {:trigger rs[i]} :: 0 <= i < |rs| && i / (if blocksFirst then 2 else 1) == t
              && InBlock(rs[i], b, bases[t] + b * lens[t] + z)
  {
    ExpansionAt(bases, lens, blocksFirst, t);
    var rs := Expansion(bases, lens, blocksFirst);
    var i := if !blocksFirst then t else if z < lens[t] / 2 then 2 * t else 2 * t + 1;
    assert InBlock(rs[i], b, bases[t] + b * lens[t] + z);
  }
}
