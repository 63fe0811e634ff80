/**
 What a save event writes to the Store, and how two events for the same request are merged. Merging must not change
 what is written: the merged event selects exactly the chunks that the two events select separately.
 */
module SaveEvents {
  import opened Arithmetic
  import opened Common
  import opened Chunks

  /** A ready event is absent, one signal, or several that were joined by a merge. Signals are known by number. */
  datatype Ready = NoEvent | Single(signal: nat) | Joined(signals: seq<nat>)

  datatype SaveEvent = SaveEvent(start: nat, end: nat, hashes: seq<Hash>, blocks: seq<seq<int>>, prompt: Option<int>,
                                 ready: Ready)

  /**
   The pool of one worker. Without a template every chunk is stored; otherwise `template[g]` says for each chunk of one
   `lcm` segment whether group g stores it.
   */
  datatype Pool = Pool(databases: seq<Database>, lcm: nat, template: Option<seq<seq<bool>>>, tpRank: nat, putStep: nat)

  predicate PoolValid(p: Pool) {
    && p.lcm > 0 && p.putStep > 0
    && (forall g :: 0 <= g < |p.databases| ==> GroupValid(p, g))
    && (p.template.Some? ==> |p.template.value| == |p.databases|)
  }

  /** Block sizes divide the scheduler's block size, and a template covers one segment of it. */
  predicate GroupValid(p: Pool, g: nat)
    requires g < |p.databases|
  {
    && DatabaseValid(p.databases[g]) && p.lcm % p.databases[g].blockSize == 0
    && (p.template.Some? ==> g < |p.template.value| && |p.template.value[g]| == p.lcm / p.databases[g].blockSize)
  }

  // ---------------------------------------------------------------- store masks

  /** `list * n`. */
  function Repeat(t: seq<bool>, n: nat): (r: seq<bool>)
    ensures |r| == n * |t|
  {
    if n == 0 then [] else t + Repeat(t, n - 1)
  }

  /** `store_mask` of group `g` for `tokens`, a multiple of the scheduler's block size. */
  function StoreMask(p: Pool, tokens: nat, g: nat): seq<bool>
    requires PoolValid(p) && g < |p.databases|
  {
    assert GroupValid(p, g);
    if tokens == 0 then []
    else if p.template.None? then seq(tokens / p.databases[g].blockSize, _ => true)
    else Repeat(p.template.value[g], tokens / p.lcm)
  }

  lemma {:induction false} RepeatPrefix(t: seq<bool>, n: nat, m: nat)
    requires n <= m
    ensures Repeat(t, n) <= Repeat(t, m)
  {
    if n > 0 {
      RepeatPrefix(t, n - 1, m - 1);
    }
  }

  lemma SegmentChunks(segments: nat, lcm: nat, size: nat)
    requires size > 0 && lcm > 0 && lcm % size == 0
    ensures segments * (lcm / size) == (segments * lcm) / size
  {
    var k := ModZeroMultiple(lcm, size);
    assert segments * lcm == (segments * k) * size;
    MultipleModZero(segments * k, size);
  }

  lemma MaskLength(p: Pool, tokens: nat, g: nat)
    requires PoolValid(p) && g < |p.databases| && tokens % p.lcm == 0
    ensures GroupValid(p, g)
    ensures |StoreMask(p, tokens, g)| == tokens / p.databases[g].blockSize
  {
    assert GroupValid(p, g);
    var n := ModZeroMultiple(tokens, p.lcm);
    SegmentChunks(n, p.lcm, p.databases[g].blockSize);
  }

  /** Multiples keep their order. */
  lemma SegmentsMonotone(tokens: nat, more: nat, lcm: nat)
    requires lcm > 0 && tokens % lcm == 0 && more % lcm == 0 && tokens <= more
    ensures 0 <= tokens / lcm <= more / lcm
  {
    DivMonotone(tokens, more, lcm);
  }

  /** The mask of fewer tokens is the beginning of the mask of more tokens, and covers them. */
  lemma MasksAgree(p: Pool, tokens: nat, more: nat, g: nat)
    requires PoolValid(p) && g < |p.databases| && tokens % p.lcm == 0 && more % p.lcm == 0 && tokens <= more
    ensures GroupValid(p, g)
    ensures |StoreMask(p, tokens, g)| == tokens / p.databases[g].blockSize
    ensures StoreMask(p, tokens, g) <= StoreMask(p, more, g)
  {
    MaskLength(p, tokens, g);
    MaskLength(p, more, g);
    if tokens > 0 {
      if p.template.Some? {
        SegmentsMonotone(tokens, more, p.lcm);
        RepeatPrefix(p.template.value[g], tokens / p.lcm, more / p.lcm);
      } else {
        DivMonotone(tokens, more, p.databases[g].blockSize);
      }
    }
  }

  lemma DivMonotone(a: nat, b: nat, c: nat)
    requires a <= b && c > 0
    ensures a / c <= b / c
  {
    if b / c < a / c {
      MulMonotone(b / c + 1, a / c, c);
    }
  }

  // ---------------------------------------------------------------- selection

  /** A chunk of a group. */
  datatype Place = Place(group: nat, chunk: nat)

  /** What is written for a chunk. */
  datatype Item = Item(group: nat, hash: Hash, addresses: seq<int>, sizes: seq<nat>)

  function SavedTokens(p: Pool, e: SaveEvent): (n: nat)
    requires p.lcm > 0
    ensures n % p.lcm == 0 && n <= e.end
  {
    MultipleModZero(e.end / p.lcm, p.lcm);
    e.end / p.lcm * p.lcm
  }

  function Phase(p: Pool, g: nat): nat
    requires p.putStep > 0
  {
    (p.tpRank + g) % p.putStep
  }

  /** The event writes this chunk. */
  predicate Selects(p: Pool, e: SaveEvent, at: Place)
    requires PoolValid(p)
  {
    && at.group < |p.databases|
    && var db, tokens := p.databases[at.group], SavedTokens(p, e);
    assert GroupValid(p, at.group);
    && e.start <= at.chunk * db.blockSize < tokens && at.chunk < ChunkCount(db, e.hashes)
    && at.chunk < |StoreMask(p, tokens, at.group)| && StoreMask(p, tokens, at.group)[at.chunk]
    && at.chunk % p.putStep == Phase(p, at.group)
  }

  /** The block table has a block for the chunk. */
  predicate HasBlock(e: SaveEvent, at: Place) {
    at.group < |e.blocks| && at.chunk < |e.blocks[at.group]|
  }

  function ItemAt(p: Pool, e: SaveEvent, at: Place): Item
    requires PoolValid(p) && Selects(p, e, at) && HasBlock(e, at)
  {
    assert GroupValid(p, at.group);
    var db := p.databases[at.group];
    Item(at.group, ChunkHash(db, e.hashes, at.chunk), Addresses(db, e.blocks[at.group][at.chunk]), Sizes(db))
  }

  ghost predicate InOrder(places: seq<Place>) {
    forall i, j :: 0 <= i < j < |places| ==>
      places[i].group < places[j].group || (places[i].group == places[j].group && places[i].chunk < places[j].chunk)
  }

  /** The places are those that the event selects in the first `groups` groups. */
  ghost predicate PlacesAre(p: Pool, e: SaveEvent, places: seq<Place>, groups: nat)
    requires PoolValid(p)
  {
    forall at {:trigger at in places} :: at in places <==> Selects(p, e, at) && at.group < groups
  }

  ghost predicate ItemIs(p: Pool, e: SaveEvent, at: Place, item: Item)
    requires PoolValid(p)
  {
    Selects(p, e, at) && HasBlock(e, at) && item == ItemAt(p, e, at)
  }

  /** It is this rank's turn, and the item has the hash of the chunk and the memory of its block. */
  ghost predicate Stores(p: Pool, e: SaveEvent, at: Place, item: Item)
    requires PoolValid(p)
  {
    && item.group == at.group < |p.databases| && GroupValid(p, at.group)
    && at.chunk % p.putStep == (p.tpRank + at.group) % p.putStep
    && var db := p.databases[at.group];
    && at.chunk < ChunkCount(db, e.hashes) && item.hash == ChunkHash(db, e.hashes, at.chunk)
    && at.group < |e.blocks| && at.chunk < |e.blocks[at.group]|
    && item.addresses == Addresses(db, e.blocks[at.group][at.chunk]) && item.sizes == Sizes(db)
  }

  lemma ItemStores(p: Pool, e: SaveEvent, at: Place, item: Item)
    requires PoolValid(p) && ItemIs(p, e, at, item)
    ensures Stores(p, e, at, item)
  {
    assert GroupValid(p, at.group);
  }

  ghost predicate ItemsAre(p: Pool, e: SaveEvent, places: seq<Place>, items: seq<Item>)
    requires PoolValid(p)
  {
    |items| == |places| && forall k :: 0 <= k < |places| ==> ItemIs(p, e, places[k], items[k])
  }

  /** What was collected for the first `groups` groups. */
  ghost predicate Collected(p: Pool, e: SaveEvent, places: seq<Place>, items: seq<Item>, groups: nat)
    requires PoolValid(p)
  {
    InOrder(places) && PlacesAre(p, e, places, groups) && ItemsAre(p, e, places, items)
  }

  /** The suffix masks of the incremental save path say the same as the masks of all tokens. */
  lemma SuffixMask(p: Pool, e: SaveEvent, g: nat, c: nat)
    requires PoolValid(p) && g < |p.databases| && SavedTokens(p, e) > e.start
    ensures GroupValid(p, g)
    ensures var db, tokens := p.databases[g], SavedTokens(p, e);
            var mask, first := StoreMask(p, tokens, g), CeilDiv(e.start, db.blockSize);
            && 0 <= first <= |mask|
            && (Taken(db, tokens, e.hashes, e.start, Some(mask[first..]), p.putStep, Phase(p, g), c)
                <==> Selects(p, e, Place(g, c)))
  {
    assert GroupValid(p, g);
    var db, tokens := p.databases[g], SavedTokens(p, e);
    MasksAgree(p, tokens, tokens, g);
    var n := ModZeroMultiple(tokens, p.lcm);
    var k := ModZeroMultiple(p.lcm, db.blockSize);
    assert tokens == (n * k) * db.blockSize;
    MultipleModZero(n * k, db.blockSize);
    CeilDivIff(e.start, db.blockSize, tokens / db.blockSize);
    CeilDivIff(e.start, db.blockSize, c);
    CeilDivIff(e.start, db.blockSize, -1);
  }

  /** `_save` up to the Store calls; nothing is returned for an index error. */
  method SelectItems(p: Pool, e: SaveEvent) returns (items: Option<seq<Item>>, ghost places: seq<Place>)
    requires PoolValid(p)
    ensures items.Some? ==> Collected(p, e, places, items.value, |p.databases|)
    ensures items.None? <==> exists at :: Selects(p, e, at) && !HasBlock(e, at)
    ensures items.Some? ==> forall k :: 0 <= k < |items.value| ==> Stores(p, e, places[k], items.value[k])
  {
    places := [];
    var tokens := e.end / p.lcm * p.lcm;
    if tokens <= e.start {
      return Some([]), [];
    }
    var list: seq<Item> := [];
    for g := 0 to |p.databases|
      invariant Collected(p, e, places, list, g)
    {
      SuffixMask(p, e, g, 0);
      var db := p.databases[g];
      var chunks := ProcessTokens(db, tokens, e.hashes, e.start,
                                  Some(StoreMask(p, tokens, g)[CeilDiv(e.start, db.blockSize)..]), p.putStep,
                                  (p.tpRank + g) % p.putStep);
      forall c: nat
        ensures c in chunks <==> Selects(p, e, Place(g, c))
      {
        SuffixMask(p, e, g, c);
      }
      var more := PrepareChunks(p, e, g, chunks);
      if more.None? {
        return None, [];
      }
      list := list + more.value;
      CollectGroup(p, e, places, list[..|places|], g, chunks, more.value);
      places := places + Places(g, chunks);
    }
    CollectedHaveBlocks(p, e, places, list);
    items := Some(list);
    forall k | 0 <= k < |list|
      ensures Stores(p, e, places[k], list[k])
    {
      ItemStores(p, e, places[k], list[k]);
    }
  }

  lemma CollectedHaveBlocks(p: Pool, e: SaveEvent, places: seq<Place>, items: seq<Item>)
    requires PoolValid(p) && Collected(p, e, places, items, |p.databases|)
    ensures forall at :: Selects(p, e, at) ==> HasBlock(e, at)
  {
    forall at | Selects(p, e, at)
      ensures HasBlock(e, at)
    {
      assert at in places;
      var k :| 0 <= k < |places| && places[k] == at;
      assert ItemIs(p, e, places[k], items[k]);
    }
  }

  /** `prepare_value` for the chunks of one group. */
  method PrepareChunks(p: Pool, e: SaveEvent, g: nat, chunks: seq<nat>) returns (items: Option<seq<Item>>)
    requires PoolValid(p) && g < |p.databases|
    requires forall c: nat :: c in chunks ==> Selects(p, e, Place(g, c))
    ensures items.Some? ==> Prepared(p, e, g, chunks, items.value)
    ensures items.None? ==> exists at :: Selects(p, e, at) && !HasBlock(e, at)
  {
    assert GroupValid(p, g);
    var db := p.databases[g];
    var list: seq<Item> := [];
    for k := 0 to |chunks|
      invariant Prepared(p, e, g, chunks[..k], list)
    {
      assert chunks[k] in chunks;
      if g >= |e.blocks| || chunks[k] >= |e.blocks[g]| {
        assert !HasBlock(e, Place(g, chunks[k]));
        return None;
      }
      list := list + [Item(g, ChunkHash(db, e.hashes, chunks[k]), Addresses(db, e.blocks[g][chunks[k]]), Sizes(db))];
    }
    assert chunks[..|chunks|] == chunks;
    items := Some(list);
  }

  ghost predicate Prepared(p: Pool, e: SaveEvent, g: nat, chunks: seq<nat>, items: seq<Item>)
    requires PoolValid(p)
  {
    |items| == |chunks| && forall k :: 0 <= k < |chunks| ==> ItemIs(p, e, Place(g, chunks[k]), items[k])
  }

  function Places(g: nat, chunks: seq<nat>): (r: seq<Place>)
    ensures |r| == |chunks| && forall k :: 0 <= k < |r| ==> r[k] == Place(g, chunks[k])
  {
    seq(|chunks|, k requires 0 <= k < |chunks| => Place(g, chunks[k]))
  }

  lemma CollectGroup(p: Pool, e: SaveEvent, places: seq<Place>, items: seq<Item>, g: nat, chunks: seq<nat>,
                     more: seq<Item>)
    requires PoolValid(p) && g < |p.databases| && Collected(p, e, places, items, g)
    requires Increasing(chunks) && forall c: nat :: c in chunks <==> Selects(p, e, Place(g, c))
    requires Prepared(p, e, g, chunks, more)
    ensures Collected(p, e, places + Places(g, chunks), items + more, g + 1)
  {
    forall i | 0 <= i < |places|
      ensures places[i].group < g
    {
      assert places[i] in places;
    }
    var all, both := places + Places(g, chunks), items + more;
    forall k | 0 <= k < |all|
      ensures ItemIs(p, e, all[k], both[k])
    {
      assert if k < |places| then ItemIs(p, e, places[k], items[k])
             else ItemIs(p, e, Place(g, chunks[k - |places|]), more[k - |places|]);
    }
  }

  // ---------------------------------------------------------------- merging

  /** The signals that an event waits for. */
  function Signals(r: Ready): seq<nat> {
    match r
    case NoEvent => []
    case Single(signal) => [signal]
    case Joined(signals) => signals
  }

  /** `_merge` accepts: the ranges touch, and the new event extends hashes and block tables of the old one. */
  predicate CanMerge(prior: SaveEvent, next: SaveEvent, sizes: seq<nat>)
    requires forall g :: 0 <= g < |sizes| ==> sizes[g] > 0
  {
    && prior.prompt == next.prompt
    && Max(prior.start, next.start) <= Min(prior.end, next.end)
    && next.end >= prior.end && prior.hashes <= next.hashes
    && |prior.blocks| == |next.blocks| == |sizes|
    && forall g :: 0 <= g < |sizes| ==>
      |next.blocks[g]| >= CeilDiv(Max(prior.end, next.end), sizes[g]) && prior.blocks[g] <= next.blocks[g]
  }

  /** What may be said about a merged event. */
  ghost predicate IsMerged(prior: SaveEvent, next: SaveEvent, merged: SaveEvent) {
    && merged == next.(start := Min(prior.start, next.start), end := Max(prior.end, next.end), ready := merged.ready)
    && NoDuplicates(Signals(merged.ready))
    && forall x :: x in Signals(merged.ready) <==> x in Signals(prior.ready) || x in Signals(next.ready)
  }

  /** The first occurrences, in order. */
  function Distinct(signals: seq<nat>): (r: seq<nat>)
    ensures NoDuplicates(r) && forall x :: x in r <==> x in signals
  {
    if signals == [] then []
    else
      var n := |signals| - 1;
      var r := Distinct(signals[..n]);
      assert forall x :: x in signals <==> x in signals[..n] || x == signals[n];
      if signals[n] in r then r else r + [signals[n]]
  }

  function Merged(prior: SaveEvent, next: SaveEvent): (merged: SaveEvent)
    ensures IsMerged(prior, next, merged)
  {
    var signals := Distinct(Signals(prior.ready) + Signals(next.ready));
    next.(start := Min(prior.start, next.start), end := Max(prior.end, next.end),
          ready := if signals == [] then NoEvent else Joined(signals))
  }

  /** `_merge`. */
  method Merge(prior: SaveEvent, next: SaveEvent, sizes: seq<nat>) returns (merged: Option<SaveEvent>)
    requires |prior.blocks| == |next.blocks| == |sizes| && forall g :: 0 <= g < |sizes| ==> sizes[g] > 0
    ensures merged == if CanMerge(prior, next, sizes) then Some(Merged(prior, next)) else None
  {
    if prior.prompt != next.prompt || Max(prior.start, next.start) > Min(prior.end, next.end) {
      return None;
    }
    var end := Max(prior.end, next.end);
    if next.end < end || |next.hashes| < |prior.hashes| || next.hashes[..|prior.hashes|] != prior.hashes {
      return None;
    }
    for g := 0 to |sizes|
      invariant forall i :: 0 <= i < g ==>
                  |next.blocks[i]| >= CeilDiv(end, sizes[i]) && prior.blocks[i] <= next.blocks[i]
    {
      if |next.blocks[g]| < CeilDiv(end, sizes[g]) || !(prior.blocks[g] <= next.blocks[g]) {
        return None;
      }
    }
    var signals := JoinSignals(Signals(prior.ready), Signals(next.ready));
    merged := Some(next.(start := Min(prior.start, next.start), end := end,
                         ready := if signals == [] then NoEvent else Joined(signals)));
  }

  /** Collects distinct signals in order. */
  method JoinSignals(a: seq<nat>, b: seq<nat>) returns (signals: seq<nat>)
    ensures signals == Distinct(a + b)
  {
    signals := [];
    var all := a + b;
    for k := 0 to |all|
      invariant signals == Distinct(all[..k])
    {
      assert all[..k + 1][..k] == all[..k];
      if all[k] !in signals {
        signals := signals + [all[k]];
      }
    }
    assert all[..|all|] == all;
  }

  // ---------------------------------------------------------------- merging preserves meaning

  function BlockSizes(p: Pool): (sizes: seq<nat>)
    requires PoolValid(p)
    ensures |sizes| == |p.databases|
    ensures forall g :: 0 <= g < |sizes| ==> sizes[g] == p.databases[g].blockSize > 0
  {
    assert forall g :: 0 <= g < |p.databases| ==> GroupValid(p, g) && p.databases[g].blockSize > 0;
    seq(|p.databases|, g requires 0 <= g < |p.databases| => p.databases[g].blockSize)
  }

  /** What the caller provides: hashes and block tables that reach the end of the range. */
  ghost predicate EventCovered(p: Pool, e: SaveEvent)
    requires PoolValid(p)
  {
    |e.blocks| == |p.databases| && forall g :: 0 <= g < |p.databases| ==> GroupCovered(p, e, g)
  }

  ghost predicate GroupCovered(p: Pool, e: SaveEvent, g: nat)
    requires PoolValid(p) && g < |p.databases| && |e.blocks| == |p.databases|
  {
    assert GroupValid(p, g);
    |e.hashes| * p.databases[g].hashSize >= e.end && |e.blocks[g]| >= CeilDiv(e.end, p.databases[g].blockSize)
  }

  /** Bounds on multiples of the scheduler's block size. */
  predicate Aligned(p: Pool, e: SaveEvent)
    requires p.lcm > 0
  {
    e.start % p.lcm == 0 && e.end % p.lcm == 0
  }

  /** The mask has the chunk, and it is this rank's turn. */
  ghost predicate Pattern(p: Pool, at: Place, tokens: nat)
    requires PoolValid(p) && at.group < |p.databases|
  {
    && at.chunk < |StoreMask(p, tokens, at.group)| && StoreMask(p, tokens, at.group)[at.chunk]
    && at.chunk % p.putStep == Phase(p, at.group)
  }

  /** Where a chunk starts. */
  function Position(p: Pool, at: Place): nat
    requires at.group < |p.databases|
  {
    at.chunk * p.databases[at.group].blockSize
  }

  lemma AlignedChunk(p: Pool, tokens: nat, at: Place)
    requires PoolValid(p) && at.group < |p.databases| && tokens % p.lcm == 0 && Position(p, at) < tokens
    ensures (at.chunk + 1) * p.databases[at.group].blockSize <= tokens
  {
    assert GroupValid(p, at.group);
    var size := p.databases[at.group].blockSize;
    var n := ModZeroMultiple(tokens, p.lcm);
    var k := ModZeroMultiple(p.lcm, size);
    assert tokens == (n * k) * size;
    MulCancel(at.chunk, n * k, size);
    MulMonotone(at.chunk + 1, n * k, size);
  }

  /** For a covered event, selection is a matter of the range, the mask and the turn of the rank. */
  lemma SelectsIff(p: Pool, e: SaveEvent, at: Place)
    requires PoolValid(p) && EventCovered(p, e)
    ensures Selects(p, e, at) <==>
              at.group < |p.databases| && e.start <= Position(p, at) < SavedTokens(p, e)
              && Pattern(p, at, SavedTokens(p, e))
    ensures Selects(p, e, at) ==> HasBlock(e, at)
  {
    if at.group < |p.databases| {
      assert GroupValid(p, at.group) && GroupCovered(p, e, at.group);
      var db, tokens := p.databases[at.group], SavedTokens(p, e);
      if Position(p, at) < tokens {
        AlignedChunk(p, tokens, at);
        ChunksCover(db, e.hashes, tokens, at.chunk);
        CeilDivIff(e.end, db.blockSize, at.chunk);
      }
    }
  }

  lemma PatternStable(p: Pool, at: Place, tokens: nat, more: nat)
    requires PoolValid(p) && at.group < |p.databases| && tokens % p.lcm == 0 && more % p.lcm == 0
    requires Position(p, at) < tokens <= more
    ensures Pattern(p, at, tokens) <==> Pattern(p, at, more)
  {
    MasksAgree(p, tokens, more, at.group);
    MasksAgree(p, more, more, at.group);
    AlignedChunk(p, tokens, at);
    var size := p.databases[at.group].blockSize;
    if tokens / size <= at.chunk {
      MulMonotone(tokens / size + 1, at.chunk + 1, size);
    }
  }

  lemma SavedTokensMonotone(p: Pool, e: SaveEvent, f: SaveEvent)
    requires p.lcm > 0 && e.end <= f.end
    ensures SavedTokens(p, e) <= SavedTokens(p, f)
  {
    DivMonotone(e.end, f.end, p.lcm);
    MulMonotone(e.end / p.lcm, f.end / p.lcm, p.lcm);
  }

  /** Longer tables give the same item where both select. */
  lemma SameItem(p: Pool, e: SaveEvent, merged: SaveEvent, at: Place)
    requires PoolValid(p) && Selects(p, e, at) && Selects(p, merged, at) && HasBlock(e, at)
    requires e.hashes <= merged.hashes && |e.blocks| == |merged.blocks| == |p.databases|
    requires forall g :: 0 <= g < |p.databases| ==> e.blocks[g] <= merged.blocks[g]
    ensures HasBlock(merged, at) && ItemAt(p, merged, at) == ItemAt(p, e, at)
  {
    assert GroupValid(p, at.group);
    ChunksStable(p.databases[at.group], e.hashes, merged.hashes, at.chunk);
  }

  /**
   A chunk that neither event writes although it lies between them: rounding down the end of the first event leaves it
   to the second, which starts after the beginning of the chunk.
   */
  ghost predicate InSeam(p: Pool, prior: SaveEvent, next: SaveEvent, at: Place)
    requires PoolValid(p)
  {
    && at.group < |p.databases|
    && prior.start <= Position(p, at) && SavedTokens(p, prior) <= Position(p, at) < next.start
    && Position(p, at) < SavedTokens(p, next) && Pattern(p, at, SavedTokens(p, next))
  }

  /**
   Main result. Whenever two events merge, the merged event writes what the two write separately and in addition the
   chunks in the seam, each under the same key and from the same memory as before.
   */
  lemma MergedWrites(p: Pool, prior: SaveEvent, next: SaveEvent, merged: SaveEvent, at: Place)
    requires PoolValid(p) && EventCovered(p, prior) && EventCovered(p, next)
    requires CanMerge(prior, next, BlockSizes(p)) && IsMerged(prior, next, merged)
    ensures EventCovered(p, merged)
    ensures Selects(p, merged, at) <==> Selects(p, prior, at) || Selects(p, next, at) || InSeam(p, prior, next, at)
    ensures InSeam(p, prior, next, at) ==> !Selects(p, prior, at) && !Selects(p, next, at)
    ensures Selects(p, merged, at) ==> HasBlock(merged, at)
    ensures Selects(p, prior, at) ==> HasBlock(prior, at) && ItemAt(p, merged, at) == ItemAt(p, prior, at)
    ensures Selects(p, next, at) ==> HasBlock(next, at) && ItemAt(p, merged, at) == ItemAt(p, next, at)
  {
    MergedCovered(p, prior, next, merged);
    SelectsIff(p, merged, at);
    SelectsIff(p, prior, at);
    SelectsIff(p, next, at);
    SavedTokensMonotone(p, prior, next);
    if at.group < |p.databases| && Position(p, at) < SavedTokens(p, prior) {
      PatternStable(p, at, SavedTokens(p, prior), SavedTokens(p, next));
    }
    if Selects(p, prior, at) {
      SameItem(p, prior, merged, at);
    }
    if Selects(p, next, at) {
      SameItem(p, next, merged, at);
    }
  }

  lemma MergedCovered(p: Pool, prior: SaveEvent, next: SaveEvent, merged: SaveEvent)
    requires PoolValid(p) && EventCovered(p, next)
    requires CanMerge(prior, next, BlockSizes(p)) && IsMerged(prior, next, merged)
    ensures EventCovered(p, merged)
  {
    forall g | 0 <= g < |p.databases|
      ensures GroupCovered(p, merged, g)
    {
      assert GroupCovered(p, next, g);
    }
  }

  /** The merged event writes exactly what the two events write, no more and no less. */
  ghost predicate MergeExact(p: Pool, prior: SaveEvent, next: SaveEvent, merged: SaveEvent)
    requires PoolValid(p)
  {
    forall at :: Selects(p, merged, at) <==> Selects(p, prior, at) || Selects(p, next, at)
  }

  /** A merge preserves what is written exactly when no chunk lies in the seam. */
  lemma MergeExactIff(p: Pool, prior: SaveEvent, next: SaveEvent, merged: SaveEvent)
    requires PoolValid(p) && EventCovered(p, prior) && EventCovered(p, next)
    requires CanMerge(prior, next, BlockSizes(p)) && IsMerged(prior, next, merged)
    ensures MergeExact(p, prior, next, merged) <==> forall at :: !InSeam(p, prior, next, at)
  {
    forall at
      ensures Selects(p, merged, at) <==> Selects(p, prior, at) || Selects(p, next, at) || InSeam(p, prior, next, at)
      ensures InSeam(p, prior, next, at) ==> !Selects(p, prior, at) && !Selects(p, next, at)
    {
      MergedWrites(p, prior, next, merged, at);
    }
  }

  /** Aligned bounds leave no seam: then the merge preserves meaning, and its bounds are aligned again. */
  lemma AlignedMergeExact(p: Pool, prior: SaveEvent, next: SaveEvent, merged: SaveEvent)
    requires PoolValid(p) && EventCovered(p, prior) && EventCovered(p, next)
    requires CanMerge(prior, next, BlockSizes(p)) && IsMerged(prior, next, merged)
    requires Aligned(p, prior) && Aligned(p, next)
    ensures Aligned(p, merged) && MergeExact(p, prior, next, merged)
  {
    var n := ModZeroMultiple(prior.end, p.lcm);
    assert SavedTokens(p, prior) == prior.end;
    MergeExactIff(p, prior, next, merged);
  }

  /** The same for the items: under the same keys and from the same memory. */
  lemma AlignedMergeWrites(p: Pool, prior: SaveEvent, next: SaveEvent, merged: SaveEvent)
    requires PoolValid(p) && EventCovered(p, prior) && EventCovered(p, next)
    requires CanMerge(prior, next, BlockSizes(p)) && IsMerged(prior, next, merged)
    requires Aligned(p, prior) && Aligned(p, next)
    ensures Aligned(p, merged)
    ensures forall at, item :: ItemIs(p, merged, at, item) <==> ItemIs(p, prior, at, item) || ItemIs(p, next, at, item)
  {
    AlignedMergeExact(p, prior, next, merged);
    forall at, item
      ensures ItemIs(p, merged, at, item) <==> ItemIs(p, prior, at, item) || ItemIs(p, next, at, item)
    {
      MergedWrites(p, prior, next, merged, at);
    }
  }

  /** Without alignment a merge can write more than its parts: tokens [0,5) and [5,8) in blocks of four tokens. */
  lemma UnalignedMergeDiffers() returns (p: Pool, prior: SaveEvent, next: SaveEvent, merged: SaveEvent)
    ensures PoolValid(p) && EventCovered(p, prior) && EventCovered(p, next)
    ensures CanMerge(prior, next, BlockSizes(p)) && IsMerged(prior, next, merged)
    ensures !MergeExact(p, prior, next, merged)
  {
    p := Pool([Database(4, 4, [], [])], 4, None, 0, 1);
    var hashes: seq<Hash> := [[0], [1]];
    prior := SaveEvent(0, 5, hashes, [[7, 8]], None, NoEvent);
    next := SaveEvent(5, 8, hashes, [[7, 8]], None, NoEvent);
    merged := next.(start := 0);
    assert GroupValid(p, 0) && GroupCovered(p, prior, 0) && GroupCovered(p, next, 0);
    var at := Place(0, 1);
    assert ChunkCount(p.databases[0], hashes) == 2;
    assert Selects(p, merged, at);
    assert !Selects(p, prior, at) && !Selects(p, next, at);
  }

  // ---------------------------------------------------------------- a coalesced queue

  /** The pending work of a request writes this item for the chunk. */
  ghost predicate QueueWrites(p: Pool, queue: seq<SaveEvent>, at: Place, item: Item)
    requires PoolValid(p)
  {
    exists k :: 0 <= k < |queue| && ItemIs(p, queue[k], at, item)
  }

  /** The signals that some event of the queue waits for. */
  ghost predicate QueueAwaits(queue: seq<SaveEvent>, x: nat) {
    exists k :: 0 <= k < |queue| && x in Signals(queue[k].ready)
  }

  /** A submitted event is merged into the last pending one where possible, else appended. */
  function Push(sizes: seq<nat>, queue: seq<SaveEvent>, e: SaveEvent): seq<SaveEvent>
    requires forall g :: 0 <= g < |sizes| ==> sizes[g] > 0
  {
    var n := |queue| - 1;
    if queue != [] && CanMerge(queue[n], e, sizes) then queue[..n] + [Merged(queue[n], e)] else queue + [e]
  }

  ghost predicate QueueValid(p: Pool, queue: seq<SaveEvent>)
    requires PoolValid(p)
  {
    forall k :: 0 <= k < |queue| ==> EventCovered(p, queue[k]) && Aligned(p, queue[k])
  }

  /** Submitting adds to what the queue writes exactly what the event writes, merged or not. */
  lemma PushAdds(p: Pool, queue: seq<SaveEvent>, e: SaveEvent)
    requires PoolValid(p) && QueueValid(p, queue) && EventCovered(p, e) && Aligned(p, e)
    ensures var queue1 := Push(BlockSizes(p), queue, e);
            && QueueValid(p, queue1)
            && (forall at, item ::
                  QueueWrites(p, queue1, at, item) <==> QueueWrites(p, queue, at, item) || ItemIs(p, e, at, item))
            && forall x :: QueueAwaits(queue1, x) <==> QueueAwaits(queue, x) || x in Signals(e.ready)
  {
    var n := |queue| - 1;
    if queue != [] && CanMerge(queue[n], e, BlockSizes(p)) {
      var merged := Merged(queue[n], e);
      MergedCovered(p, queue[n], e, merged);
      AlignedMergeWrites(p, queue[n], e, merged);
      QueueSnoc(p, queue[..n], queue[n]);
      QueueSnoc(p, queue[..n], merged);
      assert queue == queue[..n] + [queue[n]];
    } else {
      QueueSnoc(p, queue, e);
    }
  }

  /** The pending queue after the events were submitted, with nothing taken off. */
  function Coalesce(sizes: seq<nat>, events: seq<SaveEvent>): seq<SaveEvent>
    requires forall g :: 0 <= g < |sizes| ==> sizes[g] > 0
  {
    if events == [] then []
    else Push(sizes, Coalesce(sizes, events[..|events| - 1]), events[|events| - 1])
  }

  /**
   Main result. However many events are coalesced, the queue writes what they write one by one, under the same keys and
   from the same memory, and waits for the same signals.
   */
  lemma {:induction false} CoalescingPreservesMeaning(p: Pool, events: seq<SaveEvent>)
    requires PoolValid(p) && QueueValid(p, events)
    ensures var queue := Coalesce(BlockSizes(p), events);
            && QueueValid(p, queue)
            && (forall at, item :: QueueWrites(p, queue, at, item) <==> QueueWrites(p, events, at, item))
            && forall x :: QueueAwaits(queue, x) <==> QueueAwaits(events, x)
  {
    if events != [] {
      var n := |events| - 1;
      QueuePrefix(p, events);
      CoalescingPreservesMeaning(p, events[..n]);
      PushAdds(p, Coalesce(BlockSizes(p), events[..n]), events[n]);
    }
  }

  lemma QueuePrefix(p: Pool, events: seq<SaveEvent>)
    requires PoolValid(p) && QueueValid(p, events) && events != []
    ensures var n := |events| - 1;
            && QueueValid(p, events[..n]) && EventCovered(p, events[n]) && Aligned(p, events[n])
            && (forall at, item :: QueueWrites(p, events, at, item)
                                   <==> QueueWrites(p, events[..n], at, item) || ItemIs(p, events[n], at, item))
            && forall x :: QueueAwaits(events, x) <==> QueueAwaits(events[..n], x) || x in Signals(events[n].ready)
  {
    var n := |events| - 1;
    QueueSnoc(p, events[..n], events[n]);
    assert events == events[..n] + [events[n]];
  }

  lemma QueueSnoc(p: Pool, queue: seq<SaveEvent>, e: SaveEvent)
    requires PoolValid(p)
    ensures forall at, item ::
              QueueWrites(p, queue + [e], at, item) <==> QueueWrites(p, queue, at, item) || ItemIs(p, e, at, item)
    ensures forall x :: QueueAwaits(queue + [e], x) <==> QueueAwaits(queue, x) || x in Signals(e.ready)
  {
    assert forall k :: 0 <= k < |queue| ==> (queue + [e])[k] == queue[k];
    assert (queue + [e])[|queue|] == e;
  }
}
