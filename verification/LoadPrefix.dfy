/**
 Loading from the Store: which blocks are requested, how far the load got, and which blocks must not be trusted.
 `start` is the local prefix L, `end` the looked-up hit H, and the result the loaded prefix A.
 */
module LoadPrefix {
  import opened Arithmetic
  import opened Common
  import opened Chunks

  datatype LoadEvent = LoadEvent(start: nat, end: nat, hashes: seq<Hash>, blocks: seq<seq<int>>)

  datatype LoadOutcome = LoadOutcome(loaded: nat, error: bool, invalid: set<int>)

  /** What `_validate` and the registered layout guarantee. */
  predicate LoadValid(dbs: seq<Database>, e: LoadEvent) {
    && e.start <= e.end && |e.blocks| == |dbs|
    && forall g :: 0 <= g < |dbs| ==> DatabaseValid(dbs[g])
  }

  /** Block index `i` of group `g` is in the range of the load, and the block table has it. */
  predicate Requested(dbs: seq<Database>, e: LoadEvent, g: nat, i: int)
    requires LoadValid(dbs, e)
  {
    g < |dbs| && CeilDiv(e.start, dbs[g].blockSize) <= i < CeilDiv(e.end, dbs[g].blockSize) && 0 <= i < |e.blocks[g]|
  }

  predicate FailedAt(dbs: seq<Database>, e: LoadEvent, failed: set<int>, g: nat, i: int)
    requires LoadValid(dbs, e)
  {
    Requested(dbs, e, g, i) && e.blocks[g][i] in failed
  }

  /** `A` is the least start of a failed block of the range, or H. */
  ghost predicate IsLoadedPrefix(dbs: seq<Database>, e: LoadEvent, failed: set<int>, actual: int, groups: nat)
    requires LoadValid(dbs, e) && groups <= |dbs|
  {
    && e.start <= actual <= e.end
    && (forall g: nat, i :: g < groups && FailedAt(dbs, e, failed, g, i) ==> actual <= i * dbs[g].blockSize)
    && (actual == e.end
        || exists g: nat, i :: g < groups && FailedAt(dbs, e, failed, g, i) && actual == i * dbs[g].blockSize)
  }

  lemma FailedStart(dbs: seq<Database>, e: LoadEvent, failed: set<int>, g: nat, i: int)
    requires LoadValid(dbs, e) && FailedAt(dbs, e, failed, g, i)
    ensures e.start <= i * dbs[g].blockSize < e.end
  {
    CeilDivIff(e.start, dbs[g].blockSize, i);
    CeilDivIff(e.end, dbs[g].blockSize, i);
  }

  /** `_loaded_prefix`. */
  method LoadedPrefix(dbs: seq<Database>, e: LoadEvent, failed: set<int>) returns (actual: nat)
    requires LoadValid(dbs, e)
    ensures IsLoadedPrefix(dbs, e, failed, actual, |dbs|)
  {
    var least: int := e.end;
    for g := 0 to |dbs|
      invariant IsLoadedPrefix(dbs, e, failed, least, g)
    {
      var size := dbs[g].blockSize;
      var i, end := CeilDiv(e.start, size), Min(CeilDiv(e.end, size), |e.blocks[g]|);
      CeilDivIff(e.start, size, -1);
      while i < end && e.blocks[g][i] !in failed
        invariant 0 <= CeilDiv(e.start, size) <= i
        invariant forall j :: CeilDiv(e.start, size) <= j < i && j < end ==> e.blocks[g][j] !in failed
      {
        i := i + 1;
      }
      if i < end {
        assert FailedAt(dbs, e, failed, g, i);
        FailedStart(dbs, e, failed, g, i);
        FirstFailed(dbs, e, failed, g, i, least);
        least := Min(least, i * size);
      } else {
        assert forall j :: !FailedAt(dbs, e, failed, g, j);
      }
    }
    actual := Max(e.start, least);
  }

  /** The first failed block of a group bounds the prefix for the whole group. */
  lemma FirstFailed(dbs: seq<Database>, e: LoadEvent, failed: set<int>, g: nat, i: int, least: int)
    requires LoadValid(dbs, e) && g < |dbs| && IsLoadedPrefix(dbs, e, failed, least, g)
    requires FailedAt(dbs, e, failed, g, i)
    requires forall j :: CeilDiv(e.start, dbs[g].blockSize) <= j < i ==> !FailedAt(dbs, e, failed, g, j)
    ensures IsLoadedPrefix(dbs, e, failed, Min(least, i * dbs[g].blockSize), g + 1)
  {
    FailedStart(dbs, e, failed, g, i);
    forall j | FailedAt(dbs, e, failed, g, j)
      ensures i * dbs[g].blockSize <= j * dbs[g].blockSize
    {
      MulMonotone(i, j, dbs[g].blockSize);
    }
  }

  // ---------------------------------------------------------------- untrusted blocks

  /** `ids[lo:hi]` with bounds clamped to the list. */
  function Slice(ids: seq<int>, lo: int, hi: int): seq<int> {
    var from, to := Max(0, Min(lo, |ids|)), Max(0, Min(hi, |ids|));
    if from <= to then ids[from..to] else []
  }

  /** The blocks that `_range_blocks` lists for all groups. */
  function RangeBlocks(dbs: seq<Database>, e: LoadEvent, start: nat, end: nat): set<int>
    requires LoadValid(dbs, e)
  {
    set g, b | 0 <= g < |dbs|
               && b in Slice(e.blocks[g], CeilDiv(start, dbs[g].blockSize), CeilDiv(end, dbs[g].blockSize))
               && b >= 0 :: b
  }

  lemma SliceMember(ids: seq<int>, lo: int, hi: int, b: int)
    requires 0 <= lo
    ensures b in Slice(ids, lo, hi) <==> exists i :: lo <= i < hi && i < |ids| && ids[i] == b
  {
    if i :| lo <= i < hi && i < |ids| && ids[i] == b {
      assert Slice(ids, lo, hi)[i - lo] == b;
    }
  }

  /** A block is listed exactly when it is real and its index is in the range of its group. */
  lemma RangeBlocksMember(dbs: seq<Database>, e: LoadEvent, start: nat, b: int)
    requires LoadValid(dbs, e) && e.start <= start
    ensures b in RangeBlocks(dbs, e, start, e.end) <==>
              b >= 0 && exists g: nat, i :: Requested(dbs, e, g, i) && CeilDiv(start, dbs[g].blockSize) <= i
                                            && e.blocks[g][i] == b
  {
    forall g: nat | g < |dbs|
      ensures b in Slice(e.blocks[g], CeilDiv(start, dbs[g].blockSize), CeilDiv(e.end, dbs[g].blockSize)) <==>
                exists i :: Requested(dbs, e, g, i) && CeilDiv(start, dbs[g].blockSize) <= i && e.blocks[g][i] == b
    {
      CeilDivIff(e.start, dbs[g].blockSize, -1);
      CeilDivMonotone(e.start, start, dbs[g].blockSize);
      SliceMember(e.blocks[g], CeilDiv(start, dbs[g].blockSize), CeilDiv(e.end, dbs[g].blockSize), b);
    }
  }

  lemma RequestedIsListed(dbs: seq<Database>, e: LoadEvent, start: nat, g: nat, i: int)
    requires LoadValid(dbs, e) && e.start <= start && Requested(dbs, e, g, i)
    requires CeilDiv(start, dbs[g].blockSize) <= i && e.blocks[g][i] >= 0
    ensures e.blocks[g][i] in RangeBlocks(dbs, e, start, e.end)
  {
    RangeBlocksMember(dbs, e, start, e.blocks[g][i]);
  }

  /**
   Main result. Below the loaded prefix nothing failed, and every failed block of the range is reported as invalid.
   */
  lemma PrefixIsClean(dbs: seq<Database>, e: LoadEvent, failed: set<int>, actual: nat, g: nat, i: int)
    requires LoadValid(dbs, e) && IsLoadedPrefix(dbs, e, failed, actual, |dbs|) && Requested(dbs, e, g, i)
    ensures i < CeilDiv(actual, dbs[g].blockSize) ==> e.blocks[g][i] !in failed
    ensures e.blocks[g][i] in failed && e.blocks[g][i] >= 0 ==>
              e.blocks[g][i] in RangeBlocks(dbs, e, actual, e.end)
  {
    CeilDivIff(actual, dbs[g].blockSize, i);
    if e.blocks[g][i] in failed {
      assert FailedAt(dbs, e, failed, g, i);
      if e.blocks[g][i] >= 0 {
        RequestedIsListed(dbs, e, actual, g, i);
      }
    }
  }

  /** `_request_load_blocks`: everything that was asked for. */
  method RequestLoadBlocks(dbs: seq<Database>, e: LoadEvent) returns (result: set<int>)
    requires LoadValid(dbs, e)
    ensures result == RangeBlocks(dbs, e, e.start, e.end)
  {
    result := {};
    for g := 0 to |dbs|
      invariant forall b :: b in result <==>
                  b >= 0 && exists h: nat, i :: h < g && Requested(dbs, e, h, i) && e.blocks[h][i] == b
    {
      var size := dbs[g].blockSize;
      CeilDivIff(e.start, size, -1);
      CeilDivMonotone(e.start, e.end, size);
      var ids := Slice(e.blocks[g], CeilDiv(e.start, size), Min(CeilDiv(e.end, size), |e.blocks[g]|));
      forall b
        ensures b in ids <==> exists i :: Requested(dbs, e, g, i) && e.blocks[g][i] == b
      {
        SliceMember(e.blocks[g], CeilDiv(e.start, size), Min(CeilDiv(e.end, size), |e.blocks[g]|), b);
      }
      result := result + set b | b in ids && b >= 0;
    }
    forall b
      ensures b in result <==> b in RangeBlocks(dbs, e, e.start, e.end)
    {
      RangeBlocksMember(dbs, e, e.start, b);
    }
  }

  // ---------------------------------------------------------------- loading

  /** A chunk that is fetched, and the block it goes to. */
  datatype Fetch = Fetch(group: nat, chunk: nat, hash: Hash, block: int)

  /** `_load` fetches the chunk: it is in the range, has a hash, and the load mask of its group has it. */
  predicate Fetched(dbs: seq<Database>, e: LoadEvent, masks: seq<seq<bool>>, g: nat, i: nat)
    requires LoadValid(dbs, e) && |masks| == |dbs|
  {
    && g < |dbs| && e.start <= i * dbs[g].blockSize < e.end && i < ChunkCount(dbs[g], e.hashes)
    && i < |masks[g]| && masks[g][i]
  }

  /** `prepare_value` can be called: the block exists, and the chunk is not cut off by the end of the range. */
  predicate Preparable(dbs: seq<Database>, e: LoadEvent, g: nat, i: nat)
    requires LoadValid(dbs, e) && g < |dbs|
  {
    i < |e.blocks[g]| && (i + 1) * dbs[g].blockSize <= e.end
  }

  ghost predicate FetchesAre(dbs: seq<Database>, e: LoadEvent, masks: seq<seq<bool>>, fetches: seq<Fetch>, groups: nat)
    requires LoadValid(dbs, e) && |masks| == |dbs|
  {
    && (forall f :: f in fetches ==>
      && Fetched(dbs, e, masks, f.group, f.chunk) && Preparable(dbs, e, f.group, f.chunk)
      && f.block == e.blocks[f.group][f.chunk] && f.hash == ChunkHash(dbs[f.group], e.hashes, f.chunk))
    && forall g: nat, i: nat :: g < groups && Fetched(dbs, e, masks, g, i) ==>
      exists f :: f in fetches && f.group == g && f.chunk == i
  }

  /** The keys and buffers that `_load` hands to the Store; nothing is returned for an exception. */
  method PlanFetches(dbs: seq<Database>, e: LoadEvent, masks: seq<seq<bool>>) returns (fetches: Option<seq<Fetch>>)
    requires LoadValid(dbs, e) && |masks| == |dbs|
    ensures fetches.Some? ==> FetchesAre(dbs, e, masks, fetches.value, |dbs|)
    ensures fetches.None? <==> Unpreparable(dbs, e, masks)
  {
    var list: seq<Fetch> := [];
    for g := 0 to |dbs|
      invariant FetchesAre(dbs, e, masks, list, g)
    {
      var chunks := ProcessTokens(dbs[g], e.end, e.hashes, e.start, None, 1, 0);
      var more := PlanGroup(dbs, e, masks, g, chunks);
      if more.None? {
        return None;
      }
      FetchesJoin(dbs, e, masks, list, more.value, g);
      list := list + more.value;
    }
    fetches := Some(list);
  }

  method PlanGroup(dbs: seq<Database>, e: LoadEvent, masks: seq<seq<bool>>, g: nat, chunks: seq<nat>)
    returns (fetches: Option<seq<Fetch>>)
    requires LoadValid(dbs, e) && |masks| == |dbs| && g < |dbs|
    requires forall c: nat :: c in chunks <==>
               Taken(dbs[g], e.end, e.hashes, e.start, None, 1, 0, c)
    ensures fetches.Some? ==> FetchesOf(dbs, e, masks, fetches.value, g)
    ensures fetches.None? ==> exists i: nat :: Fetched(dbs, e, masks, g, i) && !Preparable(dbs, e, g, i)
  {
    var list: seq<Fetch> := [];
    for k := 0 to |chunks|
      invariant forall f :: f in list ==> FetchValid(dbs, e, masks, f) && f.group == g
      invariant forall c: nat :: c in chunks[..k] && Fetched(dbs, e, masks, g, c) ==>
                  exists f :: f in list && f.group == g && f.chunk == c
    {
      var c := chunks[k];
      assert c in chunks && chunks[..k + 1] == chunks[..k] + [c];
      if c < |masks[g]| && masks[g][c] {
        if c >= |e.blocks[g]| || (c + 1) * dbs[g].blockSize > e.end {
          assert Fetched(dbs, e, masks, g, c) && !Preparable(dbs, e, g, c);
          return None;
        }
        var fetch := Fetch(g, c, ChunkHash(dbs[g], e.hashes, c), e.blocks[g][c]);
        assert fetch in list + [fetch];
        forall d: nat | d in chunks[..k] && Fetched(dbs, e, masks, g, d)
          ensures exists f :: f in list + [fetch] && f.group == g && f.chunk == d
        {
          var f :| f in list && f.group == g && f.chunk == d;
          assert f in list + [fetch];
        }
        list := list + [fetch];
      }
    }
    assert chunks[..|chunks|] == chunks;
    fetches := Some(list);
  }

  ghost predicate FetchValid(dbs: seq<Database>, e: LoadEvent, masks: seq<seq<bool>>, f: Fetch)
    requires LoadValid(dbs, e) && |masks| == |dbs|
  {
    && Fetched(dbs, e, masks, f.group, f.chunk) && Preparable(dbs, e, f.group, f.chunk)
    && f.block == e.blocks[f.group][f.chunk] && f.hash == ChunkHash(dbs[f.group], e.hashes, f.chunk)
  }

  ghost predicate FetchesOf(dbs: seq<Database>, e: LoadEvent, masks: seq<seq<bool>>, fetches: seq<Fetch>, g: nat)
    requires LoadValid(dbs, e) && |masks| == |dbs|
  {
    && (forall f :: f in fetches ==> FetchValid(dbs, e, masks, f) && f.group == g)
    && forall i: nat :: Fetched(dbs, e, masks, g, i) ==> exists f :: f in fetches && f.group == g && f.chunk == i
  }

  lemma FetchesJoin(dbs: seq<Database>, e: LoadEvent, masks: seq<seq<bool>>, a: seq<Fetch>, b: seq<Fetch>, g: nat)
    requires LoadValid(dbs, e) && |masks| == |dbs| && FetchesAre(dbs, e, masks, a, g) && FetchesOf(dbs, e, masks, b, g)
    ensures FetchesAre(dbs, e, masks, a + b, g + 1)
  {
    forall h: nat, i: nat | h < g + 1 && Fetched(dbs, e, masks, h, i)
      ensures exists f :: f in a + b && f.group == h && f.chunk == i
    {
      if h < g {
        var f :| f in a && f.group == h && f.chunk == i;
        assert f in a + b;
      } else {
        var f :| f in b && f.group == h && f.chunk == i;
        assert f in a + b;
      }
    }
  }

  /** The reply of the Store: one status per key, or an exception. */
  type Reply = Option<seq<int>>

  /** `_load` after the keys are known: a negative status fails its block, an unusable reply fails them all. */
  method FailedFetches(fetches: seq<Fetch>, reply: Reply) returns (failed: set<int>)
    ensures reply.Some? && |reply.value| == |fetches| ==>
              forall b :: b in failed <==> exists k :: 0 <= k < |fetches| && fetches[k].block == b && reply.value[k] < 0
    ensures reply.None? || |reply.value| != |fetches| ==> failed == set f | f in fetches :: f.block
  {
    if reply.None? || |reply.value| != |fetches| {
      return set f | f in fetches :: f.block;
    }
    failed := {};
    for k := 0 to |fetches|
      invariant forall b :: b in failed <==>
                  exists j :: 0 <= j < k && fetches[j].block == b && reply.value[j] < 0
    {
      if reply.value[k] < 0 {
        failed := failed + {fetches[k].block};
      }
    }
  }

  /** Some chunk to be fetched has no block, or is cut off: `_load` raises before it calls the Store. */
  ghost predicate Unpreparable(dbs: seq<Database>, e: LoadEvent, masks: seq<seq<bool>>)
    requires LoadValid(dbs, e) && |masks| == |dbs|
  {
    exists g: nat, i: nat :: Fetched(dbs, e, masks, g, i) && !Preparable(dbs, e, g, i)
  }

  /** Which blocks count as failed: the negative statuses, or everything asked for. */
  ghost predicate FailuresAre(dbs: seq<Database>, e: LoadEvent, masks: seq<seq<bool>>, reply: Reply,
                              fetches: seq<Fetch>, failed: set<int>)
    requires LoadValid(dbs, e) && |masks| == |dbs|
  {
    if Unpreparable(dbs, e, masks) then failed == RangeBlocks(dbs, e, e.start, e.end)
    else
      && FetchesAre(dbs, e, masks, fetches, |dbs|)
      && if reply.Some? && |reply.value| == |fetches| then
           forall b :: b in failed <==> exists k :: 0 <= k < |fetches| && fetches[k].block == b && reply.value[k] < 0
         else failed == set f | f in fetches :: f.block
  }

  /** The Store delivered the chunk into its block. */
  ghost predicate Delivered(fetches: seq<Fetch>, reply: Reply, g: nat, i: nat) {
    && reply.Some? && |reply.value| == |fetches|
    && exists k :: 0 <= k < |fetches| && fetches[k].group == g && fetches[k].chunk == i && reply.value[k] >= 0
  }

  /** A chunk to be fetched is one of the requested blocks, if the block table has it. */
  lemma FetchedIsRequested(dbs: seq<Database>, e: LoadEvent, masks: seq<seq<bool>>, g: nat, i: nat)
    requires LoadValid(dbs, e) && |masks| == |dbs| && Fetched(dbs, e, masks, g, i) && i < |e.blocks[g]|
    ensures Requested(dbs, e, g, i)
  {
    CeilDivIff(e.start, dbs[g].blockSize, i);
    CeilDivIff(e.end, dbs[g].blockSize, i);
  }

  /** What was fetched below the loaded prefix did not fail. */
  lemma CleanIsDelivered(dbs: seq<Database>, e: LoadEvent, masks: seq<seq<bool>>, fetches: seq<Fetch>, reply: Reply,
                         failed: set<int>, actual: nat, g: nat, i: nat)
    requires LoadValid(dbs, e) && |masks| == |dbs| && FetchesAre(dbs, e, masks, fetches, |dbs|)
    requires IsLoadedPrefix(dbs, e, failed, actual, |dbs|)
    requires reply.Some? && |reply.value| == |fetches| ==>
               forall b :: b in failed <==>
                 exists k :: 0 <= k < |fetches| && fetches[k].block == b && reply.value[k] < 0
    requires reply.None? || |reply.value| != |fetches| ==> failed == set f | f in fetches :: f.block
    requires Fetched(dbs, e, masks, g, i) && i < CeilDiv(actual, dbs[g].blockSize)
    ensures Delivered(fetches, reply, g, i)
  {
    var f :| f in fetches && f.group == g && f.chunk == i;
    FetchedIsRequested(dbs, e, masks, g, i);
    PrefixIsClean(dbs, e, failed, actual, g, i);
    assert f.block !in failed;
    var k :| 0 <= k < |fetches| && fetches[k] == f;
  }

  /** When everything counts as failed, only blocks that are not real lie below the loaded prefix. */
  lemma AllFailed(dbs: seq<Database>, e: LoadEvent, masks: seq<seq<bool>>, failed: set<int>, actual: nat, g: nat,
                  i: nat)
    requires LoadValid(dbs, e) && |masks| == |dbs| && failed == RangeBlocks(dbs, e, e.start, e.end)
    requires IsLoadedPrefix(dbs, e, failed, actual, |dbs|)
    requires Fetched(dbs, e, masks, g, i) && i < CeilDiv(actual, dbs[g].blockSize)
    ensures !(i < |e.blocks[g]| && e.blocks[g][i] >= 0)
  {
    if i < |e.blocks[g]| && e.blocks[g][i] >= 0 {
      FetchedIsRequested(dbs, e, masks, g, i);
      RequestedIsListed(dbs, e, e.start, g, i);
      PrefixIsClean(dbs, e, failed, actual, g, i);
    }
  }

  lemma NothingBeyondEnd(dbs: seq<Database>, e: LoadEvent)
    requires LoadValid(dbs, e)
    ensures RangeBlocks(dbs, e, e.end, e.end) == {}
  {
    forall b
      ensures b !in RangeBlocks(dbs, e, e.end, e.end)
    {
      RangeBlocksMember(dbs, e, e.end, b);
    }
  }

  /** `_load` with its exceptions caught: the failed blocks. */
  method LoadFailures(dbs: seq<Database>, e: LoadEvent, masks: seq<seq<bool>>, reply: Reply)
    returns (failed: set<int>, raised: bool, fetches: seq<Fetch>)
    requires LoadValid(dbs, e) && |masks| == |dbs|
    ensures raised <==> Unpreparable(dbs, e, masks)
    ensures FailuresAre(dbs, e, masks, reply, fetches, failed)
    ensures forall actual: nat, g: nat, i: nat ::
              IsLoadedPrefix(dbs, e, failed, actual, |dbs|) && Fetched(dbs, e, masks, g, i)
              && i < CeilDiv(actual, dbs[g].blockSize) ==>
                Delivered(fetches, reply, g, i) || !(i < |e.blocks[g]| && e.blocks[g][i] >= 0)
  {
    fetches := [];
    var plan := PlanFetches(dbs, e, masks);
    raised := plan.None?;
    if raised {
      failed := RequestLoadBlocks(dbs, e);
      forall actual: nat, g: nat, i: nat | IsLoadedPrefix(dbs, e, failed, actual, |dbs|)
                                           && Fetched(dbs, e, masks, g, i) && i < CeilDiv(actual, dbs[g].blockSize)
        ensures !(i < |e.blocks[g]| && e.blocks[g][i] >= 0)
      {
        AllFailed(dbs, e, masks, failed, actual, g, i);
      }
    } else {
      fetches := plan.value;
      failed := FailedFetches(fetches, reply);
      forall actual: nat, g: nat, i: nat | IsLoadedPrefix(dbs, e, failed, actual, |dbs|)
                                           && Fetched(dbs, e, masks, g, i) && i < CeilDiv(actual, dbs[g].blockSize)
        ensures Delivered(fetches, reply, g, i)
      {
        CleanIsDelivered(dbs, e, masks, fetches, reply, failed, actual, g, i);
      }
    }
  }

  /**
   `_load_work`. Whatever the Store does, every chunk to be fetched below the loaded prefix was delivered into its
   block, and the real blocks of the range at or above it are reported, none of them if there is no error.
   */
  method LoadWork(dbs: seq<Database>, e: LoadEvent, masks: seq<seq<bool>>, reply: Reply)
    returns (outcome: LoadOutcome, fetches: seq<Fetch>, ghost failed: set<int>)
    requires LoadValid(dbs, e) && |masks| == |dbs|
    ensures FailuresAre(dbs, e, masks, reply, fetches, failed)
    ensures IsLoadedPrefix(dbs, e, failed, outcome.loaded, |dbs|)
    ensures outcome.error <==> Unpreparable(dbs, e, masks) || failed != {}
    ensures outcome.invalid == RangeBlocks(dbs, e, outcome.loaded, e.end)
    ensures !outcome.error ==> outcome.loaded == e.end && outcome.invalid == {}
    ensures forall g: nat, i: nat :: Fetched(dbs, e, masks, g, i) && i < CeilDiv(outcome.loaded, dbs[g].blockSize) ==>
              Delivered(fetches, reply, g, i) || !(i < |e.blocks[g]| && e.blocks[g][i] >= 0)
  {
    var bad, raised;
    bad, raised, fetches := LoadFailures(dbs, e, masks, reply);
    failed := bad;
    var actual := LoadedPrefix(dbs, e, bad);
    NothingBeyondEnd(dbs, e);
    outcome := LoadOutcome(actual, raised || bad != {}, RangeBlocks(dbs, e, actual, e.end));
  }
}
