/** PUT striping: each chunk is saved once for every rank that a lookup asks for. */
module StripedSaves {
  import opened Arithmetic
  import opened Common
  import opened StoreKeys
  import C = Chunks
  import E = SaveEvents
  import L = Lookup
  import HS = HitSearch
  import T = Topology

  /** The event covers the chunk: it lies in a whole segment of the range, has a hash, and the template wants it. */
  predicate Admitted(p: E.Pool, e: E.SaveEvent, at: E.Place)
    requires E.PoolValid(p)
  {
    && at.group < |p.databases|
    && var db := p.databases[at.group];
    assert E.GroupValid(p, at.group);
    && e.start <= at.chunk * db.blockSize && (at.chunk * db.blockSize / p.lcm + 1) * p.lcm <= e.end
    && at.chunk < C.ChunkCount(db, e.hashes) && Wanted(p, at)
  }

  /** The template repeats from segment to segment. */
  predicate Wanted(p: E.Pool, at: E.Place)
    requires E.PoolValid(p) && at.group < |p.databases|
  {
    p.template.Some? ==>
      var segment := p.template.value[at.group];
      assert E.GroupValid(p, at.group);
      segment != [] && segment[at.chunk % |segment|]
  }

  // ---------------------------------------------------------------- one worker

  lemma WholeSegment(x: nat, end: nat, lcm: nat)
    requires lcm > 0
    ensures x < end / lcm * lcm <==> (x / lcm + 1) * lcm <= end
  {
    var n, q := end / lcm, x / lcm;
    if x < n * lcm {
      MulCancel(q, n, lcm);
      MulMonotone(q + 1, n, lcm);
    } else {
      MulCancel(n, q + 1, lcm);
      MulMonotone(n + 1, q + 1, lcm);
    }
  }

  lemma {:induction false} RepeatAt(t: seq<bool>, n: nat, i: nat)
    requires i < n * |t|
    ensures t != [] && E.Repeat(t, n)[i] == t[i % |t|]
  {
    MulNext(n - 1, |t|);
    if i < |t| {
      DivUnique(i, |t|, 0);
    } else {
      RepeatAt(t, n - 1, i - |t|);
      ModShift(i - |t|, |t|);
    }
  }

  /** The store mask wants exactly what the template wants. */
  lemma MaskAt(p: E.Pool, tokens: nat, at: E.Place)
    requires E.PoolValid(p) && at.group < |p.databases| && tokens % p.lcm == 0
    requires E.GroupValid(p, at.group) && at.chunk * p.databases[at.group].blockSize < tokens
    ensures at.chunk < |E.StoreMask(p, tokens, at.group)|
    ensures E.StoreMask(p, tokens, at.group)[at.chunk] <==> Wanted(p, at)
  {
    var size := p.databases[at.group].blockSize;
    E.MaskLength(p, tokens, at.group);
    E.MasksAgree(p, tokens, tokens, at.group);
    var n := ModZeroMultiple(tokens, p.lcm);
    var k := ModZeroMultiple(p.lcm, size);
    assert tokens == (n * k) * size;
    MultipleModZero(n * k, size);
    MulCancel(at.chunk, tokens / size, size);
    if p.template.Some? {
      RepeatAt(p.template.value[at.group], tokens / p.lcm, at.chunk);
    }
  }

  /** A worker writes what the event covers whenever it is its turn. */
  lemma SelectsInTurn(p: E.Pool, e: E.SaveEvent, at: E.Place)
    requires E.PoolValid(p)
    ensures E.Selects(p, e, at) <==>
              Admitted(p, e, at) && at.chunk % p.putStep == (p.tpRank + at.group) % p.putStep
  {
    if at.group < |p.databases| {
      assert E.GroupValid(p, at.group);
      WholeSegment(at.chunk * p.databases[at.group].blockSize, e.end, p.lcm);
      if at.chunk * p.databases[at.group].blockSize < E.SavedTokens(p, e) {
        MaskAt(p, E.SavedTokens(p, e), at);
      }
    }
  }

  /** What it writes is what `SaveEvents.SelectItems` lists. */
  lemma ListedIffSelected(p: E.Pool, e: E.SaveEvent, places: seq<E.Place>, items: seq<E.Item>, at: E.Place)
    requires E.PoolValid(p) && E.Collected(p, e, places, items, |p.databases|)
    ensures E.Selects(p, e, at) <==> exists k :: 0 <= k < |items| && places[k] == at && E.ItemIs(p, e, at, items[k])
  {
    if E.Selects(p, e, at) {
      assert at in places;
      var k :| 0 <= k < |places| && places[k] == at;
      assert E.ItemIs(p, e, places[k], items[k]);
    }
  }

  // ---------------------------------------------------------------- all workers

  /** Pools that differ only in their memory and rank. */
  predicate Alike(p: E.Pool, q: E.Pool) {
    && q.lcm == p.lcm && q.template == p.template && |q.databases| == |p.databases|
    && forall g :: 0 <= g < |p.databases| ==>
         q.databases[g].blockSize == p.databases[g].blockSize && q.databases[g].hashSize == p.databases[g].hashSize
  }

  /** The pool of worker `w`, as its constructor sets it up. */
  predicate PoolOf(c: Layout, p: E.Pool, w: Worker, q: E.Pool)
    requires LayoutValid(c)
  {
    E.PoolValid(q) && Alike(p, q) && q.tpRank == w.tp && q.putStep == PutStep(c)
  }

  ghost predicate PoolsOf(c: Layout, p: E.Pool, pools: Worker -> E.Pool)
    requires LayoutValid(c)
  {
    E.PoolValid(p) && forall w :: IsWorker(c, w) ==> PoolOf(c, p, w, pools(w))
  }

  lemma SelectsIsWrites(c: Layout, p: E.Pool, w: Worker, q: E.Pool, e: E.SaveEvent, at: E.Place)
    requires LayoutValid(c) && E.PoolValid(p) && PoolOf(c, p, w, q)
    ensures E.Selects(q, e, at) <==> Admitted(p, e, at) && Writes(c, w, at.group, at.chunk)
  {
    SelectsInTurn(q, e, at);
    assert Admitted(q, e, at) <==> Admitted(p, e, at);
  }

  /**
   Main result. For every rank that a lookup asks for, exactly one worker saves a chunk that the event covers under the
   metadata of that rank.
   */
  lemma SavedByExactlyOne(c: Layout, model: string, p: E.Pool, pools: Worker -> E.Pool, e: E.SaveEvent, at: E.Place,
                          m: KeyMetadata) returns (w: Worker)
    requires LayoutValid(c) && PoolsOf(c, p, pools) && Admitted(p, e, at) && IsLookupMetadata(c, model, at.group, m)
    ensures IsWorker(c, w) && WorkerMetadata(c, model, w, at.group) == m && E.Selects(pools(w), e, at)
    ensures forall v :: IsWorker(c, v) && WorkerMetadata(c, model, v, at.group) == m && E.Selects(pools(v), e, at)
                        ==> v == w
  {
    w := StripedOnce(c, model, m, at.chunk);
    SelectsIsWrites(c, p, w, pools(w), e, at);
    forall v | IsWorker(c, v) && WorkerMetadata(c, model, v, at.group) == m && E.Selects(pools(v), e, at)
      ensures v == w
    {
      SelectsIsWrites(c, p, v, pools(v), e, at);
    }
  }

  /** No worker saves a chunk that the event does not cover. */
  lemma NothingElseSaved(c: Layout, p: E.Pool, pools: Worker -> E.Pool, e: E.SaveEvent, at: E.Place, w: Worker)
    requires LayoutValid(c) && PoolsOf(c, p, pools) && IsWorker(c, w) && E.Selects(pools(w), e, at)
    ensures Admitted(p, e, at)
  {
    SelectsIsWrites(c, p, w, pools(w), e, at);
  }

  /** Workers that share their keys hold the same heads, so that it does not matter which of them writes. */
  lemma SameKeysSameShard(c: Layout, model: string, v: Worker, w: Worker, group: nat)
    requires LayoutValid(c) && IsWorker(c, v) && IsWorker(c, w)
    requires WorkerMetadata(c, model, v, group) == WorkerMetadata(c, model, w, group)
    requires T.EffectiveTp(c.tp, c.heads, false).Success?
    ensures var shards := T.EffectiveTp(c.tp, c.heads, false).value;
            T.ShardOf(v.tp, c.tp, shards) == T.ShardOf(w.tp, c.tp, shards)
  {
  }

  // ---------------------------------------------------------------- what is saved is found

  /** Every worker has stored what the event makes it write. */
  ghost predicate Stored(c: Layout, model: string, pools: Worker -> E.Pool, e: E.SaveEvent, stored: set<string>)
    requires LayoutValid(c) && forall w :: IsWorker(c, w) ==> E.PoolValid(pools(w))
  {
    forall w, at :: IsWorker(c, w) && E.Selects(pools(w), e, at) ==> StoredBy(c, model, w, pools(w), e, at, stored)
  }

  ghost predicate StoredBy(c: Layout, model: string, w: Worker, q: E.Pool, e: E.SaveEvent, at: E.Place,
                           stored: set<string>)
    requires LayoutValid(c) && E.PoolValid(q) && E.Selects(q, e, at)
  {
    assert E.GroupValid(q, at.group);
    BlockName(WorkerMetadata(c, model, w, at.group), C.ChunkHash(q.databases[at.group], e.hashes, at.chunk)) in stored
  }

  /** A chunk that the event covers is then held by all ranks that a lookup asks for. */
  lemma SavedIsHeld(c: Layout, model: string, p: E.Pool, pools: Worker -> E.Pool, e: E.SaveEvent, at: E.Place,
                    stored: set<string>, m: KeyMetadata)
    requires LayoutValid(c) && PoolsOf(c, p, pools) && Stored(c, model, pools, e, stored) && Admitted(p, e, at)
    requires IsLookupMetadata(c, model, at.group, m)
    ensures E.GroupValid(p, at.group)
    ensures BlockName(m, C.ChunkHash(p.databases[at.group], e.hashes, at.chunk)) in stored
  {
    var w := SavedByExactlyOne(c, model, p, pools, e, at, m);
    WrittenName(c, model, p, w, pools(w), e, at, stored);
  }

  lemma WrittenName(c: Layout, model: string, p: E.Pool, w: Worker, q: E.Pool, e: E.SaveEvent, at: E.Place,
                    stored: set<string>)
    requires LayoutValid(c) && E.PoolValid(p) && PoolOf(c, p, w, q) && E.Selects(q, e, at)
    requires StoredBy(c, model, w, q, e, at, stored)
    ensures Admitted(p, e, at) && E.GroupValid(p, at.group)
    ensures BlockName(WorkerMetadata(c, model, w, at.group),
                      C.ChunkHash(p.databases[at.group], e.hashes, at.chunk)) in stored
  {
    SelectsIsWrites(c, p, w, q, e, at);
    assert E.GroupValid(p, at.group) && E.GroupValid(q, at.group);
    SameHash(p.databases[at.group], q.databases[at.group], e.hashes, at.chunk);
  }

  lemma SameHash(a: C.Database, b: C.Database, hashes: seq<C.Hash>, i: nat)
    requires C.DatabaseValid(a) && C.DatabaseValid(b) && a.blockSize == b.blockSize && a.hashSize == b.hashSize
    requires i < C.ChunkCount(a, hashes)
    ensures i < C.ChunkCount(b, hashes) && C.ChunkHash(a, hashes, i) == C.ChunkHash(b, hashes, i)
  {
  }

  /** The event saves whole chunks only, and its hashes reach its end. */
  predicate SavesWhole(p: E.Pool, e: E.SaveEvent)
    requires E.PoolValid(p)
  {
    e.end % p.lcm == 0 && forall g :: 0 <= g < |p.databases| ==> |e.hashes| * p.databases[g].hashSize >= e.end
  }

  /** Successive saves of one request, from its first token on. */
  ghost predicate Successive(p: E.Pool, events: seq<E.SaveEvent>, hashes: seq<C.Hash>)
    requires E.PoolValid(p)
  {
    Adjacent(events) && forall k :: 0 <= k < |events| ==> SavesWhole(p, events[k]) && events[k].hashes <= hashes
  }

  ghost predicate Adjacent(events: seq<E.SaveEvent>) {
    && (events != [] ==> events[0].start == 0)
    && forall i, j :: 0 <= i < j < |events| && j == i + 1 ==> events[j].start == events[i].end
  }

  function SavedEnd(events: seq<E.SaveEvent>): nat {
    if events == [] then 0 else events[|events| - 1].end
  }

  /** Each token below the end was saved by one of them. */
  lemma {:induction false} SavedBySome(events: seq<E.SaveEvent>, x: nat) returns (k: nat)
    requires Adjacent(events) && x < SavedEnd(events)
    ensures k < |events| && events[k].start <= x < events[k].end
  {
    k := |events| - 1;
    if x < events[k].start {
      assert events[k].start == events[k - 1].end;
      k := SavedBySome(events[..k], x);
    }
  }

  /** No template leaves anything out. */
  ghost predicate WantsAll(p: E.Pool)
    requires E.PoolValid(p)
  {
    forall at: E.Place :: at.group < |p.databases| ==> Wanted(p, at)
  }

  lemma CoveredChunk(p: E.Pool, e: E.SaveEvent, at: E.Place)
    requires E.PoolValid(p) && WantsAll(p) && SavesWhole(p, e) && at.group < |p.databases|
    requires e.start <= at.chunk * p.databases[at.group].blockSize < e.end
    ensures Admitted(p, e, at)
  {
    assert E.GroupValid(p, at.group);
    var size := p.databases[at.group].blockSize;
    var n := ModZeroMultiple(e.end, p.lcm);
    var k := ModZeroMultiple(p.lcm, size);
    assert e.end == (n * k) * size;
    MulCancel(at.chunk, n * k, size);
    MulMonotone(at.chunk + 1, n * k, size);
    WholeSegment(at.chunk * size, e.end, p.lcm);
    C.ChunksCover(p.databases[at.group], e.hashes, e.end, at.chunk);
  }

  /** A chunk below the end of the saves counts as present in a lookup that asks for it. */
  lemma SavedIsPresent(c: Layout, model: string, p: E.Pool, pools: Worker -> E.Pool, events: seq<E.SaveEvent>,
                       hashes: seq<C.Hash>, stored: set<string>, tokenCount: nat, present: set<L.Candidate>, g: nat,
                       i: nat)
    requires LayoutValid(c) && PoolsOf(c, p, pools) && WantsAll(p) && Successive(p, events, hashes)
    requires forall e :: e in events ==> Stored(c, model, pools, e, stored)
    requires L.DatabasesValid(p.databases)
    requires L.PresentIs(c, model, p.databases, tokenCount, hashes, stored, present)
    requires g < |p.databases| && i * p.databases[g].blockSize < Min(SavedEnd(events), tokenCount)
    ensures i < C.ChunkCount(p.databases[g], hashes)
    ensures L.Candidate(g, C.ChunkHash(p.databases[g], hashes, i)) in present
  {
    var k := SavedBySome(events, i * p.databases[g].blockSize);
    var e, at := events[k], E.Place(g, i);
    CoveredChunk(p, e, at);
    C.ChunksStable(p.databases[g], e.hashes, hashes, i);
    var hash := C.ChunkHash(p.databases[g], hashes, i);
    assert L.Asked(p.databases[g], tokenCount, hashes, i, hash);
    forall m | IsLookupMetadata(c, model, g, m)
      ensures BlockName(m, hash) in stored
    {
      SavedIsHeld(c, model, p, pools, e, at, stored, m);
    }
  }

  /** All groups have full attention; `valid` are the lengths that they can use. */
  ghost predicate AllFull(p: E.Pool, hashes: seq<C.Hash>, present: set<L.Candidate>, groups: seq<L.Attention>,
                          valid: seq<iset<nat>>)
    requires E.PoolValid(p) && L.DatabasesValid(p.databases)
  {
    |valid| == |groups| && forall k :: 0 <= k < |groups| ==>
      && groups[k].full && L.AttentionValid(p.databases, groups[k], p.lcm)
      && valid[k] == L.ValidLengths(p.databases, hashes, groups[k], p.lcm, present, iset{})
  }

  /** A length below which every chunk of every group is present is one that all groups can use. */
  lemma UsableLength(p: E.Pool, hashes: seq<C.Hash>, present: set<L.Candidate>, groups: seq<L.Attention>,
                     valid: seq<iset<nat>>, l: nat)
    requires E.PoolValid(p) && L.DatabasesValid(p.databases) && AllFull(p, hashes, present, groups, valid)
    requires forall g: nat :: g < |p.databases| ==> L.FullHit(p.databases[g], hashes, g, present, l)
    requires l % p.lcm == 0
    ensures HS.ValidForAll(valid, l)
  {
  }

  /**
   Main result. After all workers have saved a request up to some token, with nothing left out by a template, a lookup
   of a request that starts with the same hashes finds a hit that reaches every aligned length up to that token.
   */
  lemma SavedIsFound(c: Layout, model: string, p: E.Pool, pools: Worker -> E.Pool, events: seq<E.SaveEvent>,
                     hashes: seq<C.Hash>, stored: set<string>, tokenCount: nat, present: set<L.Candidate>,
                     groups: seq<L.Attention>, valid: seq<iset<nat>>, hit: nat, l: nat)
    requires LayoutValid(c) && PoolsOf(c, p, pools) && WantsAll(p) && Successive(p, events, hashes)
    requires forall e :: e in events ==> Stored(c, model, pools, e, stored)
    requires L.DatabasesValid(p.databases)
    requires L.PresentIs(c, model, p.databases, tokenCount, hashes, stored, present)
    requires AllFull(p, hashes, present, groups, valid) && HS.GreatestCommon(valid, tokenCount, hit)
    requires l % p.lcm == 0 && l <= Min(SavedEnd(events), tokenCount)
    ensures hit >= l
  {
    forall g: nat | g < |p.databases|
      ensures L.FullHit(p.databases[g], hashes, g, present, l)
    {
      forall i: nat | i * p.databases[g].blockSize < l
        ensures i < C.ChunkCount(p.databases[g], hashes)
        ensures L.Candidate(g, C.ChunkHash(p.databases[g], hashes, i)) in present
      {
        SavedIsPresent(c, model, p, pools, events, hashes, stored, tokenCount, present, g, i);
      }
    }
    UsableLength(p, hashes, present, groups, valid, l);
  }
}
