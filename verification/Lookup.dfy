/**
 Looking up the Store: which chunks count as present, and what a hit promises to every worker that loads it.
 */
module Lookup {
  import opened Arithmetic
  import opened Common
  import opened StoreKeys
  import C = Chunks
  import HS = HitSearch

  /** A chunk hash of a group. */
  datatype Candidate = Candidate(group: nat, hash: C.Hash)

  /** All ranks of the group hold the chunk. */
  ghost predicate HeldByAll(metadata: seq<seq<KeyMetadata>>, stored: set<string>, c: Candidate) {
    && c.group < |metadata|
    && forall r :: 0 <= r < |metadata[c.group]| ==> BlockName(metadata[c.group][r], c.hash) in stored
  }

  /** Every group lists the same number of ranks. */
  predicate SameRanks(metadata: seq<seq<KeyMetadata>>, ranks: nat) {
    forall g :: 0 <= g < |metadata| ==> |metadata[g]| == ranks
  }

  /** Key `index * ranks + rank` is the name of candidate `index` for that rank. */
  ghost predicate KeysAre(metadata: seq<seq<KeyMetadata>>, ranks: nat, candidates: seq<Candidate>, keys: seq<string>)
    requires SameRanks(metadata, ranks)
  {
    && |keys| == |candidates| * ranks
    && forall k, r :: 0 <= k < |candidates| && 0 <= r < ranks ==> KeyIs(metadata, ranks, candidates[k], k, r, keys)
  }

  ghost predicate KeyIs(metadata: seq<seq<KeyMetadata>>, ranks: nat, c: Candidate, k: nat, r: nat, keys: seq<string>) {
    && k * ranks + r < |keys| && c.group < |metadata| && r < |metadata[c.group]|
    && keys[k * ranks + r] == BlockName(metadata[c.group][r], c.hash)
  }

  /** The keys of all candidates, rank by rank. */
  method BuildKeys(metadata: seq<seq<KeyMetadata>>, ranks: nat, candidates: seq<Candidate>) returns (keys: seq<string>)
    requires SameRanks(metadata, ranks) && forall c :: c in candidates ==> c.group < |metadata|
    ensures KeysAre(metadata, ranks, candidates, keys)
  {
    keys := [];
    for k := 0 to |candidates|
      invariant KeysAre(metadata, ranks, candidates[..k], keys)
    {
      assert candidates[k] in candidates;
      var c := candidates[k];
      ghost var before := keys;
      for r := 0 to ranks
        invariant |keys| == k * ranks + r && before <= keys
        invariant forall q :: 0 <= q < r ==> KeyIs(metadata, ranks, c, k, q, keys)
      {
        ghost var shorter := keys;
        keys := keys + [BlockName(metadata[c.group][r], c.hash)];
        forall q | 0 <= q < r + 1
          ensures KeyIs(metadata, ranks, c, k, q, keys)
        {
          assert q < r ==> KeyIs(metadata, ranks, c, k, q, shorter);
        }
      }
      KeysExtended(metadata, ranks, candidates, k, before, keys);
    }
    assert candidates[..|candidates|] == candidates;
  }

  lemma KeysExtended(metadata: seq<seq<KeyMetadata>>, ranks: nat, candidates: seq<Candidate>, k: nat,
                     before: seq<string>, keys: seq<string>)
    requires SameRanks(metadata, ranks) && k < |candidates| && KeysAre(metadata, ranks, candidates[..k], before)
    requires before <= keys && |keys| == k * ranks + ranks
    requires forall q :: 0 <= q < ranks ==> KeyIs(metadata, ranks, candidates[k], k, q, keys)
    ensures KeysAre(metadata, ranks, candidates[..k + 1], keys)
  {
    assert (k + 1) * ranks == k * ranks + ranks;
    forall j, r | 0 <= j < k + 1 && 0 <= r < ranks
      ensures KeyIs(metadata, ranks, candidates[j], j, r, keys)
    {
      if j < k {
        assert KeyIs(metadata, ranks, candidates[..k][j], j, r, before);
      }
    }
  }

  /** The Store's answer: 1 for a key it holds. */
  function Exist(stored: set<string>, keys: seq<string>): (status: seq<int>)
    ensures |status| == |keys| && forall i :: 0 <= i < |status| ==> status[i] == if keys[i] in stored then 1 else 0
  {
    seq(|keys|, i requires 0 <= i < |keys| => if keys[i] in stored then 1 else 0)
  }

  /** The candidates of `lookup` that all ranks hold. */
  method Present(metadata: seq<seq<KeyMetadata>>, ranks: nat, candidates: seq<Candidate>, stored: set<string>)
    returns (present: set<Candidate>)
    requires SameRanks(metadata, ranks) && forall c :: c in candidates ==> c.group < |metadata|
    ensures forall c :: c in present <==> c in candidates && HeldByAll(metadata, stored, c)
  {
    var keys := BuildKeys(metadata, ranks, candidates);
    var status := Exist(stored, keys);
    present := {};
    for k := 0 to |candidates|
      invariant forall c :: c in present <==> c in candidates[..k] && HeldByAll(metadata, stored, c)
    {
      var all := true;
      assert candidates[k] in candidates;
      for r := 0 to ranks
        invariant all <==> forall q :: 0 <= q < r ==>
                    BlockName(metadata[candidates[k].group][q], candidates[k].hash) in stored
      {
        assert KeyIs(metadata, ranks, candidates[k], k, r, keys);
        all := all && status[k * ranks + r] == 1;
      }
      assert candidates[..k + 1] == candidates[..k] + [candidates[k]];
      if all {
        present := present + {candidates[k]};
      }
    }
    assert candidates[..|candidates|] == candidates;
  }

  /** The chunks of all groups that `lookup` asks for, without a lookup mask. */
  method Candidates(dbs: seq<C.Database>, tokenCount: nat, hashes: seq<C.Hash>) returns (candidates: seq<Candidate>)
    requires forall g :: 0 <= g < |dbs| ==> C.DatabaseValid(dbs[g])
    ensures forall c :: c in candidates <==>
              c.group < |dbs| && exists i: nat :: Asked(dbs[c.group], tokenCount, hashes, i, c.hash)
  {
    candidates := [];
    for g := 0 to |dbs|
      invariant forall c :: c in candidates <==>
                  c.group < g && exists i: nat :: Asked(dbs[c.group], tokenCount, hashes, i, c.hash)
    {
      var limit := Min(C.ChunkCount(dbs[g], hashes), CeilDiv(tokenCount, dbs[g].blockSize));
      CeilDivIff(tokenCount, dbs[g].blockSize, -1);
      for i := 0 to limit
        invariant forall c :: c in candidates <==>
                    (c.group < g && exists j: nat :: Asked(dbs[c.group], tokenCount, hashes, j, c.hash))
                    || (c.group == g && exists j: nat :: j < i && Asked(dbs[g], tokenCount, hashes, j, c.hash))
      {
        CeilDivIff(tokenCount, dbs[g].blockSize, i);
        var hash := C.ChunkHash(dbs[g], hashes, i);
        assert Asked(dbs[g], tokenCount, hashes, i, hash);
        candidates := candidates + [Candidate(g, hash)];
      }
      forall j: nat, hash | Asked(dbs[g], tokenCount, hashes, j, hash)
        ensures j < limit
      {
        CeilDivIff(tokenCount, dbs[g].blockSize, j);
      }
    }
  }

  /** Chunk `i` starts below the token count and has this hash. */
  predicate Asked(db: C.Database, tokenCount: nat, hashes: seq<C.Hash>, i: nat, hash: C.Hash)
    requires C.DatabaseValid(db)
  {
    i < C.ChunkCount(db, hashes) && i * db.blockSize < tokenCount && hash == C.ChunkHash(db, hashes, i)
  }

  /** A length a full attention group can use: every chunk below it is present. */
  ghost predicate FullHit(db: C.Database, hashes: seq<C.Hash>, g: nat, present: set<Candidate>, hit: nat)
    requires C.DatabaseValid(db)
  {
    forall i: nat :: i * db.blockSize < hit ==>
      i < C.ChunkCount(db, hashes) && Candidate(g, C.ChunkHash(db, hashes, i)) in present
  }

  /**
   Main result. If the lookup found a hit for a full attention group, every worker of the topology finds under its own
   keys every chunk below the hit, as long as the Store is unchanged.
   */
  lemma HitIsLoadable(c: Layout, model: string, w: Worker, db: C.Database, hashes: seq<C.Hash>, g: nat,
                      metadata: seq<seq<KeyMetadata>>, stored: set<string>, present: set<Candidate>, hit: nat, i: nat)
    requires LayoutValid(c) && IsWorker(c, w) && C.DatabaseValid(db)
    requires g < |metadata| && forall m :: IsLookupMetadata(c, model, g, m) ==> m in metadata[g]
    requires forall x :: x in present ==> HeldByAll(metadata, stored, x)
    requires FullHit(db, hashes, g, present, hit) && i * db.blockSize < hit
    ensures i < C.ChunkCount(db, hashes)
    ensures BlockName(WorkerMetadata(c, model, w, g), C.ChunkHash(db, hashes, i)) in stored
  {
    WorkersAreLookedUp(c, model, w, g);
    var x := Candidate(g, C.ChunkHash(db, hashes, i));
    assert x in present && HeldByAll(metadata, stored, x);
    var r :| 0 <= r < |metadata[g]| && metadata[g][r] == WorkerMetadata(c, model, w, g);
  }

  /** `_init_lookup_metadata`: the ranks of one group. */
  method LookupMetadata(c: Layout, model: string, g: nat) returns (ranks: seq<KeyMetadata>)
    requires LayoutValid(c)
    ensures forall m :: m in ranks <==> IsLookupMetadata(c, model, g, m)
    ensures NoDuplicates(ranks) && |ranks| == c.pcp * LookupTp(c) * c.pp
  {
    ranks := [];
    var tps := LookupTp(c);
    for pcp := 0 to c.pcp
      invariant forall m :: m in ranks <==> IsLookupMetadata(c, model, g, m) && m.pcpRank < pcp
      invariant NoDuplicates(ranks) && |ranks| == pcp * tps * c.pp
    {
      for tp := 0 to tps
        invariant forall m :: m in ranks <==>
                    IsLookupMetadata(c, model, g, m) && (m.pcpRank < pcp || (m.pcpRank == pcp && m.tpRank < tp))
        invariant NoDuplicates(ranks) && |ranks| == pcp * tps * c.pp + tp * c.pp
      {
        var dcp := if c.dcp > 1 then tp % c.dcp else 0;
        for pp := 0 to c.pp
          invariant forall m :: m in ranks <==>
                      IsLookupMetadata(c, model, g, m)
                      && (m.pcpRank < pcp
                          || (m.pcpRank == pcp && (m.tpRank < tp || (m.tpRank == tp && m.ppRank < pp))))
          invariant NoDuplicates(ranks) && |ranks| == pcp * tps * c.pp + tp * c.pp + pp
        {
          var m := KeyMetadata(model, tp, pcp, dcp, pp, g);
          assert m !in ranks;
          assert forall i :: 0 <= i < |ranks| ==> ranks[i] in ranks;
          ranks := ranks + [m];
        }
        assert (tp + 1) * c.pp == tp * c.pp + c.pp;
      }
      assert (pcp + 1) * tps * c.pp == pcp * tps * c.pp + tps * c.pp;
    }
  }

  // ---------------------------------------------------------------- from the Store's answer to the hit

  /**
   An attention group of the coordinator: the KV groups with one spec. `longest` is the answer of its manager for the
   present chunks within a bound.
   */
  datatype Attention = Attention(full: bool, blockSize: nat, ids: seq<nat>, longest: (set<Candidate>, nat) -> nat)

  predicate DatabasesValid(dbs: seq<C.Database>) {
    forall g :: 0 <= g < |dbs| ==> C.DatabaseValid(dbs[g])
  }

  predicate AttentionValid(dbs: seq<C.Database>, a: Attention, alignment: nat) {
    && a.blockSize > 0 && alignment > 0 && alignment % a.blockSize == 0
    && forall g :: g in a.ids ==> g < |dbs| && dbs[g].blockSize == a.blockSize
  }

  /** The present chunks let every KV group of a full attention group use the first `hit` tokens. */
  ghost predicate UsableByAll(dbs: seq<C.Database>, hashes: seq<C.Hash>, ids: seq<nat>, present: set<Candidate>,
                              hit: nat)
    requires DatabasesValid(dbs)
  {
    forall g :: g in ids ==> g < |dbs| && FullHit(dbs[g], hashes, g, present, hit)
  }

  /** Lengths that a group can use; `other` are those of a group without full attention. */
  ghost function ValidLengths(dbs: seq<C.Database>, hashes: seq<C.Hash>, a: Attention, alignment: nat,
                              present: set<Candidate>, other: iset<nat>): iset<nat>
    requires DatabasesValid(dbs) && alignment > 0
  {
    if a.full then iset l: nat | l % alignment == 0 && UsableByAll(dbs, hashes, a.ids, present, l) else other
  }

  /** What is assumed of a manager: whatever is present, its answer is the greatest aligned length it can use. */
  ghost predicate Answers(a: Attention, alignment: nat, present: set<Candidate>, valid: iset<nat>)
    requires alignment > 0
  {
    && (forall l :: l in valid ==> l % alignment == 0)
    && (forall bound: nat :: a.longest(present, bound) in valid && a.longest(present, bound) <= bound)
    && forall bound: nat, l: nat :: l in valid && l <= bound ==> l <= a.longest(present, bound)
  }

  function ManagerOf(a: Attention, present: set<Candidate>): HS.AttentionGroup {
    HS.AttentionGroup(a.full, a.blockSize, bound => a.longest(present, bound))
  }

  /** Full attention can use any aligned part of what it can use, so that the search may ask it only once. */
  lemma FullIsDownwardClosed(dbs: seq<C.Database>, hashes: seq<C.Hash>, a: Attention, alignment: nat,
                             present: set<Candidate>, other: iset<nat>)
    requires DatabasesValid(dbs) && AttentionValid(dbs, a, alignment)
    requires Answers(a, alignment, present, ValidLengths(dbs, hashes, a, alignment, present, other))
    ensures HS.Contract(ManagerOf(a, present), ValidLengths(dbs, hashes, a, alignment, present, other), alignment)
  {
    var valid := ValidLengths(dbs, hashes, a, alignment, present, other);
    forall l: nat, m: nat | a.full && l in valid && m <= l && m % alignment == 0
      ensures m in valid
    {
      forall g | g in a.ids
        ensures g < |dbs| && FullHit(dbs[g], hashes, g, present, m)
      {
        assert FullHit(dbs[g], hashes, g, present, l);
      }
    }
  }

  ghost function Greatest(valid: iset<nat>, bound: nat): (l: nat)
    requires 0 in valid
    ensures l in valid && l <= bound && forall m: nat :: m in valid && m <= bound ==> m <= l
  {
    if bound in valid then bound else Greatest(valid, bound - 1)
  }

  /** The assumption about managers can be met: there is always a greatest length for full attention. */
  lemma ManagersExist(dbs: seq<C.Database>, hashes: seq<C.Hash>, blockSize: nat, ids: seq<nat>, alignment: nat)
    returns (a: Attention)
    requires DatabasesValid(dbs) && alignment > 0 && forall g :: g in ids ==> g < |dbs|
    ensures a.full && a.blockSize == blockSize && a.ids == ids
    ensures forall x, other :: Answers(a, alignment, x, ValidLengths(dbs, hashes, a, alignment, x, other))
  {
    var lengths := (x: set<Candidate>) =>
      iset l: nat | l % alignment == 0 && UsableByAll(dbs, hashes, ids, x, l);
    forall x
      ensures 0 in lengths(x)
    {
      forall g | g in ids
        ensures FullHit(dbs[g], hashes, g, x, 0)
      {
        assert forall i: nat :: i * dbs[g].blockSize >= 0;
      }
    }
    a := Attention(true, blockSize, ids, (x, bound) => Greatest(lengths(x), bound));
    forall x, other
      ensures Answers(a, alignment, x, ValidLengths(dbs, hashes, a, alignment, x, other))
    {
      assert ValidLengths(dbs, hashes, a, alignment, x, other) == lengths(x);
    }
  }

  /** The ranks of every group. */
  ghost predicate MetadataIs(c: Layout, model: string, metadata: seq<seq<KeyMetadata>>) {
    forall g, m :: 0 <= g < |metadata| ==> (m in metadata[g] <==> IsLookupMetadata(c, model, g, m))
  }

  method AllMetadata(c: Layout, model: string, groups: nat) returns (metadata: seq<seq<KeyMetadata>>, ranks: nat)
    requires LayoutValid(c)
    ensures |metadata| == groups && MetadataIs(c, model, metadata) && SameRanks(metadata, ranks)
  {
    metadata, ranks := [], c.pcp * LookupTp(c) * c.pp;
    for g := 0 to groups
      invariant |metadata| == g && MetadataIs(c, model, metadata) && SameRanks(metadata, ranks)
    {
      var list := LookupMetadata(c, model, g);
      metadata := metadata + [list];
    }
  }

  /** Every worker finds under its own keys every chunk of group `g` below `hit`. */
  ghost predicate Loadable(c: Layout, model: string, dbs: seq<C.Database>, hashes: seq<C.Hash>, stored: set<string>,
                           g: nat, hit: nat)
    requires LayoutValid(c) && DatabasesValid(dbs) && g < |dbs|
  {
    forall w, i: nat :: IsWorker(c, w) && i * dbs[g].blockSize < hit ==>
      && i < C.ChunkCount(dbs[g], hashes)
      && BlockName(WorkerMetadata(c, model, w, g), C.ChunkHash(dbs[g], hashes, i)) in stored
  }

  /** The chunks that count as present: asked for, and held by all ranks. */
  ghost predicate PresentIs(c: Layout, model: string, dbs: seq<C.Database>, tokenCount: nat, hashes: seq<C.Hash>,
                            stored: set<string>, present: set<Candidate>)
    requires DatabasesValid(dbs)
  {
    forall x :: x in present <==>
      && x.group < |dbs| && (exists i: nat :: Asked(dbs[x.group], tokenCount, hashes, i, x.hash))
      && forall m :: IsLookupMetadata(c, model, x.group, m) ==> BlockName(m, x.hash) in stored
  }

  lemma HeldMeans(c: Layout, model: string, metadata: seq<seq<KeyMetadata>>, stored: set<string>, x: Candidate)
    requires MetadataIs(c, model, metadata) && x.group < |metadata|
    ensures HeldByAll(metadata, stored, x) <==>
              forall m :: IsLookupMetadata(c, model, x.group, m) ==> BlockName(m, x.hash) in stored
  {
    var list := metadata[x.group];
    if HeldByAll(metadata, stored, x) {
      forall m | IsLookupMetadata(c, model, x.group, m)
        ensures BlockName(m, x.hash) in stored
      {
        assert m in list;
        var r :| 0 <= r < |list| && list[r] == m;
      }
    } else {
      var r :| 0 <= r < |list| && BlockName(list[r], x.hash) !in stored;
      assert list[r] in list;
    }
  }

  /**
   Main result. `lookup`: what it finds is the greatest length that all attention groups can use with the chunks present
   in the Store, and every worker can load it: it finds under its own keys every chunk of every full attention group
   below the hit, as long as the Store is unchanged. `usable(k, present)` are the lengths that group k can use if it has
   no full attention.
   */
  method Lookup(c: Layout, model: string, dbs: seq<C.Database>, groups: seq<Attention>, lcm: nat, tokenCount: nat,
                hashes: seq<C.Hash>, stored: set<string>, ghost usable: (nat, set<Candidate>) -> iset<nat>)
    returns (hit: nat, ghost present: set<Candidate>, ghost valid: seq<iset<nat>>)
    requires LayoutValid(c) && DatabasesValid(dbs) && lcm > 0 && groups != []
    requires |groups| == 1 ==> lcm == groups[0].blockSize
    requires forall k :: 0 <= k < |groups| ==> AttentionValid(dbs, groups[k], lcm)
    requires forall k: nat, x :: k < |groups| ==>
               Answers(groups[k], lcm, x, ValidLengths(dbs, hashes, groups[k], lcm, x, usable(k, x)))
    ensures PresentIs(c, model, dbs, tokenCount, hashes, stored, present)
    ensures |valid| == |groups| && forall k :: 0 <= k < |groups| ==>
              valid[k] == ValidLengths(dbs, hashes, groups[k], lcm, present, usable(k, present))
    ensures hit == 0 || HS.GreatestCommon(valid, tokenCount, hit)
    ensures present != {} ==> HS.GreatestCommon(valid, tokenCount, hit)
    ensures forall k, g :: 0 <= k < |groups| && groups[k].full && g in groups[k].ids ==>
              g < |dbs| && Loadable(c, model, dbs, hashes, stored, g, hit)
  {
    var metadata, ranks := AllMetadata(c, model, |dbs|);
    var candidates := Candidates(dbs, tokenCount, hashes);
    var found := Present(metadata, ranks, candidates, stored);
    present := found;
    forall x: Candidate
      ensures x.group < |dbs| ==>
                (HeldByAll(metadata, stored, x) <==>
                 forall m :: IsLookupMetadata(c, model, x.group, m) ==> BlockName(m, x.hash) in stored)
    {
      if x.group < |dbs| {
        HeldMeans(c, model, metadata, stored, x);
      }
    }
    valid := seq(|groups|, k requires 0 <= k < |groups| =>
      ValidLengths(dbs, hashes, groups[k], lcm, present, usable(k, present)));
    if candidates == [] {
      hit := 0;
      return;
    }
    var managers := seq(|groups|, k requires 0 <= k < |groups| => ManagerOf(groups[k], found));
    forall k | 0 <= k < |groups|
      ensures HS.Contract(managers[k], valid[k], lcm)
    {
      FullIsDownwardClosed(dbs, hashes, groups[k], lcm, found, usable(k, found));
    }
    if |groups| == 1 {
      hit := HS.FindSingle(managers[0], valid[0], lcm, tokenCount);
      assert valid == [valid[0]];
    } else {
      hit := HS.FindHit(managers, valid, lcm, tokenCount, |groups| == 2 && groups[0].full);
    }
    forall k | 0 <= k < |groups| && groups[k].full
      ensures UsableByAll(dbs, hashes, groups[k].ids, found, hit)
    {
      assert hit in valid[k];
    }
    HitLoadable(c, model, dbs, hashes, groups, metadata, stored, found, hit);
  }

  lemma HitLoadable(c: Layout, model: string, dbs: seq<C.Database>, hashes: seq<C.Hash>, groups: seq<Attention>,
                    metadata: seq<seq<KeyMetadata>>, stored: set<string>, present: set<Candidate>, hit: nat)
    requires LayoutValid(c) && DatabasesValid(dbs) && |metadata| == |dbs| && MetadataIs(c, model, metadata)
    requires forall x :: x in present ==> HeldByAll(metadata, stored, x)
    requires forall k :: 0 <= k < |groups| && groups[k].full ==> UsableByAll(dbs, hashes, groups[k].ids, present, hit)
    ensures forall k, g :: 0 <= k < |groups| && groups[k].full && g in groups[k].ids ==>
              g < |dbs| && Loadable(c, model, dbs, hashes, stored, g, hit)
  {
    forall k, g | 0 <= k < |groups| && groups[k].full && g in groups[k].ids
      ensures g < |dbs| && Loadable(c, model, dbs, hashes, stored, g, hit)
    {
      assert FullHit(dbs[g], hashes, g, present, hit);
      forall w, i: nat | IsWorker(c, w) && i * dbs[g].blockSize < hit
        ensures i < C.ChunkCount(dbs[g], hashes)
        ensures BlockName(WorkerMetadata(c, model, w, g), C.ChunkHash(dbs[g], hashes, i)) in stored
      {
        HitIsLoadable(c, model, w, dbs[g], hashes, g, metadata, stored, present, hit, i);
      }
    }
  }
}
