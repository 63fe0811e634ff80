/** The token database of a KV cache group: chunks of tokens, their Store hashes and their memory. */
module Chunks {
  import opened Arithmetic
  import opened Common
  import opened StoreKeys

  type Hash = seq<Byte>

  /** `blockSize` and `hashSize` are in tokens; region k has base `bases[k]` and `blockLens[k]` bytes a block. */
  datatype Database = Database(blockSize: nat, hashSize: nat, bases: seq<int>, blockLens: seq<nat>)

  predicate DatabaseValid(db: Database) {
    db.blockSize > 0 && db.hashSize > 0 && db.blockSize % db.hashSize == 0 && (db.bases != [] ==> db.blockLens != [])
  }

  /** Hashes of the token stream that make up one chunk of the group. */
  function Ratio(db: Database): (r: nat)
    requires DatabaseValid(db)
    ensures r > 0 && r * db.hashSize == db.blockSize
  {
    db.blockSize / db.hashSize
  }

  function ChunkCount(db: Database, hashes: seq<Hash>): (n: nat)
    requires DatabaseValid(db)
    ensures n * Ratio(db) <= |hashes| < (n + 1) * Ratio(db)
  {
    |hashes| / Ratio(db)
  }

  function Concat(hashes: seq<Hash>): Hash {
    if hashes == [] then [] else hashes[0] + Concat(hashes[1..])
  }

  /** The hash of chunk `i`: its share of the token hashes, joined. */
  function ChunkHash(db: Database, hashes: seq<Hash>, i: nat): Hash
    requires DatabaseValid(db) && i < ChunkCount(db, hashes)
  {
    Concat(Share(db, hashes, i))
  }

  lemma ChunkInside(db: Database, hashes: seq<Hash>, i: nat)
    requires DatabaseValid(db) && i < ChunkCount(db, hashes)
    ensures i * Ratio(db) + Ratio(db) <= |hashes|
  {
    SlotsApart(i, ChunkCount(db, hashes), Ratio(db));
  }

  /** Token hashes of one length can be told from their join. */
  lemma {:induction false} ConcatInjective(a: seq<Hash>, b: seq<Hash>, width: nat)
    requires |a| == |b| && Concat(a) == Concat(b)
    requires (forall h :: h in a ==> |h| == width) && forall h :: h in b ==> |h| == width
    ensures a == b
  {
    if a != [] {
      assert a[0] == Concat(a)[..width] && b[0] == Concat(b)[..width];
      assert Concat(a[1..]) == Concat(a)[width..] && Concat(b[1..]) == Concat(b)[width..];
      ConcatInjective(a[1..], b[1..], width);
      assert a == [a[0]] + a[1..] && b == [b[0]] + b[1..];
    }
  }

  lemma ConcatIff(a: seq<Hash>, b: seq<Hash>, width: nat)
    requires |a| == |b| && (forall h :: h in a ==> |h| == width) && forall h :: h in b ==> |h| == width
    ensures Concat(a) == Concat(b) <==> a == b
  {
    if Concat(a) == Concat(b) {
      ConcatInjective(a, b, width);
    }
  }

  function Slice(hashes: seq<Hash>, first: nat, count: nat): (r: seq<Hash>)
    requires first + count <= |hashes|
    ensures |r| == count && forall k :: 0 <= k < count ==> r[k] == hashes[first + k]
  {
    hashes[first..first + count]
  }

  /** The token hashes of chunk `i`. */
  function Share(db: Database, hashes: seq<Hash>, i: nat): (r: seq<Hash>)
    requires DatabaseValid(db) && i < ChunkCount(db, hashes)
    ensures |r| == Ratio(db) && forall h :: h in r ==> h in hashes
  {
    ChunkInside(db, hashes, i);
    Slice(hashes, i * Ratio(db), Ratio(db))
  }

  /** Chunks have the same hash exactly if they have the same token hashes. */
  lemma ChunkHashesDiffer(db: Database, a: seq<Hash>, b: seq<Hash>, i: nat, j: nat, width: nat)
    requires DatabaseValid(db) && i < ChunkCount(db, a) && j < ChunkCount(db, b)
    requires (forall h :: h in a ==> |h| == width) && forall h :: h in b ==> |h| == width
    ensures ChunkHash(db, a, i) == ChunkHash(db, b, j) <==> Share(db, a, i) == Share(db, b, j)
  {
    ConcatIff(Share(db, a, i), Share(db, b, j), width);
  }

  /** A chunk of one token hash has that hash. */
  lemma SingleHash(db: Database, hashes: seq<Hash>, i: nat)
    requires DatabaseValid(db) && i < ChunkCount(db, hashes) && Ratio(db) == 1
    ensures i < |hashes| && ChunkHash(db, hashes, i) == hashes[i]
  {
    ChunkInside(db, hashes, i);
    var x := Share(db, hashes, i);
    assert i * 1 == i && x == [hashes[i]];
    assert x[1..] == [] && Concat(x) == hashes[i] + Concat([]);
  }

  /** More hashes leave the earlier chunks as they are. */
  lemma ChunksStable(db: Database, hashes: seq<Hash>, more: seq<Hash>, i: nat)
    requires DatabaseValid(db) && i < ChunkCount(db, hashes) && hashes <= more
    ensures i < ChunkCount(db, more) && ChunkHash(db, more, i) == ChunkHash(db, hashes, i)
  {
    var r := Ratio(db);
    ChunkInside(db, hashes, i);
    if ChunkCount(db, more) <= i {
      MulMonotone(ChunkCount(db, more) + 1, i + 1, r);
    }
    assert more[i * r..i * r + r] == hashes[i * r..i * r + r];
  }

  /** Hashes that reach `tokens` include every chunk below it. */
  lemma ChunksCover(db: Database, hashes: seq<Hash>, tokens: nat, i: nat)
    requires DatabaseValid(db) && |hashes| * db.hashSize >= tokens && (i + 1) * db.blockSize <= tokens
    ensures i < ChunkCount(db, hashes)
  {
    var r, n := Ratio(db), ChunkCount(db, hashes);
    assert ((i + 1) * r) * db.hashSize == (i + 1) * db.blockSize;
    assert (|hashes| + 1) * db.hashSize == |hashes| * db.hashSize + db.hashSize;
    MulCancel((i + 1) * r, |hashes| + 1, db.hashSize);
    MulCancel(i + 1, n + 1, r);
  }

  /** `prepare_value` for one full chunk in the block `block`. */
  function Addresses(db: Database, block: int): seq<int>
    requires DatabaseValid(db)
  {
    seq(|db.bases|, k requires 0 <= k < |db.bases| => db.bases[k] + block * db.blockLens[k % |db.blockLens|])
  }

  function Sizes(db: Database): seq<nat>
    requires DatabaseValid(db)
  {
    seq(|db.bases|, k requires 0 <= k < |db.bases| => db.blockLens[k % |db.blockLens|])
  }

  /**
   In every region the blocks lie one after the other from its base on, each as long as the sizes say; regions without a
   length of their own share those of the first regions in turn.
   */
  lemma BlocksTile(db: Database, block: int, k: nat)
    requires DatabaseValid(db) && k < |db.bases|
    ensures |Addresses(db, block)| == |Sizes(db)| == |db.bases|
    ensures Addresses(db, 0)[k] == db.bases[k]
    ensures Addresses(db, block + 1)[k] == Addresses(db, block)[k] + Sizes(db)[k]
    ensures k < |db.blockLens| ==> Sizes(db)[k] == db.blockLens[k]
    ensures k + |db.blockLens| < |db.bases| ==> Sizes(db)[k + |db.blockLens|] == Sizes(db)[k]
  {
    var n := |db.blockLens|;
    MulNext(block, db.blockLens[k % n]);
    ModShift(k, n);
    if k < n {
      DivUnique(k, n, 0);
    }
  }

  /** `_process_tokens` takes chunk `i`: it starts in the range, the mask has it, and it is this rank's turn. */
  predicate Taken(db: Database, tokenCount: nat, hashes: seq<Hash>, startToken: nat, mask: Option<seq<bool>>,
                  putStep: nat, phase: nat, i: nat)
    requires DatabaseValid(db) && putStep > 0
  {
    && startToken <= i * db.blockSize < tokenCount && i < ChunkCount(db, hashes)
    && (mask.Some? ==> 0 <= i - CeilDiv(startToken, db.blockSize) < |mask.value|
                       && mask.value[i - CeilDiv(startToken, db.blockSize)])
    && i % putStep == phase
  }

  ghost predicate Increasing(s: seq<nat>) {
    forall i, j :: 0 <= i < j < |s| ==> s[i] < s[j]
  }

  /** `_process_tokens`: the chunks to move, in order. */
  method ProcessTokens(db: Database, tokenCount: nat, hashes: seq<Hash>, startToken: nat, mask: Option<seq<bool>>,
                       putStep: nat, phase: nat) returns (chunks: seq<nat>)
    requires DatabaseValid(db) && putStep > 0
    ensures Increasing(chunks)
    ensures forall i: nat :: i in chunks <==> Taken(db, tokenCount, hashes, startToken, mask, putStep, phase, i)
  {
    chunks := [];
    var startChunk := CeilDiv(startToken, db.blockSize);
    var count := ChunkCount(db, hashes);
    for i := 0 to count
      invariant Increasing(chunks) && forall k :: 0 <= k < |chunks| ==> chunks[k] < i
      invariant forall c: nat ::
                  c in chunks <==> c < i && Taken(db, tokenCount, hashes, startToken, mask, putStep, phase, c)
    {
      var start := i * db.blockSize;
      if start >= tokenCount {
        forall c: nat | c >= i
          ensures !Taken(db, tokenCount, hashes, startToken, mask, putStep, phase, c)
        {
          MulMonotone(i, c, db.blockSize);
        }
        return;
      }
      var relative := i - startChunk;
      if start >= startToken
         && (mask.None? || (0 <= relative < |mask.value| && mask.value[relative]))
         && i % putStep == phase
      {
        chunks := chunks + [i];
      }
    }
  }
}
