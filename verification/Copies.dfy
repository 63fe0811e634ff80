/**
 Copy descriptors and what executing them does to memory. A list of descriptors is described, for one destination
 address, by the ordered list of source addresses whose bytes it stores there.
 */
module Copies {
  import opened Arithmetic

  /** Copy `size` bytes from address `src` of the sender to address `dst` of the receiver. */
  datatype Copy = Copy(src: int, dst: int, size: nat)

  datatype BlockPair = BlockPair(source: int, destination: int)

  predicate Covers(c: Copy, x: int) {
    c.dst <= x < c.dst + c.size
  }

  /** Source addresses stored at `x` by the list, in execution order. */
  function Hits(cs: seq<Copy>, x: int): seq<int> {
    if cs == [] then []
    else (if Covers(cs[0], x) then [cs[0].src + (x - cs[0].dst)] else []) + Hits(cs[1..], x)
  }

  lemma {:induction false} HitsConcat(a: seq<Copy>, b: seq<Copy>, x: int)
    ensures Hits(a + b, x) == Hits(a, x) + Hits(b, x)
  {
    if a == [] {
      assert a + b == b;
    } else {
      HitsConcat(a[1..], b, x);
      HitsCons(a[0], a[1..] + b, x);
      HitsCons(a[0], a[1..], x);
      assert [a[0]] + (a[1..] + b) == a + b && [a[0]] + a[1..] == a;
    }
  }

  lemma HitsCons(c: Copy, cs: seq<Copy>, x: int)
    ensures Hits([c] + cs, x) == (if Covers(c, x) then [c.src + (x - c.dst)] else []) + Hits(cs, x)
  {
    assert ([c] + cs)[1..] == cs;
  }

  lemma {:induction false} HitsNone(cs: seq<Copy>, x: int)
    requires forall c :: c in cs ==> !Covers(c, x)
    ensures Hits(cs, x) == []
  {
    if cs != [] {
      HitsNone(cs[1..], x);
    }
  }

  lemma {:induction false} HitsMember(cs: seq<Copy>, x: int, c: Copy)
    requires c in cs && Covers(c, x)
    ensures c.src + (x - c.dst) in Hits(cs, x)
  {
    if c != cs[0] {
      HitsMember(cs[1..], x, c);
    }
  }

  // ---------------------------------------------------------------- runs of consecutive blocks

  /** Two neighbouring pairs continue a run when both block ids advance by one. */
  predicate Continues(a: BlockPair, b: BlockPair) {
    b.source - a.source == 1 && b.destination - a.destination == 1
  }

  /** Length of the longest run that starts the list. */
  function FirstRun(pairs: seq<BlockPair>): (n: nat)
    requires pairs != []
    ensures 0 < n <= |pairs|
  {
    if |pairs| > 1 && Continues(pairs[0], pairs[1]) then 1 + FirstRun(pairs[1..]) else 1
  }

  /** `np.split` at the breaks never yields an empty piece. */
  type Run = r: seq<BlockPair> | r != [] witness [BlockPair(0, 0)]

  /** The list split where either block id stops advancing by one. */
  function GroupContiguous(pairs: seq<BlockPair>): seq<Run> {
    if pairs == [] then []
    else
      var n := FirstRun(pairs);
      [pairs[..n]] + GroupContiguous(pairs[n..])
  }

  function Flatten(runs: seq<Run>): seq<BlockPair> {
    if runs == [] then [] else runs[0] + Flatten(runs[1..])
  }

  /** Both sides of a run are consecutive block ids. */
  ghost predicate IsRun(run: Run) {
    forall i :: 0 <= i < |run| ==> run[i] == BlockPair(run[0].source + i, run[0].destination + i)
  }

  lemma {:induction false} FirstRunIsRun(pairs: seq<BlockPair>)
    requires pairs != []
    ensures var n := FirstRun(pairs);
            IsRun(pairs[..n]) && (n < |pairs| ==> !Continues(pairs[n - 1], pairs[n]))
  {
    if |pairs| > 1 && Continues(pairs[0], pairs[1]) {
      FirstRunIsRun(pairs[1..]);
      var n := FirstRun(pairs);
      var run, rest := pairs[..n], pairs[1..][..n - 1];
      forall i | 0 <= i < |run|
        ensures run[i] == BlockPair(run[0].source + i, run[0].destination + i)
      {
        if i > 0 {
          assert run[i] == rest[i - 1];
          assert rest[0] == pairs[1];
        }
      }
    }
  }

  /** The runs concatenate back to the input and each is consecutive on both sides. */
  lemma {:induction false} GroupContiguousCorrect(pairs: seq<BlockPair>)
    ensures Flatten(GroupContiguous(pairs)) == pairs
    ensures forall i :: 0 <= i < |GroupContiguous(pairs)| ==> IsRun(GroupContiguous(pairs)[i])
  {
    if pairs != [] {
      var n := FirstRun(pairs);
      FirstRunIsRun(pairs);
      GroupContiguousCorrect(pairs[n..]);
      assert pairs[..n] + pairs[n..] == pairs;
      assert GroupContiguous(pairs)[1..] == GroupContiguous(pairs[n..]);
    }
  }

  /** No run can be extended by the first pair of the next one. */
  lemma {:induction false} GroupContiguousMaximal(pairs: seq<BlockPair>, i: nat)
    requires i + 1 < |GroupContiguous(pairs)|
    ensures var a, b := GroupContiguous(pairs)[i], GroupContiguous(pairs)[i + 1];
            !Continues(a[|a| - 1], b[0])
  {
    var n := FirstRun(pairs);
    FirstRunIsRun(pairs);
    var rest := GroupContiguous(pairs[n..]);
    if i == 0 {
      assert rest[0] == pairs[n..][..FirstRun(pairs[n..])];
    } else {
      GroupContiguousMaximal(pairs[n..], i - 1);
    }
  }

  // ---------------------------------------------------------------- one region

  /** Addresses of one region pair: block bases, block lengths and the slice offsets. */
  datatype Layout = Layout(srcBase: int, srcLen: nat, dstBase: int, dstLen: nat,
                           srcOffset: int, dstOffset: int, size: nat)

  function BlockCopy(l: Layout, b: BlockPair): Copy {
    Copy(l.srcBase + b.source * l.srcLen + l.srcOffset, l.dstBase + b.destination * l.dstLen + l.dstOffset, l.size)
  }

  /** Block by block, in table order. */
  function BlockCopies(l: Layout, pairs: seq<BlockPair>): (cs: seq<Copy>)
    ensures |cs| == |pairs|
  {
    seq(|pairs|, i requires 0 <= i < |pairs| => BlockCopy(l, pairs[i]))
  }

  /** Whole blocks on both sides. */
  predicate CanCoalesce(l: Layout) {
    l.srcOffset == 0 && l.dstOffset == 0 && l.size == l.srcLen && l.size == l.dstLen
  }

  function RunCopy(l: Layout, run: Run): Copy {
    Copy(l.srcBase + run[0].source * l.srcLen, l.dstBase + run[0].destination * l.dstLen, l.size * |run|)
  }

  /** Run by run: one long copy when whole blocks are copied, block copies otherwise. */
  function RunCopies(l: Layout, runs: seq<Run>): seq<Copy> {
    if runs == [] then []
    else
      var n := |runs| - 1;
      RunCopies(l, runs[..n]) + if CanCoalesce(l) then [RunCopy(l, runs[n])] else BlockCopies(l, runs[n])
  }

  /** One long copy of a run stores the same bytes everywhere as its block copies. */
  lemma {:induction false} RunRefinesBlocks(l: Layout, run: Run, x: int)
    requires CanCoalesce(l) && IsRun(run)
    ensures Hits([RunCopy(l, run)], x) == Hits(BlockCopies(l, run), x)
  {
    var n := |run| - 1;
    var last := BlockCopy(l, run[n]);
    assert BlockCopies(l, run) == BlockCopies(l, run[..n]) + [last];
    HitsConcat(BlockCopies(l, run[..n]), [last], x);
    LastOfRun(l, run);
    if n == 0 {
      assert run[..n] == [];
      assert RunCopy(l, run) == last;
    } else {
      RunRefinesBlocks(l, run[..n], x);
      SplitCopy(RunCopy(l, run), RunCopy(l, run[..n]), last, x);
    }
  }

  /** The last block of a run continues the copy of the blocks before it. */
  lemma LastOfRun(l: Layout, run: Run)
    requires CanCoalesce(l) && IsRun(run)
    ensures var n := |run| - 1;
            && BlockCopy(l, run[n]).src == RunCopy(l, run).src + n * l.size
            && BlockCopy(l, run[n]).dst == RunCopy(l, run).dst + n * l.size
            && RunCopy(l, run).size == n * l.size + l.size && n * l.size >= 0
  {
    var n := |run| - 1;
    assert (run[0].source + n) * l.srcLen == run[0].source * l.srcLen + n * l.size;
    assert (run[0].destination + n) * l.dstLen == run[0].destination * l.dstLen + n * l.size;
    assert l.size * (n + 1) == n * l.size + l.size;
    MulMonotone(0, n, l.size);
  }

  /** A copy cut in two stores the same bytes. */
  lemma SplitCopy(c: Copy, a: Copy, b: Copy, x: int)
    requires c.size == a.size + b.size && a.src == c.src && a.dst == c.dst
    requires b.src == c.src + a.size && b.dst == c.dst + a.size
    ensures Hits([c], x) == Hits([a], x) + Hits([b], x)
  {
    assert Hits([c][1..], x) == Hits([a][1..], x) == Hits([b][1..], x) == [];
  }

  /** The emitted list stores the same bytes, in the same order, as the block-by-block list. */
  lemma {:induction false} RunsRefineBlocks(l: Layout, runs: seq<Run>, x: int)
    requires forall i :: 0 <= i < |runs| ==> IsRun(runs[i])
    ensures Hits(RunCopies(l, runs), x) == Hits(BlockCopies(l, Flatten(runs)), x)
  {
    if runs != [] {
      var n := |runs| - 1;
      RunsRefineBlocks(l, runs[..n], x);
      FlattenSnoc(runs[..n], runs[n]);
      assert runs[..n] + [runs[n]] == runs;
      BlockCopiesConcat(l, Flatten(runs[..n]), runs[n], x);
      var tail := if CanCoalesce(l) then [RunCopy(l, runs[n])] else BlockCopies(l, runs[n]);
      HitsConcat(RunCopies(l, runs[..n]), tail, x);
      if CanCoalesce(l) {
        RunRefinesBlocks(l, runs[n], x);
      }
    }
  }

  lemma BlockCopiesConcat(l: Layout, a: seq<BlockPair>, b: seq<BlockPair>, x: int)
    ensures Hits(BlockCopies(l, a + b), x) == Hits(BlockCopies(l, a), x) + Hits(BlockCopies(l, b), x)
  {
    assert BlockCopies(l, a + b) == BlockCopies(l, a) + BlockCopies(l, b);
    HitsConcat(BlockCopies(l, a), BlockCopies(l, b), x);
  }

  lemma {:induction false} FlattenSnoc(runs: seq<Run>, run: Run)
    ensures Flatten(runs + [run]) == Flatten(runs) + run
  {
    if runs == [] {
      assert Flatten([run][1..]) == [];
    } else {
      assert (runs + [run])[1..] == runs[1..] + [run];
      FlattenSnoc(runs[1..], run);
    }
  }

  /** Coalescing never changes memory: the copies of a region store what its block copies store. */
  lemma CoalescingRefines(l: Layout, pairs: seq<BlockPair>, x: int)
    ensures Hits(RunCopies(l, GroupContiguous(pairs)), x) == Hits(BlockCopies(l, pairs), x)
  {
    GroupContiguousCorrect(pairs);
    RunsRefineBlocks(l, GroupContiguous(pairs), x);
  }

  /** No two pairs share a destination block. */
  ghost predicate DistinctDestinations(pairs: seq<BlockPair>) {
    forall i, j :: 0 <= i < j < |pairs| ==> pairs[i].destination != pairs[j].destination
  }

  /** At most one block of a region stores at an address, and it is the block whose slot contains the address. */
  lemma {:induction false} BlockHits(l: Layout, pairs: seq<BlockPair>, x: int)
    requires DistinctDestinations(pairs) && l.dstOffset >= 0 && l.dstOffset + l.size <= l.dstLen
    ensures forall i :: 0 <= i < |pairs| && Covers(BlockCopy(l, pairs[i]), x) ==>
              Hits(BlockCopies(l, pairs), x) == [BlockCopy(l, pairs[i]).src + (x - BlockCopy(l, pairs[i]).dst)]
    ensures (forall i :: 0 <= i < |pairs| ==> !Covers(BlockCopy(l, pairs[i]), x)) ==>
              Hits(BlockCopies(l, pairs), x) == []
  {
    if pairs != [] {
      var rest := pairs[1..];
      BlockHits(l, rest, x);
      assert BlockCopies(l, pairs)[1..] == BlockCopies(l, rest);
      var first := BlockCopy(l, pairs[0]);
      if Covers(first, x) {
        forall i | 0 <= i < |rest|
          ensures !Covers(BlockCopy(l, rest[i]), x)
        {
          OneBlockPerAddress(l, pairs[0], pairs[i + 1], x);
        }
      }
      forall i | 0 < i < |pairs| && Covers(BlockCopy(l, pairs[i]), x)
        ensures Hits(BlockCopies(l, pairs), x) == [BlockCopy(l, pairs[i]).src + (x - BlockCopy(l, pairs[i]).dst)]
      {
        assert pairs[i] == rest[i - 1];
      }
      if forall i :: 0 <= i < |pairs| ==> !Covers(BlockCopy(l, pairs[i]), x) {
        assert forall i :: 0 <= i < |rest| ==> rest[i] == pairs[i + 1];
      }
    }
  }

  lemma OneBlockPerAddress(l: Layout, a: BlockPair, b: BlockPair, x: int)
    requires a.destination != b.destination && l.dstOffset >= 0 && l.dstOffset + l.size <= l.dstLen
    requires Covers(BlockCopy(l, a), x)
    ensures !Covers(BlockCopy(l, b), x)
  {
    if a.destination < b.destination {
      SlotsApart(a.destination, b.destination, l.dstLen);
    } else {
      SlotsApart(b.destination, a.destination, l.dstLen);
    }
  }

  // ---------------------------------------------------------------- several senders

  type Byte = bv8

  /** One copy executed by one sender. */
  datatype Write = Write(sender: int, copy: Copy)

  /** Byte at address `x` after executing the writes in order, reading each sender's memory. */
  function ReadAfter(ws: seq<Write>, source: (int, int) -> Byte, before: int -> Byte, x: int): Byte {
    if ws == [] then before(x)
    else
      var n := |ws| - 1;
      if Covers(ws[n].copy, x) then source(ws[n].sender, ws[n].copy.src + (x - ws[n].copy.dst))
      else ReadAfter(ws[..n], source, before, x)
  }

  /** If all writes that store at `x` store the same byte, the execution order does not matter. */
  lemma {:induction false} ReadAfterAgreed(ws: seq<Write>, source: (int, int) -> Byte, before: int -> Byte, x: int,
                                           v: Byte)
    requires forall w :: w in ws && Covers(w.copy, x) ==> source(w.sender, w.copy.src + (x - w.copy.dst)) == v
    ensures (exists w :: w in ws && Covers(w.copy, x)) ==> ReadAfter(ws, source, before, x) == v
    ensures (forall w :: w in ws ==> !Covers(w.copy, x)) ==> ReadAfter(ws, source, before, x) == before(x)
  {
    if ws != [] {
      var n := |ws| - 1;
      assert forall w :: w in ws <==> w in ws[..n] || w == ws[n];
      ReadAfterAgreed(ws[..n], source, before, x, v);
    }
  }
}
