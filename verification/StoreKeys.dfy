/**
 Store keys: their printed form, who writes which key, and which keys a lookup asks for.
 */
module StoreKeys {
  import opened Arithmetic

  datatype KeyMetadata = KeyMetadata(modelName: string, tpRank: nat, pcpRank: nat, dcpRank: nat, ppRank: nat,
                                     groupId: nat)

  datatype PoolKey = PoolKey(metadata: KeyMetadata, chunkHash: string)

  function Digit(d: nat): char
    requires d < 10
  {
    ['0', '1', '2', '3', '4', '5', '6', '7', '8', '9'][d]
  }

  /** Decimal notation. */
  function Decimal(n: nat): string {
    if n < 10 then [Digit(n)] else Decimal(n / 10) + [Digit(n % 10)]
  }

  /** `PoolKey.to_string`. */
  function ToString(key: PoolKey): string {
    key.metadata.modelName
    + "@" + ("tp_rank:" + Decimal(key.metadata.tpRank))
    + "@" + ("pcp" + Decimal(key.metadata.pcpRank))
    + "@" + ("dcp" + Decimal(key.metadata.dcpRank))
    + "@" + ("pp_rank:" + Decimal(key.metadata.ppRank))
    + "@" + ("group:" + Decimal(key.metadata.groupId))
    + "@" + key.chunkHash
  }

  // ---------------------------------------------------------------- the printed form is injective

  lemma {:induction false} DecimalHasNoAt(n: nat)
    ensures '@' !in Decimal(n)
  {
    if n >= 10 {
      DecimalHasNoAt(n / 10);
    }
  }

  lemma DigitInjective(a: nat, b: nat)
    requires a < 10 && b < 10 && Digit(a) == Digit(b)
    ensures a == b
  {
  }

  lemma {:induction false} DecimalInjective(a: nat, b: nat)
    requires Decimal(a) == Decimal(b)
    ensures a == b
  {
    var x, y := Decimal(a), Decimal(b);
    DecimalLength(a);
    DecimalLength(b);
    assert x[|x| - 1] == Digit(a % 10) && y[|y| - 1] == Digit(b % 10);
    DigitInjective(a % 10, b % 10);
    if a >= 10 {
      assert x[..|x| - 1] == Decimal(a / 10) && y[..|y| - 1] == Decimal(b / 10);
      DecimalInjective(a / 10, b / 10);
    }
  }

  lemma {:induction false} DecimalLength(n: nat)
    ensures |Decimal(n)| > 0 && (n >= 10 <==> |Decimal(n)| > 1)
  {
    if n >= 10 {
      DecimalLength(n / 10);
    }
  }

  /** The last separator splits a string in one way. */
  lemma LastAt(a: string, x: string, b: string, y: string)
    requires a + "@" + x == b + "@" + y && '@' !in x && '@' !in y
    ensures a == b && x == y
  {
    var s, t := a + "@" + x, b + "@" + y;
    assert s[|a|] == '@' && t[|b|] == '@';
    assert s[..|a|] == a && t[..|b|] == b;
    assert s[|a| + 1..] == x && t[|b| + 1..] == y;
  }

  /** A separated field `tag` + number at the end of a string. */
  lemma LastField(a: string, n: nat, b: string, m: nat, tag: string)
    requires a + "@" + (tag + Decimal(n)) == b + "@" + (tag + Decimal(m)) && '@' !in tag
    ensures a == b && n == m
  {
    DecimalHasNoAt(n);
    DecimalHasNoAt(m);
    LastAt(a, tag + Decimal(n), b, tag + Decimal(m));
    assert (tag + Decimal(n))[|tag|..] == Decimal(n) && (tag + Decimal(m))[|tag|..] == Decimal(m);
    DecimalInjective(n, m);
  }

  /**
   Different keys never share a Store name, for hashes without the separator; the model name may contain anything.
   */
  lemma KeyNamesDiffer(k: PoolKey, l: PoolKey)
    requires ToString(k) == ToString(l) && '@' !in k.chunkHash && '@' !in l.chunkHash
    ensures k == l
  {
    var a, b := k.metadata, l.metadata;
    var a1 := a.modelName + "@" + ("tp_rank:" + Decimal(a.tpRank));
    var b1 := b.modelName + "@" + ("tp_rank:" + Decimal(b.tpRank));
    var a2, b2 := a1 + "@" + ("pcp" + Decimal(a.pcpRank)), b1 + "@" + ("pcp" + Decimal(b.pcpRank));
    var a3, b3 := a2 + "@" + ("dcp" + Decimal(a.dcpRank)), b2 + "@" + ("dcp" + Decimal(b.dcpRank));
    var a4, b4 := a3 + "@" + ("pp_rank:" + Decimal(a.ppRank)), b3 + "@" + ("pp_rank:" + Decimal(b.ppRank));
    var a5, b5 := a4 + "@" + ("group:" + Decimal(a.groupId)), b4 + "@" + ("group:" + Decimal(b.groupId));
    LastAt(a5, k.chunkHash, b5, l.chunkHash);
    LastField(a4, a.groupId, b4, b.groupId, "group:");
    LastField(a3, a.ppRank, b3, b.ppRank, "pp_rank:");
    LastField(a2, a.dcpRank, b2, b.dcpRank, "dcp");
    LastField(a1, a.pcpRank, b1, b.pcpRank, "pcp");
    LastField(a.modelName, a.tpRank, b.modelName, b.tpRank, "tp_rank:");
  }

  newtype Byte = x: int | 0 <= x < 256

  function HexDigit(d: nat): char
    requires d < 16
  {
    "0123456789abcdef"[d]
  }

  /** `bytes.hex`. */
  function Hex(bytes: seq<Byte>): string {
    if bytes == [] then ""
    else
      var b := bytes[|bytes| - 1] as nat;
      Hex(bytes[..|bytes| - 1]) + [HexDigit(b / 16), HexDigit(b % 16)]
  }

  lemma {:induction false} HexShape(bytes: seq<Byte>)
    ensures |Hex(bytes)| == 2 * |bytes| && '@' !in Hex(bytes)
  {
    if bytes != [] {
      HexShape(bytes[..|bytes| - 1]);
    }
  }

  lemma {:induction false} HexInjective(a: seq<Byte>, b: seq<Byte>)
    requires Hex(a) == Hex(b)
    ensures a == b
  {
    HexShape(a);
    HexShape(b);
    if a != [] {
      var n := |a| - 1;
      var x, y := Hex(a), Hex(b);
      assert x[..2 * n] == Hex(a[..n]) && y[..2 * n] == Hex(b[..n]);
      HexInjective(a[..n], b[..n]);
      assert x[2 * n] == HexDigit(a[n] as nat / 16) && y[2 * n] == HexDigit(b[n] as nat / 16);
      assert x[2 * n + 1] == HexDigit(a[n] as nat % 16) && y[2 * n + 1] == HexDigit(b[n] as nat % 16);
      HexDigitInjective(a[n] as nat / 16, b[n] as nat / 16);
      HexDigitInjective(a[n] as nat % 16, b[n] as nat % 16);
      assert a[n] as nat == b[n] as nat;
      assert a == a[..n] + [a[n]] && b == b[..n] + [b[n]];
    }
  }

  lemma HexDigitInjective(a: nat, b: nat)
    requires a < 16 && b < 16 && HexDigit(a) == HexDigit(b)
    ensures a == b
  {
  }

  /** The name that the Store knows a block hash by. */
  function BlockName(metadata: KeyMetadata, hash: seq<Byte>): string {
    ToString(PoolKey(metadata, Hex(hash)))
  }

  /** Different metadata or different block hashes never share a Store name. */
  lemma BlockNamesDiffer(m: KeyMetadata, g: seq<Byte>, n: KeyMetadata, h: seq<Byte>)
    requires BlockName(m, g) == BlockName(n, h)
    ensures m == n && g == h
  {
    HexShape(g);
    HexShape(h);
    KeyNamesDiffer(PoolKey(m, Hex(g)), PoolKey(n, Hex(h)));
    HexInjective(g, h);
  }

  // ---------------------------------------------------------------- ranks

  /** Sizes of the parallel groups, and the number of KV heads. */
  datatype Layout = Layout(tp: nat, heads: nat, dcp: nat, pcp: nat, pp: nat)

  /** A worker: its rank in each group. */
  datatype Worker = Worker(tp: nat, pcp: nat, dcp: nat, pp: nat)

  /** KV heads are replicated over several TP ranks, which then share the work of writing. */
  predicate Replicated(c: Layout) {
    c.heads < c.tp && c.dcp == 1
  }

  /** What the constructor checks; the DCP group of a worker follows from its TP rank. */
  predicate LayoutValid(c: Layout) {
    c.tp > 0 && c.heads > 0 && c.dcp > 0 && c.pcp > 0 && c.pp > 0 && (Replicated(c) ==> c.tp % c.heads == 0)
  }

  predicate IsWorker(c: Layout, w: Worker) {
    w.tp < c.tp && w.pcp < c.pcp && w.pp < c.pp && w.dcp == if c.dcp > 1 then w.tp % c.dcp else 0
  }

  function PutStep(c: Layout): (r: nat)
    requires LayoutValid(c)
    ensures r > 0
  {
    if Replicated(c) then
      MulDivExact(c.tp, c.heads);
      c.tp / c.heads
    else 1
  }

  lemma MulDivExact(a: nat, b: nat)
    requires a > 0 && b > 0 && a % b == 0
    ensures a == (a / b) * b && a / b > 0
  {
  }

  /** `head_or_tp_rank`. */
  function LogicalRank(c: Layout, tp: nat): nat
    requires LayoutValid(c)
  {
    if Replicated(c) then tp / PutStep(c) else tp
  }

  /** Key metadata of a worker's group. */
  function WorkerMetadata(c: Layout, model: string, w: Worker, group: nat): KeyMetadata
    requires LayoutValid(c)
  {
    KeyMetadata(model, LogicalRank(c, w.tp), w.pcp, w.dcp, w.pp, group)
  }

  /** PUT striping: TP replicas take turns, shifted by the group. */
  predicate Writes(c: Layout, w: Worker, group: nat, chunk: nat)
    requires LayoutValid(c)
  {
    chunk % PutStep(c) == (w.tp + group) % PutStep(c)
  }

  /** Number of TP ranks that a lookup asks for. */
  function LookupTp(c: Layout): nat {
    if c.dcp > 1 then c.tp else Min(c.tp, c.heads)
  }

  /** One of the ranks `_init_lookup_metadata` lists. */
  predicate IsLookupMetadata(c: Layout, model: string, group: nat, m: KeyMetadata) {
    && m.modelName == model && m.groupId == group
    && m.tpRank < LookupTp(c) && m.pcpRank < c.pcp && m.ppRank < c.pp
    && m.dcpRank == if c.dcp > 1 then m.tpRank % c.dcp else 0
  }

  /** Residues: a block of `step` consecutive numbers meets each residue class once. */
  lemma ResidueExists(start: nat, shift: nat, step: nat, target: nat) returns (t: nat)
    requires step > 0
    ensures start <= t < start + step && (t + shift) % step == target % step
  {
    var have, want := (start + shift) % step, target % step;
    var d := if want >= have then want - have else want + step - have;
    t := start + d;
    var q := (start + shift) / step;
    assert t + shift == q * step + have + d;
    if want >= have {
      DivUnique(t + shift, step, q);
    } else {
      assert t + shift == (q + 1) * step + want;
      DivUnique(t + shift, step, q + 1);
    }
  }

  /** No non-zero multiple of `step` is closer to zero than `step`. */
  lemma SmallMultiple(k: int, step: int)
    requires -step < k * step < step
    ensures k == 0
  {
    if k > 0 {
      MulMonotone(1, k, step);
    } else if k < 0 {
      MulMonotone(k, -1, step);
    }
  }

  /** Numbers with equal residues differ by the multiple their quotients do. */
  lemma SameResidue(x: int, y: int, step: int)
    requires step > 0 && x % step == y % step
    ensures x - y == (x / step - y / step) * step
  {
    assert (x / step - y / step) * step == (x / step) * step - (y / step) * step;
  }

  lemma SameBlock(t: int, u: int, step: int)
    requires step > 0 && t / step == u / step
    ensures -step < t - u < step
  {
  }

  lemma ResidueUnique(t: nat, u: nat, shift: nat, step: nat)
    requires step > 0 && (t + shift) % step == (u + shift) % step && t / step == u / step
    ensures t == u
  {
    SameResidue(t + shift, u + shift, step);
    SameBlock(t, u, step);
    SmallMultiple((t + shift) / step - (u + shift) / step, step);
  }

  /** Every key that a lookup asks for is written by exactly one worker. */
  lemma StripedOnce(c: Layout, model: string, m: KeyMetadata, chunk: nat) returns (w: Worker)
    requires LayoutValid(c) && IsLookupMetadata(c, model, m.groupId, m)
    ensures IsWorker(c, w) && WorkerMetadata(c, model, w, m.groupId) == m && Writes(c, w, m.groupId, chunk)
    ensures forall v :: IsWorker(c, v) && WorkerMetadata(c, model, v, m.groupId) == m && Writes(c, v, m.groupId, chunk)
                        ==> v == w
  {
    var step := PutStep(c);
    if Replicated(c) {
      MulDivExact(c.tp, c.heads);
      var t := ResidueExists(m.tpRank * step, m.groupId, step, chunk);
      DivUnique(t, step, m.tpRank);
      MulMonotone(m.tpRank + 1, c.heads, step);
      w := Worker(t, m.pcpRank, m.dcpRank, m.ppRank);
      forall v | IsWorker(c, v) && WorkerMetadata(c, model, v, m.groupId) == m && Writes(c, v, m.groupId, chunk)
        ensures v == w
      {
        ResidueUnique(v.tp, t, m.groupId, step);
      }
    } else {
      w := Worker(m.tpRank, m.pcpRank, m.dcpRank, m.ppRank);
    }
  }

  /** What a worker writes and loads under is what a lookup asks for. */
  lemma WorkersAreLookedUp(c: Layout, model: string, w: Worker, group: nat)
    requires LayoutValid(c) && IsWorker(c, w)
    ensures IsLookupMetadata(c, model, group, WorkerMetadata(c, model, w, group))
  {
    if Replicated(c) {
      MulDivExact(c.tp, c.heads);
      var step := PutStep(c);
      if w.tp / step >= c.heads {
        MulMonotone(c.heads, w.tp / step, step);
      }
    }
  }
}
