/** Registration of NPU memory: the tensor views of each storage are merged into few regions. */
module RegistrationRegions {
  import opened Arithmetic
  import opened Common

  const MERGE_GAP := 4096
  const MAX_REGIONS := 256

  /** The addresses from `start` up to but not including `end`. */
  datatype Range = Range(start: int, end: int)

  predicate RangesValid(ranges: seq<Range>) {
    forall i :: 0 <= i < |ranges| ==> ranges[i].start < ranges[i].end
  }

  /** Order of Python tuples. */
  predicate Before(a: Range, b: Range) {
    a.start < b.start || (a.start == b.start && a.end <= b.end)
  }

  ghost predicate Ordered(ranges: seq<Range>) {
    forall i, j :: 0 <= i < j < |ranges| ==> Before(ranges[i], ranges[j])
  }

  // ---------------------------------------------------------------- sorting

  /** `list.sort` by insertion. */
  method Sort(ranges: seq<Range>) returns (sorted: seq<Range>)
    ensures Ordered(sorted) && multiset(sorted) == multiset(ranges)
  {
    sorted := [];
    for i := 0 to |ranges|
      invariant Ordered(sorted) && multiset(sorted) == multiset(ranges[..i])
    {
      var k := 0;
      while k < |sorted| && Before(sorted[k], ranges[i])
        invariant 0 <= k <= |sorted| && forall j :: 0 <= j < k ==> Before(sorted[j], ranges[i])
      {
        k := k + 1;
      }
      InsertSorted(sorted, k, ranges[i]);
      assert ranges[..i + 1] == ranges[..i] + [ranges[i]];
      sorted := sorted[..k] + [ranges[i]] + sorted[k..];
    }
    assert ranges[..|ranges|] == ranges;
  }

  lemma InsertSorted(sorted: seq<Range>, k: nat, r: Range)
    requires Ordered(sorted) && k <= |sorted| && forall j :: 0 <= j < k ==> Before(sorted[j], r)
    requires k < |sorted| ==> !Before(sorted[k], r)
    ensures Ordered(sorted[..k] + [r] + sorted[k..])
    ensures multiset(sorted[..k] + [r] + sorted[k..]) == multiset(sorted) + multiset{r}
  {
    assert sorted == sorted[..k] + sorted[k..];
    var all := sorted[..k] + [r] + sorted[k..];
    forall i, j | 0 <= i < j < |all|
      ensures Before(all[i], all[j])
    {
      if i < k {
        assert all[i] == sorted[i];
      }
      if j > k {
        assert all[j] == sorted[j - 1] && (k < j - 1 ==> Before(sorted[k], sorted[j - 1]));
      }
    }
  }

  // ---------------------------------------------------------------- what registration promises

  ghost predicate Inside(r: Range, region: Range) {
    region.start <= r.start && r.end <= region.end
  }

  ghost predicate InsideSome(r: Range, regions: seq<Range>) {
    exists g :: g in regions && Inside(r, g)
  }

  /** Every view lies inside one region. */
  ghost predicate AllInside(ranges: seq<Range>, regions: seq<Range>) {
    forall r {:trigger InsideSome(r, regions)} :: r in ranges ==> InsideSome(r, regions)
  }

  /** Regions follow each other at more than the merge gap: no two of them could be merged. */
  ghost predicate Apart(regions: seq<Range>) {
    forall i, j :: 0 <= i < j < |regions| ==> regions[i].end + MERGE_GAP < regions[j].start
  }

  ghost predicate NearTo(r: Range, x: int) {
    r.start <= x < r.end + MERGE_GAP
  }

  /** The address is in a view, or less than the merge gap after one. */
  ghost predicate Near(ranges: seq<Range>, x: int) {
    exists r :: r in ranges && NearTo(r, x)
  }

  ghost predicate StartsAt(r: Range, x: int) {
    r.start == x
  }

  ghost predicate EndsAt(r: Range, x: int) {
    r.start < r.end == x
  }

  /** A region begins and ends with views, and what it includes beside them are small gaps. */
  ghost predicate Tight(ranges: seq<Range>, region: Range) {
    && region.start < region.end
    && (exists r :: r in ranges && StartsAt(r, region.start)) && (exists r :: r in ranges && EndsAt(r, region.end))
    && forall x :: region.start <= x < region.end ==> Near(ranges, x)
  }

  ghost predicate AllTight(ranges: seq<Range>, regions: seq<Range>) {
    forall g {:trigger Tight(ranges, g)} :: g in regions ==> Tight(ranges, g)
  }

  ghost predicate Registers(ranges: seq<Range>, regions: seq<Range>) {
    AllInside(ranges, regions) && Apart(regions) && AllTight(ranges, regions)
  }

  // ---------------------------------------------------------------- merging

  /** More views leave a region tight. */
  lemma TightMore(ranges: seq<Range>, more: seq<Range>, region: Range)
    requires Tight(ranges, region) && forall r :: r in ranges ==> r in more
    ensures Tight(more, region)
  {
    forall x | region.start <= x < region.end
      ensures Near(more, x)
    {
      assert Near(ranges, x);
      var q :| q in ranges && NearTo(q, x);
      assert q in more;
    }
    var a :| a in ranges && StartsAt(a, region.start);
    var b :| b in ranges && EndsAt(b, region.end);
    assert a in more && b in more;
  }

  /** The next view joins the last region. */
  lemma JoinTight(ranges: seq<Range>, region: Range, r: Range)
    requires Tight(ranges, region) && r.start < r.end && region.start <= r.start <= region.end + MERGE_GAP
    ensures Tight(ranges + [r], Range(region.start, Max(region.end, r.end)))
  {
    TightMore(ranges, ranges + [r], region);
    var last :| last in ranges && EndsAt(last, region.end);
    assert r in ranges + [r] && last in ranges + [r];
    assert EndsAt(r, r.end);
    forall x | region.start <= x < Max(region.end, r.end)
      ensures Near(ranges + [r], x)
    {
      if x >= region.end {
        assert NearTo(last, x) || NearTo(r, x);
      }
    }
  }

  lemma JoinInside(ranges: seq<Range>, regions: seq<Range>, cur: Range, cur1: Range, r: Range)
    requires AllInside(ranges, regions + [cur]) && Inside(cur, cur1) && Inside(r, cur1)
    ensures AllInside(ranges + [r], regions + [cur1])
  {
    assert cur1 in regions + [cur1];
    forall q | q in ranges + [r]
      ensures InsideSome(q, regions + [cur1])
    {
      if q in ranges {
        assert InsideSome(q, regions + [cur]);
        var g :| g in regions + [cur] && Inside(q, g);
        assert if g in regions then g in regions + [cur1] else Inside(q, cur1);
      }
    }
  }

  lemma JoinView(ranges: seq<Range>, regions: seq<Range>, cur: Range, r: Range)
    requires Registers(ranges, regions + [cur]) && r.start < r.end && cur.start <= r.start <= cur.end + MERGE_GAP
    ensures Registers(ranges + [r], regions + [Range(cur.start, Max(cur.end, r.end))])
  {
    var cur1 := Range(cur.start, Max(cur.end, r.end));
    assert cur in regions + [cur];
    JoinTight(ranges, cur, r);
    JoinInside(ranges, regions, cur, cur1, r);
    forall g | g in regions + [cur1]
      ensures Tight(ranges + [r], g)
    {
      if g in regions {
        assert g in regions + [cur] && Tight(ranges, g);
        TightMore(ranges, ranges + [r], g);
      }
    }
    var a, b := regions + [cur], regions + [cur1];
    assert forall i :: 0 <= i < |b| ==> b[i].start == a[i].start && (i < |regions| ==> b[i] == a[i]);
  }

  lemma SelfTight(ranges: seq<Range>, r: Range)
    requires r.start < r.end
    ensures Tight(ranges + [r], r)
  {
    assert r in ranges + [r] && StartsAt(r, r.start) && EndsAt(r, r.end);
    assert forall x :: r.start <= x < r.end ==> NearTo(r, x);
  }

  lemma NewTight(ranges: seq<Range>, regions: seq<Range>, r: Range)
    requires AllTight(ranges, regions) && r.start < r.end
    ensures AllTight(ranges + [r], regions + [r])
  {
    SelfTight(ranges, r);
    forall g | g in regions + [r]
      ensures Tight(ranges + [r], g)
    {
      if g in regions {
        assert Tight(ranges, g);
        TightMore(ranges, ranges + [r], g);
      }
    }
  }

  lemma NewInside(ranges: seq<Range>, regions: seq<Range>, r: Range)
    requires AllInside(ranges, regions)
    ensures AllInside(ranges + [r], regions + [r])
  {
    forall q | q in ranges + [r]
      ensures InsideSome(q, regions + [r])
    {
      if q in ranges {
        assert InsideSome(q, regions);
        var g :| g in regions && Inside(q, g);
        assert g in regions + [r];
      } else {
        assert r in regions + [r] && Inside(q, r);
      }
    }
  }

  /** A view beyond all regions becomes a region. */
  lemma NewView(ranges: seq<Range>, regions: seq<Range>, r: Range)
    requires Registers(ranges, regions) && r.start < r.end
    requires forall i :: 0 <= i < |regions| ==> regions[i].end + MERGE_GAP < r.start
    ensures Registers(ranges + [r], regions + [r])
  {
    NewTight(ranges, regions, r);
    NewInside(ranges, regions, r);
  }

  /** The merging loop for one storage. */
  method MergeRanges(sorted: seq<Range>) returns (regions: seq<Range>)
    requires sorted != [] && Ordered(sorted) && RangesValid(sorted)
    ensures Registers(sorted, regions)
  {
    regions := [];
    var start, end := sorted[0].start, sorted[0].end;
    NewView([], [], sorted[0]);
    assert [] + [sorted[0]] == sorted[..1] && [] + [Range(start, end)] == [sorted[0]];
    for i := 1 to |sorted|
      invariant Registers(sorted[..i], regions + [Range(start, end)])
      invariant start <= sorted[i - 1].start
    {
      var r := sorted[i];
      assert Before(sorted[i - 1], r) && sorted[..i + 1] == sorted[..i] + [r];
      if r.start <= end + MERGE_GAP {
        JoinView(sorted[..i], regions, Range(start, end), r);
        end := Max(end, r.end);
      } else {
        LastIsFarthest(sorted[..i], regions, Range(start, end), r);
        NewView(sorted[..i], regions + [Range(start, end)], r);
        regions := regions + [Range(start, end)];
        start, end := r.start, r.end;
      }
    }
    assert sorted[..|sorted|] == sorted;
    regions := regions + [Range(start, end)];
  }

  /** A view beyond the last region is beyond all of them. */
  lemma LastIsFarthest(ranges: seq<Range>, regions: seq<Range>, cur: Range, r: Range)
    requires Registers(ranges, regions + [cur]) && cur.end + MERGE_GAP < r.start
    ensures forall i :: 0 <= i < |regions + [cur]| ==> (regions + [cur])[i].end + MERGE_GAP < r.start
  {
    var all := regions + [cur];
    assert cur in all && Tight(ranges, cur);
    assert forall i :: 0 <= i < |regions| ==> all[i].end + MERGE_GAP < all[|regions|].start;
  }

  lemma SamePromise(ranges: seq<Range>, sorted: seq<Range>, regions: seq<Range>)
    requires multiset(sorted) == multiset(ranges) && Registers(sorted, regions)
    ensures Registers(ranges, regions)
  {
    forall r
      ensures r in ranges <==> r in sorted
    {
      assert r in ranges <==> r in multiset(ranges);
      assert r in sorted <==> r in multiset(sorted);
    }
    forall g | g in regions
      ensures Tight(ranges, g)
    {
      assert Tight(sorted, g);
      TightMore(sorted, ranges, g);
    }
    forall r | r in ranges
      ensures InsideSome(r, regions)
    {
      assert r in sorted && InsideSome(r, regions);
    }
  }

  // ---------------------------------------------------------------- there is only one way to merge

  /** A region lies inside one region of any other merge of the same views. */
  lemma RegionInside(ranges: seq<Range>, a: seq<Range>, b: seq<Range>, g: Range) returns (h: Range)
    requires RangesValid(ranges) && Registers(ranges, a) && Registers(ranges, b) && g in a
    ensures h in b && Inside(g, h)
  {
    assert Tight(ranges, g);
    var first :| first in ranges && StartsAt(first, g.start);
    var last :| last in ranges && EndsAt(last, g.end);
    assert InsideSome(first, b) && InsideSome(last, b);
    h :| h in b && Inside(first, h);
    var k :| k in b && Inside(last, k);
    if h.end < g.end {
      var x := h.end + MERGE_GAP;
      assert Tight(ranges, h) && Tight(ranges, k);
      OrderedApart(b, h, k);
      assert g.start <= x < k.start < g.end;
      assert Near(ranges, x);
      var r :| r in ranges && NearTo(r, x);
      assert InsideSome(r, b);
      var m :| m in b && Inside(r, m);
      OrderedApart(b, h, m);
      assert false;
    }
  }

  lemma OrderedApart(regions: seq<Range>, g: Range, h: Range)
    requires Apart(regions) && g in regions && h in regions
    ensures g == h || g.end + MERGE_GAP < h.start || h.end + MERGE_GAP < g.start
  {
    var i :| 0 <= i < |regions| && regions[i] == g;
    var j :| 0 <= j < |regions| && regions[j] == h;
  }

  lemma SharedRegions(ranges: seq<Range>, a: seq<Range>, b: seq<Range>)
    requires RangesValid(ranges) && Registers(ranges, a) && Registers(ranges, b)
    ensures forall g :: g in a ==> g in b
  {
    forall g | g in a
      ensures g in b
    {
      var h := RegionInside(ranges, a, b, g);
      var k := RegionInside(ranges, b, a, h);
      assert Tight(ranges, g);
      OrderedApart(a, g, k);
    }
  }

  ghost predicate Nonempty(regions: seq<Range>) {
    forall g {:trigger g.start} :: g in regions ==> g.start < g.end
  }

  /** What comes before the last region begins before it. */
  lemma LastIsLast(regions: seq<Range>, g: Range)
    requires Apart(regions) && Nonempty(regions) && regions != []
    ensures g in regions[..|regions| - 1] <==> g in regions && g.start < regions[|regions| - 1].start
    ensures g in regions ==> g == regions[|regions| - 1] || g.start < regions[|regions| - 1].start
  {
    var n := |regions| - 1;
    if g in regions {
      var i :| 0 <= i < |regions| && regions[i] == g;
      assert i < n ==> regions[..n][i] == g;
    }
  }

  lemma SameLast(a: seq<Range>, b: seq<Range>)
    requires Apart(a) && Apart(b) && Nonempty(a) && Nonempty(b) && (forall g :: g in a <==> g in b)
    requires a != [] && b != []
    ensures a[|a| - 1] == b[|b| - 1]
  {
    LastIsLast(a, b[|b| - 1]);
    LastIsLast(b, a[|a| - 1]);
  }

  lemma EmptyTogether(a: seq<Range>, b: seq<Range>)
    requires forall g :: g in a <==> g in b
    ensures a == [] <==> b == []
  {
    if a != [] {
      assert a[0] in b;
    }
    if b != [] {
      assert b[0] in a;
    }
  }

  /** Lists of regions that are apart are determined by their members. */
  lemma {:induction false} SameMembers(a: seq<Range>, b: seq<Range>)
    requires Apart(a) && Apart(b) && Nonempty(a) && Nonempty(b) && forall g :: g in a <==> g in b
    ensures a == b
  {
    EmptyTogether(a, b);
    if a != [] {
      SameLast(a, b);
      var a1, b1 := a[..|a| - 1], b[..|b| - 1];
      forall g
        ensures g in a1 <==> g in b1
      {
        LastIsLast(a, g);
        LastIsLast(b, g);
      }
      SameMembers(a1, b1);
      assert a == a1 + [a[|a| - 1]] && b == b1 + [b[|b| - 1]];
    }
  }

  /** Main result. The views determine the regions: nothing else than the merge keeps the promise. */
  lemma RegionsUnique(ranges: seq<Range>, a: seq<Range>, b: seq<Range>)
    requires RangesValid(ranges) && Registers(ranges, a) && Registers(ranges, b)
    ensures a == b
  {
    SharedRegions(ranges, a, b);
    SharedRegions(ranges, b, a);
    assert forall g :: g in a || g in b ==> Tight(ranges, g);
    SameMembers(a, b);
  }

  /** Each storage is merged into its regions. */
  ghost predicate AllRegister(storages: seq<seq<Range>>, regions: seq<seq<Range>>) {
    |regions| == |storages| && forall s :: 0 <= s < |storages| ==> Registers(storages[s], regions[s])
  }

  /** `npu_registration_regions`, with the views grouped by storage; nothing is returned for too many regions. */
  method RegistrationRegions(storages: seq<seq<Range>>) returns (regions: Option<seq<seq<Range>>>)
    requires forall s :: 0 <= s < |storages| ==> storages[s] != [] && RangesValid(storages[s])
    ensures regions.Some? ==> AllRegister(storages, regions.value) && Total(regions.value) <= MAX_REGIONS
    ensures regions.None? ==> exists all :: AllRegister(storages, all) && Total(all) > MAX_REGIONS
  {
    var all: seq<seq<Range>> := [];
    var count := 0;
    for s := 0 to |storages|
      invariant |all| == s && count == Total(all)
      invariant forall t :: 0 <= t < s ==> Registers(storages[t], all[t])
    {
      var sorted := Sort(storages[s]);
      SortedValid(storages[s], sorted);
      var merged := MergeRanges(sorted);
      SamePromise(storages[s], sorted, merged);
      assert (all + [merged])[..s] == all;
      all := all + [merged];
      count := count + |merged|;
    }
    assert AllRegister(storages, all);
    regions := if count > MAX_REGIONS then None else Some(all);
  }

  lemma SortedValid(ranges: seq<Range>, sorted: seq<Range>)
    requires multiset(sorted) == multiset(ranges) && RangesValid(ranges) && ranges != []
    ensures RangesValid(sorted) && sorted != []
  {
    assert ranges[0] in multiset(ranges);
    forall i | 0 <= i < |sorted|
      ensures sorted[i].start < sorted[i].end
    {
      assert sorted[i] in multiset(sorted) && sorted[i] in ranges;
    }
  }

  function Total(regions: seq<seq<Range>>): nat {
    if regions == [] then 0 else Total(regions[..|regions| - 1]) + |regions[|regions| - 1]|
  }
}
