/** Result types for the source's optional values and raised exceptions, and facts about sequences. */
module Common {
  datatype Option<+T> = None | Some(value: T)

  datatype Result<+T, +E> = Success(value: T) | Failure(error: E)

  ghost predicate NoDuplicates<T>(s: seq<T>) {
    forall i, j :: 0 <= i < j < |s| ==> s[i] != s[j]
  }

  lemma {:induction false} DistinctCount<T>(s: seq<T>)
    requires NoDuplicates(s)
    ensures |set x | x in s| == |s|
  {
    if s == [] {
      assert (set x | x in s) == {};
    } else {
      var n := |s| - 1;
      DistinctCount(s[..n]);
      assert (set x | x in s) == (set x | x in s[..n]) + {s[n]};
    }
  }

  /**
   A table in the middle of a sweep over its keys: the keys in `left` are untouched, the others were replaced by their
   entry in `next`, or dropped.
   */
  function Swept<T>(before: map<string, T>, next: map<string, T>, drop: set<string>, left: set<string>)
    : (r: map<string, T>)
    requires before.Keys == next.Keys
    ensures forall k :: k in r <==> k in before && (k in left || k !in drop)
    ensures forall k :: k in r ==> r[k] == if k in left then before[k] else next[k]
  {
    map k | k in before && (k in left || k !in drop) :: if k in left then before[k] else next[k]
  }

  lemma SweepNext<T>(before: map<string, T>, next: map<string, T>, drop: set<string>, left: set<string>, k: string)
    requires before.Keys == next.Keys && k in left && k in before
    ensures k in Swept(before, next, drop, left) && Swept(before, next, drop, left)[k] == before[k]
    ensures Swept(before, next, drop, left - {k})
            == if k in drop then Swept(before, next, drop, left) - {k}
               else Swept(before, next, drop, left)[k := next[k]]
    ensures drop - (left - {k}) == if k in drop then drop - left + {k} else drop - left
  {
  }

  lemma SweepEnds<T>(before: map<string, T>, next: map<string, T>, drop: set<string>)
    requires before.Keys == next.Keys
    ensures Swept(before, next, drop, before.Keys) == before
    ensures Swept(before, next, drop, {}) == next - drop
    ensures drop <= before.Keys ==> drop - before.Keys == {}
    ensures drop - {} == drop
  {
  }
}
