/**
  The parsed experiences and Python's `list.sort(key=lambda x: x['start'])` on them.
  Python's sort is stable, and a sorted arrangement that keeps the input order of equal keys
  is unique (`SortedStableUnique`), so any stable sort, here an insertion sort, gives the list
  the services go on with.
 */
module IntervalSort {
  import opened Dates

  /** One parsed experience, the dictionary `{'start': ..., 'end': ...}`. */
  datatype Interval = Interval(start: DateTime, end: DateTime)

  predicate SortedByStart(s: seq<Interval>)
  {
    forall i, j :: 0 <= i < j < |s| ==> AtOrBefore(s[i].start, s[j].start)
  }

  /** The elements of `s` whose start is `k`, in the order of `s`. */
  function WithStart(s: seq<Interval>, k: DateTime): seq<Interval>
  {
    if s == [] then [] else (if s[0].start == k then [s[0]] else []) + WithStart(s[1..], k)
  }

  lemma {:induction false} WithStartMember(s: seq<Interval>, k: DateTime, x: Interval)
    ensures x in WithStart(s, k) <==> x in s && x.start == k
  {
    if s != [] {
      WithStartMember(s[1..], k, x);
      assert s == [s[0]] + s[1..];
    }
  }

  /** Where an insertion sort that scans from the right puts `x`: just after the last element
      whose start is not later than the start of `x`. */
  function InsertPos(p: seq<Interval>, x: Interval): (k: nat)
    ensures k <= |p|
    ensures forall i :: k <= i < |p| ==> Before(x.start, p[i].start)
    ensures k > 0 ==> AtOrBefore(p[k - 1].start, x.start)
  {
    if p == [] || AtOrBefore(p[|p| - 1].start, x.start) then |p| else InsertPos(p[..|p| - 1], x)
  }

  function Insert(p: seq<Interval>, x: Interval): seq<Interval>
  {
    p[..InsertPos(p, x)] + [x] + p[InsertPos(p, x)..]
  }

  /** The list after `list.sort(key=start)`: insertion sort, which is stable. */
  function StableSortByStart(s: seq<Interval>): seq<Interval>
  {
    if s == [] then [] else Insert(StableSortByStart(s[..|s| - 1]), s[|s| - 1])
  }

  /** The sort returns a permutation of its input, ordered by start. */
  lemma {:induction false} StableSortByStartSorts(s: seq<Interval>)
    ensures |StableSortByStart(s)| == |s|
    ensures multiset(StableSortByStart(s)) == multiset(s)
    ensures SortedByStart(StableSortByStart(s))
  {
    if s != [] {
      var init, last := s[..|s| - 1], s[|s| - 1];
      StableSortByStartSorts(init);
      InsertPermutes(StableSortByStart(init), last);
      InsertSorted(StableSortByStart(init), last);
      assert s == init + [last];
    }
  }

  lemma InsertPermutes(p: seq<Interval>, x: Interval)
    ensures |Insert(p, x)| == |p| + 1
    ensures multiset(Insert(p, x)) == multiset(p) + multiset{x}
  {
    var k := InsertPos(p, x);
    assert p == p[..k] + p[k..];
  }

  lemma InsertSorted(p: seq<Interval>, x: Interval)
    requires SortedByStart(p)
    ensures SortedByStart(Insert(p, x))
  {
    var k := InsertPos(p, x);
    var r := Insert(p, x);
    assert |r| == |p| + 1;
    forall i, j | 0 <= i < j < |r|
      ensures AtOrBefore(r[i].start, r[j].start)
    {
      if j < k || k < i {
      } else if i < k && j == k {
        assert AtOrBefore(p[i].start, p[k - 1].start);
      } else if i < k {
        assert r[j] == p[j - 1];
      }
    }
  }

  /** The insertion point is the only index with "not later" on its left and "later" on its right. */
  lemma InsertPosUnique(p: seq<Interval>, x: Interval, j: nat)
    requires j <= |p|
    requires forall i :: j <= i < |p| ==> Before(x.start, p[i].start)
    requires j > 0 ==> AtOrBefore(p[j - 1].start, x.start)
    ensures InsertPos(p, x) == j
  {
    var k := InsertPos(p, x);
    assert forall i :: k <= i < |p| ==> !AtOrBefore(p[i].start, x.start);
    assert forall i :: j <= i < |p| ==> !AtOrBefore(p[i].start, x.start);
    assert j > 0 ==> j - 1 < k;
    assert k > 0 ==> k - 1 < j;
  }

  lemma WithStartAppend(a: seq<Interval>, b: seq<Interval>, k: DateTime)
    ensures WithStart(a + b, k) == WithStart(a, k) + WithStart(b, k)
  {
    if a != [] {
      var head := if a[0].start == k then [a[0]] else [];
      assert (a + b)[0] == a[0];
      assert (a + b)[1..] == a[1..] + b;
      WithStartAppend(a[1..], b, k);
      calc {
        WithStart(a + b, k);
        head + WithStart(a[1..] + b, k);
        head + (WithStart(a[1..], k) + WithStart(b, k));
        (head + WithStart(a[1..], k)) + WithStart(b, k);
        WithStart(a, k) + WithStart(b, k);
      }
    } else {
      assert a + b == b;
    }
  }

  lemma WithStartNone(s: seq<Interval>, k: DateTime)
    requires forall i :: 0 <= i < |s| ==> s[i].start != k
    ensures WithStart(s, k) == []
  {
    if s != [] {
      WithStartNone(s[1..], k);
    }
  }

  /** Inserting keeps, for every start, the elements with that start in the same order, with `x`
      after those that were there. */
  lemma InsertStable(p: seq<Interval>, x: Interval, k: DateTime)
    ensures WithStart(Insert(p, x), k) == WithStart(p, k) + WithStart([x], k)
  {
    var j := InsertPos(p, x);
    var left, right := p[..j], p[j..];
    assert p == left + right;
    WithStartAppend(left + [x], right, k);
    WithStartAppend(left, [x], k);
    WithStartAppend(left, right, k);
    var wl, wx, wr := WithStart(left, k), WithStart([x], k), WithStart(right, k);
    if x.start == k {
      WithStartNone(right, k);
      assert wr == [];
    } else {
      assert wx == [];
    }
    assert WithStart(Insert(p, x), k) == wl + wx + wr;
    assert WithStart(p, k) == wl + wr;
  }

  /** The sort is stable: for every start, the intervals with that start keep their input order. */
  lemma {:induction false} StableSortIsStable(s: seq<Interval>, k: DateTime)
    ensures WithStart(StableSortByStart(s), k) == WithStart(s, k)
  {
    if s != [] {
      var init, last := s[..|s| - 1], s[|s| - 1];
      StableSortIsStable(init, k);
      InsertStable(StableSortByStart(init), last, k);
      assert s == init + [last];
      WithStartAppend(init, [last], k);
    }
  }

  /** Two lists sorted by start that agree, start by start, on the order of their elements are
      the same list: stable sorting has exactly one possible outcome. */
  lemma {:induction false} SortedStableUnique(a: seq<Interval>, b: seq<Interval>)
    requires SortedByStart(a) && SortedByStart(b)
    requires forall k :: WithStart(a, k) == WithStart(b, k)
    ensures a == b
    decreases |a|
  {
    if a != [] {
      assert WithStart(a, a[0].start) != [];
    }
    if b != [] {
      assert WithStart(b, b[0].start) != [];
    }
    if a != [] {
      var ka, kb := a[0].start, b[0].start;
      WithStartMember(b, kb, b[0]);
      WithStartMember(a, kb, b[0]);
      WithStartMember(a, ka, a[0]);
      WithStartMember(b, ka, a[0]);
      assert AtOrBefore(ka, kb) && AtOrBefore(kb, ka);
      assert ka == kb;
      assert WithStart(a, ka)[0] == a[0];
      assert WithStart(b, ka)[0] == b[0];
      forall k
        ensures WithStart(a[1..], k) == WithStart(b[1..], k)
      {
        var head := if a[0].start == k then [a[0]] else [];
        assert WithStart(a, k) == head + WithStart(a[1..], k);
        assert WithStart(b, k) == head + WithStart(b[1..], k);
        assert WithStart(a, k)[|head|..] == WithStart(a[1..], k);
        assert WithStart(b, k)[|head|..] == WithStart(b[1..], k);
      }
      SortedStableUnique(a[1..], b[1..]);
      assert a == [a[0]] + a[1..] && b == [b[0]] + b[1..];
    }
  }

  /** Whatever stable sort Python runs, its result is the one computed here. */
  lemma StableSortIsTheStableSort(s: seq<Interval>, r: seq<Interval>)
    requires SortedByStart(r)
    requires forall k :: WithStart(r, k) == WithStart(s, k)
    ensures r == StableSortByStart(s)
  {
    StableSortByStartSorts(s);
    forall k
      ensures WithStart(StableSortByStart(s), k) == WithStart(r, k)
    {
      StableSortIsStable(s, k);
    }
    SortedStableUnique(StableSortByStart(s), r);
  }

  lemma StableSortByStartPrefix(s: seq<Interval>, i: nat)
    requires i < |s|
    ensures StableSortByStart(s[..i + 1]) == Insert(StableSortByStart(s[..i]), s[i])
  {
    assert s[..i + 1][..i] == s[..i];
  }

  /** One pass of insertion sort: moves `a[i]` left past the elements whose start is later. */
  method InsertIntoPrefix(a: array<Interval>, i: nat)
    requires i < a.Length
    modifies a
    ensures a[..i + 1] == Insert(old(a[..i]), old(a[i]))
    ensures a[i + 1..] == old(a[i + 1..])
  {
    ghost var p := a[..i];
    ghost var rest := a[i + 1..];
    var key := a[i];
    var j := i;
    while j > 0 && Before(key.start, a[j - 1].start)
      invariant 0 <= j <= i
      invariant a[..j] == p[..j]
      invariant a[j + 1..i + 1] == p[j..]
      invariant a[i + 1..] == rest
      invariant forall m :: j <= m < i ==> Before(key.start, p[m].start)
    {
      a[j] := a[j - 1];
      j := j - 1;
    }
    a[j] := key;
    InsertPosUnique(p, key, j);
    assert a[..i + 1] == p[..j] + [key] + p[j..];
  }

  /** `list.sort(key=lambda x: x['start'])` on the parsed experiences, in place. */
  method SortByStart(a: array<Interval>)
    modifies a
    ensures a[..] == StableSortByStart(old(a[..]))
  {
    ghost var input := a[..];
    var i := 0;
    while i < a.Length
      invariant 0 <= i <= a.Length
      invariant a[..i] == StableSortByStart(input[..i])
      invariant a[i..] == input[i..]
    {
      assert a[i] == input[i];
      InsertIntoPrefix(a, i);
      StableSortByStartPrefix(input, i);
      i := i + 1;
    }
    assert input[..a.Length] == input;
  }
}
