/**
  The merge of work periods into runs and the whole-month total that
  `calculate_total_work_experience` computes, stated once for both services that carry a copy
  of it. The services sort the parsed periods by start, walk them with a running
  `(current_start, current_end)`, add a run's month difference when the next period starts after
  the run's end, flush the last run, and split the total into years and months.
 */
module WorkExperience {
  import opened Wrappers
  import opened Dates
  import opened IntervalSort

  /** The `date_start` and `date_end` values of one entry of `experiences`; `None` is allowed. */
  datatype DatePair = DatePair(dateStart: Option<string>, dateEnd: Option<string>)

  /** `DurationDto`: whole years and the months left over. */
  datatype Duration = Duration(years: int, months: int)

  /** The state of the merge loop: before the first period, or an open run
      `(current_start, current_end)` together with the months of the runs already closed. */
  datatype Acc = NoRun | Run(start: DateTime, end: DateTime, total: int)

  /** A period whose dates are real datetimes and whose end is not before its start. */
  predicate WellFormed(iv: Interval)
  {
    IsDateTime(iv.start) && IsDateTime(iv.end) && AtOrBefore(iv.start, iv.end)
  }

  predicate AllWellFormed(s: seq<Interval>)
  {
    forall iv :: iv in s ==> WellFormed(iv)
  }

  /** One iteration of the merge loop; on `NoRun` it opens the first run. */
  function Step(acc: Acc, iv: Interval): Acc
  {
    match acc
    case NoRun => Run(iv.start, iv.end, 0)
    case Run(cs, ce, t) =>
      if AtOrBefore(iv.start, ce) then Run(cs, Max(ce, iv.end), t)
      else Run(iv.start, iv.end, t + MonthDelta(cs, ce))
  }

  function Fold(acc: Acc, s: seq<Interval>): Acc
    decreases |s|
  {
    if s == [] then acc else Fold(Step(acc, s[0]), s[1..])
  }

  /** The months counted once the open run is flushed, as after the loop. */
  function Close(acc: Acc): int
  {
    match acc
    case NoRun => 0
    case Run(cs, ce, t) => t + MonthDelta(cs, ce)
  }

  /** The months the loop and the final flush add up over an already sorted list. */
  function MergedMonths(sorted: seq<Interval>): int
  {
    Close(Fold(NoRun, sorted))
  }

  /** `total_months` of the services for a list of parsed periods. */
  function TotalMonths(s: seq<Interval>): int
  {
    MergedMonths(StableSortByStart(s))
  }

  /** `{'years': total // 12, 'months': total % 12}`; Dafny's `/` and `%` by 12 round like
      Python's `//` and `%`, also for a negative total. */
  function ToDuration(total: int): (d: Duration)
    ensures d.years * 12 + d.months == total
    ensures 0 <= d.months < 12
  {
    Duration(total / 12, total % 12)
  }

  /** The result of `calculate_total_work_experience` for a list of parsed periods. */
  function Aggregate(s: seq<Interval>): Duration
  {
    ToDuration(TotalMonths(s))
  }

  // ---------------------------------------------------------------------------------------------
  // The duration record

  /** Years and months are the only split of the total with months in 0..11. */
  lemma DurationIsUnique(total: int, d: Duration)
    requires d.years * 12 + d.months == total && 0 <= d.months < 12
    ensures d == ToDuration(total)
  {
    var e := ToDuration(total);
    assert (d.years - e.years) * 12 == e.months - d.months;
  }

  lemma AggregateEmpty()
    ensures Aggregate([]) == Duration(0, 0)
  {
  }

  /** A single period counts exactly its own month difference. */
  lemma AggregateSingle(iv: Interval)
    ensures TotalMonths([iv]) == MonthDelta(iv.start, iv.end)
    ensures Aggregate([iv]) == ToDuration(MonthDelta(iv.start, iv.end))
  {
    assert StableSortByStart([iv]) == Insert([], iv) == [iv];
    assert [iv][1..] == [];
    assert Fold(NoRun, [iv]) == Fold(Run(iv.start, iv.end, 0), []);
  }

  // ---------------------------------------------------------------------------------------------
  // One step of the loop

  /** A period that starts no later than the run's end only adds the months by which it pushes
      the end further; one that lies inside the run adds nothing. */
  lemma OverlapAddsOnlyItsExtension(acc: Acc, iv: Interval)
    requires acc.Run? && AtOrBefore(iv.start, acc.end)
    ensures Step(acc, iv).Run? && Step(acc, iv).start == acc.start
    ensures Close(Step(acc, iv)) == Close(acc) + MonthDelta(acc.end, Max(acc.end, iv.end))
    ensures AtOrBefore(iv.end, acc.end) ==> Step(acc, iv) == acc
  {
  }

  /** A period that starts after the run's end closes the run with its months and opens a new
      run: the gap between the two is not counted. */
  lemma GapClosesRun(acc: Acc, iv: Interval)
    requires acc.Run? && Before(acc.end, iv.start)
    ensures Step(acc, iv) == Run(iv.start, iv.end, Close(acc))
    ensures Close(Step(acc, iv)) == Close(acc) + MonthDelta(iv.start, iv.end)
  {
  }

  lemma {:induction false} FoldAppend(acc: Acc, a: seq<Interval>, b: seq<Interval>)
    ensures Fold(acc, a + b) == Fold(Fold(acc, a), b)
    decreases |a|
  {
    if a != [] {
      assert (a + b)[0] == a[0] && (a + b)[1..] == a[1..] + b;
      FoldAppend(Step(acc, a[0]), a[1..], b);
    } else {
      assert a + b == b;
    }
  }

  /** The loop's state after one more period. */
  lemma FoldSnoc(acc: Acc, s: seq<Interval>, x: Interval)
    ensures Fold(acc, s + [x]) == Step(Fold(acc, s), x)
  {
    FoldAppend(acc, s, [x]);
  }

  /** The loop state after `i + 1` periods is one step from the state after `i`. */
  lemma FoldPrefix(s: seq<Interval>, i: nat)
    requires i < |s|
    ensures Fold(NoRun, s[..i + 1]) == Step(Fold(NoRun, s[..i]), s[i])
  {
    FoldSnoc(NoRun, s[..i], s[i]);
    assert s[..i + 1] == s[..i] + [s[i]];
  }

  // ---------------------------------------------------------------------------------------------
  // Order independence

  lemma WellFormedPermutation(xs: seq<Interval>, ys: seq<Interval>)
    requires AllWellFormed(xs) && multiset(xs) == multiset(ys)
    ensures AllWellFormed(ys)
  {
    forall iv | iv in ys
      ensures WellFormed(iv)
    {
      assert iv in multiset(ys);
    }
  }

  /** Two well-formed periods with the same start may be taken in either order. */
  lemma StepsCommute(acc: Acc, a: Interval, b: Interval)
    requires WellFormed(a) && WellFormed(b) && a.start == b.start
    ensures Step(Step(acc, a), b) == Step(Step(acc, b), a)
  {
  }

  /** A period may be moved in front of periods that have its start. */
  lemma {:induction false} MoveToFront(acc: Acc, q: seq<Interval>, a: Interval, r: seq<Interval>)
    requires WellFormed(a)
    requires forall c :: c in q ==> WellFormed(c) && c.start == a.start
    ensures Fold(acc, q + [a] + r) == Fold(acc, [a] + q + r)
    decreases |q|
  {
    if q == [] {
      assert q + [a] + r == [a] + q + r;
    } else {
      var c, q' := q[0], q[1..];
      assert q + [a] + r == [c] + (q' + [a] + r);
      MoveToFront(Step(acc, c), q', a, r);
      assert [a] + q' + r == [a] + (q' + r);
      StepsCommute(acc, c, a);
      assert [a] + q + r == [a] + ([c] + (q' + r));
      assert [c] + (q' + r) == q + r;
    }
  }

  lemma SortedWithout(s: seq<Interval>, k: nat)
    requires SortedByStart(s) && k < |s|
    ensures SortedByStart(s[..k] + s[k + 1..])
  {
    var t := s[..k] + s[k + 1..];
    forall i, j | 0 <= i < j < |t|
      ensures AtOrBefore(t[i].start, t[j].start)
    {
      var i', j' := if i < k then i else i + 1, if j < k then j else j + 1;
      assert t[i] == s[i'] && t[j] == s[j'];
    }
  }

  lemma MultisetWithout(s: seq<Interval>, k: nat)
    requires k < |s|
    ensures multiset(s[..k] + s[k + 1..]) == multiset(s) - multiset{s[k]}
  {
    assert s == s[..k] + [s[k]] + s[k + 1..];
  }

  /** In two sorted orders of the same periods, the first period of one appears in the other
      after periods with its start only. */
  lemma SameStartPrefix(xs: seq<Interval>, ys: seq<Interval>) returns (k: nat)
    requires SortedByStart(xs) && SortedByStart(ys)
    requires multiset(xs) == multiset(ys) && xs != []
    ensures k < |ys| && ys[k] == xs[0]
    ensures forall i :: 0 <= i < k ==> ys[i].start == xs[0].start
  {
    var a, b := xs[0], ys[0];
    assert a in multiset(ys) && b in multiset(xs);
    k :| 0 <= k < |ys| && ys[k] == a;
    var m :| 0 <= m < |xs| && xs[m] == b;
    assert AtOrBefore(a.start, b.start) && AtOrBefore(b.start, a.start);
    forall i | 0 <= i < k
      ensures ys[i].start == a.start
    {
      assert AtOrBefore(b.start, ys[i].start) && AtOrBefore(ys[i].start, a.start);
    }
  }

  /** Over well-formed periods, any two orders sorted by start give the same loop state. */
  lemma {:induction false} SortedFoldsAgree(acc: Acc, xs: seq<Interval>, ys: seq<Interval>)
    requires SortedByStart(xs) && SortedByStart(ys)
    requires multiset(xs) == multiset(ys)
    requires AllWellFormed(xs)
    ensures Fold(acc, xs) == Fold(acc, ys)
    decreases |xs|
  {
    assert |xs| == |multiset(xs)| == |multiset(ys)| == |ys|;
    if xs != [] {
      var a := xs[0];
      var k := SameStartPrefix(xs, ys);
      var q, r := ys[..k], ys[k + 1..];
      assert ys == q + [a] + r;
      WellFormedPermutation(xs, ys);
      forall c | c in q
        ensures WellFormed(c) && c.start == a.start
      {
        assert c in ys;
      }
      MoveToFront(acc, q, a, r);
      assert [a] + q + r == [a] + (q + r);
      SortedWithout(ys, k);
      MultisetWithout(ys, k);
      MultisetWithout(xs, 0);
      assert xs == [a] + xs[1..];
      SortedFoldsAgree(Step(acc, a), xs[1..], q + r);
    }
  }

  /** Reordering well-formed periods does not change the result: the services sort first. */
  lemma OrderIndependent(xs: seq<Interval>, ys: seq<Interval>)
    requires AllWellFormed(xs) && multiset(xs) == multiset(ys)
    ensures TotalMonths(xs) == TotalMonths(ys)
    ensures Aggregate(xs) == Aggregate(ys)
  {
    var sx, sy := StableSortByStart(xs), StableSortByStart(ys);
    StableSortByStartSorts(xs);
    StableSortByStartSorts(ys);
    WellFormedPermutation(xs, sx);
    SortedFoldsAgree(NoRun, sx, sy);
  }

  // ---------------------------------------------------------------------------------------------
  // What the loop keeps over well-formed periods

  /** The closed months are not negative and the open run does not end before it starts. */
  predicate Sane(acc: Acc)
  {
    acc.Run? ==> acc.total >= 0 && IsDateTime(acc.start) && IsDateTime(acc.end) && AtOrBefore(acc.start, acc.end)
  }

  lemma CloseSane(acc: Acc)
    requires Sane(acc)
    ensures Close(acc) >= 0
  {
    if acc.Run? {
      MonthDeltaMonotone(acc.start, acc.end);
    }
  }

  lemma StepSane(acc: Acc, iv: Interval)
    requires Sane(acc) && WellFormed(iv)
    ensures Sane(Step(acc, iv)) && Step(acc, iv).Run?
    ensures AtOrBefore(iv.end, Step(acc, iv).end)
    ensures acc.Run? ==> AtOrBefore(acc.end, Step(acc, iv).end)
    ensures Close(acc) <= Close(Step(acc, iv))
  {
    MonthDeltaMonotone(iv.start, iv.end);
    if acc.Run? {
      CloseSane(acc);
      MonthDeltaMonotone(acc.end, Max(acc.end, iv.end));
    }
  }

  /** Over well-formed periods the counted months never shrink, and the run's end is at least the
      end of every period seen. */
  lemma {:induction false} FoldSane(acc: Acc, s: seq<Interval>)
    requires Sane(acc) && AllWellFormed(s)
    ensures Sane(Fold(acc, s))
    ensures Close(acc) <= Close(Fold(acc, s))
    ensures acc.Run? || s != [] ==> Fold(acc, s).Run?
    ensures acc.Run? ==> AtOrBefore(acc.end, Fold(acc, s).end)
    ensures forall iv :: iv in s ==> AtOrBefore(iv.end, Fold(acc, s).end)
    decreases |s|
  {
    if s != [] {
      StepSane(acc, s[0]);
      assert forall iv :: iv in s[1..] ==> iv in s;
      FoldSane(Step(acc, s[0]), s[1..]);
      assert s == [s[0]] + s[1..];
    }
  }

  /** Over well-formed periods the total is never negative. */
  lemma TotalNonNegative(xs: seq<Interval>)
    requires AllWellFormed(xs)
    ensures TotalMonths(xs) >= 0
    ensures Aggregate(xs).years >= 0
  {
    var p := StableSortByStart(xs);
    StableSortByStartSorts(xs);
    WellFormedPermutation(xs, p);
    FoldSane(NoRun, p);
    CloseSane(Fold(NoRun, p));
  }

  /** The loop's state stays within a span that contains every period. */
  predicate WithinSpan(acc: Acc, lo: DateTime, hi: DateTime)
  {
    acc.Run? ==> Close(acc) <= MonthDelta(lo, acc.end) && AtOrBefore(acc.end, hi) && IsDateTime(acc.end)
  }

  lemma StepWithinSpan(acc: Acc, iv: Interval, lo: DateTime, hi: DateTime)
    requires IsDateTime(lo) && WithinSpan(acc, lo, hi) && WellFormed(iv)
    requires AtOrBefore(lo, iv.start) && AtOrBefore(iv.end, hi)
    ensures WithinSpan(Step(acc, iv), lo, hi)
  {
    match acc
    case NoRun =>
      MonthDeltaMonotone(lo, iv.start);
    case Run(cs, ce, t) =>
      if !AtOrBefore(iv.start, ce) {
        MonthDeltaMonotone(ce, iv.start);
      }
  }

  lemma {:induction false} FoldWithinSpan(acc: Acc, s: seq<Interval>, lo: DateTime, hi: DateTime)
    requires IsDateTime(lo) && WithinSpan(acc, lo, hi) && AllWellFormed(s)
    requires forall iv :: iv in s ==> AtOrBefore(lo, iv.start) && AtOrBefore(iv.end, hi)
    ensures WithinSpan(Fold(acc, s), lo, hi)
    decreases |s|
  {
    if s != [] {
      StepWithinSpan(acc, s[0], lo, hi);
      assert forall iv :: iv in s[1..] ==> iv in s;
      FoldWithinSpan(Step(acc, s[0]), s[1..], lo, hi);
    }
  }

  /** Over well-formed periods the total lies between zero and the months from the earliest start
      to the latest end: overlapping periods are never counted twice. */
  lemma TotalWithinSpan(xs: seq<Interval>, lo: DateTime, hi: DateTime)
    requires AllWellFormed(xs)
    requires IsDateTime(lo) && IsDateTime(hi) && AtOrBefore(lo, hi)
    requires forall iv :: iv in xs ==> AtOrBefore(lo, iv.start) && AtOrBefore(iv.end, hi)
    ensures 0 <= TotalMonths(xs) <= MonthDelta(lo, hi)
  {
    var p := StableSortByStart(xs);
    StableSortByStartSorts(xs);
    WellFormedPermutation(xs, p);
    forall iv | iv in p
      ensures AtOrBefore(lo, iv.start) && AtOrBefore(iv.end, hi)
    {
      assert iv in multiset(p);
    }
    FoldWithinSpan(NoRun, p, lo, hi);
    TotalNonNegative(xs);
    MonthDeltaMonotone(lo, hi);
    var acc := Fold(NoRun, p);
    if acc.Run? {
      MonthDeltaMonotone(acc.end, hi);
    }
  }

  // ---------------------------------------------------------------------------------------------
  // Every period is counted, none twice, and gaps not at all

  lemma {:induction false} FoldStartBelow(acc: Acc, s: seq<Interval>, h: DateTime)
    requires acc.Run? ==> AtOrBefore(acc.start, h)
    requires forall iv :: iv in s ==> AtOrBefore(iv.start, h)
    ensures Fold(acc, s).Run? ==> AtOrBefore(Fold(acc, s).start, h)
    decreases |s|
  {
    if s != [] {
      assert forall iv :: iv in s[1..] ==> iv in s;
      FoldStartBelow(Step(acc, s[0]), s[1..], h);
    }
  }

  lemma {:induction false} FoldEndBefore(acc: Acc, s: seq<Interval>, h: DateTime)
    requires acc.Run? ==> Before(acc.end, h)
    requires forall iv :: iv in s ==> Before(iv.end, h)
    ensures Fold(acc, s).Run? ==> Before(Fold(acc, s).end, h)
    decreases |s|
  {
    if s != [] {
      assert forall iv :: iv in s[1..] ==> iv in s;
      FoldEndBefore(Step(acc, s[0]), s[1..], h);
    }
  }

  /** The sorted list the services walk, with the facts every argument about it needs. */
  lemma SortedForm(xs: seq<Interval>) returns (p: seq<Interval>)
    requires AllWellFormed(xs)
    ensures p == StableSortByStart(xs)
    ensures SortedByStart(p) && multiset(p) == multiset(xs) && AllWellFormed(p)
    ensures TotalMonths(xs) == MergedMonths(p)
  {
    p := StableSortByStart(xs);
    StableSortByStartSorts(xs);
    WellFormedPermutation(xs, p);
  }

  lemma EachIntervalCountedSorted(p: seq<Interval>, j: nat)
    requires SortedByStart(p) && AllWellFormed(p) && j < |p|
    ensures MonthDelta(p[j].start, p[j].end) <= MergedMonths(p)
  {
    var iv, before, after := p[j], p[..j], p[j + 1..];
    assert iv in p;
    assert p == before + [iv] + after;
    assert forall x :: x in before ==> AtOrBefore(x.start, iv.start);
    FoldSane(NoRun, before);
    FoldStartBelow(NoRun, before, iv.start);
    var acc := Fold(NoRun, before);
    var acc' := Step(acc, iv);
    MonthDeltaMonotone(iv.start, iv.end);
    if acc.Run? {
      CloseSane(acc);
      MonthDeltaMonotone(acc.start, iv.start);
      MonthDeltaMonotone(iv.end, Max(acc.end, iv.end));
    }
    assert MonthDelta(iv.start, iv.end) <= Close(acc');
    StepSane(acc, iv);
    FoldSane(acc', after);
    FoldSnoc(NoRun, before, iv);
    FoldAppend(NoRun, before + [iv], after);
  }

  /** Each well-formed period contributes at least its own months to the total. */
  lemma EachIntervalCounted(xs: seq<Interval>, iv: Interval)
    requires AllWellFormed(xs) && iv in xs
    ensures MonthDelta(iv.start, iv.end) <= TotalMonths(xs)
  {
    var p := SortedForm(xs);
    assert iv in multiset(p);
    var j :| 0 <= j < |p| && p[j] == iv;
    EachIntervalCountedSorted(p, j);
  }

  lemma InsertContainedSorted(p: seq<Interval>, iv: Interval, c: Interval)
    requires SortedByStart(p) && AllWellFormed(p) && WellFormed(iv)
    requires c in p && AtOrBefore(c.start, iv.start) && AtOrBefore(iv.end, c.end)
    ensures MergedMonths(Insert(p, iv)) == MergedMonths(p)
  {
    var j := InsertPos(p, iv);
    var left, right := p[..j], p[j..];
    assert forall i :: j <= i < |p| ==> p[i] != c;
    assert p == left + right;
    assert c in left;
    FoldSane(NoRun, left);
    var acc := Fold(NoRun, left);
    assert Step(acc, iv) == acc;
    FoldSnoc(NoRun, left, iv);
    FoldAppend(NoRun, left + [iv], right);
    FoldAppend(NoRun, left, right);
  }

  /** Adding a well-formed period that lies inside one already listed leaves the total as it was:
      overlapping work is not counted twice. */
  lemma NoDoubleCounting(xs: seq<Interval>, iv: Interval, c: Interval)
    requires AllWellFormed(xs) && WellFormed(iv)
    requires c in xs && AtOrBefore(c.start, iv.start) && AtOrBefore(iv.end, c.end)
    ensures TotalMonths(xs + [iv]) == TotalMonths(xs)
  {
    var p := SortedForm(xs);
    assert AllWellFormed(xs + [iv]);
    var pq := SortedForm(xs + [iv]);
    var q := Insert(p, iv);
    InsertSorted(p, iv);
    InsertPermutes(p, iv);
    SortedFoldsAgree(NoRun, pq, q);
    assert c in multiset(p);
    InsertContainedSorted(p, iv, c);
  }

  /** The loop state with `c` more closed months. */
  function AddClosed(acc: Acc, c: int): Acc
  {
    match acc
    case NoRun => NoRun
    case Run(cs, ce, t) => Run(cs, ce, t + c)
  }

  lemma {:induction false} FoldAddClosed(acc: Acc, s: seq<Interval>, c: int)
    requires acc.Run?
    ensures Fold(AddClosed(acc, c), s) == AddClosed(Fold(acc, s), c)
    decreases |s|
  {
    if s != [] {
      assert Step(AddClosed(acc, c), s[0]) == AddClosed(Step(acc, s[0]), c);
      FoldAddClosed(Step(acc, s[0]), s[1..], c);
    }
  }

  lemma SortedConcat(p: seq<Interval>, r: seq<Interval>)
    requires SortedByStart(p) && SortedByStart(r)
    requires forall x, y :: x in p && y in r ==> AtOrBefore(x.start, y.start)
    ensures SortedByStart(p + r)
  {
    forall i, j | 0 <= i < j < |p + r|
      ensures AtOrBefore((p + r)[i].start, (p + r)[j].start)
    {
      if i < |p| && j >= |p| {
        assert (p + r)[i] in p && (p + r)[j] in r;
      }
    }
  }

  lemma GapExcludedSorted(p: seq<Interval>, r: seq<Interval>)
    requires AllWellFormed(p) && AllWellFormed(r)
    requires forall x, y :: x in p && y in r ==> Before(x.end, y.start)
    ensures MergedMonths(p + r) == MergedMonths(p) + MergedMonths(r)
  {
    FoldAppend(NoRun, p, r);
    var acc := Fold(NoRun, p);
    if r == [] {
      assert p + r == p;
    } else if acc.NoRun? {
      assert Close(acc) == 0;
    } else {
      var y := r[0];
      assert y in r;
      assert forall x :: x in r[1..] ==> x in r;
      FoldEndBefore(NoRun, p, y.start);
      assert Step(acc, y) == AddClosed(Step(NoRun, y), Close(acc));
      FoldAddClosed(Step(NoRun, y), r[1..], Close(acc));
      var fin := Fold(Step(NoRun, y), r[1..]);
      FoldSane(Step(NoRun, y), r[1..]);
      assert Close(AddClosed(fin, Close(acc))) == Close(fin) + Close(acc);
    }
  }

  /** When every period of `xs` ends before every period of `ys` starts, the two totals simply add
      up: the gap between them is never counted. */
  lemma GapExcluded(xs: seq<Interval>, ys: seq<Interval>)
    requires AllWellFormed(xs) && AllWellFormed(ys)
    requires forall x, y :: x in xs && y in ys ==> Before(x.end, y.start)
    ensures TotalMonths(xs + ys) == TotalMonths(xs) + TotalMonths(ys)
  {
    var p := SortedForm(xs);
    var r := SortedForm(ys);
    assert AllWellFormed(xs + ys);
    var pr := SortedForm(xs + ys);
    forall x, y | x in p && y in r
      ensures Before(x.end, y.start) && AtOrBefore(x.start, y.start)
    {
      assert x in multiset(p) && y in multiset(r);
      assert x in xs && y in ys;
    }
    SortedConcat(p, r);
    SortedFoldsAgree(NoRun, pr, p + r);
    GapExcludedSorted(p, r);
  }

  /** Overlapping periods are counted once, a gap between periods is not counted, and an
      interval that ends before it starts counts negatively. */
  lemma AggregateExamples()
    ensures Aggregate([Interval(DateTime(2020, 1, 1, 0), DateTime(2021, 6, 1, 0)), Interval(DateTime(2020, 6, 1, 0), DateTime(2022, 1, 1, 0))]) == Duration(2, 0)
    ensures Aggregate([Interval(DateTime(2023, 1, 1, 0), DateTime(2024, 3, 15, 0))]) == Duration(1, 2)
    ensures Aggregate([Interval(DateTime(2021, 1, 1, 0), DateTime(2022, 1, 1, 0)), Interval(DateTime(2018, 1, 1, 0), DateTime(2019, 1, 1, 0))]) == Duration(2, 0)
    ensures Aggregate([Interval(DateTime(2021, 1, 1, 0), DateTime(2020, 1, 1, 0))]) == Duration(-1, 0)
  {
    var a, b := Interval(DateTime(2020, 1, 1, 0), DateTime(2021, 6, 1, 0)), Interval(DateTime(2020, 6, 1, 0), DateTime(2022, 1, 1, 0));
    assert StableSortByStart([a, b]) == [a, b] by {
      assert [a, b][..1] == [a];
      assert StableSortByStart([a]) == [a];
    }
    assert Fold(NoRun, [a, b]) == Fold(Run(a.start, a.end, 0), [b]);
    var c, d := Interval(DateTime(2021, 1, 1, 0), DateTime(2022, 1, 1, 0)), Interval(DateTime(2018, 1, 1, 0), DateTime(2019, 1, 1, 0));
    assert StableSortByStart([c, d]) == [d, c] by {
      assert [c, d][..1] == [c];
      assert StableSortByStart([c]) == [c];
      assert InsertPos([c], d) == 0;
    }
    assert Fold(NoRun, [d, c]) == Fold(Run(d.start, d.end, 0), [c]);
    AggregateSingle(Interval(DateTime(2023, 1, 1, 0), DateTime(2024, 3, 15, 0)));
    AggregateSingle(Interval(DateTime(2021, 1, 1, 0), DateTime(2020, 1, 1, 0)));
  }
}
