/**
  The specification that both copies of `calculate_total_work_experience` meet, in
  `ResumeScoringService` (app/services/resume_scoring.py) and `ResumeParser`
  (app/services/resume_extraction.py), together with their shared `parse_date` and the list
  comprehension that parses the experiences. `datetime.now()` is the parameter `now`.
 */
module TotalExperience {
  import opened Wrappers
  import opened Dates
  import opened IntervalSort
  import opened WorkExperience

  /** `parse_date`: the date `strptime` reads from the string, or `now` when `strptime` raises
      `ValueError`. `None` makes `strptime` raise `TypeError`, which is not caught. */
  function ParseDate(dateString: Option<string>, now: DateTime): (r: Result<DateTime, Error>)
    ensures r.Err? <==> dateString == None
    ensures r.Err? ==> r.error == TypeError
    ensures dateString.Some? ==> Strptime(dateString.value) == Some(r.value) || (Strptime(dateString.value) == None && r.value == now)
  {
    match dateString
    case None => Err(TypeError)
    case Some(s) =>
      match Strptime(s)
      case Some(t) => Ok(t)
      case None => Ok(now)
  }

  /** A well-formed date string is read as the date it names; the empty string gives `now`. */
  lemma ParseDateReadsIsoDates(t: DateTime, now: DateTime)
    requires IsParsedDate(t)
    ensures ParseDate(Some(IsoDate(t)), now) == Ok(t)
    ensures ParseDate(Some(""), now) == Ok(now)
  {
    StrptimeIsoDate(t);
  }

  /** No entry has a `None` date. */
  predicate Parseable(experiences: seq<DatePair>)
  {
    forall d :: d in experiences ==> d.dateStart.Some? && d.dateEnd.Some?
  }

  /** The period an entry without `None` dates becomes. */
  function ParsedPeriod(d: DatePair, now: DateTime): Interval
    requires d.dateStart.Some? && d.dateEnd.Some?
  {
    Interval(ParseDate(d.dateStart, now).value, ParseDate(d.dateEnd, now).value)
  }

  /** Every entry turned into its period, in place. */
  function ParsedPeriods(experiences: seq<DatePair>, now: DateTime): (r: seq<Interval>)
    requires Parseable(experiences)
    ensures |r| == |experiences|
  {
    seq(|experiences|, i requires 0 <= i < |experiences| => ParsedPeriod(experiences[i], now))
  }

  /** The list comprehension that parses every entry; the first `None` date raises. */
  function ParseExperiences(experiences: seq<DatePair>, now: DateTime): (r: Result<seq<Interval>, Error>)
    ensures r.Err? <==> !Parseable(experiences)
    ensures r.Err? ==> r.error == TypeError
    ensures r.Ok? ==> r.value == ParsedPeriods(experiences, now)
  {
    if experiences == [] then Ok([])
    else
      var last := experiences[|experiences| - 1];
      match ParseExperiences(experiences[..|experiences| - 1], now)
      case Err(e) => Err(e)
      case Ok(init) =>
        match ParseDate(last.dateStart, now)
        case Err(e) => Err(e)
        case Ok(start) =>
          match ParseDate(last.dateEnd, now)
          case Err(e) => Err(e)
          case Ok(end) =>
            assert init + [Interval(start, end)] == ParsedPeriods(experiences, now) by {
              assert forall i | 0 <= i < |init| :: experiences[i] == experiences[..|experiences| - 1][i];
            }
            Ok(init + [Interval(start, end)])
  }

  /** The comprehension, run into a fresh list: the first `None` date stops it with `TypeError`. */
  method ParseAll(experiences: seq<DatePair>, now: DateTime) returns (r: Result<array<Interval>, Error>)
    ensures r.Err? <==> !Parseable(experiences)
    ensures r.Err? ==> r.error == TypeError
    ensures r.Ok? ==> fresh(r.value) && r.value[..] == ParsedPeriods(experiences, now)
  {
    var parsed := new Interval[|experiences|];
    var k := 0;
    while k < |experiences|
      invariant 0 <= k <= |experiences|
      invariant ParseExperiences(experiences[..k], now) == Ok(parsed[..k])
    {
      assert experiences[..k + 1][..k] == experiences[..k];
      var start := ParseDate(experiences[k].dateStart, now);
      if start.Err? {
        assert ParseExperiences(experiences[..k + 1], now) == Err(TypeError);
        return Err(start.error);
      }
      var end := ParseDate(experiences[k].dateEnd, now);
      if end.Err? {
        assert ParseExperiences(experiences[..k + 1], now) == Err(TypeError);
        return Err(end.error);
      }
      parsed[k] := Interval(start.value, end.value);
      assert parsed[..k + 1] == parsed[..k] + [parsed[k]];
      k := k + 1;
    }
    assert experiences[..k] == experiences;
    assert parsed[..k] == parsed[..];
    return Ok(parsed);
  }

  /** What `calculate_total_work_experience` returns for a list of date pairs: 0 years and 0
      months for no experiences, the `TypeError` of a `None` date, or the split of the merged
      months of the parsed periods. */
  function TotalWorkExperience(experiences: seq<DatePair>, now: DateTime): (r: Result<Duration, Error>)
    ensures experiences == [] ==> r == Ok(Duration(0, 0))
    ensures r.Err? <==> !Parseable(experiences)
    ensures r.Err? ==> r.error == TypeError
    ensures r.Ok? ==> 0 <= r.value.months < 12
    ensures r.Ok? ==> r.value.years * 12 + r.value.months == TotalMonths(ParsedPeriods(experiences, now))
  {
    if experiences == [] then Ok(Duration(0, 0))
    else
      match ParseExperiences(experiences, now)
      case Err(e) => Err(e)
      case Ok(periods) => Ok(Aggregate(periods))
  }

  /** The loop of `calculate_total_work_experience` over the sorted periods, with the flush of
      the last run after it: the months of all merged runs. */
  method MergeRuns(sorted: seq<Interval>) returns (totalMonths: int)
    requires |sorted| > 0
    ensures totalMonths == MergedMonths(sorted)
  {
    totalMonths := 0;
    var currentStart, currentEnd := sorted[0].start, sorted[0].end;
    FoldPrefix(sorted, 0);
    for i := 1 to |sorted|
      invariant Fold(NoRun, sorted[..i]) == Run(currentStart, currentEnd, totalMonths)
    {
      var start, end := sorted[i].start, sorted[i].end;
      if AtOrBefore(start, currentEnd) {
        currentEnd := Max(currentEnd, end);
      } else {
        totalMonths := totalMonths + (currentEnd.year - currentStart.year) * 12 + currentEnd.month - currentStart.month;
        currentStart := start;
        currentEnd := end;
      }
      FoldPrefix(sorted, i);
    }
    totalMonths := totalMonths + (currentEnd.year - currentStart.year) * 12 + currentEnd.month - currentStart.month;
    assert sorted[..|sorted|] == sorted;
  }

  /** The last step of `calculate_total_work_experience`: the months the loop and the flush add
      up over the sorted periods, split into years and months, are the specified result. */
  lemma TotalOfMergedRuns(experiences: seq<DatePair>, now: DateTime, sorted: seq<Interval>, totalMonths: int)
    requires experiences != [] && Parseable(experiences)
    requires sorted == StableSortByStart(ParsedPeriods(experiences, now))
    requires totalMonths == MergedMonths(sorted)
    ensures TotalWorkExperience(experiences, now) == Ok(Duration(totalMonths / 12, totalMonths % 12))
  {
  }

  lemma ParsedPeriodsAppend(a: seq<DatePair>, b: seq<DatePair>, now: DateTime)
    requires Parseable(a) && Parseable(b)
    ensures Parseable(a + b)
    ensures ParsedPeriods(a + b, now) == ParsedPeriods(a, now) + ParsedPeriods(b, now)
  {
    assert forall d :: d in a + b ==> d in a || d in b;
    var whole, parts := ParsedPeriods(a + b, now), ParsedPeriods(a, now) + ParsedPeriods(b, now);
    forall i | 0 <= i < |whole|
      ensures whole[i] == parts[i]
    {
      if i < |a| {
        assert (a + b)[i] == a[i];
      } else {
        assert (a + b)[i] == b[i - |a|];
      }
    }
  }

  lemma ParseableParts(xs: seq<DatePair>, a: seq<DatePair>, b: seq<DatePair>)
    requires Parseable(xs) && multiset(a) + multiset(b) <= multiset(xs)
    ensures Parseable(a) && Parseable(b)
  {
    forall d | d in a || d in b
      ensures d in xs
    {
      assert d in multiset(a) + multiset(b);
    }
  }

  /** Taking `x` out of `left + [x] + right` leaves `left + right`. */
  lemma RemoveOne(init: seq<DatePair>, x: DatePair, left: seq<DatePair>, right: seq<DatePair>)
    requires multiset(init + [x]) == multiset(left + [x] + right)
    ensures multiset(left + right) == multiset(init)
  {
    assert multiset(left + [x] + right) == multiset(left) + multiset{x} + multiset(right);
    assert multiset(left + right) == multiset(left) + multiset(right);
    assert multiset(init + [x]) == multiset(init) + multiset{x};
    assert multiset(init) == multiset(init + [x]) - multiset{x};
    assert multiset(left + right) == multiset(left + [x] + right) - multiset{x};
  }

  /** Parsing works entry by entry, so a rearranged input parses to the same periods rearranged. */
  lemma {:induction false} ParsedPeriodsPermutation(xs: seq<DatePair>, ys: seq<DatePair>, now: DateTime)
    requires multiset(xs) == multiset(ys) && Parseable(xs)
    ensures Parseable(ys)
    ensures multiset(ParsedPeriods(xs, now)) == multiset(ParsedPeriods(ys, now))
    decreases |xs|
  {
    ParseableParts(xs, ys, []);
    if xs != [] {
      var n := |xs|;
      var init, x := xs[..n - 1], xs[n - 1];
      assert xs == init + [x];
      assert x in multiset(ys);
      var j :| 0 <= j < |ys| && ys[j] == x;
      var left, right := ys[..j], ys[j + 1..];
      assert ys == left + [x] + right;
      RemoveOne(init, x, left, right);
      ParseableParts(xs, init, [x]);
      ParseableParts(ys, left, right);
      ParsedPeriodsPermutation(init, left + right, now);
      ParsedPeriodsAppend(init, [x], now);
      ParsedPeriodsAppend(left, right, now);
      ParsedPeriodsAppend(left, [x], now);
      ParsedPeriodsAppend(left + [x], right, now);
    }
  }

  /** With well-formed dates, the order of the experiences does not change the result. */
  lemma TotalWorkExperienceOrderIndependent(xs: seq<DatePair>, ys: seq<DatePair>, now: DateTime)
    requires multiset(xs) == multiset(ys)
    requires Parseable(xs) && AllWellFormed(ParsedPeriods(xs, now))
    ensures TotalWorkExperience(xs, now) == TotalWorkExperience(ys, now)
  {
    ParsedPeriodsPermutation(xs, ys, now);
    if xs != [] {
      assert ys != [] by {
        assert |xs| == |multiset(xs)| == |multiset(ys)| == |ys|;
      }
      OrderIndependent(ParsedPeriods(xs, now), ParsedPeriods(ys, now));
    }
  }

  /** A role that ends "present" runs until `now`; a missing date raises `TypeError`. */
  lemma ExamplesFromDates()
    ensures var now := DateTime(2024, 3, 15, 0);
      var ongoing := [DatePair(Some("2023-01-01"), Some("present"))];
      && ParseExperiences(ongoing, now) == Ok([Interval(DateTime(2023, 1, 1, 0), now)])
      && TotalWorkExperience(ongoing, now) == Ok(Duration(1, 2))
      && TotalWorkExperience([DatePair(Some("2023-01-01"), None)], now) == Err(TypeError)
  {
    var now := DateTime(2024, 3, 15, 0);
    assert ParseDate(Some("2023-01-01"), now) == Ok(DateTime(2023, 1, 1, 0));
    assert ParseDate(Some("present"), now) == Ok(now);
    var ongoing := [DatePair(Some("2023-01-01"), Some("present"))];
    assert ongoing[..0] == [];
    var parsed := Interval(DateTime(2023, 1, 1, 0), now);
    assert ParseExperiences(ongoing, now) == Ok([] + [parsed]);
    assert [] + [parsed] == [parsed];
    AggregateExamples();
  }
}
