/**
  `ResumeParser.calculate_total_work_experience` (app/services/resume_extraction.py), proved to
  compute `TotalExperience.TotalWorkExperience`, and the step of `ResumeParser.parse_resume` that follows the language
  model's answer: when the record holds experiences, their total length is written into
  `work_experience`.
 */
module ResumeExtraction {
  import opened Wrappers
  import opened Dates
  import opened IntervalSort
  import opened WorkExperience
  import opened TotalExperience

  /** `ResumeParser.calculate_total_work_experience`: parse the list, sort it in place by
      start, merge overlapping or touching periods into runs while adding up each run's month
      difference, and split the total. */
  method CalculateTotalWorkExperience(experiences: seq<DatePair>, now: DateTime) returns (r: Result<Duration, Error>)
    ensures r == TotalWorkExperience(experiences, now)
  {
    if |experiences| == 0 {
      return Ok(Duration(0, 0));
    }
    var parsed := ParseAll(experiences, now);
    if parsed.Err? {
      return Err(parsed.error);
    }
    var parsedExperiences := parsed.value;
    SortByStart(parsedExperiences);
    var totalMonths := MergeRuns(parsedExperiences[..]);
    TotalOfMergedRuns(experiences, now, parsedExperiences[..], totalMonths);
    var years := totalMonths / 12;
    var months := totalMonths % 12;
    return Ok(Duration(years, months));
  }

  /** What the record holds under the key `experiences`. */
  datatype ExperiencesValue =
    | Absent                      // the key is missing or holds `None`
    | List(items: seq<DatePair>)
    | Single(item: DatePair)      // one experience record that is not wrapped in a list

  /** Python truthiness of `structured_data.get('experiences')`. */
  predicate Truthy(v: ExperiencesValue)
  {
    match v
    case Absent => false
    case List(items) => items != []
    case Single(_) => true
  }

  /** `experiences_array` after a value that is not a list has been wrapped in one. */
  function AsList(v: ExperiencesValue): (r: seq<DatePair>)
    requires Truthy(v)
    ensures r != []
    ensures v.List? ==> r == v.items
    ensures v.Single? ==> |r| == 1 && r[0] == v.item
  {
    match v
    case List(items) => items
    case Single(item) => [item]
  }

  /** The `work_experience` the record holds after the step, given the one it held before, or the
      `TypeError` that escapes. A single record counts exactly its own month difference. */
  function WorkExperienceAfter(experiences: ExperiencesValue, prior: Option<Duration>, now: DateTime): (r: Result<Option<Duration>, Error>)
    ensures !Truthy(experiences) ==> r == Ok(prior)
    ensures Truthy(experiences) ==> (r.Err? <==> !Parseable(AsList(experiences)))
    ensures Truthy(experiences) && r.Ok? ==> r.value.Some? && 0 <= r.value.value.months < 12
    ensures Truthy(experiences) && r.Ok? ==>
      r.value.value.years * 12 + r.value.value.months == TotalMonths(ParsedPeriods(AsList(experiences), now))
  {
    if !Truthy(experiences) then Ok(prior)
    else
      match TotalWorkExperience(AsList(experiences), now)
      case Err(e) => Err(e)
      case Ok(total) => Ok(Some(total))
  }

  /** A single experience given as a dictionary is counted as the months between its own two dates,
      or raises `TypeError` when one of them is `None`. */
  lemma WorkExperienceAfterSingle(item: DatePair, prior: Option<Duration>, now: DateTime)
    ensures item.dateStart.None? || item.dateEnd.None? ==> WorkExperienceAfter(Single(item), prior, now) == Err(TypeError)
    ensures item.dateStart.Some? && item.dateEnd.Some? ==>
      var iv := ParsedPeriod(item, now);
      WorkExperienceAfter(Single(item), prior, now) == Ok(Some(ToDuration(MonthDelta(iv.start, iv.end))))
  {
    if item.dateStart.Some? && item.dateEnd.Some? {
      assert ParsedPeriods(AsList(Single(item)), now) == [ParsedPeriod(item, now)];
      AggregateSingle(ParsedPeriod(item, now));
    } else {
      assert !Parseable([item]);
    }
  }

  /** The parts of the extracted record that the step reads and writes. */
  class StructuredData {
    var experiences: ExperiencesValue
    var workExperience: Option<Duration>

    constructor (experiences: ExperiencesValue, workExperience: Option<Duration>)
      ensures this.experiences == experiences && this.workExperience == workExperience
    {
      this.experiences := experiences;
      this.workExperience := workExperience;
    }

    /** Replaces `work_experience` by the total of the experiences when there are any; a `None`
        date raises `TypeError` out of `parse_resume` before anything is written. */
    method UpdateWorkExperience(now: DateTime) returns (r: Result<(), Error>)
      modifies this
      ensures experiences == old(experiences)
      ensures match WorkExperienceAfter(experiences, old(workExperience), now)
        case Err(e) => r == Err(e) && workExperience == old(workExperience)
        case Ok(w) => r == Ok(()) && workExperience == w
    {
      if Truthy(experiences) {
        var experiencesArray := AsList(experiences);
        var total := CalculateTotalWorkExperience(experiencesArray, now);
        if total.Err? {
          return Err(total.error);
        }
        workExperience := Some(total.value);
      }
      return Ok(());
    }
  }
}
