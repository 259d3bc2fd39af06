/**
  `ResumeScoringService.calculate_total_work_experience` (app/services/resume_scoring.py),
  proved to compute `TotalExperience.TotalWorkExperience`.
 */
module ResumeScoring {
  import opened Wrappers
  import opened Dates
  import opened IntervalSort
  import opened WorkExperience
  import opened TotalExperience

  /** `ResumeScoringService.calculate_total_work_experience`: parse the list, sort it in place by
      start, merge overlapping or touching periods into runs while adding up each run's month
      difference, and split the total. */
  method CalculateTotalWorkExperience(experiences: seq<DatePair>, now: DateTime) returns (r: Result<Duration, Error>)
    ensures r == TotalWorkExperience(experiences, now)
  {
    if |experiences| == 0 {
      return Ok(Duration(0, 0));
    }
    var parsed := ParseAll(experiences, now);
    if parsed.Err? {
      return Err(parsed.error);
    }
    var parsedExperiences := parsed.value;
    SortByStart(parsedExperiences);
    var totalMonths := MergeRuns(parsedExperiences[..]);
    TotalOfMergedRuns(experiences, now, parsedExperiences[..], totalMonths);
    var years := totalMonths / 12;
    var months := totalMonths % 12;
    return Ok(Duration(years, months));
  }
}
