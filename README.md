# Total work experience of a resume

The resume services extract a structured record from a resume with a language model. They then
compute the candidate's total work experience from the `date_start` and `date_end` of each
experience. Both `ResumeScoringService` (app/services/resume_scoring.py) and `ResumeParser`
(app/services/resume_extraction.py) do this in a method `calculate_total_work_experience` with a
helper `parse_date`. The two copies are identical line for line (resume_scoring.py:267-321 and
resume_extraction.py:118-172). This project states one specification of them,
`TotalExperience.TotalWorkExperience`, and proves a method per copy against it
(`ResumeScoring.CalculateTotalWorkExperience` and `ResumeExtraction.CalculateTotalWorkExperience`).
A row below that cites resume_scoring.py for the shared parts holds equally for the extraction
copy, 149 lines earlier.

The computation:

- Each date string is read with `datetime.strptime(s, '%Y-%m-%d')`. A string that
  `strptime` rejects (empty, "present", a 30 February) becomes the current time. A `None`
  date raises `TypeError`, which escapes.
- The periods are sorted by start with Python's stable sort.
- The sorted periods are merged into runs: a period that starts no later than the current run's
  end extends it, and any other period closes the run and opens a new one.
- Each run counts its month difference `(end.year - start.year) * 12 + end.month - start.month`.
- The total is split into `{'years': total // 12, 'months': total % 12}`.

Modules:

- `Dates` (dates.dfy): naive datetimes, their order, `max`, the month difference, and
  `strptime` with the `%Y-%m-%d` format. This is the regular expression CPython's `_strptime`
  builds for that format, followed by the calendar check that `datetime` makes.
- `IntervalSort` (interval_sort.dfy): `list.sort(key=start)` as an in-place insertion sort on
  an array. It is proved against a stable-sort function, and that function is shown to be the
  only sorted arrangement that keeps the input order of equal starts.
- `WorkExperience` (work_experience.dfy): the merge loop as a fold (`Step`, `Fold`, `Close`),
  the total `TotalMonths` and `Aggregate`, and the properties of the total.
- `TotalExperience` (total_experience.dfy): the parts both copies share:
  - `parse_date`;
  - the list comprehension that parses the date pairs, as a function and as a loop;
  - the merge loop with its final flush, as the method `MergeRuns`;
  - the specification `TotalWorkExperience` of `calculate_total_work_experience`.
- `ResumeScoring` (resume_scoring.dfy): `ResumeScoringService.calculate_total_work_experience`,
  which parses, sorts in place, merges and splits.
- `ResumeExtraction` (resume_extraction.dfy): `ResumeParser.calculate_total_work_experience`,
  built the same way. It also holds the step of `ResumeParser.parse_resume` that wraps a
  single experience in a list and stores the computed total in `work_experience`.

`datetime.now()` is the parameter `now`. A `DateTime` has a `tick` field for the time of day.
Parsed dates have tick 0, while `now` generally does not. So a period that starts on today's
date at midnight lies before `now`.

## Model

| member | source | states |
|---|---|---|
| Dates.Max | app/services/resume_scoring.py:297 | `max(current_end, end)` is one of its two arguments and is not earlier than either |
| Dates.MonthDeltaIgnoresDayAndTime | app/services/resume_scoring.py:300 | a run's month difference depends only on the year and month of its ends; days and times are ignored |
| Dates.MonthDeltaMonotone | app/services/resume_scoring.py:300 | for real datetimes, a later end never gives a negative month difference |
| Dates.DaysInMonth | app/services/resume_scoring.py:319 | the Gregorian month lengths `strptime` checks lie between 28 and 31 |
| Dates.YearFieldReadsDigits | app/services/resume_scoring.py:319 | `%Y` accepts a text exactly when it is four ASCII digits, and the year it reads is the one whose zero-padded four digits are that text |
| Dates.YearFieldOfDigits | app/services/resume_scoring.py:319 | conversely, the four digits of any year 0..9999 are read as that year |
| Dates.MonthField | app/services/resume_scoring.py:319 | a month `%m` reads is in 1..12 |
| Dates.MonthFieldReadsTokens | app/services/resume_scoring.py:319 | `%m` reads month `m` from a text if and only if the text is `m`'s two zero-padded digits, or its single digit when `m` < 10 (the tokens `1`..`9`, `01`..`09`, `10`..`12`) |
| Dates.DayField | app/services/resume_scoring.py:319 | a day `%d` reads is in 1..31 |
| Dates.DayFieldReadsTokens | app/services/resume_scoring.py:319 | `%d` reads day `d` from the rest of the string if and only if it is `d`'s two zero-padded digits or, when `d` < 10, its digit alone or after one space (the tokens `1`..`9`, `01`..`09`, ` 1`..` 9`, `10`..`31`) |
| Dates.Strptime | app/services/resume_scoring.py:319 | every accepted string gives a real calendar date (year at least 1, day within its month) at midnight |
| Dates.StrptimeSpells | app/services/resume_scoring.py:319 | every text `strptime` accepts is a spelling of the date it returns: four year digits, '-', a month token, '-', a day token, and nothing else |
| Dates.StrptimeReadsSpellings | app/services/resume_scoring.py:319 | every spelling of a real calendar date is accepted and read as that date |
| Dates.StrptimeReadsExactlySpellings | app/services/resume_scoring.py:319 | `strptime(s, '%Y-%m-%d')` returns the date `t` if and only if `s` is one of `t`'s spellings |
| Dates.IsoDate | app/services/resume_scoring.py:313-317 | the `YYYY-MM-DD` text of a date is ten characters with dashes at positions 4 and 7, and is one of the date's spellings |
| Dates.StrptimeIsoDate | app/services/resume_scoring.py:313-319 | reading the `YYYY-MM-DD` text of any date gives back exactly that date |
| Dates.StrptimeAccepts | app/services/resume_scoring.py:319 | `2020-01-01`, the unpadded `2020-1-5`, the space-padded day `2020-01- 5` and the leap day `2020-02-29` are accepted |
| Dates.StrptimeRejects | app/services/resume_scoring.py:319-321 | the empty string, `present`, `2021-02-29`, year 0, month 13, day 32, a trailing space and slashes are rejected, so `parse_date` falls back to now |
| IntervalSort.StableSortByStartSorts | app/services/resume_scoring.py:285 | the sort returns a permutation of the periods, ordered by start |
| IntervalSort.StableSortIsStable | app/services/resume_scoring.py:285 | periods with the same start keep their input order |
| IntervalSort.SortedStableUnique | app/services/resume_scoring.py:285 | two lists sorted by start that agree on the order within each start are equal |
| IntervalSort.StableSortIsTheStableSort | app/services/resume_scoring.py:285 | any sorted, order-keeping rearrangement of the input (the one Python's sort produces) is the modelled sort's result |
| IntervalSort.InsertIntoPrefix | app/services/resume_scoring.py:285 | one insertion pass places `a[i]` after the last element of `a[..i]` whose start is not later, and leaves the rest of the array alone |
| IntervalSort.SortByStart | app/services/resume_scoring.py:285 | sorting in place leaves the array holding the stable sort of its old contents |
| WorkExperience.ToDuration | app/services/resume_scoring.py:308-311 | `years * 12 + months` is the total and `months` is in 0..11, for negative totals too |
| WorkExperience.DurationIsUnique | app/services/resume_scoring.py:308-311 | that split is the only one with months in 0..11 |
| WorkExperience.AggregateEmpty | app/services/resume_scoring.py:277-279 | no periods give 0 years and 0 months |
| WorkExperience.AggregateSingle | app/services/resume_scoring.py:288-311 | a single period counts exactly its own month difference |
| WorkExperience.OverlapAddsOnlyItsExtension | app/services/resume_scoring.py:295-297 | a period starting no later than the run's end adds only the months by which it moves the end, and nothing when it lies inside the run |
| WorkExperience.GapClosesRun | app/services/resume_scoring.py:298-302 | a period starting after the run's end closes the run with its months and opens a new run; the gap is not counted |
| WorkExperience.OrderIndependent | app/services/resume_scoring.py:282-311 | for well-formed periods, any reordering of the input gives the same total and the same years and months |
| WorkExperience.TotalNonNegative | app/services/resume_scoring.py:282-311 | for well-formed periods the total and the years are never negative |
| WorkExperience.TotalWithinSpan | app/services/resume_scoring.py:282-311 | for well-formed periods between `lo` and `hi`, the total is at most the month difference from `lo` to `hi` |
| WorkExperience.EachIntervalCounted | app/services/resume_scoring.py:288-305 | every well-formed period is covered: the total is at least its own month difference |
| WorkExperience.NoDoubleCounting | app/services/resume_scoring.py:295-297 | adding a period that lies inside another period does not change the total |
| WorkExperience.GapExcluded | app/services/resume_scoring.py:298-302 | when every period of one group ends before every period of another starts, the total is the sum of the two groups' totals |
| WorkExperience.AggregateExamples | app/services/resume_scoring.py:267-311 | overlapping 2020-01..2021-06 and 2020-06..2022-01 give 2 years; two one-year periods, given in reverse order and two years apart, give 2 years without the gap; an end before the start gives -1 years |
| TotalExperience.ParseDate | app/services/resume_scoring.py:313-321 | `None` raises `TypeError`; a string gives the date `strptime` reads from it, or `now` when `strptime` rejects it |
| TotalExperience.ParseDateReadsIsoDates | app/services/resume_extraction.py:164-172 | a `YYYY-MM-DD` string is read as the date it names, and the empty string as `now` |
| TotalExperience.ParsedPeriods | app/services/resume_scoring.py:282-284 | an entry list without `None` dates becomes a list of periods of the same length |
| TotalExperience.ParseExperiences | app/services/resume_scoring.py:282-284 | the comprehension fails with `TypeError` exactly when some date is `None`; otherwise it turns each entry, in place, into the period of its two parsed dates |
| TotalExperience.ParseAll | app/services/resume_scoring.py:282-284 | the parsing loop stops with `TypeError` exactly when the comprehension does, and otherwise fills a fresh list with its result |
| TotalExperience.MergeRuns | app/services/resume_scoring.py:287-305 | the loop and the final flush, walking a non-empty list, return the merged months `MergedMonths` of that list |
| TotalExperience.TotalWorkExperience | app/services/resume_scoring.py:277-311 | no experiences give 0 years 0 months; a `None` date gives `TypeError`; otherwise months are in 0..11 and `years * 12 + months` is the merged month total of the parsed periods |
| TotalExperience.ParsedPeriodsPermutation | app/services/resume_scoring.py:282-284 | a rearranged entry list parses to the same periods, rearranged |
| TotalExperience.TotalWorkExperienceOrderIndependent | app/services/resume_extraction.py:133-162 | for entries with well-formed dates, the order of the entries does not change the result |
| TotalExperience.ExamplesFromDates | app/services/resume_extraction.py:118-172 | a role from 2023-01-01 to "present", with now at 2024-03-15, lasts 1 year 2 months; a `None` end date raises `TypeError` |
| ResumeScoring.CalculateTotalWorkExperience | app/services/resume_scoring.py:267-311 | the method returns exactly `TotalWorkExperience` of its input: an empty list, a `None` date and the merged total included |
| ResumeExtraction.CalculateTotalWorkExperience | app/services/resume_extraction.py:118-162 | the method returns exactly `TotalWorkExperience` of its input: an empty list, a `None` date and the merged total included |
| ResumeExtraction.AsList | app/services/resume_extraction.py:104-106 | a list value is used as it is, and any other truthy value becomes a one-element list |
| ResumeExtraction.WorkExperienceAfter | app/services/resume_extraction.py:103-110 | with no experiences `work_experience` keeps its value; otherwise it fails exactly when a date is `None`, and else becomes the total of the wrapped list, with months in 0..11 |
| ResumeExtraction.WorkExperienceAfterSingle | app/services/resume_extraction.py:103-110 | a single experience that is not a list is wrapped into a one-element list, so it counts exactly the months between its own two dates, or raises `TypeError` when one of them is `None` |
| ResumeExtraction.StructuredData.UpdateWorkExperience | app/services/resume_extraction.py:103-110 | the record's `work_experience` becomes what `WorkExperienceAfter` gives, or stays unchanged when `TypeError` escapes; `experiences` itself is never changed |

## Left out

- The language-model calls, prompts, file parsing, vector embeddings, graph storage and every
  other method of the two services are not part of this model. The same goes for the
  `async` machinery around the modelled code.
- The step in `ResumeScoringService.parse_resume` that stores `work_experience`
  (resume_scoring.py:164-167) is not part of this model. It sits in the language-model
  extraction method, which is left out.
- `print("No experiences provided")` and the error logging in `parse_resume` are output only.
  Only the exception that escapes is modelled.
- In the source, every rejected date reads the clock again. The model reads it once, as the
  parameter `now`. The readings can differ only by the time that passes during one call.
- `strptime`'s `\d` also matches non-ASCII decimal digits (Arabic-Indic and others). The model
  accepts ASCII digits only.
- A missing `date_start` or `date_end` key (`KeyError`), an entry that is not a dictionary, and
  date values that are neither strings nor `None` are not modelled. Among non-strings, only `None`
  and its `TypeError` are.
- In `parse_resume`, a truthy `experiences` value that is neither a list nor one experience
  record, such as a string, is not modelled. `ResumeExtraction.ExperiencesValue` has only lists
  and single records.
- The experience fields other than the two dates, and the record's fields other than
  `experiences` and `work_experience`, are not modelled.
- WorkExperience.OrderIndependent: holds for well-formed periods only. When a period ends
  before it starts, the total can depend on the input order. The model keeps that order exactly
  through the stable sort, but proves nothing order-free about it.
- TotalExperience.TotalWorkExperienceOrderIndependent: stated for entries whose parsed periods
  are well-formed, for the same reason.
- WorkExperience.TotalNonNegative: stated for well-formed periods only. An inverted period makes
  the total negative, as `AggregateExamples` shows.
