# Profile aggregation, modelled in Dafny

The script `session10.py` defines two functions. Each generates its own
10,000 synthetic personal profiles and summarises them in one pass; the file
calls neither. `calc_data_using_namedtuple` reads the profile fields by
attribute name, and `calc_data_using_dictionary` reads them by string key.
The pass reports:

- the most frequent blood group, with its count (`largest_blood_type`);
- the oldest person, with their age in whole years (`oldest_person`);
- the average age in whole years (`average_age`);
- the mean current location (not modelled, see below).

This project models that pass. The two Python functions run the same loop,
so one method, `Aggregation.Aggregate`, models both. Its `variant` argument
picks how the result is read back. The method's loop updates the same state
as the Python loop:

- the frequency table `blood_gp` is a `map` plus the list of its keys in
  insertion order, because Python dicts iterate in insertion order and `max`
  depends on that order when counts tie;
- the oldest-person tracker `max_age` is an age and an optional profile;
- the running sum `sum_ages` is an integer.

The loop, `Aggregation.Scan`, is proved against pure functions of the input
prefix: `Tally`, `FirstSeen`, `OldestSoFar` and `SumYears`. The whole result is proved equal
to `Summaries.Summarize`. The lemmas then state what the summary means: the
reported counts, the argmax and its tie rule, the first oldest profile, the
two-step truncation of the average, and how the two variants differ.

Modelling choices:

- A profile keeps only its blood group and its birthdate. The pass also
  reads `current_location` (session10.py:68-69, 97-98), but only for the
  mean location, which is left out. The oldest person is returned as the
  whole profile (lines 67, 75, 96, 102); here it is known only by those
  two fields.
- Dates are day numbers, and "today" is a parameter, so
  `(date_today - birthdate).days` is a subtraction.
- Python's `int(x / d)` truncates toward zero. It is written out as
  `Truncation.TruncDiv`, because Dafny's `/` is Euclidean.
- Blood groups are an enumeration of eight values ("A+" … "O-"). The pass
  only compares groups for equality and uses them as dictionary keys, so any
  hashable key behaves the same; a small enumeration keeps the proofs cheap.
- Python exceptions become `Outcomes.Result` failures:
  - `MaxOfEmpty` is the `ValueError` from `max` over an empty dict;
  - `MissingKey("profile")` is the `KeyError` at `max_age['profile']`.

Behaviour the code fixes that a reader might not expect:

- With no profiles, both functions raise `ValueError` in `max`
  (session10.py:73, 100), before any division. In the program itself this
  cannot happen: the divisor at lines 74-75 and 101-102 is the constant
  `no_profiles = 10000` (lines 55, 83), and the input is generated with that
  many profiles. The empty case exists only because the model takes N to be
  the number of profiles it is given.
- The tie-break is definite: `max` keeps the first maximal key and the dict
  yields keys in first-insertion order, so the group seen first wins
  (`TiesGoToFirstSeen`).
- The two functions are not fully interchangeable. The dictionary version
  creates its tracker as `{'age': 0, 'proflie': None}` (session10.py:87).
  So the key `'profile'` exists only after some profile had a positive age.
  When none has, that version raises `KeyError` at line 102, while the
  named-tuple version returns `None` as the oldest person.
- Each function generates its own fresh 10,000 profiles (session10.py:55-56,
  83-84), and the script never calls either of them. So the program never
  runs both variants on the same profiles. `VariantsAgree` compares the two
  on one shared input, which is a hypothetical comparison the program never
  makes.

## Model

| member | source | states |
|---|---|---|
| `Truncation.TruncDiv` | session10.py:70 | `int(a / d)` for d > 0 is the quotient rounded toward zero: for a ≥ 0 it brackets a from below, and for a < 0 from above |
| `Truncation.TruncDivUnique` | session10.py:70 | for a ≥ 0, any q with q·d ≤ a < q·d + d is the truncated quotient |
| `Truncation.TruncDivAdd` | session10.py:70 | for non-negative dividends, the truncated quotients of a and b add up to at most that of a + b |
| `Truncation.TruncDivMultiple` | session10.py:75 | truncating n·y by n gives back y |
| `Truncation.TruncDivMonotone` | session10.py:70 | truncating division by a positive divisor preserves the order of the dividends |
| `Truncation.TruncDivTwice` | session10.py:75 | truncating by b and then by c equals truncating once by b·c (for a ≥ 0) |
| `Profiles.AgeDays` | session10.py:64 | the age in days is positive exactly when the birthdate is before today, and zero exactly when it is today |
| `Profiles.AgeYears` | session10.py:70 | `int(age / 365)` is 0 exactly for ages strictly between -365 and 365; for age ≥ 0 it is the number of whole 365-day years in it, and for a negative age it rounds toward zero |
| `Profiles.CountBounds` | session10.py:62-63 | a group's number of profiles is at most N, and it is at least 1 exactly when some profile carries the group |
| `BloodGroups.Tally` | session10.py:58-63 | no ensures of its own; its meaning is stated by `TallyCounts` and `CountsSumToLength` |
| `BloodGroups.TallyCounts` | session10.py:62-63 | after the loop, `blood_gp` has exactly the groups that occur as keys, and each maps to its number of profiles |
| `BloodGroups.FirstSeen` | session10.py:63 | the dict's key order lists every occurring group exactly once |
| `BloodGroups.FirstSeenListsTally` | session10.py:63 | the dict's key order holds exactly the keys of `blood_gp` |
| `BloodGroups.FirstSeenGrows` | session10.py:63 | reading more profiles only appends keys; earlier keys never move |
| `BloodGroups.FirstSeenOrder` | session10.py:63 | a key inserted no later than the key of profile i occurs at or before position i |
| `BloodGroups.CountsSumToLength` | session10.py:62-63 | the counts in `blood_gp` add up to N |
| `BloodGroups.MaxByCount` | session10.py:73 | `max(blood_gp, key=blood_gp.get)` fails exactly on an empty dict; otherwise it returns a key of largest count that no earlier key equals or beats |
| `BloodGroups.FirstMaximumOccursFirst` | session10.py:73 | among equally frequent groups, the one `max` picks occurs first in the input |
| `Oldest.OldestSoFar` | session10.py:64-67 | the tracked age is never negative; the tracker holds no profile exactly when its age is 0; a tracked profile is one of the input profiles and the age is that profile's age in days |
| `Oldest.OldestIsFirstMaximum` | session10.py:65-67 | the tracked age is the maximum of 0 and every age in days; a profile is tracked exactly when that maximum is positive, and it is the first profile in input order with that age (strict `>`) |
| `Oldest.NoneTrackedIffNoPositiveAge` | session10.py:59 | the tracker still holds no profile exactly when no age in days is positive |
| `Ages.SumYears` | session10.py:61-70 | no ensures of its own; its meaning is stated by `SumYearsAtMost`, `SumYearsNonNegative` and `AverageAtMostOldest` |
| `Ages.SumYearsNonNegative` | session10.py:70 | when nobody is born after today, `sum_ages` is not negative |
| `Ages.SumYearsAtMost` | session10.py:70 | when every profile is at most y whole years old, `sum_ages` is at most N·y |
| `Ages.AverageAtMostOldest` | session10.py:70 | `int(sum_ages / N)` is at most `int(max_days / 365)` when every age is at most `max_days` ≥ 0 |
| `Ages.SumYearsAtMostYearsOfTotal` | session10.py:70 | with no negative age, the sum of per-profile whole years is at most the whole years of the total age |
| `Ages.AverageAtMostMeanAge` | session10.py:75 | with no negative age, the two-step average is at most the single-step `int(int(total_days / N) / 365)` |
| `Summaries.Summarize` | session10.py:73-75 | with no profiles the result is the `ValueError` from `max`; otherwise it fails exactly for the dictionary variant when no profile was tracked, and then with `KeyError('profile')`; a reported group is a key of `blood_gp` |
| `Summaries.LargestBloodTypeIsMostFrequent` | session10.py:73-75 | the reported group occurs in the input, its reported count is its number of profiles, that count lies in 1..N, and no group is more frequent |
| `Summaries.TiesGoToFirstSeen` | session10.py:100 | any group as frequent as the reported one has none of its occurrences before the reported group's first occurrence |
| `Summaries.OldestPersonIsFirstOldest` | session10.py:75 | the reported oldest person is the first profile of largest positive age, reported as `int(age / 365)`; with no positive age it is `(None, 0)` |
| `Summaries.AverageAgeBounded` | session10.py:102 | the average age is `int(sum of int(age / 365) / N)` and is at most the reported oldest age in years |
| `Summaries.VariantsAgree` | session10.py:87-102 | with no profiles, both variants fail in `max`; if some age is positive, both return the same summary; if none is, the dictionary variant raises `KeyError('profile')` and the named-tuple variant reports `(None, 0)` |
| `Summaries.ThreeProfileExample` | session10.py:62-75 | groups O+, A+, O+ aged 400, 800 and 36500 days give (O+, 2), the third profile at 100 years, and an average of 34 |
| `Aggregation.Aggregate` | session10.py:58-75 | the single pass, with the table, its key order, the tracker and the age sum updated in place by `Scan`, returns exactly `Summarize` of its input |
| `Aggregation.Scan` | session10.py:62-70 | after the loop, the table, its key order, the tracker and `sum_ages` equal `Tally`, `FirstSeen`, `OldestSoFar` and `SumYears` of the whole input |
| `Aggregation.CalcDataUsingNamedtuple` | session10.py:50-75 | the named-tuple function fails only on an empty input, and then in `max` |
| `Aggregation.CalcDataUsingDictionary` | session10.py:78-102 | the dictionary function fails in `max` on an empty input and with `KeyError('profile')` when no age is positive; otherwise it returns what the named-tuple function returns |

## Left out

- Profile generation (`generate_profiles_using_namedtuple`, `generate_profiles_using_dictionary`) calls a third-party random data generator. The profiles are an input sequence instead, and N is their number rather than the constant 10000.
- The system clock (`datetime.date.today()`) is the parameter `today`. Calendar dates are day numbers, so date subtraction is integer subtraction.
- The mean current location is floating-point summation and division. It is not modelled, and `Summary` has no field for it.
- The `timed` decorator measures wall-clock time and prints it. That is I/O; it passes the wrapped function's result through unchanged.
- The named-tuple and dict shapes of the result record are representation only; one `Summary` datatype stands for both.
- Profile fields other than blood group and birthdate are not modelled. `current_location` is read only for the mean location (left out above); the other fields are not read by the pass.
- `Summaries.OldestPersonIsFirstOldest`: the reported person is a `Profile` of two fields, so a later profile with the same blood group and birthdate looks exactly like the first oldest one. The strict-`>` rule that keeps the first such profile is proved by index, but it cannot be seen in the returned value.
- `Truncation.TruncDiv`: truncation is exact integer arithmetic. Python first divides in floating point and then truncates. The two agree while the dividend's magnitude stays below 2^53, which holds for any realistic age or age sum.
