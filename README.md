# Strong to LiftLog converter, modelled in Dafny

`strong_to_liftlog.py` converts a workout export of the Strong app (a
semicolon-separated CSV file) into a LiftLog backup. This project models its
core and proves what it promises:

- the pure encoders: the .NET `Guid` byte layout of a UUID, the units/nanos
  fixed-point `DecimalValue`, and the `DateOnly` and `TimeOnly` messages;
- the row loop of `parse_strong_csv`. Each row is classified by its Set Order
  cell: a `Note` row attaches or buffers a note; `W` and `Rest Timer` rows and
  non-integer markers are skipped; every other row appends one set. The rows
  are grouped into an insertion-ordered map of workouts, each holding an
  insertion-ordered map of exercises;
- the building of the LiftLog messages: recorded sets one minute apart, potential
  sets, exercise blueprints, recorded exercises and sessions, and the backup
  with its synthetic saved program, registered as the active one.

Layout:

| file | module | contents |
|---|---|---|
| `wrappers.dfy` | `Wrappers` | `Option` and `Result` |
| `seqs.dfy` | `Seqs` | reversal, first-occurrence deduplication (`Dedup`, `FirstByKey`), `"\n".join` |
| `ordered_maps.dfy` | `OrderedMaps` | Python's `OrderedDict` as keys in insertion order plus a map |
| `guids.dfy` | `Guids` | `uuid_to_guid_bytes` |
| `decimals.dfy` | `Decimals` | `make_decimal_value`, with Python's half-to-even `round` |
| `clock.dfy` | `Clock` | `make_date_dao`, `make_time_dao` |
| `strong_csv.dfy` | `StrongCsv` | the rows, one loop step as a function `Step`, the fold `Parse`, and the row loop as the method `ParseStrongCsv` |
| `strong_csv_props.dfy` | `StrongCsvProperties`, `StrongCsvTheorems` | per-workout and per-exercise definitions over the rows alone, the loop invariant relating `Parse` to them, and the theorems that follow |
| `liftlog.dfy` | `LiftLog` | the LiftLog messages the converter fills in, as datatypes |
| `builder.dfy` | `Builder` | the `build_*` functions, and the loops of `build_recorded_exercise`, `build_session` and `build_backup` as methods, each proved equal to a function of its inputs |
| `builder_props.dfy` | `BuilderProperties` | set numbering and completion times within a session, which workouts become sessions, the shape of the saved program |

Modelling choices:

- A row is already split into its named cells. A numeric cell (weight, reps,
  duration) holds the value `float()` reads from it. It is None when the cell
  is empty or `float()` rejects it. `int(float(x))` truncates toward zero.
- A row's Date cell is `Option<DateTime>`, with None where `strptime` raises.
  The source calls `strptime` only on the first row of a workout. There the
  exception ends the whole conversion: `Parse` returns
  `Err(MalformedDate(index))`. On a later row of the same workout the cell is
  never read.
- The randomness and the clock are parameters:
  - `uuids(j)` is the `uuid4()` drawn for the j-th session built;
  - `programId` is the text of the program's `uuid4()`;
  - `today` is `datetime.now()`.
- The dictionaries the source mutates in place are values that the loops
  reassign. `_pending_notes` is a field of the workout entry.
- The model follows the code as written:
  - A second buffered note for an exercise that has no set yet replaces the
    first; it is not appended (`strong_to_liftlog.py:187`).
  - UUIDs are stored in the swapped .NET byte order (`strong_to_liftlog.py:63-68`).
  - The program's session blueprints are taken from all workouts, including
    workouts that have no exercises and therefore no session
    (`strong_to_liftlog.py:348`), not from the most recent workout alone as
    the comment at `strong_to_liftlog.py:341` says.

## Model

| member | source | states |
|---|---|---|
| Guids.UuidToGuidBytes | strong_to_liftlog.py:54-68 | the result is 16 bytes; bytes 0-3, 4-5 and 6-7 are the input's first three groups each reversed; bytes 8-15 are unchanged |
| Guids.GuidBytesInvolution | strong_to_liftlog.py:54-68 | swapping the byte order twice gives back the original identifier |
| Guids.GuidBytesPermutation | strong_to_liftlog.py:54-68 | the layout change only moves bytes: the output is a permutation of the input |
| Decimals.RoundHalfEven | strong_to_liftlog.py:88 | Python's `round`: the result is within one half of the input, and a tie goes to the even neighbour |
| Decimals.MakeDecimalValue | strong_to_liftlog.py:80-95 | after the carry, nanos lies in [0, 10^9); units + nanos/10^9 is within half a billionth of the input; units is the floor, or the floor plus one with nanos 0 when rounding carried |
| Decimals.MakeDecimalIntegral | strong_to_liftlog.py:86-95 | a whole number n encodes as (n, 0) |
| Decimals.MakeDecimalExample | strong_to_liftlog.py:84 | 72.5 encodes as (72, 500000000), and the 2.5 kg weight increase of the program as (2, 500000000) |
| Decimals.MakeDecimalOfToReal | strong_to_liftlog.py:86-95 | encoding the value that a normal DecimalValue denotes gives that DecimalValue back |
| Decimals.DecimalRoundTrip | strong_to_liftlog.py:86-95 | a value that is a whole number of billionths is reproduced exactly by decoding its encoding |
| Clock.MakeDateDao | strong_to_liftlog.py:100-106 | the date is the timestamp's year, month and day |
| Clock.MakeTimeDao | strong_to_liftlog.py:109-125 | hour < 24, minute < 60, second < 60, millisecond and microsecond 0, and hour*3600 + minute*60 + second is (the timestamp's seconds of the day + offset) mod 86400 |
| Clock.MakeTimeDaoOfTime | strong_to_liftlog.py:115-124 | with offset 0, a valid time of day is reproduced exactly |
| Clock.TimeSecondsInjective | strong_to_liftlog.py:120-122 | two valid times with the same seconds of the day are equal, so the hour/minute/second split is unique |
| Clock.NextOffsetTime | strong_to_liftlog.py:115-117 | each further step of the offset advances the time of day by that step, mod 86400 |
| StrongCsv.TruncateToInt | strong_to_liftlog.py:216 | `int()` on a float truncates toward zero: the result lies within one of the input, on the side of zero |
| StrongCsv.WeightOf | strong_to_liftlog.py:208-212 | an empty or unparsable weight cell gives 0.0, otherwise its value |
| StrongCsv.IntOf | strong_to_liftlog.py:214-218 | an empty or unparsable reps cell gives 0, otherwise its value truncated toward zero |
| StrongCsv.IntLiteralAccepted | strong_to_liftlog.py:195-198 | `int()` accepts a set order with surrounding whitespace, a sign, leading zeros or single underscores between digits: " 12 ", "1_0", "-3", "007" |
| StrongCsv.IntLiteralRejected | strong_to_liftlog.py:195-198 | `int()` rejects a leading or doubled underscore, a space after the sign, a tag, an empty cell and the separator characters U+001C-U+001F, which `str.strip()` removes but `int()` does not: "_1", "1__0", "+ 1", "W", "", "\x1c5", "5\x1f" |
| StrongCsv.WorkoutNameOf | strong_to_liftlog.py:165 | an empty workout name becomes "Workout"; the result is never empty |
| StrongCsv.StepShape | strong_to_liftlog.py:153-223 | one row fails exactly when it opens a new workout whose date is malformed, reporting its index; otherwise only the row's own workout changes, a new id going to the end of the order |
| StrongCsv.ParseErrorSticks | strong_to_liftlog.py:156 | once a malformed date has stopped the loop, the rest of the rows do not change the outcome |
| StrongCsv.ParseStrongCsv | strong_to_liftlog.py:130-225 | the row loop returns exactly the fold `Parse` of the rows |
| StrongCsvProperties.ApplyRowKeepsHeader | strong_to_liftlog.py:171-223 | a row never changes its workout's date, name, duration or notes |
| StrongCsvProperties.ApplyRowMatches | strong_to_liftlog.py:171-223 | a row takes its workout from matching the rows before it to matching one more row: exercise order, sets, notes and buffered notes |
| StrongCsvProperties.ParseMatches | strong_to_liftlog.py:152-223 | the loop invariant: after any prefix of rows, every workout matches the definitions over those rows alone |
| StrongCsvTheorems.ParseWorkoutOrder | strong_to_liftlog.py:155-169 | the workouts appear once each, in the order their ids first occur, and exactly the ids of the rows occur |
| StrongCsvTheorems.ParseWorkoutHeader | strong_to_liftlog.py:155-169 | date, name, duration and notes of a workout come from its first row alone; an empty name becomes "Workout" |
| StrongCsvTheorems.ParseExercises | strong_to_liftlog.py:190-223 | a workout's exercises are the names of its working-set rows in first-seen order; each holds exactly the sets of its own working-set rows, in row order, and at least one; Note, W, Rest Timer and non-integer rows add none |
| StrongCsvTheorems.ParseExerciseNotes | strong_to_liftlog.py:177-206 | an exercise's notes are determined by its own rows alone, as `ExerciseNotes` defines |
| StrongCsvTheorems.ParseOutcome | strong_to_liftlog.py:155-156 | parsing succeeds exactly when the first row of every workout has a valid date; a failure names the earliest row whose date is malformed |
| StrongCsvTheorems.ExerciseNotesAsLines | strong_to_liftlog.py:177-206 | an exercise's notes are the last note buffered before its first set, followed by every later non-empty note, joined by newlines |
| StrongCsvTheorems.JoinLinesAppend | strong_to_liftlog.py:180-184 | appending a note with a newline separator only when notes already exist is joining one more line |
| StrongCsvTheorems.NoteTextsNonEmpty | strong_to_liftlog.py:177-188 | only non-empty notes are collected: an empty note changes nothing |
| Builder.BuildRecordedSet | strong_to_liftlog.py:230-244 | the reps; a valid time of day equal to the workout's time plus one minute per set index, mod one day; the workout's date |
| Builder.BuildPotentialSet | strong_to_liftlog.py:247-258 | the weight unit is kilograms and the recorded set has the reps |
| Builder.PotentialSetWeight | strong_to_liftlog.py:255 | the weight is normal and within half a billionth of the weight in kilograms |
| Builder.BuildExerciseBlueprint | strong_to_liftlog.py:261-268 | the name, set count and reps per set as given, weighted, with no progression and no rest hints |
| Builder.BuildRecordedExercise | strong_to_liftlog.py:271-303 | one potential set per parsed set, the i-th with set index setOffset + i; the blueprint counts the sets and takes the first set's reps (0 with no sets); notes are present exactly when non-empty |
| Builder.RecordedExercisesAt | strong_to_liftlog.py:314-322 | the k-th recorded exercise of a session is offset by the number of sets of the exercises before it |
| Builder.BuildSession | strong_to_liftlog.py:306-324 | the session is `SessionOf`: the swapped id, name, date and notes of the workout, and one recorded exercise per exercise, in order |
| Builder.ProgramExerciseBlueprint | strong_to_liftlog.py:359-378 | the name; the set count and first set's reps, or 3 sets of 5 without sets; weighted; a 2.5 kg increase and rests of 90, 180 and 300 seconds |
| Builder.BuildSessionBlueprint | strong_to_liftlog.py:354-382 | the session blueprint is `SessionBlueprintOf`: one exercise blueprint per exercise whose name has not been seen before |
| Builder.BuildProgram | strong_to_liftlog.py:342-387 | the program is `ProgramOf`: one session blueprint per workout whose name has not been seen before, empty workouts included, dated today |
| Builder.BuildBackup | strong_to_liftlog.py:327-392 | the sessions are `SessionsOf` the workouts; the only saved program is `ProgramOf` under the program id, which is also the active program id |
| BuilderProperties.SessionSetCount | strong_to_liftlog.py:314-322 | a session has exactly as many potential sets as its workout has parsed sets |
| BuilderProperties.SessionSetIndex | strong_to_liftlog.py:294-322 | across a session the set indices run 0, 1, ..., n-1 in exercise-then-set order: the k-th potential set is built from the k-th parsed set with index k |
| BuilderProperties.PotentialSetTime | strong_to_liftlog.py:240-258 | a potential set's completion time is the workout's time plus one minute per set index, mod one day, on the workout's date |
| BuilderProperties.SetTimesAdvance | strong_to_liftlog.py:294-322 | consecutive potential sets of a session are completed one minute apart, mod one day, on the workout's date |
| BuilderProperties.SessionTimesAdvance | strong_to_liftlog.py:306-324 | in a built session, consecutive sets are one minute apart, wrapping at midnight, and carry the session's date |
| BuilderProperties.NonEmptyWorkoutsSpec | strong_to_liftlog.py:335-338 | the workouts kept are exactly those with at least one exercise |
| BuilderProperties.SessionsFollowWorkouts | strong_to_liftlog.py:335-338 | the sessions correspond one to one, in order, to the workouts with exercises; the j-th draws the j-th UUID |
| BuilderProperties.SessionExerciseCount | strong_to_liftlog.py:315-321 | a session has one recorded exercise per exercise of its workout, so it is never empty |
| BuilderProperties.ProgramSessionNames | strong_to_liftlog.py:347-352 | the program's session blueprint names are the distinct workout names in first-seen order, with no repeats |
| BuilderProperties.ProgramSessionFirst | strong_to_liftlog.py:347-382 | first seen wins: each session blueprint is built from the first workout carrying its name, and has one exercise blueprint per distinct exercise name of that workout |
| BuilderProperties.SessionBlueprintExercises | strong_to_liftlog.py:357-362 | a session blueprint's exercise names are the distinct exercise names of its workout in first-seen order, with no repeats |
| BuilderProperties.ImportedExercisesHaveSets | strong_to_liftlog.py:200-223 | every recorded exercise of a session built from parsed rows has at least one potential set, and its blueprint counts them |

## Left out

- Opening the file, UTF-8 decoding and the tokenising of `csv.DictReader`: the input is the sequence of rows, already split into named cells. A cell the reader fills with None for a short line is taken as empty.
- `datetime.strptime` and the parsing behind `float()`: a row carries the parsed date, or None, and the numbers `float()` reads, or None. Binary floating-point rounding is not modelled, and weights are exact reals.
- `int(float(x))` on a NaN reps or duration cell raises ValueError, which the source catches, so the cell gives 0. The model represents that cell as None. On an infinite cell the same call raises OverflowError, which escapes and ends the conversion. The model has no such value, because a cell is a real or None.
- A NaN or infinite weight cell (`nan`, `inf`, `1e999`) passes `float()`, but `math.floor` in `make_decimal_value` then raises and ends the conversion. Such weights are not modelled: a weight is a real.
- `int(set_order)` accepts non-ASCII Unicode digits and whitespace. The model accepts ASCII digits, ASCII whitespace, an optional sign and single underscores between digits. Since Python 3.11 (and the matching patch releases of 3.7-3.10), `int()` also rejects by default a literal of more than 4300 digits, such as `"1" * 4301`; `IsIntLiteral` accepts it, so the model counts such a row as a set where those Python versions skip it.
- `uuid.uuid4()` and `datetime.now()` are parameters of `BuildBackup`: `uuids`, `programId` and `today`.
- `make_uuid_dao` is the pair of `uuids(j)` and `UuidToGuidBytes`, and is not a member of its own.
- The protobuf runtime, `SerializeToString` and gzip: the messages are datatypes holding only the fields the converter sets. `units` (int64), `nanos` (sfixed32) and the other integer fields are unbounded.
- `main`: the command line, console output and file size.
- `duration_sec` is carried through and nothing is proved about it.
- Builder.BuildPotentialSet: its contract states the unit and the reps. The weight's accuracy is stated by the separate lemma `PotentialSetWeight`.
- Builder.BuildSessionBlueprint and Builder.BuildProgram are the two nested loops of `build_backup`, taken out as methods of their own.
