/**
 * CSV parsing: grouping the rows of a Strong export into workouts, exercises
 * and sets (`parse_strong_csv`).
 */
module StrongCsv {
  import opened Wrappers
  import opened Seqs
  import opened OrderedMaps
  import opened Clock

  /**
   * One row of the export, already split into its named columns. A numeric cell
   * holds the value `float()` reads from it, or None when the cell is empty or
   * `float()` rejects it; `date` is None when `strptime` rejects the Date cell.
   */
  datatype Row = Row(
    workoutId: string,         // "Workout #"
    date: Option<DateTime>,    // "Date"
    workoutName: string,       // "Workout Name"
    duration: Option<real>,    // "Duration (sec)"
    workoutNotes: string,      // "Workout Notes"
    exerciseName: string,      // "Exercise Name"
    setOrder: string,          // "Set Order"
    weight: Option<real>,      // "Weight (kg)"
    reps: Option<real>,        // "Reps"
    notes: string              // "Notes"
  )

  datatype ParsedSet = ParsedSet(weight: real, reps: int)

  datatype ParsedExercise = ParsedExercise(name: string, notes: string, sets: seq<ParsedSet>)

  /**
   * A workout entry. `pendingNotes` is the `_pending_notes` side table: notes
   * seen for exercises of this workout that had no set yet.
   */
  datatype ParsedWorkout = ParsedWorkout(
    start: DateTime,
    name: string,
    durationSec: int,
    notes: string,
    exercises: OrderedDict<string, ParsedExercise>,
    pendingNotes: map<string, string>
  )

  type Workouts = OrderedDict<string, ParsedWorkout>

  /** `strptime` raised on the Date cell of the row with this index. */
  datatype ParseError = MalformedDate(rowIndex: nat)

  const NoteMarker: string := "Note"
  const WarmupMarker: string := "W"
  const RestTimerMarker: string := "Rest Timer"
  const DefaultWorkoutName: string := "Workout"

  // ---------------------------------------------------------------------------
  // Cell conversions

  /** Python's `int(x)` on a float: truncation toward zero. */
  function TruncateToInt(x: real): (n: int)
    ensures 0.0 <= x ==> 0 <= n && n as real <= x < n as real + 1.0
    ensures x < 0.0 ==> n <= 0 && n as real - 1.0 < x <= n as real
  {
    if x >= 0.0 then x.Floor else -((-x).Floor)
  }

  /** Weight in kilograms; an empty or unparsable cell counts as 0.0. */
  function WeightOf(cell: Option<real>): (w: real)
    ensures cell.None? ==> w == 0.0
    ensures cell.Some? ==> w == cell.value
  {
    match cell
    case Some(x) => x
    case None => 0.0
  }

  /** `int(float(cell))`, or 0 for an empty or unparsable cell (reps, duration). */
  function IntOf(cell: Option<real>): (n: int)
    ensures cell.None? ==> n == 0
    ensures cell.Some? ==> n == TruncateToInt(cell.value)
  {
    match cell
    case Some(x) => TruncateToInt(x)
    case None => 0
  }

  /** The set a working-set row contributes. */
  function SetOf(r: Row): ParsedSet
  {
    ParsedSet(WeightOf(r.weight), IntOf(r.reps))
  }

  // ---------------------------------------------------------------------------
  // Python's int(str) on ASCII text

  /** The ASCII whitespace `int()` strips: space and `\t\n\v\f\r`. */
  predicate IsSpace(c: char)
  {
    c == ' ' || (9 <= c as int <= 13)
  }

  predicate IsDigit(c: char)
  {
    '0' <= c <= '9'
  }

  function StripLeft(s: string): string
  {
    if |s| > 0 && IsSpace(s[0]) then StripLeft(s[1..]) else s
  }

  function StripRight(s: string): string
  {
    if |s| > 0 && IsSpace(s[|s| - 1]) then StripRight(s[..|s| - 1]) else s
  }

  /** Decimal digits, where a single `_` may separate two digits. */
  predicate IsDigitGroups(s: string)
  {
    && |s| > 0
    && (forall i :: 0 <= i < |s| ==> IsDigit(s[i]) || s[i] == '_')
    && (forall i :: 0 <= i < |s| && s[i] == '_' ==> 0 < i < |s| - 1 && IsDigit(s[i - 1]) && IsDigit(s[i + 1]))
  }

  /** Whether `int(s)` succeeds: surrounding whitespace, an optional sign, then digit groups. */
  predicate IsIntLiteral(s: string)
  {
    var t := StripRight(StripLeft(s));
    var body := if |t| > 0 && (t[0] == '+' || t[0] == '-') then t[1..] else t;
    IsDigitGroups(body)
  }

  /**
   * What `int()` accepts as a set order: surrounding whitespace, a sign, leading
   * zeros and single underscores between digits.
   */
  lemma IntLiteralAccepted()
    ensures IsIntLiteral(" 12 ") && IsIntLiteral("1_0") && IsIntLiteral("-3") && IsIntLiteral("007")
  {
    assert " 12 "[1..] == "12 " && "12 "[..2] == "12";
    assert StripRight(StripLeft(" 12 ")) == "12";
    assert StripRight(StripLeft("1_0")) == "1_0";
    assert StripRight(StripLeft("-3")) == "-3" && "-3"[1..] == "3";
    assert StripRight(StripLeft("007")) == "007";
  }

  /** What `int()` rejects: a leading or doubled underscore, a space after the sign, a tag, an empty cell. */
  lemma IntLiteralRejected()
    ensures !IsIntLiteral("_1") && !IsIntLiteral("1__0") && !IsIntLiteral("+ 1")
    ensures !IsIntLiteral("W") && !IsIntLiteral("")
    ensures !IsIntLiteral("\U{1c}5") && !IsIntLiteral("5\U{1f}")
  {
    assert StripRight(StripLeft("_1")) == "_1" && "_1"[0] == '_';
    assert StripRight(StripLeft("1__0")) == "1__0" && "1__0"[1] == '_' && "1__0"[2] == '_';
    assert StripRight(StripLeft("+ 1")) == "+ 1" && "+ 1"[1..] == " 1" && " 1"[0] == ' ';
    assert StripRight(StripLeft("W")) == "W" && "W"[0] == 'W';
    assert StripRight(StripLeft("\U{1c}5")) == "\U{1c}5" && "\U{1c}5"[0] == '\U{1c}';
    assert StripRight(StripLeft("5\U{1f}")) == "5\U{1f}" && "5\U{1f}"[1] == '\U{1f}';
  }

  // ---------------------------------------------------------------------------
  // One row

  /** A row that survives all three skips and appends a set. */
  predicate IsSetRow(r: Row)
  {
    r.setOrder != NoteMarker && r.setOrder != WarmupMarker && r.setOrder != RestTimerMarker
    && IsIntLiteral(r.setOrder)
  }

  predicate IsNoteRow(r: Row)
  {
    r.setOrder == NoteMarker
  }

  /** `row["Workout Name"] or "Workout"`. */
  function WorkoutNameOf(r: Row): (name: string)
    ensures name == (if r.workoutName == "" then DefaultWorkoutName else r.workoutName)
    ensures name != ""
  {
    if r.workoutName == "" then DefaultWorkoutName else r.workoutName
  }

  /** The workout entry created from the first row of a workout. */
  function NewWorkout(r: Row): ParsedWorkout
    requires r.date.Some?
  {
    ParsedWorkout(r.date.value, WorkoutNameOf(r), IntOf(r.duration), r.workoutNotes, EmptyMap(), map[])
  }

  /** `existing + "\n" + note` when notes already exist, else `note`. */
  function AppendNote(existing: string, note: string): string
  {
    if existing != "" then existing + "\n" + note else note
  }

  function PendingOr(pending: map<string, string>, name: string): string
  {
    if name in pending then pending[name] else ""
  }

  /** A non-empty Note row: appended to an existing exercise's notes, otherwise buffered. */
  function AttachNote(w: ParsedWorkout, name: string, note: string): ParsedWorkout
  {
    if note != "" && name in w.exercises.entries then
      var ex := w.exercises.entries[name];
      w.(exercises := w.exercises.Put(name, ex.(notes := AppendNote(ex.notes, note))))
    else if note != "" then
      w.(pendingNotes := w.pendingNotes[name := note])
    else w
  }

  /** A working-set row: the set goes at the end of its exercise, created first if need be. */
  function AddSet(w: ParsedWorkout, name: string, s: ParsedSet): ParsedWorkout
  {
    var ex := if name in w.exercises.entries then w.exercises.entries[name]
              else ParsedExercise(name, PendingOr(w.pendingNotes, name), []);
    w.(exercises := w.exercises.Put(name, ex.(sets := ex.sets + [s])))
  }

  /** What a row does to the workout it belongs to. */
  function ApplyRow(w: ParsedWorkout, r: Row): ParsedWorkout
  {
    if IsNoteRow(r) then AttachNote(w, r.exerciseName, r.notes)
    else if r.setOrder == WarmupMarker || r.setOrder == RestTimerMarker then w
    else if !IsIntLiteral(r.setOrder) then w
    else AddSet(w, r.exerciseName, SetOf(r))
  }

  /** One iteration of the row loop; `index` is the row's position, for the error. */
  function Step(ws: Workouts, r: Row, index: nat): Result<Workouts, ParseError>
  {
    if r.workoutId !in ws.entries && r.date.None? then Err(MalformedDate(index))
    else
      var ws1 := if r.workoutId in ws.entries then ws else ws.Put(r.workoutId, NewWorkout(r));
      Ok(ws1.Put(r.workoutId, ApplyRow(ws1.entries[r.workoutId], r)))
  }

  /**
   * A step fails exactly on the first row of a workout whose date is malformed.
   * Otherwise only the row's own workout changes: a new id goes to the end of the
   * order, created from this row, and its entry is updated by the row.
   */
  lemma StepShape(ws: Workouts, r: Row, index: nat)
    ensures Step(ws, r, index).Err? <==> r.workoutId !in ws.entries && r.date.None?
    ensures Step(ws, r, index).Err? ==> Step(ws, r, index).error == MalformedDate(index)
    ensures Step(ws, r, index).Ok? ==>
              var id := r.workoutId;
              var w := if id in ws.entries then ws.entries[id] else NewWorkout(r);
              && Step(ws, r, index).value.keys == (if id in ws.entries then ws.keys else ws.keys + [id])
              && Step(ws, r, index).value.entries == ws.entries[id := ApplyRow(w, r)]
  {
  }

  /** The whole row loop, as a fold over the rows; the first error stops it. */
  function Parse(rows: seq<Row>): Result<Workouts, ParseError>
  {
    if rows == [] then Ok(EmptyMap())
    else
      match Parse(rows[..|rows| - 1])
      case Err(e) => Err(e)
      case Ok(ws) => Step(ws, rows[|rows| - 1], |rows| - 1)
  }

  /** The fold over one more row is one more step. */
  lemma ParseSnoc(rows: seq<Row>, i: nat)
    requires i < |rows| && Parse(rows[..i]).Ok?
    ensures Parse(rows[..i + 1]) == Step(Parse(rows[..i]).value, rows[i], i)
  {
    assert rows[..i + 1][..i] == rows[..i];
  }

  /** Once the fold has failed on a prefix, it fails the same way on the whole input. */
  lemma {:induction false} ParseErrorSticks(rows: seq<Row>, n: nat)
    requires n <= |rows| && Parse(rows[..n]).Err?
    ensures Parse(rows) == Parse(rows[..n])
    decreases |rows| - n
  {
    if n < |rows| {
      assert rows[..n + 1][..n] == rows[..n];
      ParseErrorSticks(rows, n + 1);
    } else {
      assert rows[..n] == rows;
    }
  }

  /**
   * One pass of the loop body over row `i`: `ws1` is the map once the row's
   * workout exists, and the row is applied to that workout's entry.
   */
  lemma LoopStep(rows: seq<Row>, i: nat, before: Workouts, ws1: Workouts, after: Workouts)
    requires i < |rows| && Parse(rows[..i]) == Ok(before)
    requires rows[i].workoutId in before.entries || rows[i].date.Some?
    requires ws1 == if rows[i].workoutId in before.entries then before
                    else before.Put(rows[i].workoutId, NewWorkout(rows[i]))
    requires after == ws1.Put(rows[i].workoutId, ApplyRow(ws1.entries[rows[i].workoutId], rows[i]))
    ensures Parse(rows[..i + 1]) == Ok(after)
  {
    ParseSnoc(rows, i);
  }

  // ---------------------------------------------------------------------------
  // The row loop

  /** `parse_strong_csv`, given the rows the CSV reader yields. */
  method ParseStrongCsv(rows: seq<Row>) returns (result: Result<Workouts, ParseError>)
    ensures result == Parse(rows)
  {
    var workouts: Workouts := EmptyMap();
    var i := 0;
    assert rows[..i] == [];
    assert Parse(rows[..i]) == Ok(workouts);
    while i < |rows|
      invariant 0 <= i <= |rows|
      invariant Parse(rows[..i]) == Ok(workouts)
    {
      var row := rows[i];
      ghost var before := workouts;
      var workoutId := row.workoutId;
      if workoutId !in workouts.entries {
        if row.date.None? {
          StepShape(workouts, row, i);
          ParseSnoc(rows, i);
          ParseErrorSticks(rows, i + 1);
          return Err(MalformedDate(i));
        }
        workouts := workouts.Put(workoutId, NewWorkout(row));
      }
      var setOrder := row.setOrder;
      var exerciseName := row.exerciseName;
      ghost var ws1 := workouts;
      var workout := workouts.entries[workoutId];
      ghost var applied0 := workout;
      if setOrder == NoteMarker {
        var note := row.notes;
        if note != "" && exerciseName in workout.exercises.entries {
          var exercise := workout.exercises.entries[exerciseName];
          var existing := exercise.notes;
          if existing != "" {
            exercise := exercise.(notes := existing + "\n" + note);
          } else {
            exercise := exercise.(notes := note);
          }
          workout := workout.(exercises := workout.exercises.Put(exerciseName, exercise));
        } else if note != "" {
          workout := workout.(pendingNotes := workout.pendingNotes[exerciseName := note]);
        }
        assert workout == AttachNote(applied0, exerciseName, note);
      } else if setOrder == WarmupMarker || setOrder == RestTimerMarker {
        // warm-up sets and rest timers are skipped
      } else if !IsIntLiteral(setOrder) {
        // rows without a numeric set order are skipped
      } else {
        var exercise: ParsedExercise;
        if exerciseName in workout.exercises.entries {
          exercise := workout.exercises.entries[exerciseName];
        } else {
          var pending := if exerciseName in workout.pendingNotes then workout.pendingNotes[exerciseName] else "";
          exercise := ParsedExercise(exerciseName, pending, []);
        }
        var weight := 0.0;
        if row.weight.Some? {
          weight := row.weight.value;
        }
        var reps := 0;
        if row.reps.Some? {
          reps := TruncateToInt(row.reps.value);
        }
        assert ParsedSet(weight, reps) == SetOf(row);
        exercise := exercise.(sets := exercise.sets + [ParsedSet(weight, reps)]);
        workout := workout.(exercises := workout.exercises.Put(exerciseName, exercise));
        assert workout == AddSet(applied0, exerciseName, SetOf(row));
      }
      assert workout == ApplyRow(applied0, row);
      workouts := workouts.Put(workoutId, workout);
      LoopStep(rows, i, before, ws1, workouts);
      i := i + 1;
    }
    assert rows[..i] == rows;
    return Ok(workouts);
  }
}
