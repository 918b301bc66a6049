/**
 * What `parse_strong_csv` computes, stated per workout and per exercise in terms
 * of the input rows alone, and proved about the row loop's fold `Parse`.
 */
module StrongCsvProperties {
  import opened Wrappers
  import opened Seqs
  import opened OrderedMaps
  import opened Clock
  import opened StrongCsv

  // ---------------------------------------------------------------------------
  // Reference definitions over the rows

  predicate IsFor(r: Row, id: string, name: string)
  {
    r.workoutId == id && r.exerciseName == name
  }

  /** The "Workout #" column. */
  function WorkoutIds(rows: seq<Row>): (ids: seq<string>)
    ensures |ids| == |rows|
    ensures forall i :: 0 <= i < |rows| ==> ids[i] == rows[i].workoutId
  {
    if rows == [] then [] else WorkoutIds(rows[..|rows| - 1]) + [rows[|rows| - 1].workoutId]
  }

  /** Row `i` is the first row of its workout. */
  predicate IsFirstRowOfWorkout(rows: seq<Row>, i: int)
    requires 0 <= i < |rows|
  {
    forall j :: 0 <= j < i ==> rows[j].workoutId != rows[i].workoutId
  }

  /** The first row carrying workout id `id`. */
  function FirstRowOf(rows: seq<Row>, id: string): Row
    requires id in WorkoutIds(rows)
  {
    var pre := rows[..|rows| - 1];
    if id in WorkoutIds(pre) then FirstRowOf(pre, id) else rows[|rows| - 1]
  }

  /** The sets of exercise `name` in workout `id`: one per working-set row, in row order. */
  function SetsOf(rows: seq<Row>, id: string, name: string): seq<ParsedSet>
  {
    if rows == [] then []
    else
      var r := rows[|rows| - 1];
      var p := SetsOf(rows[..|rows| - 1], id, name);
      if IsFor(r, id, name) && IsSetRow(r) then p + [SetOf(r)] else p
  }

  /** The exercise names of the working-set rows of workout `id`, in row order. */
  function SetRowNames(rows: seq<Row>, id: string): seq<string>
  {
    if rows == [] then []
    else
      var r := rows[|rows| - 1];
      var p := SetRowNames(rows[..|rows| - 1], id);
      if r.workoutId == id && IsSetRow(r) then p + [r.exerciseName] else p
  }

  /** The text of the last non-empty Note row of exercise `name` in workout `id` ("" if none). */
  function PendingNote(rows: seq<Row>, id: string, name: string): string
  {
    if rows == [] then ""
    else
      var r := rows[|rows| - 1];
      if IsFor(r, id, name) && IsNoteRow(r) && r.notes != "" then r.notes
      else PendingNote(rows[..|rows| - 1], id, name)
  }

  /**
   * The notes of exercise `name` in workout `id`, from its own rows only: when
   * its first working set is read, the last note seen before it; after that,
   * every non-empty Note row is appended on a new line.
   */
  function ExerciseNotes(rows: seq<Row>, id: string, name: string): string
  {
    if rows == [] then ""
    else
      var r := rows[|rows| - 1];
      var pre := rows[..|rows| - 1];
      if !IsFor(r, id, name) then ExerciseNotes(pre, id, name)
      else if IsSetRow(r) && SetsOf(pre, id, name) == [] then PendingNote(pre, id, name)
      else if IsNoteRow(r) && r.notes != "" && SetsOf(pre, id, name) != [] then
        AppendNote(ExerciseNotes(pre, id, name), r.notes)
      else ExerciseNotes(pre, id, name)
  }

  /** The workout-level fields a workout takes from the row `r`. */
  predicate HasHeaderOf(w: ParsedWorkout, r: Row)
  {
    && r.date.Some?
    && w.start == r.date.value
    && w.name == WorkoutNameOf(r)
    && w.durationSec == IntOf(r.duration)
    && w.notes == r.workoutNotes
  }

  // ---------------------------------------------------------------------------
  // The loop invariant of the row loop

  ghost predicate ExerciseMatches(rows: seq<Row>, id: string, name: string, ex: ParsedExercise)
  {
    ex.name == name && ex.sets == SetsOf(rows, id, name) && ex.notes == ExerciseNotes(rows, id, name)
  }

  ghost predicate BodyMatches(rows: seq<Row>, id: string, w: ParsedWorkout)
  {
    && w.exercises.keys == Dedup(SetRowNames(rows, id))
    && (forall name :: name in w.exercises.entries ==> ExerciseMatches(rows, id, name, w.exercises.entries[name]))
    && (forall name :: name !in w.exercises.entries ==> PendingOr(w.pendingNotes, name) == PendingNote(rows, id, name))
  }

  ghost predicate WorkoutMatches(rows: seq<Row>, id: string, w: ParsedWorkout)
  {
    id in WorkoutIds(rows) && HasHeaderOf(w, FirstRowOf(rows, id)) && BodyMatches(rows, id, w)
  }

  ghost predicate Matches(rows: seq<Row>, ws: Workouts)
  {
    && ws.keys == Dedup(WorkoutIds(rows))
    && (forall id :: id in ws.entries ==> WorkoutMatches(rows, id, ws.entries[id]))
    && (forall i :: 0 <= i < |rows| && IsFirstRowOfWorkout(rows, i) ==> rows[i].date.Some?)
  }

  // ---------------------------------------------------------------------------
  // One more row

  lemma SnocPrefix(rows: seq<Row>, r: Row)
    ensures (rows + [r])[..|rows|] == rows
    ensures (rows + [r])[|rows|] == r
  {
  }

  /** A row of another exercise leaves every reference definition of this one as it was. */
  lemma OtherRowKeeps(rows: seq<Row>, r: Row, id: string, name: string)
    requires !IsFor(r, id, name)
    ensures SetsOf(rows + [r], id, name) == SetsOf(rows, id, name)
    ensures PendingNote(rows + [r], id, name) == PendingNote(rows, id, name)
    ensures ExerciseNotes(rows + [r], id, name) == ExerciseNotes(rows, id, name)
  {
    SnocPrefix(rows, r);
  }

  lemma {:induction false} SetRowNamesHasSets(rows: seq<Row>, id: string, name: string)
    ensures name in SetRowNames(rows, id) <==> SetsOf(rows, id, name) != []
  {
    if rows != [] {
      SetRowNamesHasSets(rows[..|rows| - 1], id, name);
    }
  }

  lemma {:induction false} AbsentWorkoutIsEmpty(rows: seq<Row>, id: string)
    requires id !in WorkoutIds(rows)
    ensures SetRowNames(rows, id) == []
    ensures forall name :: PendingNote(rows, id, name) == ""
  {
    if rows != [] {
      AbsentWorkoutIsEmpty(rows[..|rows| - 1], id);
    }
  }

  /** A workout that has not occurred yet matches the fresh entry `NewWorkout`. */
  lemma NewWorkoutMatches(rows: seq<Row>, r: Row)
    requires r.date.Some? && r.workoutId !in WorkoutIds(rows)
    ensures BodyMatches(rows, r.workoutId, NewWorkout(r))
  {
    AbsentWorkoutIsEmpty(rows, r.workoutId);
  }

  lemma ExerciseKeysHaveSets(rows: seq<Row>, id: string, w: ParsedWorkout, name: string)
    requires BodyMatches(rows, id, w)
    ensures name in w.exercises.entries <==> SetsOf(rows, id, name) != []
  {
    DedupSpec(SetRowNames(rows, id));
    SetRowNamesHasSets(rows, id, name);
  }

  /** A Note row keeps the working-set rows of its workout. */
  lemma NonSetRowKeepsNames(rows: seq<Row>, r: Row, id: string)
    requires !IsSetRow(r)
    ensures SetRowNames(rows + [r], id) == SetRowNames(rows, id)
  {
    SnocPrefix(rows, r);
  }

  lemma ApplyNoteMatches(rows: seq<Row>, r: Row, w: ParsedWorkout)
    requires IsNoteRow(r)
    requires BodyMatches(rows, r.workoutId, w)
    ensures BodyMatches(rows + [r], r.workoutId, AttachNote(w, r.exerciseName, r.notes))
  {
    var id, name0 := r.workoutId, r.exerciseName;
    var rows' := rows + [r];
    var w' := AttachNote(w, name0, r.notes);
    SnocPrefix(rows, r);
    NonSetRowKeepsNames(rows, r, id);
    assert w'.exercises.keys == w.exercises.keys;
    forall name | name in w'.exercises.entries
      ensures ExerciseMatches(rows', id, name, w'.exercises.entries[name])
    {
      if name == name0 {
        ExerciseKeysHaveSets(rows, id, w, name);
        assert SetsOf(rows', id, name) == SetsOf(rows, id, name);
      } else {
        OtherRowKeeps(rows, r, id, name);
      }
    }
    forall name | name !in w'.exercises.entries
      ensures PendingOr(w'.pendingNotes, name) == PendingNote(rows', id, name)
    {
      if name != name0 {
        OtherRowKeeps(rows, r, id, name);
      }
    }
  }

  /** A working-set row of `name0` adds `name0` to the exercise order unless it is already there. */
  lemma AddSetKeys(rows: seq<Row>, r: Row, w: ParsedWorkout)
    requires IsSetRow(r)
    requires w.exercises.keys == Dedup(SetRowNames(rows, r.workoutId))
    requires r.exerciseName in w.exercises.entries <==> SetsOf(rows, r.workoutId, r.exerciseName) != []
    ensures AddSet(w, r.exerciseName, SetOf(r)).exercises.keys == Dedup(SetRowNames(rows + [r], r.workoutId))
  {
    var id, name0 := r.workoutId, r.exerciseName;
    SnocPrefix(rows, r);
    SetRowNamesHasSets(rows, id, name0);
    DedupSpec(SetRowNames(rows, id));
    var names' := SetRowNames(rows + [r], id);
    assert names' == SetRowNames(rows, id) + [name0];
    assert names'[..|names'| - 1] == SetRowNames(rows, id);
  }

  /** The exercise a working-set row adds to has that row's set at its end, and unchanged notes. */
  lemma AddSetOwnExercise(rows: seq<Row>, r: Row, w: ParsedWorkout)
    requires IsSetRow(r)
    requires r.exerciseName in w.exercises.entries ==>
               ExerciseMatches(rows, r.workoutId, r.exerciseName, w.exercises.entries[r.exerciseName])
    requires r.exerciseName !in w.exercises.entries ==>
               PendingOr(w.pendingNotes, r.exerciseName) == PendingNote(rows, r.workoutId, r.exerciseName)
    requires r.exerciseName in w.exercises.entries <==> SetsOf(rows, r.workoutId, r.exerciseName) != []
    ensures var w' := AddSet(w, r.exerciseName, SetOf(r));
            ExerciseMatches(rows + [r], r.workoutId, r.exerciseName, w'.exercises.entries[r.exerciseName])
  {
    SnocPrefix(rows, r);
  }

  lemma ApplySetMatches(rows: seq<Row>, r: Row, w: ParsedWorkout)
    requires IsSetRow(r)
    requires BodyMatches(rows, r.workoutId, w)
    ensures BodyMatches(rows + [r], r.workoutId, AddSet(w, r.exerciseName, SetOf(r)))
  {
    var id, name0 := r.workoutId, r.exerciseName;
    var rows' := rows + [r];
    var w' := AddSet(w, name0, SetOf(r));
    ExerciseKeysHaveSets(rows, id, w, name0);
    AddSetKeys(rows, r, w);
    AddSetOwnExercise(rows, r, w);
    forall name | name in w'.exercises.entries
      ensures ExerciseMatches(rows', id, name, w'.exercises.entries[name])
    {
      if name != name0 {
        OtherRowKeeps(rows, r, id, name);
      }
    }
    forall name | name !in w'.exercises.entries
      ensures PendingOr(w'.pendingNotes, name) == PendingNote(rows', id, name)
    {
      OtherRowKeeps(rows, r, id, name);
    }
  }

  lemma SkippedRowMatches(rows: seq<Row>, r: Row, w: ParsedWorkout)
    requires !IsSetRow(r) && !IsNoteRow(r)
    requires BodyMatches(rows, r.workoutId, w)
    ensures BodyMatches(rows + [r], r.workoutId, w)
  {
    var id := r.workoutId;
    SnocPrefix(rows, r);
    NonSetRowKeepsNames(rows, r, id);
    forall name ensures SetsOf(rows + [r], id, name) == SetsOf(rows, id, name)
      && PendingNote(rows + [r], id, name) == PendingNote(rows, id, name)
      && ExerciseNotes(rows + [r], id, name) == ExerciseNotes(rows, id, name)
    {
    }
  }

  /** A row of workout `id` takes its entry from matching `rows` to matching `rows + [r]`. */
  lemma ApplyRowMatches(rows: seq<Row>, r: Row, w: ParsedWorkout)
    requires BodyMatches(rows, r.workoutId, w)
    ensures BodyMatches(rows + [r], r.workoutId, ApplyRow(w, r))
  {
    if IsNoteRow(r) {
      ApplyNoteMatches(rows, r, w);
    } else if IsSetRow(r) {
      ApplySetMatches(rows, r, w);
    } else {
      SkippedRowMatches(rows, r, w);
    }
  }

  /** A row of another workout leaves this workout's entry matching. */
  lemma OtherWorkoutMatches(rows: seq<Row>, r: Row, id: string, w: ParsedWorkout)
    requires r.workoutId != id
    requires WorkoutMatches(rows, id, w)
    ensures WorkoutMatches(rows + [r], id, w)
  {
    var rows' := rows + [r];
    SnocPrefix(rows, r);
    assert WorkoutIds(rows') == WorkoutIds(rows) + [r.workoutId];
    assert FirstRowOf(rows', id) == FirstRowOf(rows, id);
    assert SetRowNames(rows', id) == SetRowNames(rows, id);
    forall name ensures SetsOf(rows', id, name) == SetsOf(rows, id, name)
      && PendingNote(rows', id, name) == PendingNote(rows, id, name)
      && ExerciseNotes(rows', id, name) == ExerciseNotes(rows, id, name)
    {
      OtherRowKeeps(rows, r, id, name);
    }
  }

  /** The entry of the row's own workout after the step: created from this row if new, then updated. */
  lemma OwnWorkoutMatches(rows: seq<Row>, r: Row, w0: Option<ParsedWorkout>)
    requires w0.Some? ==> WorkoutMatches(rows, r.workoutId, w0.value)
    requires w0.None? ==> r.workoutId !in WorkoutIds(rows) && r.date.Some?
    ensures var w1 := if w0.Some? then w0.value else NewWorkout(r);
            WorkoutMatches(rows + [r], r.workoutId, ApplyRow(w1, r))
  {
    var rows' := rows + [r];
    var id := r.workoutId;
    SnocPrefix(rows, r);
    assert WorkoutIds(rows') == WorkoutIds(rows) + [id];
    var w1 := if w0.Some? then w0.value else NewWorkout(r);
    if w0.None? {
      NewWorkoutMatches(rows, r);
      assert FirstRowOf(rows', id) == r;
      assert HasHeaderOf(w1, FirstRowOf(rows', id));
    } else {
      assert FirstRowOf(rows', id) == FirstRowOf(rows, id);
      assert HasHeaderOf(w1, FirstRowOf(rows', id));
    }
    ApplyRowKeepsHeader(w1, r);
    ApplyRowMatches(rows, r, w1);
  }

  lemma ApplyRowKeepsHeader(w: ParsedWorkout, r: Row)
    ensures var w' := ApplyRow(w, r);
            w'.start == w.start && w'.name == w.name && w'.durationSec == w.durationSec && w'.notes == w.notes
  {
  }

  /** After a successful step, the first row of every workout still has a date. */
  lemma StepFirstRowsDated(rows: seq<Row>, r: Row, ws: Workouts)
    requires Matches(rows, ws)
    requires r.workoutId !in ws.entries ==> r.date.Some?
    ensures forall i :: 0 <= i < |rows + [r]| && IsFirstRowOfWorkout(rows + [r], i) ==> (rows + [r])[i].date.Some?
  {
    var rows' := rows + [r];
    SnocPrefix(rows, r);
    DedupSpec(WorkoutIds(rows));
    forall i | 0 <= i < |rows'| && IsFirstRowOfWorkout(rows', i)
      ensures rows'[i].date.Some?
    {
      if i == |rows| {
        assert r.workoutId !in WorkoutIds(rows);
      } else {
        assert IsFirstRowOfWorkout(rows, i);
      }
    }
  }

  lemma WorkoutIdsSnoc(rows: seq<Row>, r: Row)
    ensures WorkoutIds(rows + [r]) == WorkoutIds(rows) + [r.workoutId]
  {
    SnocPrefix(rows, r);
  }

  /** Adding a workout id at the end unless present keeps the workouts in first-seen order. */
  lemma StepKeys(rows: seq<Row>, r: Row, ws: Workouts)
    requires ws.keys == Dedup(WorkoutIds(rows))
    ensures (if r.workoutId in ws.entries then ws.keys else ws.keys + [r.workoutId])
         == Dedup(WorkoutIds(rows + [r]))
  {
    WorkoutIdsSnoc(rows, r);
    DedupSnoc(WorkoutIds(rows), r.workoutId);
    DedupSpec(WorkoutIds(rows));
  }

  /** Updating the row's own workout as a step does keeps every workout entry matching. */
  lemma StepEntries(rows: seq<Row>, r: Row, ws: Workouts)
    requires ws.keys == Dedup(WorkoutIds(rows))
    requires forall id :: id in ws.entries ==> WorkoutMatches(rows, id, ws.entries[id])
    requires r.workoutId !in ws.entries ==> r.date.Some?
    ensures var id := r.workoutId;
            var w := if id in ws.entries then ws.entries[id] else NewWorkout(r);
            var entries' := ws.entries[id := ApplyRow(w, r)];
            forall id' :: id' in entries' ==> WorkoutMatches(rows + [r], id', entries'[id'])
  {
    var id := r.workoutId;
    DedupSpec(WorkoutIds(rows));
    var w0 := if id in ws.entries then Some(ws.entries[id]) else None;
    var w1 := if id in ws.entries then ws.entries[id] else NewWorkout(r);
    var entries' := ws.entries[id := ApplyRow(w1, r)];
    OwnWorkoutMatches(rows, r, w0);
    forall id' | id' in entries'
      ensures WorkoutMatches(rows + [r], id', entries'[id'])
    {
      if id' != id {
        OtherWorkoutMatches(rows, r, id', ws.entries[id']);
      }
    }
  }

  lemma StepMatches(rows: seq<Row>, r: Row, ws: Workouts)
    requires Matches(rows, ws)
    requires Step(ws, r, |rows|).Ok?
    ensures Matches(rows + [r], Step(ws, r, |rows|).value)
  {
    StepShape(ws, r, |rows|);
    StepKeys(rows, r, ws);
    StepEntries(rows, r, ws);
    StepFirstRowsDated(rows, r, ws);
  }

  /** The row loop keeps the invariant: every workout entry matches the reference definitions. */
  lemma {:induction false} ParseMatches(rows: seq<Row>)
    requires Parse(rows).Ok?
    ensures Matches(rows, Parse(rows).value)
  {
    if rows != [] {
      var pre, r := rows[..|rows| - 1], rows[|rows| - 1];
      assert pre + [r] == rows;
      ParseMatches(pre);
      StepMatches(pre, r, Parse(pre).value);
    }
  }
}

module StrongCsvTheorems {
  import opened Wrappers
  import opened Seqs
  import opened OrderedMaps
  import opened Clock
  import opened StrongCsv
  import opened StrongCsvProperties

  /** Workouts appear once each, in the order their ids first occur in the rows. */
  lemma ParseWorkoutOrder(rows: seq<Row>)
    requires Parse(rows).Ok?
    ensures Parse(rows).value.keys == Dedup(WorkoutIds(rows))
    ensures Distinct(Parse(rows).value.keys)
    ensures forall id :: id in Parse(rows).value.entries <==> id in WorkoutIds(rows)
  {
    ParseMatches(rows);
    DedupSpec(WorkoutIds(rows));
  }

  lemma {:induction false} FirstRowOfAt(rows: seq<Row>, i: nat)
    requires i < |rows| && IsFirstRowOfWorkout(rows, i)
    ensures rows[i].workoutId in WorkoutIds(rows)
    ensures FirstRowOf(rows, rows[i].workoutId) == rows[i]
  {
    var pre := rows[..|rows| - 1];
    if i < |pre| {
      assert IsFirstRowOfWorkout(pre, i);
      FirstRowOfAt(pre, i);
    } else {
      assert rows[i].workoutId !in WorkoutIds(pre);
    }
  }

  /**
   * Date, name, duration and notes of a workout come from its first row alone;
   * an empty name becomes "Workout".
   */
  lemma ParseWorkoutHeader(rows: seq<Row>, i: nat)
    requires Parse(rows).Ok?
    requires i < |rows| && IsFirstRowOfWorkout(rows, i)
    ensures rows[i].workoutId in Parse(rows).value.entries
    ensures var w := Parse(rows).value.entries[rows[i].workoutId];
            && rows[i].date.Some? && w.start == rows[i].date.value
            && w.name == (if rows[i].workoutName == "" then "Workout" else rows[i].workoutName)
            && w.durationSec == IntOf(rows[i].duration)
            && w.notes == rows[i].workoutNotes
  {
    ParseMatches(rows);
    FirstRowOfAt(rows, i);
    DedupSpec(WorkoutIds(rows));
  }

  /**
   * The exercises of a workout are the names of its working-set rows, in first-seen
   * order; each holds exactly the sets of its own working-set rows, in row order,
   * and therefore at least one.
   */
  lemma ParseExercises(rows: seq<Row>, id: string)
    requires Parse(rows).Ok? && id in Parse(rows).value.entries
    ensures var exs := Parse(rows).value.entries[id].exercises;
            && exs.keys == Dedup(SetRowNames(rows, id))
            && forall name :: name in exs.entries ==>
                 && exs.entries[name].name == name
                 && exs.entries[name].sets == SetsOf(rows, id, name)
                 && |exs.entries[name].sets| > 0
  {
    ParseMatches(rows);
    var w := Parse(rows).value.entries[id];
    forall name | name in w.exercises.entries
      ensures |w.exercises.entries[name].sets| > 0
    {
      ExerciseKeysHaveSets(rows, id, w, name);
    }
  }

  /** An exercise's notes depend only on the rows of that exercise, as `ExerciseNotes` says. */
  lemma ParseExerciseNotes(rows: seq<Row>, id: string, name: string)
    requires Parse(rows).Ok? && id in Parse(rows).value.entries
    requires name in Parse(rows).value.entries[id].exercises.entries
    ensures Parse(rows).value.entries[id].exercises.entries[name].notes == ExerciseNotes(rows, id, name)
  {
    ParseMatches(rows);
  }

  /**
   * Parsing fails exactly when the first row of some workout has a malformed date,
   * and it reports the earliest such row.
   */
  lemma {:induction false} ParseOutcome(rows: seq<Row>)
    ensures Parse(rows).Ok? ==>
      forall i :: 0 <= i < |rows| && IsFirstRowOfWorkout(rows, i) ==> rows[i].date.Some?
    ensures Parse(rows).Err? ==> FailsAtFirstBadDate(rows, Parse(rows).error.rowIndex)
  {
    if Parse(rows).Ok? {
      ParseMatches(rows);
    } else {
      var pre := rows[..|rows| - 1];
      ParseOutcome(pre);
      if Parse(pre).Err? {
        assert Parse(rows) == Parse(pre);
        FailsAtFirstBadDateExtends(pre, rows[|rows| - 1], Parse(pre).error.rowIndex);
        assert pre + [rows[|rows| - 1]] == rows;
      } else {
        ParseMatches(pre);
        StepFailsAtNewWorkout(pre, rows[|rows| - 1], Parse(pre).value);
        assert pre + [rows[|rows| - 1]] == rows;
      }
    }
  }

  /** Row `k` is the earliest first row of a workout whose date is malformed. */
  predicate FailsAtFirstBadDate(rows: seq<Row>, k: nat)
  {
    && k < |rows| && IsFirstRowOfWorkout(rows, k) && rows[k].date.None?
    && forall j :: 0 <= j < k && IsFirstRowOfWorkout(rows, j) ==> rows[j].date.Some?
  }

  lemma FailsAtFirstBadDateExtends(pre: seq<Row>, r: Row, k: nat)
    requires FailsAtFirstBadDate(pre, k)
    ensures FailsAtFirstBadDate(pre + [r], k)
  {
    var rows := pre + [r];
    assert IsFirstRowOfWorkout(rows, k);
    forall j | 0 <= j < k && IsFirstRowOfWorkout(rows, j) ensures rows[j].date.Some? {
      assert forall j' :: 0 <= j' <= j ==> rows[j'] == pre[j'];
      assert IsFirstRowOfWorkout(pre, j);
    }
  }

  lemma StepFailsAtNewWorkout(pre: seq<Row>, r: Row, ws: Workouts)
    requires Matches(pre, ws)
    requires Step(ws, r, |pre|).Err?
    ensures Step(ws, r, |pre|).error.rowIndex == |pre|
    ensures FailsAtFirstBadDate(pre + [r], |pre|)
  {
    var rows := pre + [r];
    DedupSpec(WorkoutIds(pre));
    assert r.workoutId !in WorkoutIds(pre);
    assert IsFirstRowOfWorkout(rows, |pre|);
    forall j | 0 <= j < |pre| && IsFirstRowOfWorkout(rows, j) ensures rows[j].date.Some? {
      assert forall j' :: 0 <= j' <= j ==> rows[j'] == pre[j'];
      assert IsFirstRowOfWorkout(pre, j);
    }
  }

  // ---------------------------------------------------------------------------
  // Notes as a newline-joined list

  /** The non-empty Note texts of exercise `name` in workout `id`, in row order. */
  function NoteTexts(rows: seq<Row>, id: string, name: string): seq<string>
  {
    if rows == [] then []
    else
      var r := rows[|rows| - 1];
      var p := NoteTexts(rows[..|rows| - 1], id, name);
      if IsFor(r, id, name) && IsNoteRow(r) && r.notes != "" then p + [r.notes] else p
  }

  function NonEmptyOnly(s: string): seq<string>
  {
    if s == "" then [] else [s]
  }

  predicate AllNonEmpty(xs: seq<string>)
  {
    forall i :: 0 <= i < |xs| ==> xs[i] != ""
  }

  lemma {:induction false} NoteTextsNonEmpty(rows: seq<Row>, id: string, name: string)
    ensures AllNonEmpty(NoteTexts(rows, id, name))
  {
    if rows != [] {
      NoteTextsNonEmpty(rows[..|rows| - 1], id, name);
    }
  }

  lemma {:induction false} JoinLinesEmpty(xs: seq<string>)
    requires AllNonEmpty(xs)
    ensures JoinLines(xs) == "" <==> xs == []
  {
    if |xs| > 1 {
      JoinLinesEmpty(xs[..|xs| - 1]);
    }
  }

  /** Appending a note as the source does is joining one more line. */
  lemma JoinLinesAppend(xs: seq<string>, note: string)
    requires AllNonEmpty(xs)
    ensures AppendNote(JoinLines(xs), note) == JoinLines(xs + [note])
  {
    JoinLinesEmpty(xs);
    assert (xs + [note])[..|xs|] == xs;
  }

  lemma {:induction false} SetRowGivesSets(rows: seq<Row>, id: string, name: string, c: nat)
    requires c < |rows| && IsFor(rows[c], id, name) && IsSetRow(rows[c])
    ensures SetsOf(rows, id, name) != []
  {
    if c < |rows| - 1 {
      SetRowGivesSets(rows[..|rows| - 1], id, name, c);
    }
  }

  /** Once an exercise has a set, a further row of it can only append a note. */
  lemma ExerciseNotesAfterFirstSet(rows: seq<Row>, id: string, name: string)
    requires rows != [] && SetsOf(rows[..|rows| - 1], id, name) != []
    ensures var r := rows[|rows| - 1];
            var before := ExerciseNotes(rows[..|rows| - 1], id, name);
            ExerciseNotes(rows, id, name)
              == if IsFor(r, id, name) && IsNoteRow(r) && r.notes != "" then AppendNote(before, r.notes) else before
  {
  }

  lemma NoteTextsSnoc(pre: seq<Row>, r: Row, id: string, name: string)
    ensures NoteTexts(pre + [r], id, name)
         == NoteTexts(pre, id, name) + (if IsFor(r, id, name) && IsNoteRow(r) && r.notes != "" then [r.notes] else [])
  {
    assert (pre + [r])[..|pre|] == pre;
  }

  /**
   * With `c` the first working-set row of the exercise: its notes are the last
   * note buffered before row `c` (a later buffered note overwrites an earlier one),
   * followed by every non-empty note after row `c`, joined by newlines.
   */
  lemma {:induction false} ExerciseNotesAsLines(rows: seq<Row>, id: string, name: string, c: nat)
    requires c < |rows| && IsFor(rows[c], id, name) && IsSetRow(rows[c])
    requires SetsOf(rows[..c], id, name) == []
    ensures ExerciseNotes(rows, id, name)
         == JoinLines(NonEmptyOnly(PendingNote(rows[..c], id, name)) + NoteTexts(rows[c + 1..], id, name))
  {
    var pre := rows[..|rows| - 1];
    if c == |rows| - 1 {
      assert pre == rows[..c];
      assert rows[c + 1..] == [];
    } else {
      assert pre[..c] == rows[..c] && pre[c] == rows[c];
      ExerciseNotesAsLines(pre, id, name, c);
      ExerciseNotesLaterRow(rows, id, name, c, NonEmptyOnly(PendingNote(rows[..c], id, name)));
    }
  }

  /** The step of `ExerciseNotesAsLines` for a row after the first working set. */
  lemma ExerciseNotesLaterRow(rows: seq<Row>, id: string, name: string, c: nat, pending: seq<string>)
    requires c < |rows| - 1 && IsFor(rows[c], id, name) && IsSetRow(rows[c])
    requires AllNonEmpty(pending)
    requires ExerciseNotes(rows[..|rows| - 1], id, name)
          == JoinLines(pending + NoteTexts(rows[..|rows| - 1][c + 1..], id, name))
    ensures ExerciseNotes(rows, id, name) == JoinLines(pending + NoteTexts(rows[c + 1..], id, name))
  {
    var pre := rows[..|rows| - 1];
    var r := rows[|rows| - 1];
    assert pre[c] == rows[c];
    SetRowGivesSets(pre, id, name, c);
    ExerciseNotesAfterFirstSet(rows, id, name);
    NoteTextsSuffixSnoc(rows, id, name, c);
    var later := NoteTexts(pre[c + 1..], id, name);
    if IsFor(r, id, name) && IsNoteRow(r) && r.notes != "" {
      NoteTextsNonEmpty(pre[c + 1..], id, name);
      JoinLinesAppendAfter(pending, later, r.notes);
    } else {
      assert later + [] == later;
    }
  }

  lemma NoteTextsSuffixSnoc(rows: seq<Row>, id: string, name: string, c: nat)
    requires c < |rows| - 1
    ensures NoteTexts(rows[c + 1..], id, name)
         == NoteTexts(rows[..|rows| - 1][c + 1..], id, name)
          + (var r := rows[|rows| - 1]; if IsFor(r, id, name) && IsNoteRow(r) && r.notes != "" then [r.notes] else [])
  {
    var pre := rows[..|rows| - 1];
    assert rows[c + 1..] == pre[c + 1..] + [rows[|rows| - 1]];
    NoteTextsSnoc(pre[c + 1..], rows[|rows| - 1], id, name);
  }

  lemma JoinLinesAppendAfter(pending: seq<string>, later: seq<string>, note: string)
    requires AllNonEmpty(pending) && AllNonEmpty(later)
    ensures AppendNote(JoinLines(pending + later), note) == JoinLines(pending + (later + [note]))
  {
    assert AllNonEmpty(pending + later);
    JoinLinesAppend(pending + later, note);
    assert pending + later + [note] == pending + (later + [note]);
  }
}
