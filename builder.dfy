/**
 * Building the LiftLog backup from the parsed workouts: sessions with their
 * recorded exercises and sets, and the synthetic saved program.
 */
module Builder {
  import opened Wrappers
  import opened Seqs
  import opened OrderedMaps
  import opened Guids
  import opened Decimals
  import opened Clock
  import opened StrongCsv
  import opened LiftLog

  /** Synthetic spacing between the completion times of consecutive sets. */
  const SecondsBetweenSets: int := 60

  const ProgramName: string := "Imported from Strong"

  /** Blueprint fallbacks for an exercise without sets. */
  const FallbackSets: int := 3
  const FallbackReps: int := 5

  /** Weight increase on success of every program exercise, in kilograms. */
  const WeightIncrease: real := 2.5

  /** Rest hints of every program exercise: 90 s, 180 s and 300 s after a failure. */
  const DefaultRest: Rest := Rest(90, 180, 300)

  // ---------------------------------------------------------------------------
  // Sets and blueprints

  /**
   * `build_recorded_set`: the set is completed on the workout's date, at the
   * workout's time of day plus one minute per set before it, wrapped into the day.
   */
  function BuildRecordedSet(reps: int, dt: DateTime, setIndex: int): (rs: RecordedSet)
    ensures rs.repsCompleted == reps
    ensures IsValidTime(rs.completionTime)
    ensures TimeSeconds(rs.completionTime) == (SecondOfDay(dt) + setIndex * SecondsBetweenSets) % SecondsPerDay
    ensures rs.completionDate == DateOnly(dt.year, dt.month, dt.day)
  {
    RecordedSet(reps, MakeTimeDao(dt, setIndex * SecondsBetweenSets), MakeDateDao(dt))
  }

  /** `build_potential_set`: the weight in kilograms to the nearest billionth, and the recorded set. */
  function BuildPotentialSet(weightKg: real, reps: int, dt: DateTime, setIndex: int): (ps: PotentialSet)
    ensures ps.weightUnit == WeightUnitKg
    ensures ps.recordedSet.repsCompleted == reps
  {
    PotentialSet(MakeDecimalValue(weightKg), WeightUnitKg, BuildRecordedSet(reps, dt, setIndex))
  }

  /** The weight of a potential set is the weight in kilograms, to the nearest billionth. */
  lemma PotentialSetWeight(weightKg: real, reps: int, dt: DateTime, setIndex: int)
    ensures var w := BuildPotentialSet(weightKg, reps, dt, setIndex).weightValue;
            IsNormal(w) && -1.0 / 2.0 <= (ToReal(w) - weightKg) * NanoFactor as real <= 1.0 / 2.0
  {
  }

  /** `build_exercise_blueprint`: a minimal weighted blueprint without progression or rest hints. */
  function BuildExerciseBlueprint(name: string, numSets: int, repsPerSet: int): (bp: ExerciseBlueprint)
    ensures bp.name == name && bp.sets == numSets && bp.repsPerSet == repsPerSet
    ensures bp.exerciseType == ExerciseTypeWeighted
    ensures bp.weightIncreaseOnSuccess.None? && bp.restBetweenSets.None?
  {
    ExerciseBlueprint(name, numSets, repsPerSet, ExerciseTypeWeighted, None, None)
  }

  // ---------------------------------------------------------------------------
  // Recorded exercises and sessions, as functions

  /** The recorded exercise built from `ex` when `setOffset` sets of the session precede it. */
  function RecordedExerciseOf(ex: ParsedExercise, dt: DateTime, setOffset: nat): RecordedExercise
  {
    var repsFirst := if |ex.sets| > 0 then ex.sets[0].reps else 0;
    RecordedExercise(
      BuildExerciseBlueprint(ex.name, |ex.sets|, repsFirst),
      ExerciseTypeWeighted,
      if ex.notes != "" then Some(ex.notes) else None,
      seq(|ex.sets|, i requires 0 <= i < |ex.sets| =>
        BuildPotentialSet(ex.sets[i].weight, ex.sets[i].reps, dt, setOffset + i)))
  }

  /** Potential sets numbered on from `setOffset` are those of `RecordedExerciseOf`. */
  lemma PotentialSetsOf(ex: ParsedExercise, dt: DateTime, setOffset: nat, ps: seq<PotentialSet>)
    requires |ps| == |ex.sets|
    requires forall k :: 0 <= k < |ex.sets| ==>
               ps[k] == BuildPotentialSet(ex.sets[k].weight, ex.sets[k].reps, dt, setOffset + k)
    ensures ps == RecordedExerciseOf(ex, dt, setOffset).potentialSets
  {
  }

  /** All sets of the exercises, exercise by exercise. */
  function AllSets(exs: seq<ParsedExercise>): seq<ParsedSet>
  {
    if exs == [] then [] else AllSets(exs[..|exs| - 1]) + exs[|exs| - 1].sets
  }

  /** The running `cumulative_sets` counter after the exercises `exs`. */
  function TotalSets(exs: seq<ParsedExercise>): (n: nat)
    ensures n == |AllSets(exs)|
  {
    if exs == [] then 0 else TotalSets(exs[..|exs| - 1]) + |exs[|exs| - 1].sets|
  }

  /** The recorded exercises of a session: each exercise offset by the sets of the exercises before it. */
  function RecordedExercisesOf(exs: seq<ParsedExercise>, dt: DateTime): (rs: seq<RecordedExercise>)
    ensures |rs| == |exs|
  {
    if exs == [] then []
    else
      var pre := exs[..|exs| - 1];
      RecordedExercisesOf(pre, dt) + [RecordedExerciseOf(exs[|exs| - 1], dt, TotalSets(pre))]
  }

  /** The k-th recorded exercise is offset by the sets of the exercises before it. */
  lemma {:induction false} RecordedExercisesAt(exs: seq<ParsedExercise>, dt: DateTime, k: nat)
    requires k < |exs|
    ensures RecordedExercisesOf(exs, dt)[k] == RecordedExerciseOf(exs[k], dt, TotalSets(exs[..k]))
  {
    var pre := exs[..|exs| - 1];
    if k < |pre| {
      RecordedExercisesAt(pre, dt, k);
      assert pre[..k] == exs[..k];
    } else {
      assert pre == exs[..k];
    }
  }

  lemma RecordedExercisesSnoc(exs: seq<ParsedExercise>, dt: DateTime, i: nat)
    requires i < |exs|
    ensures RecordedExercisesOf(exs[..i + 1], dt)
         == RecordedExercisesOf(exs[..i], dt) + [RecordedExerciseOf(exs[i], dt, TotalSets(exs[..i]))]
    ensures TotalSets(exs[..i + 1]) == TotalSets(exs[..i]) + |exs[i].sets|
  {
    assert exs[..i + 1][..i] == exs[..i];
  }

  /** The session built from workout `w`, given the random UUID drawn for it. */
  function SessionOf(w: ParsedWorkout, rawId: Uuid): Session
  {
    Session(UuidToGuidBytes(rawId), w.name, MakeDateDao(w.start), w.notes,
            RecordedExercisesOf(w.exercises.Values(), w.start))
  }

  /** `if workout_data["exercises"]`: the workout has at least one exercise. */
  predicate HasExercises(w: ParsedWorkout)
  {
    w.exercises.keys != []
  }

  /** The sessions of the backup: one per workout with exercises, the j-th drawing UUID `uuids(j)`. */
  function SessionsOf(ws: seq<ParsedWorkout>, uuids: nat -> Uuid): seq<Session>
  {
    if ws == [] then []
    else
      var p := SessionsOf(ws[..|ws| - 1], uuids);
      if HasExercises(ws[|ws| - 1]) then p + [SessionOf(ws[|ws| - 1], uuids(|p|))] else p
  }

  lemma SessionsSnoc(ws: seq<ParsedWorkout>, uuids: nat -> Uuid, i: nat)
    requires i < |ws|
    ensures var p := SessionsOf(ws[..i], uuids);
            SessionsOf(ws[..i + 1], uuids) == if HasExercises(ws[i]) then p + [SessionOf(ws[i], uuids(|p|))] else p
  {
    assert ws[..i + 1][..i] == ws[..i];
  }

  /** The workouts that have exercises, in order. */
  function NonEmptyWorkouts(ws: seq<ParsedWorkout>): seq<ParsedWorkout>
  {
    if ws == [] then []
    else
      var p := NonEmptyWorkouts(ws[..|ws| - 1]);
      if HasExercises(ws[|ws| - 1]) then p + [ws[|ws| - 1]] else p
  }

  // ---------------------------------------------------------------------------
  // The saved program, as functions

  function WorkoutName(w: ParsedWorkout): string
  {
    w.name
  }

  function ExerciseName(ex: ParsedExercise): string
  {
    ex.name
  }

  function SessionBlueprintName(bp: SessionBlueprint): string
  {
    bp.name
  }

  function ExerciseBlueprintName(bp: ExerciseBlueprint): string
  {
    bp.name
  }

  /**
   * The program's blueprint of an exercise: its set count and first set's reps,
   * or 3 sets of 5 when it has no sets; weighted, with fixed progression and rest hints.
   */
  function ProgramExerciseBlueprint(ex: ParsedExercise): (bp: ExerciseBlueprint)
    ensures bp.name == ex.name && bp.exerciseType == ExerciseTypeWeighted
    ensures |ex.sets| > 0 ==> bp.sets == |ex.sets| && bp.repsPerSet == ex.sets[0].reps
    ensures |ex.sets| == 0 ==> bp.sets == FallbackSets && bp.repsPerSet == FallbackReps
    ensures bp.sets > 0
    ensures bp.weightIncreaseOnSuccess == Some(DecimalValue(2, 500_000_000))
    ensures bp.restBetweenSets == Some(Rest(90, 180, 300))
  {
    MakeDecimalExample();
    var reps := if |ex.sets| > 0 then ex.sets[0].reps else FallbackReps;
    ExerciseBlueprint(ex.name, if |ex.sets| > 0 then |ex.sets| else FallbackSets, reps,
                      ExerciseTypeWeighted, Some(MakeDecimalValue(WeightIncrease)), Some(DefaultRest))
  }

  /** The session blueprint of a workout: one exercise blueprint per distinct exercise name, first seen wins. */
  function SessionBlueprintOf(w: ParsedWorkout): SessionBlueprint
  {
    SessionBlueprint(w.name, MapSeq(FirstByKey(w.exercises.Values(), ExerciseName), ProgramExerciseBlueprint))
  }

  /** The saved program: one session blueprint per distinct workout name, first seen wins. */
  function ProgramOf(ws: seq<ParsedWorkout>, today: DateTime): ProgramBlueprint
  {
    ProgramBlueprint(ProgramName, MapSeq(FirstByKey(ws, WorkoutName), SessionBlueprintOf), MakeDateDao(today))
  }

  // ---------------------------------------------------------------------------
  // The building loops

  /**
   * `build_recorded_exercise`: one potential set per parsed set, numbered on from
   * `setOffset`; the blueprint counts the sets and takes the first set's reps;
   * notes are set only when non-empty.
   */
  method BuildRecordedExercise(ex: ParsedExercise, dt: DateTime, setOffset: nat) returns (recEx: RecordedExercise)
    ensures |recEx.potentialSets| == |ex.sets|
    ensures forall i :: 0 <= i < |ex.sets| ==>
              recEx.potentialSets[i] == BuildPotentialSet(ex.sets[i].weight, ex.sets[i].reps, dt, setOffset + i)
    ensures recEx.blueprint.name == ex.name && recEx.blueprint.sets == |ex.sets|
    ensures recEx.blueprint.repsPerSet == if |ex.sets| > 0 then ex.sets[0].reps else 0
    ensures recEx.exerciseType == ExerciseTypeWeighted
    ensures recEx.notes.Some? <==> ex.notes != ""
    ensures recEx.notes.Some? ==> recEx.notes.value == ex.notes
    ensures recEx == RecordedExerciseOf(ex, dt, setOffset)
  {
    var sets := ex.sets;
    var name := ex.name;
    var repsFirst := if |sets| > 0 then sets[0].reps else 0;
    var blueprint := BuildExerciseBlueprint(name, |sets|, repsFirst);
    recEx := RecordedExercise(blueprint, ExerciseTypeWeighted, None, []);
    if ex.notes != "" {
      recEx := recEx.(notes := Some(ex.notes));
    }
    var i := 0;
    while i < |sets|
      invariant 0 <= i <= |sets|
      invariant recEx.blueprint == blueprint && recEx.exerciseType == ExerciseTypeWeighted
      invariant recEx.notes == if ex.notes != "" then Some(ex.notes) else None
      invariant |recEx.potentialSets| == i
      invariant forall k :: 0 <= k < i ==>
                  recEx.potentialSets[k] == BuildPotentialSet(sets[k].weight, sets[k].reps, dt, setOffset + k)
    {
      var ps := BuildPotentialSet(sets[i].weight, sets[i].reps, dt, setOffset + i);
      recEx := recEx.(potentialSets := recEx.potentialSets + [ps]);
      i := i + 1;
    }
    PotentialSetsOf(ex, dt, setOffset, recEx.potentialSets);
  }

  /** `build_session`: the exercises in order, with a running count of the sets before each. */
  method BuildSession(w: ParsedWorkout, rawId: Uuid) returns (session: Session)
    ensures session == SessionOf(w, rawId)
    ensures |session.recordedExercises| == |w.exercises.keys|
  {
    session := Session(UuidToGuidBytes(rawId), w.name, MakeDateDao(w.start), w.notes, []);
    var cumulativeSets := 0;
    var exercises := w.exercises.Values();
    var i := 0;
    while i < |exercises|
      invariant 0 <= i <= |exercises|
      invariant cumulativeSets == TotalSets(exercises[..i])
      invariant session == SessionOf(w, rawId).(recordedExercises := RecordedExercisesOf(exercises[..i], w.start))
    {
      RecordedExercisesSnoc(exercises, w.start, i);
      var recEx := BuildRecordedExercise(exercises[i], w.start, cumulativeSets);
      session := session.(recordedExercises := session.recordedExercises + [recEx]);
      cumulativeSets := cumulativeSets + |exercises[i].sets|;
      i := i + 1;
    }
    assert exercises[..i] == exercises;
  }

  /** The inner loop of `build_backup`: a session blueprint, skipping repeated exercise names. */
  method BuildSessionBlueprint(w: ParsedWorkout) returns (sessionBp: SessionBlueprint)
    ensures sessionBp == SessionBlueprintOf(w)
  {
    sessionBp := SessionBlueprint(w.name, []);
    var seenExercises: set<string> := {};
    var exercises := w.exercises.Values();
    var i := 0;
    while i < |exercises|
      invariant 0 <= i <= |exercises|
      invariant forall n :: n in seenExercises <==> n in MapSeq(exercises[..i], ExerciseName)
      invariant sessionBp == SessionBlueprint(w.name, MapSeq(FirstByKey(exercises[..i], ExerciseName), ProgramExerciseBlueprint))
    {
      FirstByKeyStep(exercises, i, ExerciseName, ProgramExerciseBlueprint);
      var ex := exercises[i];
      var ename := ex.name;
      assert ExerciseName(ex) == ename;
      if ename !in seenExercises {
        seenExercises := seenExercises + {ename};
        var exBp := ProgramExerciseBlueprint(ex);
        sessionBp := sessionBp.(exerciseBlueprints := sessionBp.exerciseBlueprints + [exBp]);
      }
      assert sessionBp.exerciseBlueprints
          == MapSeq(FirstByKey(exercises[..i + 1], ExerciseName), ProgramExerciseBlueprint);
      i := i + 1;
    }
    assert exercises[..i] == exercises;
  }

  /**
   * The program part of `build_backup`: one session blueprint per distinct workout
   * name, empty workouts included, stamped with today's date.
   */
  method BuildProgram(values: seq<ParsedWorkout>, today: DateTime) returns (program: ProgramBlueprint)
    ensures program == ProgramOf(values, today)
  {
    var sessionBlueprints: seq<SessionBlueprint> := [];
    var seenNames: set<string> := {};
    var i := 0;
    while i < |values|
      invariant 0 <= i <= |values|
      invariant forall n :: n in seenNames <==> n in MapSeq(values[..i], WorkoutName)
      invariant sessionBlueprints == MapSeq(FirstByKey(values[..i], WorkoutName), SessionBlueprintOf)
    {
      FirstByKeyStep(values, i, WorkoutName, SessionBlueprintOf);
      var workout := values[i];
      var wname := workout.name;
      assert WorkoutName(workout) == wname;
      if wname !in seenNames {
        seenNames := seenNames + {wname};
        var sessionBp := BuildSessionBlueprint(workout);
        sessionBlueprints := sessionBlueprints + [sessionBp];
      }
      assert sessionBlueprints == MapSeq(FirstByKey(values[..i + 1], WorkoutName), SessionBlueprintOf);
      i := i + 1;
    }
    assert values[..i] == values;
    program := ProgramBlueprint(ProgramName, sessionBlueprints, MakeDateDao(today));
  }

  /**
   * `build_backup`: a session per workout with exercises, and one saved program,
   * registered as the active one. `uuids(j)` is the UUID drawn for the j-th
   * session, `programId` the text of the UUID drawn for the program, `today`
   * the current date.
   */
  method BuildBackup(workouts: Workouts, uuids: nat -> Uuid, programId: string, today: DateTime)
    returns (backup: Backup)
    ensures backup.sessions == SessionsOf(workouts.Values(), uuids)
    ensures backup.savedPrograms == map[programId := ProgramOf(workouts.Values(), today)]
    ensures backup.activeProgramId == Some(programId)
  {
    backup := Backup([], map[], None);
    var values := workouts.Values();
    var i := 0;
    while i < |values|
      invariant 0 <= i <= |values|
      invariant backup == Backup(SessionsOf(values[..i], uuids), map[], None)
    {
      SessionsSnoc(values, uuids, i);
      var workout := values[i];
      if workout.exercises.keys != [] {
        var session := BuildSession(workout, uuids(|backup.sessions|));
        backup := backup.(sessions := backup.sessions + [session]);
      }
      i := i + 1;
    }
    assert values[..i] == values;

    var program := BuildProgram(values, today);
    backup := backup.(savedPrograms := backup.savedPrograms[programId := program]);
    backup := backup.(activeProgramId := Some(programId));
  }
}
