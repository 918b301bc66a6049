/**
 * What the building functions promise: the numbering of sets across a session,
 * the synthetic completion times, which workouts become sessions, and the
 * shape of the saved program.
 */
module BuilderProperties {
  import opened Wrappers
  import opened Seqs
  import opened OrderedMaps
  import opened Guids
  import opened Clock
  import opened StrongCsv
  import opened StrongCsvProperties
  import opened StrongCsvTheorems
  import opened LiftLog
  import opened Builder

  // ---------------------------------------------------------------------------
  // Set numbering within a session

  /** The potential sets of a session, exercise by exercise. */
  function FlatPotentialSets(res: seq<RecordedExercise>): seq<PotentialSet>
  {
    if res == [] then [] else FlatPotentialSets(res[..|res| - 1]) + res[|res| - 1].potentialSets
  }

  lemma FlatPotentialSetsSnoc(res: seq<RecordedExercise>, e: RecordedExercise)
    ensures FlatPotentialSets(res + [e]) == FlatPotentialSets(res) + e.potentialSets
  {
    assert (res + [e])[..|res|] == res;
  }

  /** A session has one potential set per parsed set of its exercises. */
  lemma {:induction false} SessionSetCount(exs: seq<ParsedExercise>, dt: DateTime)
    ensures |FlatPotentialSets(RecordedExercisesOf(exs, dt))| == |AllSets(exs)|
  {
    if exs != [] {
      var pre := exs[..|exs| - 1];
      SessionSetCount(pre, dt);
      FlatPotentialSetsSnoc(RecordedExercisesOf(pre, dt), RecordedExerciseOf(exs[|exs| - 1], dt, TotalSets(pre)));
    }
  }

  /**
   * Across a session the set indices run 0, 1, ..., n-1 in exercise-then-set
   * order: the k-th potential set is built from the k-th parsed set with index k.
   */
  lemma {:induction false} SessionSetIndex(exs: seq<ParsedExercise>, dt: DateTime, k: nat)
    requires k < |AllSets(exs)|
    ensures k < |FlatPotentialSets(RecordedExercisesOf(exs, dt))|
    ensures FlatPotentialSets(RecordedExercisesOf(exs, dt))[k]
         == BuildPotentialSet(AllSets(exs)[k].weight, AllSets(exs)[k].reps, dt, k)
  {
    SessionSetCount(exs, dt);
    var pre := exs[..|exs| - 1];
    var last := exs[|exs| - 1];
    var e := RecordedExerciseOf(last, dt, TotalSets(pre));
    FlatPotentialSetsSnoc(RecordedExercisesOf(pre, dt), e);
    SessionSetCount(pre, dt);
    var flat := FlatPotentialSets(RecordedExercisesOf(exs, dt));
    assert flat == FlatPotentialSets(RecordedExercisesOf(pre, dt)) + e.potentialSets;
    assert AllSets(exs) == AllSets(pre) + last.sets;
    if k < |AllSets(pre)| {
      SessionSetIndex(pre, dt, k);
      assert flat[k] == FlatPotentialSets(RecordedExercisesOf(pre, dt))[k];
      assert AllSets(exs)[k] == AllSets(pre)[k];
    } else {
      var j := k - |AllSets(pre)|;
      assert flat[k] == e.potentialSets[j];
      assert AllSets(exs)[k] == last.sets[j];
      PotentialSetAt(last, dt, TotalSets(pre), j);
      assert TotalSets(pre) + j == k;
    }
  }

  /** The j-th potential set of a recorded exercise carries set index `setOffset + j`. */
  lemma PotentialSetAt(ex: ParsedExercise, dt: DateTime, setOffset: nat, j: nat)
    requires j < |ex.sets|
    ensures |RecordedExerciseOf(ex, dt, setOffset).potentialSets| == |ex.sets|
    ensures RecordedExerciseOf(ex, dt, setOffset).potentialSets[j]
         == BuildPotentialSet(ex.sets[j].weight, ex.sets[j].reps, dt, setOffset + j)
  {
  }

  /**
   * Consecutive sets of a session are completed one minute apart (wrapping at
   * midnight), all on the workout's date.
   */
  lemma SessionTimesAdvance(w: ParsedWorkout, rawId: Uuid, k: nat)
    requires k + 1 < |FlatPotentialSets(SessionOf(w, rawId).recordedExercises)|
    ensures var flat := FlatPotentialSets(SessionOf(w, rawId).recordedExercises);
            && TimeSeconds(flat[k + 1].recordedSet.completionTime)
               == (TimeSeconds(flat[k].recordedSet.completionTime) + SecondsBetweenSets) % SecondsPerDay
            && flat[k].recordedSet.completionDate == SessionOf(w, rawId).date
  {
    assert SessionOf(w, rawId).recordedExercises == RecordedExercisesOf(w.exercises.Values(), w.start);
    SetTimesAdvance(w.exercises.Values(), w.start, k);
  }

  lemma SetTimesAdvance(exs: seq<ParsedExercise>, dt: DateTime, k: nat)
    requires k + 1 < |FlatPotentialSets(RecordedExercisesOf(exs, dt))|
    ensures var flat := FlatPotentialSets(RecordedExercisesOf(exs, dt));
            && TimeSeconds(flat[k + 1].recordedSet.completionTime)
               == (TimeSeconds(flat[k].recordedSet.completionTime) + SecondsBetweenSets) % SecondsPerDay
            && flat[k].recordedSet.completionDate == MakeDateDao(dt)
  {
    SessionSetCount(exs, dt);
    var all := AllSets(exs);
    SessionSetIndex(exs, dt, k);
    SessionSetIndex(exs, dt, k + 1);
    PotentialSetTime(all[k].weight, all[k].reps, dt, k);
    PotentialSetTime(all[k + 1].weight, all[k + 1].reps, dt, k + 1);
    var flat := FlatPotentialSets(RecordedExercisesOf(exs, dt));
    ConsecutiveTimes(dt, k, flat[k].recordedSet.completionTime, flat[k + 1].recordedSet.completionTime);
  }

  /** Times at set indices k and k + 1 are one minute apart, modulo one day. */
  lemma ConsecutiveTimes(dt: DateTime, k: int, t0: TimeOnly, t1: TimeOnly)
    requires TimeSeconds(t0) == (SecondOfDay(dt) + k * SecondsBetweenSets) % SecondsPerDay
    requires TimeSeconds(t1) == (SecondOfDay(dt) + (k + 1) * SecondsBetweenSets) % SecondsPerDay
    ensures TimeSeconds(t1) == (TimeSeconds(t0) + SecondsBetweenSets) % SecondsPerDay
  {
    NextOffsetTime(dt, SecondsBetweenSets, k);
    assert SecondsBetweenSets * k == k * SecondsBetweenSets;
    assert SecondsBetweenSets * (k + 1) == (k + 1) * SecondsBetweenSets;
  }

  /** The completion time and date of the potential set with index `setIndex`. */
  lemma PotentialSetTime(weightKg: real, reps: int, dt: DateTime, setIndex: int)
    ensures var rs := BuildPotentialSet(weightKg, reps, dt, setIndex).recordedSet;
            && TimeSeconds(rs.completionTime) == (SecondOfDay(dt) + setIndex * SecondsBetweenSets) % SecondsPerDay
            && rs.completionDate == MakeDateDao(dt)
  {
  }

  // ---------------------------------------------------------------------------
  // Which workouts become sessions

  lemma {:induction false} NonEmptyWorkoutsSpec(ws: seq<ParsedWorkout>)
    ensures forall w :: w in NonEmptyWorkouts(ws) <==> w in ws && HasExercises(w)
  {
    if ws != [] {
      NonEmptyWorkoutsSpec(ws[..|ws| - 1]);
      assert ws == ws[..|ws| - 1] + [ws[|ws| - 1]];
    }
  }

  /**
   * The sessions are exactly the workouts that have exercises, in order; the
   * j-th of them draws the j-th UUID.
   */
  lemma SessionsFollowWorkouts(ws: seq<ParsedWorkout>, uuids: nat -> Uuid)
    ensures |SessionsOf(ws, uuids)| == |NonEmptyWorkouts(ws)|
    ensures forall j :: 0 <= j < |SessionsOf(ws, uuids)| ==>
              SessionsOf(ws, uuids)[j] == SessionOf(NonEmptyWorkouts(ws)[j], uuids(j))
  {
    SessionCount(ws, uuids);
    forall j | 0 <= j < |SessionsOf(ws, uuids)|
      ensures SessionsOf(ws, uuids)[j] == SessionOf(NonEmptyWorkouts(ws)[j], uuids(j))
    {
      SessionAt(ws, uuids, j);
    }
  }

  lemma {:induction false} SessionCount(ws: seq<ParsedWorkout>, uuids: nat -> Uuid)
    ensures |SessionsOf(ws, uuids)| == |NonEmptyWorkouts(ws)|
  {
    if ws != [] {
      SessionCount(ws[..|ws| - 1], uuids);
    }
  }

  lemma {:induction false} SessionAt(ws: seq<ParsedWorkout>, uuids: nat -> Uuid, j: nat)
    requires j < |SessionsOf(ws, uuids)|
    ensures j < |NonEmptyWorkouts(ws)|
    ensures SessionsOf(ws, uuids)[j] == SessionOf(NonEmptyWorkouts(ws)[j], uuids(j))
  {
    SessionCount(ws, uuids);
    var pre := ws[..|ws| - 1];
    var w := ws[|ws| - 1];
    var p := SessionsOf(pre, uuids);
    var ne := NonEmptyWorkouts(pre);
    SessionCount(pre, uuids);
    if j < |p| {
      SessionAt(pre, uuids, j);
      assert SessionsOf(ws, uuids)[j] == p[j];
      assert NonEmptyWorkouts(ws)[j] == ne[j];
    } else {
      assert HasExercises(w) && j == |p|;
      assert SessionsOf(ws, uuids) == p + [SessionOf(w, uuids(|p|))];
      assert NonEmptyWorkouts(ws) == ne + [w];
    }
  }

  /** A session has one recorded exercise per exercise of its workout, so a session is never empty. */
  lemma SessionExerciseCount(w: ParsedWorkout, rawId: Uuid)
    requires HasExercises(w)
    ensures |SessionOf(w, rawId).recordedExercises| == |w.exercises.keys| > 0
  {
  }

  // ---------------------------------------------------------------------------
  // The saved program

  /** The program has one session blueprint per distinct workout name, in first-seen order. */
  lemma ProgramSessionNames(ws: seq<ParsedWorkout>, today: DateTime)
    ensures MapSeq(ProgramOf(ws, today).sessions, SessionBlueprintName) == Dedup(MapSeq(ws, WorkoutName))
    ensures Distinct(MapSeq(ProgramOf(ws, today).sessions, SessionBlueprintName))
    ensures forall n :: n in MapSeq(ProgramOf(ws, today).sessions, SessionBlueprintName) <==> n in MapSeq(ws, WorkoutName)
  {
    var firsts := FirstByKey(ws, WorkoutName);
    FirstByKeyKeys(ws, WorkoutName);
    DedupSpec(MapSeq(ws, WorkoutName));
    var names := MapSeq(ProgramOf(ws, today).sessions, SessionBlueprintName);
    assert forall i :: 0 <= i < |names| ==> names[i] == MapSeq(firsts, WorkoutName)[i];
  }

  /**
   * First seen wins: the j-th session blueprint is built from the first workout
   * carrying its name, and has one exercise blueprint per distinct exercise name
   * of that workout.
   */
  lemma ProgramSessionFirst(ws: seq<ParsedWorkout>, today: DateTime, j: nat)
    requires j < |ProgramOf(ws, today).sessions|
    ensures exists i :: 0 <= i < |ws|
              && ProgramOf(ws, today).sessions[j] == SessionBlueprintOf(ws[i])
              && WorkoutName(ws[i]) !in MapSeq(ws[..i], WorkoutName)
              && |ProgramOf(ws, today).sessions[j].exerciseBlueprints|
                 == |Dedup(MapSeq(ws[i].exercises.Values(), ExerciseName))|
  {
    FirstByKeyFirst(ws, WorkoutName, j);
    var i :| 0 <= i < |ws| && FirstByKey(ws, WorkoutName)[j] == ws[i] && WorkoutName(ws[i]) !in MapSeq(ws[..i], WorkoutName);
    SessionBlueprintExercises(ws[i]);
  }

  /** A session blueprint has one exercise blueprint per distinct exercise name, in first-seen order. */
  lemma SessionBlueprintExercises(w: ParsedWorkout)
    ensures MapSeq(SessionBlueprintOf(w).exerciseBlueprints, ExerciseBlueprintName)
         == Dedup(MapSeq(w.exercises.Values(), ExerciseName))
    ensures Distinct(MapSeq(SessionBlueprintOf(w).exerciseBlueprints, ExerciseBlueprintName))
  {
    var exs := w.exercises.Values();
    var firsts := FirstByKey(exs, ExerciseName);
    FirstByKeyKeys(exs, ExerciseName);
    DedupSpec(MapSeq(exs, ExerciseName));
    var names := MapSeq(SessionBlueprintOf(w).exerciseBlueprints, ExerciseBlueprintName);
    assert forall i :: 0 <= i < |names| ==> names[i] == MapSeq(firsts, ExerciseName)[i];
  }

  // ---------------------------------------------------------------------------
  // From rows to sessions

  /** In a parsed workout, every exercise, in order, is the one stored under its name and has a set. */
  lemma ParsedExerciseValues(rows: seq<Row>, id: string)
    requires Parse(rows).Ok? && id in Parse(rows).value.entries
    ensures var exs := Parse(rows).value.entries[id].exercises;
            forall i :: 0 <= i < |exs.keys| ==> exs.Values()[i].name == exs.keys[i] && |exs.Values()[i].sets| > 0
  {
    ParseExercises(rows, id);
  }

  /** A workout that becomes a session is one of the parsed workouts. */
  lemma ValuesAreEntries(ws: Workouts, w: ParsedWorkout)
    requires w in ws.Values()
    ensures exists id :: id in ws.entries && ws.entries[id] == w
  {
    var i :| 0 <= i < |ws.Values()| && ws.Values()[i] == w;
    assert ws.keys[i] in ws.entries;
  }

  /** Every recorded exercise of an imported session has at least one potential set. */
  lemma ImportedExercisesHaveSets(rows: seq<Row>, uuids: nat -> Uuid, j: nat, k: nat)
    requires Parse(rows).Ok?
    requires j < |SessionsOf(Parse(rows).value.Values(), uuids)|
    requires k < |SessionsOf(Parse(rows).value.Values(), uuids)[j].recordedExercises|
    ensures var e := SessionsOf(Parse(rows).value.Values(), uuids)[j].recordedExercises[k];
            |e.potentialSets| > 0 && e.blueprint.sets == |e.potentialSets|
  {
    var ws := Parse(rows).value;
    SessionsFollowWorkouts(ws.Values(), uuids);
    var w := NonEmptyWorkouts(ws.Values())[j];
    NonEmptyWorkoutsSpec(ws.Values());
    ValuesAreEntries(ws, w);
    var id :| id in ws.entries && ws.entries[id] == w;
    ParsedExerciseValues(rows, id);
    RecordedExercisesAt(w.exercises.Values(), w.start, k);
  }
}
