/**
 * The LiftLog backup messages the converter fills in, as plain values. Only the
 * fields the converter sets are modelled; an optional message field the
 * converter may leave unset is an Option.
 */
module LiftLog {
  import opened Wrappers
  import opened Guids
  import opened Decimals
  import opened Clock

  /** `ExerciseType.WEIGHTED` in the LiftLog schema. */
  const ExerciseTypeWeighted: int := 0

  /** `WeightUnit.KILOGRAMS` in the LiftLog schema. */
  const WeightUnitKg: int := 1

  datatype RecordedSet = RecordedSet(repsCompleted: int, completionTime: TimeOnly, completionDate: DateOnly)

  datatype PotentialSet = PotentialSet(weightValue: DecimalValue, weightUnit: int, recordedSet: RecordedSet)

  /** Rest hints, each a duration in whole seconds. */
  datatype Rest = Rest(minRest: int, maxRest: int, failureRest: int)

  datatype ExerciseBlueprint = ExerciseBlueprint(
    name: string,
    sets: int,
    repsPerSet: int,
    exerciseType: int,
    weightIncreaseOnSuccess: Option<DecimalValue>,
    restBetweenSets: Option<Rest>
  )

  datatype RecordedExercise = RecordedExercise(
    blueprint: ExerciseBlueprint,
    exerciseType: int,
    notes: Option<string>,          // the StringValue wrapper; None when unset
    potentialSets: seq<PotentialSet>
  )

  datatype Session = Session(
    id: Uuid,                       // UuidDao.value, in .NET Guid byte order
    sessionName: string,
    date: DateOnly,
    blueprintNotes: string,
    recordedExercises: seq<RecordedExercise>
  )

  datatype SessionBlueprint = SessionBlueprint(name: string, exerciseBlueprints: seq<ExerciseBlueprint>)

  datatype ProgramBlueprint = ProgramBlueprint(name: string, sessions: seq<SessionBlueprint>, lastEdited: DateOnly)

  /** `ExportedDataDaoV2` with the fields the converter sets. */
  datatype Backup = Backup(
    sessions: seq<Session>,
    savedPrograms: map<string, ProgramBlueprint>,
    activeProgramId: Option<string>
  )
}
