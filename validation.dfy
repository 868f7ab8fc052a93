/**
 * The input-acceptance rule of the new-workout form: the two `every`
 * predicates and the way each workout type applies them.
 */
module Validation {
  import opened JsNumber
  import opened Workouts

  /** `inputs.every(inp => Number.isFinite(inp))`. */
  function AllFinite(inputs: seq<Num>): (b: bool)
    ensures b <==> forall i :: 0 <= i < |inputs| ==> IsFinite(inputs[i])
  {
    inputs == [] || (IsFinite(inputs[0]) && AllFinite(inputs[1..]))
  }

  /** `inputs.every(inp => inp > 0)`. */
  function AllPositive(inputs: seq<Num>): (b: bool)
    ensures b <==> forall i :: 0 <= i < |inputs| ==> IsPositive(inputs[i])
  {
    inputs == [] || (IsPositive(inputs[0]) && AllPositive(inputs[1..]))
  }

  /**
   * Whether the form's numbers are accepted for a workout of type `t`:
   * a running entry checks cadence for finiteness and positivity, a cycling
   * entry checks elevation for finiteness only. The input the type does not
   * read is ignored.
   */
  predicate InputsValid(t: WorkoutType, distance: Num, duration: Num, cadence: Num, elevation: Num) {
    match t
    case RunningType =>
      AllFinite([distance, duration, cadence]) && AllPositive([distance, duration, cadence])
    case CyclingType =>
      AllFinite([distance, duration, elevation]) && AllPositive([distance, duration])
  }

  /** A running entry is accepted iff distance, duration and cadence are finite and above zero. */
  lemma RunningAcceptance(distance: Num, duration: Num, cadence: Num, elevation: Num)
    ensures InputsValid(RunningType, distance, duration, cadence, elevation) <==>
              distance.Fin? && duration.Fin? && cadence.Fin? &&
              distance.v > 0.0 && duration.v > 0.0 && cadence.v > 0.0
  {
    var ins := [distance, duration, cadence];
    assert ins[0] == distance && ins[1] == duration && ins[2] == cadence;
  }

  /**
   * A cycling entry is accepted iff distance, duration and elevation are
   * finite and distance and duration are above zero; elevation may be zero
   * or negative.
   */
  lemma CyclingAcceptance(distance: Num, duration: Num, cadence: Num, elevation: Num)
    ensures InputsValid(CyclingType, distance, duration, cadence, elevation) <==>
              distance.Fin? && duration.Fin? && elevation.Fin? &&
              distance.v > 0.0 && duration.v > 0.0
  {
    var ins := [distance, duration, elevation];
    assert ins[0] == distance && ins[1] == duration && ins[2] == elevation;
    assert [distance, duration][0] == distance && [distance, duration][1] == duration;
  }

  /**
   * The workout `newWorkout` builds for type `t` at `coords` and timestamp
   * `now` once the inputs pass.
   */
  function Create(t: WorkoutType, coords: Coords, distance: Num, duration: Num,
                  cadence: Num, elevation: Num, now: nat): (w: Workout)
    ensures w.Type() == t && w.coords == coords && w.date == now
    ensures w.distance == distance && w.duration == duration
    ensures t == RunningType ==> w.cadence == cadence
    ensures t == CyclingType ==> w.elevation == elevation
  {
    match t
    case RunningType => NewRunning(coords, distance, duration, cadence, now)
    case CyclingType => NewCycling(coords, distance, duration, elevation, now)
  }

  /** Every workout built from accepted inputs satisfies the stored-workout invariant. */
  lemma AcceptedIsWellFormed(t: WorkoutType, coords: Coords, distance: Num, duration: Num,
                             cadence: Num, elevation: Num, now: nat)
    requires InputsValid(t, distance, duration, cadence, elevation)
    ensures WellFormed(Create(t, coords, distance, duration, cadence, elevation, now))
  {
    match t
    case RunningType => RunningAcceptance(distance, duration, cadence, elevation);
    case CyclingType => CyclingAcceptance(distance, duration, cadence, elevation);
  }
}
