/**
 * The session controller's state and its form-submission step: the map
 * position last clicked and the workouts created so far. Map, DOM and alert
 * calls are not modelled; a rejected submission is the `Rejected` outcome
 * and the marker popup is returned as its label text.
 */
module Mapty {
  import opened JsNumber
  import opened Workouts
  import opened Validation
  import opened Label
  import opened Wrappers

  /** What submitting the new-workout form leads to. */
  datatype Outcome =
    | Rejected                              // the "Invalid inputs" alert
    | Added(workout: Workout, popup: string)

  class App {
    /** The workouts created in this session, in creation order. */
    var workouts: seq<Workout>
    /** The position of the last map click, once there has been one. */
    var mapEvent: Option<Coords>

    /** Every stored workout passed validation. */
    ghost predicate Valid()
      reads this
    {
      forall w :: w in workouts ==> WellFormed(w)
    }

    constructor()
      ensures Valid() && workouts == [] && mapEvent == None
    {
      workouts := [];
      mapEvent := None;
    }

    /** A map click: remember where, so the form can use it. */
    method ShowForm(latlng: Coords)
      requires Valid()
      modifies this
      ensures Valid() && mapEvent == Some(latlng) && workouts == old(workouts)
    {
      mapEvent := Some(latlng);
    }

    /**
     * Form submission: validate the numbers for type `t`, and on success
     * create the workout at the clicked position, append it and label its
     * marker. `now` is the creation timestamp; `month` and `day` are its
     * local month index and day of the month.
     */
    method NewWorkout(t: WorkoutType, distance: Num, duration: Num, cadence: Num,
                      elevation: Num, now: nat, month: nat, day: nat)
      returns (outcome: Outcome)
      requires Valid() && mapEvent.Some? && month < 12
      modifies this
      ensures Valid() && mapEvent == old(mapEvent)
      ensures outcome.Added? <==> InputsValid(t, distance, duration, cadence, elevation)
      ensures outcome.Rejected? ==> workouts == old(workouts)
      ensures outcome.Added? ==>
                outcome.workout ==
                  Create(t, mapEvent.value, distance, duration, cadence, elevation, now) &&
                workouts == old(workouts) + [outcome.workout] &&
                outcome.popup == WorkoutLabel(outcome.workout, month, day)
    {
      var coords := mapEvent.value;
      var workout: Workout;
      match t {
        case RunningType =>
          if !AllFinite([distance, duration, cadence]) ||
             !AllPositive([distance, duration, cadence]) {
            return Rejected;
          }
          workout := NewRunning(coords, distance, duration, cadence, now);
        case CyclingType =>
          if !AllFinite([distance, duration, elevation]) || !AllPositive([distance, duration]) {
            return Rejected;
          }
          workout := NewCycling(coords, distance, duration, elevation, now);
      }
      assert workout == Create(t, coords, distance, duration, cadence, elevation, now);
      AcceptedIsWellFormed(t, coords, distance, duration, cadence, elevation, now);
      assert forall w :: w in workouts + [workout] ==> w in workouts || w == workout;
      workouts := workouts + [workout];
      outcome := Added(workout, WorkoutLabel(workout, month, day));
    }
  }

  /**
   * Example client, not part of the source: what a caller can conclude from
   * the contracts above for one session with a valid running entry, a
   * cycling entry with a negative elevation, and a running entry with a zero
   * cadence.
   */
  method ExampleSession(here: Coords, now: nat)
  {
    var app := new App();
    app.ShowForm(here);
    var first := app.NewWorkout(RunningType, Fin(5.0), Fin(30.0), Fin(150.0), NaN, now, 2, 15);
    RunningAcceptance(Fin(5.0), Fin(30.0), Fin(150.0), NaN);
    assert first.Added?;
    PaceTimesDistance(Fin(5.0), Fin(30.0));
    assert first.workout.pace == Fin(6.0);
    MarchFifteenth();
    assert first.popup == "Running on March 15";
    assert app.workouts == [first.workout];
    var second := app.NewWorkout(CyclingType, Fin(20.0), Fin(60.0), NaN, Fin(-40.0), now + 1, 2, 15);
    CyclingAcceptance(Fin(20.0), Fin(60.0), NaN, Fin(-40.0));
    assert second.Added?;
    SpeedTimesDuration(Fin(20.0), Fin(60.0));
    assert second.workout.speed.v * 60.0 == 20.0 * 60.0;
    assert second.workout.speed == Fin(20.0);
    assert app.workouts == [first.workout, second.workout];
    var third := app.NewWorkout(RunningType, Fin(5.0), Fin(30.0), Fin(0.0), NaN, now + 2, 2, 15);
    RunningAcceptance(Fin(5.0), Fin(30.0), Fin(0.0), NaN);
    assert third.Rejected?;
    assert app.workouts == [first.workout, second.workout];
  }
}
