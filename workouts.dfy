/**
 * The workout variants: a base record with coordinates, distance (km),
 * duration (min), creation date and id, and the two variants `Running`
 * (cadence, derived pace in min/km) and `Cycling` (elevation, derived speed
 * in km/h). The class hierarchy becomes one datatype with a constructor per
 * variant; its `type` field becomes `Type()`.
 */
module Workouts {
  import opened JsNumber
  import opened Decimal

  /** `[lat, lng]` of the clicked map position. */
  datatype Coords = Coords(lat: real, lng: real)

  /** The two values of the `type` field and of the form's type select. */
  datatype WorkoutType = RunningType | CyclingType {
    /** The `type` string, `'running'` or `'cycling'`. */
    function Name(): string {
      match this
      case RunningType => "running"
      case CyclingType => "cycling"
    }
  }

  /**
   * A constructed workout. `date` is the creation timestamp in milliseconds;
   * `pace` and `speed` hold what `calcPace` and `calcSpeed` stored.
   */
  datatype Workout =
    | Running(coords: Coords, distance: Num, duration: Num, date: nat, id: string,
              cadence: Num, pace: Num)
    | Cycling(coords: Coords, distance: Num, duration: Num, date: nat, id: string,
              elevation: Num, speed: Num)
  {
    function Type(): WorkoutType {
      if Running? then RunningType else CyclingType
    }
  }

  /** The number of digits an id keeps of the timestamp. */
  const IdLength: nat := 10

  /** 10^IdLength: timestamps that differ by a multiple of it share an id. */
  const IdModulus: nat := 10_000_000_000

  lemma IdModulusIsPow10()
    ensures Pow10(IdLength) == IdModulus
  {
  }

  /**
   * The id given to a workout created at timestamp `now`: the last ten
   * characters of the timestamp's decimal rendering (all of it when shorter).
   */
  function Id(now: nat): (id: string)
    ensures |id| <= IdLength
  {
    var s := ToDecimal(now);
    s[|s| - (if |s| < IdLength then |s| else IdLength)..]
  }

  /**
   * An id is a suffix of the timestamp's rendering, exactly ten digits long
   * once the timestamp has ten digits, and denotes the timestamp modulo 10^10.
   */
  lemma IdDigits(now: nat)
    ensures AllDigits(Id(now))
    ensures var s, id := ToDecimal(now), Id(now); |id| <= |s| && id == s[|s| - |id|..]
    ensures |ToDecimal(now)| >= IdLength ==> |Id(now)| == IdLength
    ensures Value(Id(now)) == now % IdModulus
  {
    var s := ToDecimal(now);
    var k := if |s| < IdLength then |s| else IdLength;
    assert Id(now) == s[|s| - k..];
    ValueOfSuffix(s, k);
    ValueOfToDecimal(now);
    ShortTimestamp(now);
    IdModulusIsPow10();
  }

  /** A timestamp of fewer than ten digits is its own remainder modulo 10^10. */
  lemma ShortTimestamp(now: nat)
    ensures |ToDecimal(now)| < IdLength ==> now % IdModulus == now
  {
    var s := ToDecimal(now);
    if |s| < IdLength {
      SmallerPow10(|s|, IdLength);
      IdModulusIsPow10();
      ModUnique(now, IdModulus, 0, now);
    }
  }

  /** Two workouts created less than 10^10 ms (about 115 days) apart get different ids. */
  lemma IdsDifferWithinWindow(a: nat, b: nat)
    requires a < b < a + IdModulus
    ensures Id(a) != Id(b)
  {
    if Id(a) == Id(b) {
      IdDigits(a);
      IdDigits(b);
      SameRemainderApart(a, b, IdModulus);
    }
  }

  /**
   * Two workouts created exactly 10^10 ms apart get the same id, once the
   * timestamp has ten digits: ids are unique only within that window.
   */
  lemma IdsCollideAcrossWindow(a: nat)
    requires |ToDecimal(a)| >= IdLength
    ensures Id(a) == Id(a + IdModulus)
  {
    var b := a + IdModulus;
    IdModulusIsPow10();
    LongRendering(b, IdLength);
    IdDigits(a);
    IdDigits(b);
    assert a == (a / IdModulus) * IdModulus + a % IdModulus;
    ModUnique(b, IdModulus, a / IdModulus + 1, a % IdModulus);
    ValueInjective(Id(a), Id(b));
  }

  /** `calcPace`: `duration / distance`, in minutes per km. */
  function PaceOf(distance: Num, duration: Num): (pace: Num)
    ensures distance.Fin? && duration.Fin? && distance.v != 0.0 ==> pace.Fin?
    ensures !duration.Fin? ==> !pace.Fin?
    ensures IsPositive(distance) && IsPositive(duration) && distance.Fin? && duration.Fin? ==>
              IsPositive(pace)
  {
    Div(duration, distance)
  }

  /** A finite pace times the distance is the duration. */
  lemma PaceTimesDistance(distance: Num, duration: Num)
    requires distance.Fin? && duration.Fin? && distance.v != 0.0
    ensures PaceOf(distance, duration).v * distance.v == duration.v
  {
    DivInverse(duration, distance);
  }

  /** `calcSpeed`: `distance / (duration / 60)`, in km per hour. */
  function SpeedOf(distance: Num, duration: Num): (speed: Num)
    ensures distance.Fin? && duration.Fin? && duration.v != 0.0 ==> speed.Fin?
    ensures !distance.Fin? ==> !speed.Fin?
    ensures IsPositive(distance) && IsPositive(duration) && distance.Fin? && duration.Fin? ==>
              IsPositive(speed)
  {
    Div(distance, Div(duration, Fin(60.0)))
  }

  /** A finite speed times the duration in minutes is sixty times the distance. */
  lemma SpeedTimesDuration(distance: Num, duration: Num)
    requires distance.Fin? && duration.Fin? && duration.v != 0.0
    ensures SpeedOf(distance, duration).v * duration.v == distance.v * 60.0
  {
    var hours := Div(duration, Fin(60.0));
    DivInverse(duration, Fin(60.0));
    DivInverse(distance, hours);
    calc {
      SpeedOf(distance, duration).v * duration.v;
      SpeedOf(distance, duration).v * (hours.v * 60.0);
      (SpeedOf(distance, duration).v * hours.v) * 60.0;
      distance.v * 60.0;
    }
  }

  /** `new Running(coords, distance, duration, cadence)` at timestamp `now`. */
  function NewRunning(coords: Coords, distance: Num, duration: Num, cadence: Num, now: nat)
    : (w: Workout)
    ensures w.Running? && w.Type() == RunningType && w.Type().Name() == "running"
    ensures w.coords == coords && w.distance == distance && w.duration == duration
    ensures w.cadence == cadence && w.date == now && w.id == Id(now)
    ensures w.pace == PaceOf(distance, duration)
  {
    Running(coords, distance, duration, now, Id(now), cadence, PaceOf(distance, duration))
  }

  /** `new Cycling(coords, distance, duration, elevation)` at timestamp `now`. */
  function NewCycling(coords: Coords, distance: Num, duration: Num, elevation: Num, now: nat)
    : (w: Workout)
    ensures w.Cycling? && w.Type() == CyclingType && w.Type().Name() == "cycling"
    ensures w.coords == coords && w.distance == distance && w.duration == duration
    ensures w.elevation == elevation && w.date == now && w.id == Id(now)
    ensures w.speed == SpeedOf(distance, duration)
  {
    Cycling(coords, distance, duration, now, Id(now), elevation, SpeedOf(distance, duration))
  }

  /**
   * What every workout the app stores satisfies: distance and duration finite
   * and positive, the derived metric finite, positive and consistent with
   * them, and the variant's own input finite (and positive for cadence).
   */
  predicate WellFormed(w: Workout) {
    w.distance.Fin? && w.duration.Fin? && w.distance.v > 0.0 && w.duration.v > 0.0 &&
    match w
    case Running(_, _, _, _, _, cadence, pace) =>
      cadence.Fin? && cadence.v > 0.0 &&
      pace == PaceOf(w.distance, w.duration) && pace.Fin? && pace.v > 0.0
    case Cycling(_, _, _, _, _, elevation, speed) =>
      elevation.Fin? &&
      speed == SpeedOf(w.distance, w.duration) && speed.Fin? && speed.v > 0.0
  }

  /** The derived metric of a stored workout agrees with its distance and duration. */
  lemma WellFormedMetric(w: Workout)
    requires WellFormed(w)
    ensures w.Running? ==> w.pace.v * w.distance.v == w.duration.v
    ensures w.Cycling? ==> w.speed.v * w.duration.v == w.distance.v * 60.0
  {
    var d, t := w.distance, w.duration;
    if w.Running? {
      var p := w.pace;
      assert p == PaceOf(d, t);
      PaceTimesDistance(d, t);
      assert p.v * d.v == t.v;
    } else {
      var s := w.speed;
      assert s == SpeedOf(d, t);
      SpeedTimesDuration(d, t);
      assert s.v * t.v == d.v * 60.0;
    }
  }
}
