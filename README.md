# Mapty workout tracker: the workout domain model

Mapty is a small browser page. The user clicks a map, fills in a form for a
run or a bike ride, and the page places a labelled marker and keeps the
workout in an in-memory list. This project models the part of `script.js`
that is not browser glue:

- **The workout variants.** A `Workout` base record holds the click
  coordinates, the distance (km), the duration (min), a creation date and an
  id cut from the creation timestamp. `Running` adds a cadence and a derived
  pace (min/km). `Cycling` adds an elevation and a derived speed (km/h).
  The class hierarchy is one datatype, `Workouts.Workout`, with a
  constructor per variant.
- **JavaScript numbers** (`JsNumber`). A number is `Fin(real)`, `NaN`,
  `PosInf` or `NegInf`. This is enough to state `Number.isFinite`, `> 0` and
  the `/` operator, including division by zero and by an infinity.
- **The acceptance rule** (`Validation`). These are the two `every`
  predicates and their asymmetric use. A running entry needs all three
  numbers finite and positive. A cycling entry needs all three finite, but
  only distance and duration positive.
- **The session state** (`Mapty.App`). This is a class holding the last
  map click and the workout list. Submitting the form either leaves the list
  alone or appends exactly one workout.
- **The popup label** (`Label`). It is the type with its first letter
  upper-cased, " on ", the month name from the twelve-entry table, a space and
  the day of the month.

Behind these sit decimal renderings of numbers (`Decimal`), used for the id
and for the day in the label.

`script.js` has no save, load or reconstruction code. It stores no
`description` field on a workout; it builds the label text when it places the
marker. The variants are `Running` and `Cycling`.

Two parts of the project have no counterpart in `script.js`. `Label.ParseLabel`
and `Label.ParseMonthDay` read a label back; they exist only to prove that
the label determines the type, month and day. `Mapty.ExampleSession` is an
example client of `Mapty.App` that shows what its contracts let a caller
conclude.

## Model

| member | source | states |
|---|---|---|
| `JsNumber.IsFinite` | script.js:102 | `Number.isFinite`: true exactly for a finite number. Its use over a list is stated by `Validation.AllFinite`. |
| `JsNumber.IsPositive` | script.js:103 | `inp > 0`: true for a finite number above zero and for Infinity, false for NaN and -Infinity. Its use over a list is stated by `Validation.AllPositive`. |
| `JsNumber.Div` | script.js:32 | JavaScript `/` on real-valued finite numbers and the three non-finite values: the result is finite exactly when the dividend is finite and the divisor is a non-zero finite number or an infinity. It is NaN exactly for a NaN operand, 0 / 0 or two infinities. A non-zero value over zero gives an infinity of the dividend's sign. Two positive finite numbers give a positive result. |
| `JsNumber.DivInverse` | script.js:32 | A finite quotient times the divisor is the dividend. |
| `Decimal.ToDecimal` | script.js:16 | The rendering `n + ''` of a timestamp is non-empty and all digits. It has no leading zero unless it is "0". It has enough digits to hold `n` (`n < 10^len`). |
| `Decimal.ValueOfToDecimal` | script.js:16 | Reading the digits of a rendering back gives the number rendered. |
| `Decimal.ValueOfSuffix` | script.js:16 | The last `k` digits of a digit string denote its value modulo 10^k. This is what `slice(-10)` keeps. |
| `Workouts.Id` | script.js:16 | An id is at most ten characters long. |
| `Workouts.IdDigits` | script.js:16 | An id is all digits and a suffix of the timestamp's rendering. It is exactly ten long once the timestamp has ten digits, and it denotes the timestamp modulo 10^10. |
| `Workouts.IdsDifferWithinWindow` | script.js:16 | Two timestamps less than 10^10 ms apart get different ids. |
| `Workouts.IdsCollideAcrossWindow` | script.js:16 | Once a timestamp has ten digits, it and the timestamp 10^10 ms later get the same id: ids are unique only within that window. |
| `Workouts.WorkoutType.Name` | script.js:25 | The `type` strings are "running" and "cycling"; `Workouts.NewRunning` and `Workouts.NewCycling` state which variant carries which, and `Label.CapitalizedNames` their capitalised forms. |
| `Workouts.PaceOf` | script.js:31-34 | `calcPace`: finite distance and duration with a non-zero distance give a finite pace. A non-finite duration gives a non-finite pace. Positive finite inputs give a positive pace. |
| `Workouts.PaceTimesDistance` | script.js:31-34 | Pace times distance equals duration whenever distance is finite and non-zero. |
| `Workouts.SpeedOf` | script.js:44-47 | `calcSpeed`: finite inputs with a non-zero duration give a finite speed. A non-finite distance gives a non-finite speed. Positive finite inputs give a positive speed. |
| `Workouts.SpeedTimesDuration` | script.js:44-47 | Speed times duration (min) equals 60 times distance. So speed is distance / (duration / 60) km/h. |
| `Workouts.NewRunning` | script.js:24-30 | `new Running(...)` is the running variant, with type "running". Its coords, distance, duration and cadence are the arguments. Its date is the creation timestamp, its id is `Id` of that timestamp, and its pace is `calcPace` of distance and duration. |
| `Workouts.NewCycling` | script.js:37-43 | `new Cycling(...)` is the cycling variant, with type "cycling". Its coords, distance, duration and elevation are the arguments. Its date and id are as for running, and its speed is `calcSpeed` of distance and duration. |
| `Workouts.WellFormedMetric` | script.js:31-47 | In every stored workout, the pace (running) or the speed (cycling) agrees with the distance and duration. |
| `Validation.AllFinite` | script.js:102 | `inputValid`: true iff every input is finite. |
| `Validation.AllPositive` | script.js:103 | `inputPositive`: true iff every input is `> 0`. This is false for NaN and for -Infinity, and true for Infinity. |
| `Validation.InputsValid` | script.js:105-122 | The acceptance condition per type. `Validation.RunningAcceptance` and `Validation.CyclingAcceptance` state it as an iff over the numbers, and `Mapty.App.NewWorkout` accepts exactly when it holds. |
| `Validation.RunningAcceptance` | script.js:105-111 | A running entry is accepted iff distance, duration and cadence are all finite and all strictly positive. Any NaN, infinity, zero or negative among them rejects it. |
| `Validation.CyclingAcceptance` | script.js:116-122 | A cycling entry is accepted iff distance, duration and elevation are finite and distance and duration are strictly positive. Elevation may be zero or negative. |
| `Validation.Create` | script.js:105-125 | The workout built for a type is the variant of that type. It carries the given coords, distance, duration and creation timestamp, and the cadence (running) or elevation (cycling). |
| `Validation.AcceptedIsWellFormed` | script.js:105-125 | A workout built from accepted inputs has a finite, positive distance and duration. Its cadence or elevation is finite, its cadence is positive, and its pace or speed is finite, positive and equal to `calcPace`/`calcSpeed`. |
| `Label.UpperChar` | script.js:143 | `toUpperCase` maps a lower-case ASCII letter to its upper-case letter and leaves every other character alone. |
| `Label.Capitalize` | script.js:143 | `s[0].toUpperCase() + s.slice(1)` has the length of `s`, the upper-cased first character and the rest of `s` unchanged. |
| `Label.CapitalizedNames` | script.js:143 | The capitalised type names are "Running" and "Cycling". |
| `Label.MonthNames` | script.js:4 | The `months` table has twelve distinct names and none contains a space. |
| `Label.PopupLabel` | script.js:143-145 | The label's first eleven characters are "Running on " or "Cycling on " according to the type, and the rest reads back as the month index and day it was built from. |
| `Label.ParseLabelRoundTrip` | script.js:143-145 | Reading a popup label back gives the type, month index and day it was built from. |
| `Label.LabelInjective` | script.js:143-145 | Labels built from different types, months or days differ. |
| `Label.MarchFifteenth` | script.js:143-145 | Month index 2, day 15 gives "Running on March 15" and "Cycling on March 15". |
| `Mapty.App.constructor` | script.js:53 | A new session has an empty workout list and no map click yet. |
| `Mapty.App.ShowForm` | script.js:82-87 | A map click records its position and leaves the workout list unchanged. |
| `Mapty.App.NewWorkout` | script.js:94-137 | The submission is accepted iff the acceptance rule for its type holds. A rejected submission leaves the list and the click unchanged. An accepted one appends exactly one workout, built at the clicked position, after the earlier entries, which stay as they were. It returns that workout's popup label. Every stored workout stays well formed. |

## Left out

- DOM lookups, event-listener wiring, showing and hiding the form, toggling the cadence/elevation rows and clearing the inputs: browser UI with no logic to state.
- Geolocation, the Leaflet map, its tile layer and the marker's popup options: device and library calls. Only the popup's text is modelled.
- The `alert` calls: a rejected submission is the `Rejected` outcome. The "allow location" alert belongs to geolocation, which is left out.
- Floating-point rounding, overflow, underflow and the sign of zero: finite numbers are reals, so a finite quotient never overflows to an infinity or underflows to zero, and dividing a non-zero number by zero gives the infinity of the dividend's sign. With real IEEE doubles, accepted inputs such as distance 1e-200 and duration 1e200 give an infinite pace, and distance 1e10 with duration 5e-324 gives a pace of 0; `Validation.AcceptedIsWellFormed` and `Mapty.App.Valid` speak of the real-valued model, where the pace is finite and positive.
- The unary `+` coercion from form text to a number: the form's values arrive already as numbers (`Num`). So the model does not show that an empty field becomes 0.
- The clock: `Date.now()` and `new Date()` are one timestamp parameter `now`. The source reads the clock twice, so its date and id could straddle a millisecond tick.
- The local-time month and day that `getMonth` and `getDate` compute from the date: they are parameters, with the month index below 12.
- Type values other than `'running'` and `'cycling'`: the type is a two-valued datatype. For any other value the source would push `undefined`.
- `Mapty.App.NewWorkout` requires a map click to have happened. The form is shown only after a click; without one the source would throw when reading the click position.
- `Label.UpperChar`: does not model `toUpperCase` beyond ASCII letters. The only strings it is applied to are the two type names.
- `Workouts.WellFormed` states the numeric invariants of a stored workout and not its id. That `id` is `Id(date)` follows from `NewRunning`/`NewCycling`.
- A persistence codec (save to and reload from local storage): `script.js` has none, so there is nothing to model.
