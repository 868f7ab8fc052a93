/**
 * The marker popup text: the workout type with its first letter upper-cased,
 * " on ", the month name and the day of the month ("Running on March 15").
 * The month index (0..11) and the day come from the workout's date in local
 * time and are taken as inputs.
 */
module Label {
  import opened Decimal
  import opened Workouts
  import opened Wrappers

  /** The `months` table. */
  const Months: seq<string> := ["January", "February", "March", "April", "May", "June", "July",
                                "August", "September", "October", "November", "December"]

  /** `toUpperCase` on one character; only ASCII letters are mapped. */
  function UpperChar(c: char): (u: char)
    ensures 'a' <= c <= 'z' ==> 'A' <= u <= 'Z' && (u as int) - ('A' as int) == (c as int) - ('a' as int)
    ensures !('a' <= c <= 'z') ==> u == c
  {
    if 'a' <= c <= 'z' then ((c as int) - 32) as char else c
  }

  /** `s[0].toUpperCase() + s.slice(1)`. */
  function Capitalize(s: string): (r: string)
    requires |s| > 0
    ensures |r| == |s| && r[0] == UpperChar(s[0]) && r[1..] == s[1..]
  {
    [UpperChar(s[0])] + s[1..]
  }

  /**
   * The popup label of a workout of type `t` dated on day `day` of month
   * `month`: its first eleven characters name the type, and the rest reads
   * back as that month and day.
   */
  function PopupLabel(t: WorkoutType, month: nat, day: nat): (r: string)
    requires month < 12
    ensures |r| > 11
    ensures r[..11] == (if t == RunningType then "Running on " else "Cycling on ")
    ensures ParseMonthDay(r[11..], 0) == Some((month, day))
  {
    var rest := Months[month] + " " + ToDecimal(day);
    CapitalizedNames();
    ParseMonthDayFinds(month, day, 0);
    var r := Capitalize(t.Name()) + " on " + rest;
    assert r[..11] == Capitalize(t.Name()) + " on " && r[11..] == rest;
    r
  }

  /** The label of `w`, whose date falls on day `day` of month `month`. */
  function WorkoutLabel(w: Workout, month: nat, day: nat): string
    requires month < 12
  {
    PopupLabel(w.Type(), month, day)
  }

  /** A string that is non-empty and all digits. */
  predicate IsNumeral(s: string) {
    |s| > 0 && AllDigits(s)
  }

  /**
   * Reads a label back: the type from its capitalised prefix, then the first
   * month whose name followed by a space starts the rest, then the day.
   */
  function ParseLabel(s: string): Option<(WorkoutType, nat, nat)> {
    var head := 11;
    if |s| < head then None
    else
      var t := if s[..head] == "Running on " then Some(RunningType)
               else if s[..head] == "Cycling on " then Some(CyclingType)
               else None;
      match t
      case None => None
      case Some(t) =>
        match ParseMonthDay(s[head..], 0)
        case None => None
        case Some((m, d)) => Some((t, m, d))
  }

  /** Month index `i` onwards: the month name and day that make up `s`. */
  function ParseMonthDay(s: string, i: nat): Option<(nat, nat)>
    decreases 12 - i
  {
    if i >= 12 then None
    else
      var p := Months[i] + " ";
      if |p| <= |s| && s[..|p|] == p && IsNumeral(s[|p|..]) then Some((i, Value(s[|p|..])))
      else ParseMonthDay(s, i + 1)
  }

  /** Month names are distinct and contain no space. */
  lemma MonthNames()
    ensures |Months| == 12
    ensures forall i :: 0 <= i < 12 ==> |Months[i]| > 0 && ' ' !in Months[i]
    ensures forall i, j :: 0 <= i < j < 12 ==> Months[i] != Months[j]
  {
  }

  /** A name without spaces followed by a space is not a prefix of another such name and a space. */
  lemma {:induction false} NotPrefix(a: string, b: string, tail: string)
    requires ' ' !in a && ' ' !in b && a != b
    ensures var p, s := a + " ", b + " " + tail; !(|p| <= |s| && s[..|p|] == p)
  {
    var p, s := a + " ", b + " " + tail;
    if |p| <= |s| {
      if |a| < |b| {
        assert b[|a|] in b;
        assert s[..|p|][|a|] != p[|a|];
      } else if |a| == |b| {
        assert s[..|p|][..|a|] == b;
        assert p[..|a|] == a;
      } else {
        assert a[|b|] in a;
        assert s[..|p|][|b|] != p[|b|];
      }
    }
  }

  /** Scanning from any month at or before `m` finds `m` and the day. */
  lemma {:induction false} ParseMonthDayFinds(m: nat, day: nat, i: nat)
    requires i <= m < 12
    ensures ParseMonthDay(Months[m] + " " + ToDecimal(day), i) == Some((m, day))
    decreases m - i
  {
    var s := Months[m] + " " + ToDecimal(day);
    var p := Months[i] + " ";
    MonthNames();
    if i == m {
      assert s[..|p|] == p && s[|p|..] == ToDecimal(day);
      ValueOfToDecimal(day);
    } else {
      NotPrefix(Months[i], Months[m], ToDecimal(day));
      ParseMonthDayFinds(m, day, i + 1);
    }
  }

  /** The capitalised type names. */
  lemma CapitalizedNames()
    ensures Capitalize(RunningType.Name()) == "Running"
    ensures Capitalize(CyclingType.Name()) == "Cycling"
  {
    assert UpperChar('r') == 'R' && UpperChar('c') == 'C';
  }

  /** Reading a label back gives the type, month and day it was built from. */
  lemma ParseLabelRoundTrip(t: WorkoutType, month: nat, day: nat)
    requires month < 12
    ensures ParseLabel(PopupLabel(t, month, day)) == Some((t, month, day))
  {
    var s := PopupLabel(t, month, day);
    if t == CyclingType {
      assert s[..11] == "Cycling on " != "Running on ";
    }
  }

  /** Different type, month or day give different labels. */
  lemma LabelInjective(t1: WorkoutType, m1: nat, d1: nat, t2: WorkoutType, m2: nat, d2: nat)
    requires m1 < 12 && m2 < 12
    requires PopupLabel(t1, m1, d1) == PopupLabel(t2, m2, d2)
    ensures t1 == t2 && m1 == m2 && d1 == d2
  {
    ParseLabelRoundTrip(t1, m1, d1);
    ParseLabelRoundTrip(t2, m2, d2);
  }

  lemma FifteenRendering()
    ensures ToDecimal(15) == "15"
  {
    assert DigitChar(1) == '1' && DigitChar(5) == '5';
    assert ToDecimal(15) == ToDecimal(1) + [DigitChar(5)];
  }

  /** Day 15 of month index 2 renders as "Running on March 15" and "Cycling on March 15". */
  lemma MarchFifteenth()
    ensures PopupLabel(RunningType, 2, 15) == "Running on March 15"
    ensures PopupLabel(CyclingType, 2, 15) == "Cycling on March 15"
  {
    FifteenRendering();
    assert Months[2] == "March";
    CapitalizedNames();
    assert PopupLabel(RunningType, 2, 15) == "Running" + " on " + "March" + " " + "15";
    assert PopupLabel(CyclingType, 2, 15) == "Cycling" + " on " + "March" + " " + "15";
  }
}
