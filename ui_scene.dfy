/**
 * src/client/scenes/UIScene.ts: the heads-up clock and the three house
 * pillars of the prestige display.
 *
 * The Phaser objects are modelled by the fields of `UiScene`: the clock's
 * text (`None` before `create` has made it) and, per house id, the
 * pillar's fill height and label.
 */
module UiScene {
  import opened Wrappers
  import opened Strings
  import GameConfig

  // ----------------------------------------------------------------- clock

  /** `Math.floor(totalSeconds / 3600)`. */
  function Hours(totalSeconds: int): int {
    totalSeconds / 3600
  }

  /** `Math.floor((totalSeconds % 3600) / 60)`, with JavaScript's `%` keeping the dividend's sign. */
  function Minutes(totalSeconds: int): int {
    GameConfig.JsRem(totalSeconds, 3600) / 60
  }

  /** On a non-negative count the fields are the hours and the minutes into the hour, the seconds dropped. */
  lemma ClockFields(totalSeconds: int)
    requires totalSeconds >= 0
    ensures 0 <= Minutes(totalSeconds) < 60 && Hours(totalSeconds) >= 0
    ensures Hours(totalSeconds) * 3600 + Minutes(totalSeconds) * 60 <= totalSeconds
    ensures totalSeconds < Hours(totalSeconds) * 3600 + Minutes(totalSeconds) * 60 + 60
  {
    var h, r := totalSeconds / 3600, totalSeconds % 3600;
    assert totalSeconds == h * 3600 + r;
    var m, sec := r / 60, r % 60;
    assert r == m * 60 + sec;
  }

  /** `n.toString().padStart(2, '0')`. */
  function TwoDigits(n: int): string {
    PadStart(IntToString(n), 2, '0')
  }

  /** Every field below 100 is shown as exactly its two decimal digits, a leading zero below 10. */
  lemma TwoDigitsOf(n: int)
    requires 0 <= n < 100
    ensures TwoDigits(n) == [DigitChar(n / 10), DigitChar(n % 10)]
  {
    var t := IntToString(n);
    if n < 10 {
      assert t == [DigitChar(n)];
      assert PadStart(t, 2, '0') == PadStart(['0'] + t, 2, '0');
      assert |['0'] + t| == 2;
      assert DigitChar(0) == '0' && n / 10 == 0 && n % 10 == n;
    } else {
      assert t == NatToString(n / 10) + [DigitChar(n % 10)];
      assert NatToString(n / 10) == [DigitChar(n / 10)];
      assert |t| == 2;
    }
  }

  /** Both fields are padded to at least two characters, with zeros only in front. */
  lemma TwoDigitsPadding(n: int)
    ensures |TwoDigits(n)| >= 2
    ensures TwoDigits(n)[|TwoDigits(n)| - |IntToString(n)|..] == IntToString(n)
    ensures forall k :: 0 <= k < |TwoDigits(n)| - |IntToString(n)| ==> TwoDigits(n)[k] == '0'
  {
  }

  /** The second and third lines of the clock: the course and the month. */
  function CourseLines(course: int, month: string): string {
    "\nCourse " + IntToString(course) + "\n" + month
  }

  /** The clock's text: `HH:MM`, `Course c` and the month, one per line. */
  function ClockText(totalSeconds: int, course: int, month: string): string {
    TwoDigits(Hours(totalSeconds)) + ":" + TwoDigits(Minutes(totalSeconds)) + CourseLines(course, month)
  }

  /**
   * Under 100 hours the first line is the four digits of the time with a
   * colon between hours and minutes, followed by the course line and the month.
   */
  lemma ClockTextLayout(totalSeconds: int, course: int, month: string)
    requires 0 <= totalSeconds < 360000
    ensures var h, m := Hours(totalSeconds), Minutes(totalSeconds);
      ClockText(totalSeconds, course, month) ==
        [DigitChar(h / 10), DigitChar(h % 10), ':', DigitChar(m / 10), DigitChar(m % 10)] + CourseLines(course, month)
  {
    FieldsBelowHundred(totalSeconds);
    TimeLayout(Hours(totalSeconds), Minutes(totalSeconds), CourseLines(course, month));
  }

  /** Two fields below 100 print as two digits each around the colon. */
  lemma TimeLayout(h: int, m: int, tail: string)
    requires 0 <= h < 100 && 0 <= m < 100
    ensures TwoDigits(h) + ":" + TwoDigits(m) + tail ==
      [DigitChar(h / 10), DigitChar(h % 10), ':', DigitChar(m / 10), DigitChar(m % 10)] + tail
  {
    TwoDigitsOf(h);
    TwoDigitsOf(m);
    Colon(TwoDigits(h), TwoDigits(m), tail);
  }

  /** Joining two two-character fields with a colon. */
  lemma Colon(hh: string, mm: string, tail: string)
    requires |hh| == 2 && |mm| == 2
    ensures hh + ":" + mm + tail == [hh[0], hh[1], ':', mm[0], mm[1]] + tail
  {
    assert hh == [hh[0], hh[1]] && mm == [mm[0], mm[1]];
  }

  /** Under 100 hours both fields have at most two digits. */
  lemma FieldsBelowHundred(totalSeconds: int)
    requires 0 <= totalSeconds < 360000
    ensures 0 <= Hours(totalSeconds) < 100 && 0 <= Minutes(totalSeconds) < 60
  {
    ClockFields(totalSeconds);
  }

  /** Reading the four digits back gives the hours and minutes, so the clock loses nothing but the seconds. */
  lemma ClockTextReadsBack(totalSeconds: int, course: int, month: string)
    requires 0 <= totalSeconds < 360000
    ensures var t := ClockText(totalSeconds, course, month);
      && |t| >= 5 && t[2] == ':' && t[5..] == CourseLines(course, month)
      && (forall k :: 0 <= k < 2 ==> DigitValue(t[0..2][k], 10).Some? && DigitValue(t[3..5][k], 10).Some?)
      && DigitsValue(t[0..2], 10) == Hours(totalSeconds)
      && DigitsValue(t[3..5], 10) == Minutes(totalSeconds)
  {
    var t := ClockText(totalSeconds, course, month);
    var h, m, tail := Hours(totalSeconds), Minutes(totalSeconds), CourseLines(course, month);
    assert 0 <= h < 100 && 0 <= m < 100 by {
      FieldsBelowHundred(totalSeconds);
    }
    assert t == [DigitChar(h / 10), DigitChar(h % 10), ':', DigitChar(m / 10), DigitChar(m % 10)] + tail by {
      ClockTextLayout(totalSeconds, course, month);
    }
    FieldsReadBack(t, h, m, tail);
  }

  /** The digits of two fields below 100, joined by a colon, read back as the fields. */
  lemma FieldsReadBack(t: string, h: int, m: int, tail: string)
    requires 0 <= h < 100 && 0 <= m < 100
    requires t == [DigitChar(h / 10), DigitChar(h % 10), ':', DigitChar(m / 10), DigitChar(m % 10)] + tail
    ensures |t| >= 5 && t[2] == ':' && t[5..] == tail
    ensures forall k :: 0 <= k < 2 ==> DigitValue(t[0..2][k], 10).Some? && DigitValue(t[3..5][k], 10).Some?
    ensures DigitsValue(t[0..2], 10) == h && DigitsValue(t[3..5], 10) == m
  {
    assert t[0..2] == [DigitChar(h / 10), DigitChar(h % 10)];
    assert t[3..5] == [DigitChar(m / 10), DigitChar(m % 10)];
    DigitCharValue(h / 10);
    DigitCharValue(h % 10);
    DigitCharValue(m / 10);
    DigitCharValue(m % 10);
    TwoDigitValue(h);
    TwoDigitValue(m);
  }

  /** Two printed digits read back as the number they print. */
  lemma TwoDigitValue(n: int)
    requires 0 <= n < 100
    ensures DigitsValue([DigitChar(n / 10), DigitChar(n % 10)], 10) == n
  {
    var hi, lo := n / 10, n % 10;
    DigitCharValue(hi);
    DigitCharValue(lo);
    var s := [DigitChar(hi), DigitChar(lo)];
    assert s[..1] == [DigitChar(hi)];
    assert s[..1][..0] == [];
    assert DigitsValue(s[..1][..0], 10) == 0;
    assert DigitsValue(s[..1], 10) == hi;
    assert DigitsValue(s, 10) == hi * 10 + lo;
  }

  // --------------------------------------------------------------- pillars

  /** The houses in pillar order. */
  const HouseIds: seq<string> := ["ignis", "axiom", "vesper"]

  /** One pillar: the fill rectangle's height and the label's text. */
  datatype Pillar = Pillar(height: real, text: string)

  /** `Math.max(ignis, axiom, vesper, 100)`: the scale of the pillars. */
  function MaxDisplay(ignis: int, axiom: int, vesper: int): (r: int)
    ensures r >= 100 && r >= ignis && r >= axiom && r >= vesper
    ensures r == 100 || r == ignis || r == axiom || r == vesper
  {
    var m := if ignis > axiom then ignis else axiom;
    var m2 := if m > vesper then m else vesper;
    if m2 > 100 then m2 else 100
  }

  /** `(val / maxDisplay) * 40`. */
  function PillarHeight(val: int, maxDisplay: int): real
    requires maxDisplay > 0
  {
    (val as real / maxDisplay as real) * 40.0
  }

  /** A non-negative score within the scale fills between none and all of the 40-pixel pillar, growing with the score. */
  lemma PillarHeightBounds(val: int, maxDisplay: int)
    requires maxDisplay > 0
    requires 0 <= val <= maxDisplay
    ensures 0.0 <= PillarHeight(val, maxDisplay) <= 40.0
    ensures PillarHeight(val, maxDisplay) == 40.0 <==> val == maxDisplay
  {
    var q := val as real / maxDisplay as real;
    assert q * (maxDisplay as real) == val as real;
    assert 0.0 <= q <= 1.0;
  }

  /** A higher score never gets a lower pillar. */
  lemma PillarHeightMonotone(a: int, b: int, maxDisplay: int)
    requires maxDisplay > 0 && a <= b
    ensures PillarHeight(a, maxDisplay) <= PillarHeight(b, maxDisplay)
  {
    var qa, qb := a as real / maxDisplay as real, b as real / maxDisplay as real;
    assert qa * (maxDisplay as real) == a as real;
    assert qb * (maxDisplay as real) == b as real;
    assert qa <= qb;
  }

  /** With non-negative scores all three pillars lie in `[0, 40]`, and the leader's is full once it passes 100. */
  lemma PointsBounds(ignis: int, axiom: int, vesper: int)
    requires ignis >= 0 && axiom >= 0 && vesper >= 0
    ensures var m := MaxDisplay(ignis, axiom, vesper);
      && 0.0 <= PillarHeight(ignis, m) <= 40.0
      && 0.0 <= PillarHeight(axiom, m) <= 40.0
      && 0.0 <= PillarHeight(vesper, m) <= 40.0
    ensures ignis >= 100 && ignis >= axiom && ignis >= vesper ==>
      PillarHeight(ignis, MaxDisplay(ignis, axiom, vesper)) == 40.0
  {
    var m := MaxDisplay(ignis, axiom, vesper);
    PillarHeightBounds(ignis, m);
    PillarHeightBounds(axiom, m);
    PillarHeightBounds(vesper, m);
  }

  /** The pillars after `updatePoints`: each registered house's pillar scaled and labelled; the others absent as before. */
  function UpdatedPillars(pillars: map<string, Pillar>, ignis: int, axiom: int, vesper: int): map<string, Pillar> {
    var m := MaxDisplay(ignis, axiom, vesper);
    var p1 := if "ignis" in pillars then pillars["ignis" := Pillar(PillarHeight(ignis, m), IntToString(ignis))] else pillars;
    var p2 := if "axiom" in p1 then p1["axiom" := Pillar(PillarHeight(axiom, m), IntToString(axiom))] else p1;
    if "vesper" in p2 then p2["vesper" := Pillar(PillarHeight(vesper, m), IntToString(vesper))] else p2
  }

  /** `updatePoints` keeps the set of pillars, and every house with a pillar shows its own score, read back from the label. */
  lemma UpdatedPillarsSpec(pillars: map<string, Pillar>, ignis: int, axiom: int, vesper: int)
    ensures var r := UpdatedPillars(pillars, ignis, axiom, vesper);
      && r.Keys == pillars.Keys
      && (forall id :: id in r && id !in HouseIds ==> r[id] == pillars[id])
      && ("ignis" in r ==> r["ignis"].text == IntToString(ignis))
      && ("axiom" in r ==> r["axiom"].text == IntToString(axiom))
      && ("vesper" in r ==> r["vesper"].text == IntToString(vesper))
    ensures var r := UpdatedPillars(pillars, ignis, axiom, vesper);
      && ("ignis" in r ==> ParseInt(r["ignis"].text) == Some(ignis))
      && ("axiom" in r ==> ParseInt(r["axiom"].text) == Some(axiom))
      && ("vesper" in r ==> ParseInt(r["vesper"].text) == Some(vesper))
  {
    ParseIntOfInt(ignis);
    ParseIntOfInt(axiom);
    ParseIntOfInt(vesper);
  }

  /** Concatenation regrouped: the first line, then the rest. */
  lemma Regroup(first: string, a: string, b: string, c: string, d: string)
    ensures first + a + b + c + d == first + (a + b + c + d)
  {
  }

  /** The HUD scene's clock and pillars. */
  class UiScene {
    /** `clockText`'s text, or `None` when there is no clock object. */
    var clockText: Option<string>
    /** `pillars`: house id to pillar. */
    var pillars: map<string, Pillar>

    constructor(clockText: Option<string>, pillars: map<string, Pillar>)
      ensures this.clockText == clockText && this.pillars == pillars
    {
      this.clockText := clockText;
      this.pillars := pillars;
    }

    /** `updateTime`: without a clock nothing happens; otherwise the clock shows `ClockText`. */
    method UpdateTime(totalSeconds: int, course: int, month: string)
      modifies this
      ensures old(clockText).None? ==> clockText == None
      ensures old(clockText).Some? ==> clockText == Some(ClockText(totalSeconds, course, month))
      ensures pillars == old(pillars)
    {
      if clockText.None? {
        return;
      }
      var hours := totalSeconds / 3600;
      var minutes := GameConfig.JsRem(totalSeconds, 3600) / 60;
      var hStr := PadStart(IntToString(hours), 2, '0');
      var mStr := PadStart(IntToString(minutes), 2, '0');
      var text := hStr + ":" + mStr + "\nCourse " + IntToString(course) + "\n" + month;
      Regroup(hStr + ":" + mStr, "\nCourse ", IntToString(course), "\n", month);
      clockText := Some(text);
    }

    /** The `updatePillar` closure: only a registered pillar changes. */
    method UpdatePillar(id: string, val: int, maxDisplay: int)
      requires maxDisplay > 0
      modifies this
      ensures pillars == if id in old(pillars) then old(pillars)[id := Pillar(PillarHeight(val, maxDisplay), IntToString(val))] else old(pillars)
      ensures clockText == old(clockText)
    {
      if id in pillars {
        var height := (val as real / maxDisplay as real) * 40.0;
        pillars := pillars[id := Pillar(height, IntToString(val))];
      }
    }

    /** `updatePoints(ignis, axiom, vesper)`. */
    method UpdatePoints(ignis: int, axiom: int, vesper: int)
      modifies this
      ensures pillars == UpdatedPillars(old(pillars), ignis, axiom, vesper)
      ensures clockText == old(clockText)
    {
      var maxDisplay := MaxDisplay(ignis, axiom, vesper);
      UpdatePillar("ignis", ignis, maxDisplay);
      UpdatePillar("axiom", axiom, maxDisplay);
      UpdatePillar("vesper", vesper, maxDisplay);
    }
  }
}
