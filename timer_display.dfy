/** The main timer card (app/components/TimerDisplay.js): the mode buttons, the clock as
    `MM:SS`, and the start/pause controls. */
module TimerDisplay {
  import opened Options
  import opened Text
  import opened Modes
  import TimerHook

  /** `a % b` in JavaScript for a positive `b`: the remainder takes the sign of `a`. */
  function JsRem(a: int, b: int): (r: int)
    requires b > 0
    ensures a >= 0 ==> r == a % b
    ensures a < 0 ==> -b < r <= 0 && -r == (-a) % b
  {
    if a >= 0 then a % b else -((-a) % b)
  }

  /** `n < 10 ? '0' + n : n` in a template string: a leading zero below ten (negative
      numbers included). */
  function Pad2(n: int): string {
    if n < 10 then "0" + IntToString(n) else IntToString(n)
  }

  /** A non-negative field prints as digits with its own value; two of them below 100,
      three or more from 100 on. */
  lemma Pad2Digits(n: nat)
    ensures AllDigits(Pad2(n)) && DigitsValue(Pad2(n)) == n
    ensures n < 100 ==> |Pad2(n)| == 2
    ensures n >= 100 ==> |Pad2(n)| >= 3
  {
    NatToStringLength(n);
    var d := NatToString(n);
    if n < 10 {
      assert Pad2(n) == "0" + d;
      assert AllDigits("0" + d) by {
        assert forall i :: 1 <= i < |"0" + d| ==> ("0" + d)[i] == d[i - 1];
      }
      DigitsValueLeadingZero(d);
    }
  }

  /** `fmt`: whole minutes, a colon, and the seconds within the minute, each padded to two
      digits. */
  function Fmt(s: int): string {
    var m := s / 60;
    var sc := JsRem(s, 60);
    Pad2(m) + ":" + Pad2(sc)
  }

  /** Reading a clock back: the digits before the colon are minutes, and exactly two digits
      after it are the seconds within the minute, below 60. */
  function ReadClock(t: string): Option<int> {
    var i := DigitRunEnd(t, 0);
    if 0 < i && i + 3 == |t| && t[i] == ':' && AllDigits(t[i + 1..]) && DigitsValue(t[i + 1..]) < 60 then
      Some(60 * DigitsValue(t[..i]) + DigitsValue(t[i + 1..]))
    else None
  }

  /** The clock loses nothing: for every non-negative number of seconds, the minutes and
      seconds it prints add back up to that number, and the last two characters, after the
      colon, are the seconds within the minute. */
  lemma ReadFmt(s: nat)
    ensures ReadClock(Fmt(s)) == Some(s)
    ensures |Fmt(s)| >= 5 && Fmt(s)[|Fmt(s)| - 3] == ':'
    ensures AllDigits(Fmt(s)[|Fmt(s)| - 2..]) && DigitsValue(Fmt(s)[|Fmt(s)| - 2..]) == s % 60 < 60
  {
    var a := Pad2(s / 60);
    var b := Pad2(s % 60);
    Pad2Digits(s / 60);
    Pad2Digits(s % 60);
    var t := a + ":" + b;
    assert t == Fmt(s);
    assert forall k :: 0 <= k < |a| ==> t[k] == a[k];
    DigitRunEndIs(t, 0, |a|);
    assert t[..|a|] == a;
    assert t[|a| + 1..] == b;
    assert |b| == 2 && |t| == |a| + 3;
  }

  /** Below 100 minutes the clock is exactly `MM:SS`, and the seconds field is below 60. */
  lemma FmtShape(s: int)
    requires 0 <= s < 6000
    ensures |Fmt(s)| == 5 && Fmt(s)[2] == ':'
    ensures AllDigits(Fmt(s)[3..]) && DigitsValue(Fmt(s)[3..]) == s % 60 < 60
  {
    Pad2Digits(s / 60);
    Pad2Digits(s % 60);
    assert Fmt(s)[3..] == Pad2(s % 60);
  }

  /** Minutes are not capped: from 100 minutes on the minutes field has three or more digits. */
  lemma FmtLong(s: int)
    requires s >= 6000
    ensures |Fmt(s)| >= 6 && Fmt(s)[|Fmt(s)| - 3] == ':'
    ensures DigitRunEnd(Fmt(s), 0) >= 3
  {
    var a := Pad2(s / 60);
    Pad2Digits(s / 60);
    Pad2Digits(s % 60);
    var t := Fmt(s);
    assert forall k :: 0 <= k < |a| ==> t[k] == a[k];
    DigitRunEndIs(t, 0, |a|);
  }

  /** A negative number of seconds, which a negative duration produces, prints with the
      minus signs inside the padded fields: the minutes are rounded down, and the seconds keep
      the sign of the total, so a whole number of minutes shows `00` seconds (JavaScript's
      `-0` prints as `0`). */
  lemma FmtNegative(s: int)
    requires s < 0
    ensures Fmt(s) == "0-" + NatToString(-(s / 60)) + ":" +
      (if (-s) % 60 == 0 then "00" else "0-" + NatToString((-s) % 60))
  {
    MinutesFieldNegative(s);
    SecondsFieldNegative(s);
  }

  lemma MinutesFieldNegative(s: int)
    requires s < 0
    ensures s / 60 < 0 && Pad2(s / 60) == "0-" + NatToString(-(s / 60))
  {
    Pad2Negative(s / 60);
  }

  lemma SecondsFieldNegative(s: int)
    requires s < 0
    ensures Pad2(JsRem(s, 60)) == if (-s) % 60 == 0 then "00" else "0-" + NatToString((-s) % 60)
  {
    var sc := JsRem(s, 60);
    if (-s) % 60 == 0 {
      assert sc == 0;
      assert Pad2(sc) == "00";
    } else {
      Pad2Negative(sc);
    }
  }

  lemma Pad2Negative(n: int)
    requires n < 0
    ensures Pad2(n) == "0-" + NatToString(-n)
  {
    assert "0" + ("-" + NatToString(-n)) == "0-" + NatToString(-n);
  }

  /** `MODES`: the labels of the mode buttons, in the order `Object.keys` lists them. */
  const ModeKeys: seq<string> := ["pomodoro", "short", "long"]
  const Labels: map<string, string> :=
    map["pomodoro" := "Pomodoro", "short" := "Short Break", "long" := "Long Break"]

  /** The labels shown are the labels of the timer's default modes, and the buttons cover
      exactly its mode keys. */
  lemma LabelsAgree()
    ensures forall k :: k in Labels <==> k in TimerHook.DefaultModes
    ensures forall k :: k in Labels ==> Labels[k] == TimerHook.DefaultModes[k].name
    ensures forall k :: k in ModeKeys <==> k in Labels
  {
  }

  /** One mode button: clicking it calls `onModeChange(key)`. */
  datatype ModeButton = ModeButton(key: string, caption: string, selected: bool)

  function ModeButtons(mode: string): (r: seq<ModeButton>)
    ensures |r| == |ModeKeys|
    ensures forall i :: 0 <= i < |r| ==>
      r[i].key == ModeKeys[i] && r[i].caption == Labels[ModeKeys[i]] && (r[i].selected <==> mode == ModeKeys[i])
  {
    seq(|ModeKeys|, i requires 0 <= i < |ModeKeys| =>
      ModeButton(ModeKeys[i], Labels[ModeKeys[i]], mode == ModeKeys[i]))
  }

  /** At most one button is marked, and one is exactly when the mode is a standard one. */
  lemma OneButtonSelected(mode: string)
    ensures forall i, j :: (0 <= i < |ModeKeys| && 0 <= j < |ModeKeys| &&
      ModeButtons(mode)[i].selected && ModeButtons(mode)[j].selected) ==> i == j
    ensures (exists i :: 0 <= i < |ModeKeys| && ModeButtons(mode)[i].selected) <==> mode in ModeKeys
  {
    var b := ModeButtons(mode);
    assert |ModeKeys[0]| == 8 && |ModeKeys[1]| == 5 && |ModeKeys[2]| == 4;
    if mode in ModeKeys {
      var i :| 0 <= i < |ModeKeys| && ModeKeys[i] == mode;
      assert b[i].selected;
    }
  }

  /** Every button names a mode the timer can switch to, whenever its table has the
      standard keys. */
  lemma ButtonsNameModes(mode: string, s: Settings)
    requires HasStandardKeys(s)
    ensures forall i :: 0 <= i < 3 ==> ModeButtons(mode)[i].key in s
  {
  }

  /** What the card shows. */
  datatype View = View(buttons: seq<ModeButton>, clock: string, mainLabel: string, pauseButton: bool)

  function Render(mode: string, time: int, isRunning: bool): (v: View)
    ensures v.buttons == ModeButtons(mode) && v.clock == Fmt(time)
    ensures v.mainLabel == "Pause" <==> isRunning
    ensures v.mainLabel == "Start" <==> !isRunning
    ensures v.pauseButton <==> isRunning
  {
    View(ModeButtons(mode), Fmt(time), if isRunning then "Pause" else "Start", isRunning)
  }
}
