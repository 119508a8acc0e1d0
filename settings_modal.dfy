/** The settings dialog (app/components/SettingsModal.js): a local copy of the mode table,
    edited in whole minutes and handed back on save. */
module SettingsModal {
  import opened Options
  import opened Text
  import opened Modes

  /** `parseInt(e.target.value) || 0`: what does not parse, and 0, become 0. */
  function Minutes(v: string): int {
    ParseInt(v).GetOr(0)
  }

  /** Nothing checks the number: a digit prefix is read and the rest ignored. */
  lemma MinutesOfDigitPrefix(d: string, rest: string)
    requires d != [] && AllDigits(d)
    requires rest == [] || (!IsDigit(rest[0]) && (d == "0" ==> rest[0] != 'x' && rest[0] != 'X'))
    ensures Minutes(d + rest) == DigitsValue(d)
  {
    ParseIntDigitPrefix(d, rest);
  }

  lemma DigitsOf12()
    ensures AllDigits("12") && DigitsValue("12") == 12
  {
    assert "12"[..1] == "1";
  }

  /** So `12abc` is 12 minutes, 720 seconds. */
  lemma MinutesOf12abc()
    ensures Minutes("12abc") == 12
  {
    var s := "12abc";
    assert s[..2] == "12" && s[2..] == "abc";
    DigitsOf12();
    assert s == s[..2] + s[2..];
    MinutesOfDigitPrefix(s[..2], s[2..]);
  }

  /** Empty text, and text that starts with neither white space, a sign nor a digit,
      gives 0. */
  lemma MinutesOfNonNumber(t: string)
    requires t == [] || (!IsSpace(t[0]) && !IsDigit(t[0]) && t[0] != '-' && t[0] != '+')
    ensures Minutes(t) == 0
  {
    if t != [] {
      TrimStartKeeps(t);
    }
    DigitRunEndIs(t, 0, 0);
  }

  lemma MinutesOfEmpty()
    ensures Minutes("") == 0
  {
    MinutesOfNonNumber("");
  }

  lemma MinutesOfAbc()
    ensures Minutes("abc") == 0
  {
    MinutesOfNonNumber("abc");
  }

  /** A negative number is kept, so `-5` minutes becomes -300 seconds. */
  lemma MinutesOfNegative()
    ensures Minutes("-5") == -5
  {
    ParseIntNegative("5", "");
    assert "-" + "5" + "" == "-5";
  }

  /** Every integer typed in its usual decimal form is read back as itself. */
  lemma MinutesOfNumber(n: int)
    ensures Minutes(IntToString(n)) == n
  {
    ParseIntOfIntToString(n);
  }

  /** The `setLocalSettings` updater of `handleChange`: the edited mode keeps its label and
      gets the new duration in seconds; every other mode is left as it was. */
  function WithMinutes(s: Settings, k: string, minutes: int): (r: Settings)
    requires k in s
    ensures r.Keys == s.Keys
    ensures r[k].name == s[k].name && r[k].time == minutes * 60
    ensures forall j :: j in s && j != k ==> r[j] == s[j]
  {
    s[k := s[k].(time := minutes * 60)]
  }

  /** `Math.floor(value.time / 60)`: the whole minutes an input shows. */
  function Shown(time: int): int {
    time / 60
  }

  /** An input shows back the number of minutes just typed into it. */
  lemma ShownAfterChange(s: Settings, k: string, v: string)
    requires k in s
    ensures Shown(WithMinutes(s, k, Minutes(v))[k].time) == Minutes(v)
  {
    var m := Minutes(v);
    assert (m * 60) / 60 == m;
  }

  /** `isSolo || isHost` */
  function CanEdit(isSolo: bool, isHost: bool): (c: bool)
    ensures !isSolo && !isHost ==> !c
    ensures isSolo || isHost ==> c
  {
    isSolo || isHost
  }

  /** What the dialog shows: the warning, whether the inputs are disabled, whether Save is
      offered, and the minutes each input shows. */
  datatype View = View(warning: bool, inputsDisabled: bool, saveButton: bool, shown: map<string, int>)

  function Render(isOpen: bool, isSolo: bool, isHost: bool, local: Settings): (r: Option<View>)
    ensures r.None? <==> !isOpen
    ensures r.Some? ==>
      (r.value.saveButton <==> CanEdit(isSolo, isHost)) &&
      (r.value.inputsDisabled <==> !CanEdit(isSolo, isHost)) &&
      (r.value.warning <==> !CanEdit(isSolo, isHost))
    ensures r.Some? ==> (r.value.shown.Keys == local.Keys &&
      forall k :: k in local ==> r.value.shown[k] == Shown(local[k].time))
  {
    if !isOpen then None
    else
      var canEdit := CanEdit(isSolo, isHost);
      Some(View(!canEdit, !canEdit, canEdit, map k | k in local :: Shown(local[k].time)))
  }

  class SettingsDialog {
    var localSettings: Settings
    /** The argument of every `onSave` call, oldest first. */
    var saved: seq<Settings>
    /** How many times `onClose` was called. */
    var closes: nat

    constructor (currentSettings: Settings)
      ensures localSettings == currentSettings && saved == [] && closes == 0
    {
      localSettings, saved, closes := currentSettings, [], 0;
    }

    /** The effect on `isOpen` and `currentSettings`: opening resets the local copy. */
    method OnOpen(isOpen: bool, currentSettings: Settings)
      modifies this`localSettings
      ensures localSettings == if isOpen then currentSettings else old(localSettings)
    {
      if isOpen {
        localSettings := currentSettings;
      }
    }

    /** `handleChange(modeKey, e)`; the inputs are rendered from the local copy's own keys. */
    method HandleChange(modeKey: string, value: string)
      requires modeKey in localSettings
      modifies this`localSettings
      ensures localSettings == WithMinutes(old(localSettings), modeKey, Minutes(value))
    {
      var minutes := Minutes(value);
      localSettings := localSettings[modeKey := localSettings[modeKey].(time := minutes * 60)];
    }

    /** `handleSave`: the local copy goes to `onSave` as it is, then the dialog closes. */
    method HandleSave()
      modifies this`saved, this`closes
      ensures saved == old(saved) + [localSettings] && closes == old(closes) + 1
    {
      saved := saved + [localSettings];
      closes := closes + 1;
    }
  }

  /** Opening the dialog, typing minutes into one mode and saving hands `onSave` the current
      table with only that mode's duration changed. */
  method EditAndSave(d: SettingsDialog, current: Settings, modeKey: string, value: string)
    requires modeKey in current
    modifies d`localSettings, d`saved, d`closes
    ensures d.saved == old(d.saved) + [WithMinutes(current, modeKey, Minutes(value))]
    ensures d.saved[|d.saved| - 1][modeKey].time == Minutes(value) * 60
  {
    d.OnOpen(true, current);
    d.HandleChange(modeKey, value);
    d.HandleSave();
  }
}
