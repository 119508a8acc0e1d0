/** The full-screen focus view (app/components/FocusMode.js): its own copy of the clock
    formatting, the heading and the play/pause icon, and closing on Escape. */
module FocusMode {
  import opened Options
  import opened Text
  import TimerDisplay
  import Tasks

  /** `formatTime`, written in this component apart from `TimerDisplay`'s `fmt`. */
  function FormatTime(seconds: int): string {
    var m := seconds / 60;
    var s := TimerDisplay.JsRem(seconds, 60);
    (if m < 10 then "0" + IntToString(m) else IntToString(m)) + ":" +
    (if s < 10 then "0" + IntToString(s) else IntToString(s))
  }

  /** The two copies agree on every input, negative ones included. */
  lemma FormatTimeAgrees(seconds: int)
    ensures FormatTime(seconds) == TimerDisplay.Fmt(seconds)
  {
  }

  /** Below 100 minutes the clock is `MM:SS` with the seconds field below 60. */
  lemma FormatTimeShape(seconds: int)
    requires 0 <= seconds < 6000
    ensures |FormatTime(seconds)| == 5 && FormatTime(seconds)[2] == ':'
    ensures AllDigits(FormatTime(seconds)[3..]) && DigitsValue(FormatTime(seconds)[3..]) < 60
  {
    FormatTimeAgrees(seconds);
    TimerDisplay.FmtShape(seconds);
  }

  datatype FocusView = FocusView(modeLabel: string, heading: string, clock: string, icon: string)

  /** Nothing is rendered while closed; open, the heading is the current task's title or
      `Focus`, and the icon is `pause` exactly while the timer runs. */
  function Render(isOpen: bool, timeLeft: int, isRunning: bool, currentTask: Option<Tasks.Task>,
                  modeLabel: string): (r: Option<FocusView>)
    ensures r.None? <==> !isOpen
    ensures r.Some? ==>
      r.value.modeLabel == modeLabel && r.value.clock == FormatTime(timeLeft) &&
      r.value.heading == (if currentTask.Some? then currentTask.value.title else "Focus") &&
      (r.value.icon == "pause" <==> isRunning) && (r.value.icon == "play_arrow" <==> !isRunning)
  {
    if !isOpen then None
    else
      Some(FocusView(modeLabel,
                     if currentTask.Some? then currentTask.value.title else "Focus",
                     FormatTime(timeLeft),
                     if isRunning then "pause" else "play_arrow"))
  }

  /** The `keydown` listener calls `onClose` for Escape while open, and for nothing else. */
  function ClosesOn(key: string, isOpen: bool): (c: bool)
    ensures c ==> isOpen
    ensures c <==> key == "Escape" && isOpen
  {
    key == "Escape" && isOpen
  }
}
