/** The timer engine (app/hooks/useTimer.js): one countdown that is either solo, run from
    local state, or synced, run from the bound session record. Each React effect, the
    once-per-second interval callback and each action is a method; `now` is the wall clock
    in epoch milliseconds. Writes to the session go through the backend's `UpdateSession`
    and so land in `backend.log`; `onComplete` calls are recorded in `completions`. */
module TimerHook {
  import opened Options
  import opened Modes
  import opened Session

  /** `DEFAULT_MODES` */
  const DefaultModes: Settings :=
    map["pomodoro" := ModeSetting("Pomodoro", 25 * 60),
        "short" := ModeSetting("Short Break", 5 * 60),
        "long" := ModeSetting("Long Break", 15 * 60)]

  /** The timer's defaults are the session defaults, and every default duration is positive. */
  lemma DefaultModesAgree()
    ensures DefaultModes == DefaultSettings
    ensures HasStandardKeys(DefaultModes) && PositiveDurations(DefaultModes)
  {
  }

  function Max0(x: int): int {
    if x < 0 then 0 else x
  }

  /** The record carries a live deadline: running, with an `end_time`. */
  predicate Live(rec: SessionRecord) {
    rec.status == Running && rec.endTime.Some?
  }

  /** `getRemoteTime(data)` at instant `now`: while running with a deadline, the whole
      seconds left before it (never negative); otherwise the stored `remaining`. */
  function RemoteTime(rec: SessionRecord, now: int): (r: int)
    ensures Live(rec) ==> r >= 0
    ensures Live(rec) && rec.endTime.value >= now ==>
      r * 1000 <= rec.endTime.value - now < r * 1000 + 1000
    ensures Live(rec) && rec.endTime.value < now ==> r == 0
    ensures !Live(rec) ==> r == rec.remaining
  {
    if Live(rec) then Max0((rec.endTime.value - now) / 1000) else rec.remaining
  }

  /** Deadline resolution never counts up as the clock advances. */
  lemma RemoteTimeNonIncreasing(rec: SessionRecord, t1: int, t2: int)
    requires t1 <= t2
    ensures RemoteTime(rec, t2) <= RemoteTime(rec, t1)
  {
  }

  /** `Math.abs(prev - newTime) > 1 ? newTime : prev`: the displayed value moves to the
      resolved one only when they are more than one second apart. */
  function Snap(prev: int, newTime: int): (r: int)
    ensures r == newTime || r == prev
    ensures -1 <= r - newTime <= 1
    ensures -1 <= prev - newTime <= 1 ==> r == prev
  {
    if prev - newTime > 1 || newTime - prev > 1 then newTime else prev
  }

  /** Applying the same resolved value twice is applying it once. */
  lemma SnapIdempotent(prev: int, newTime: int)
    ensures Snap(Snap(prev, newTime), newTime) == Snap(prev, newTime)
  {
  }

  /** The write that pauses with `remaining` seconds left: `{status: 'paused', remaining, end_time: null}`. */
  function PausePatch(remaining: int): Patch {
    Patch(None, Some(Paused), Some(remaining), Some(None), None)
  }

  /** The write that starts a countdown of `d` seconds at `now`: `{status: 'running', end_time}`. */
  function StartPatch(now: int, d: int): Patch {
    Patch(None, Some(Running), None, Some(Some(now + d * 1000)), None)
  }

  /** The write `changeMode` sends. */
  function ModePatch(m: string, time: int): Patch {
    Patch(Some(m), Some(Paused), Some(time), Some(None), None)
  }

  /** The write `updateSettings` sends. */
  function SettingsPatch(s: Settings, time: int): Patch {
    Patch(None, Some(Paused), Some(time), Some(None), Some(s))
  }

  /** After a pause write the record resolves to the captured value at every instant. */
  lemma PausePatchResolves(rec: SessionRecord, d: int, t: int)
    ensures !Live(Merge(rec, PausePatch(d)))
    ensures RemoteTime(Merge(rec, PausePatch(d)), t) == d
  {
  }

  /** After a start write at `now` with `d` seconds on the display, resolving `k` whole
      seconds later yields `d - k`, and zero once the deadline has passed; in particular
      resolving at `now` itself yields `d`. */
  lemma StartPatchResolves(rec: SessionRecord, now: int, d: int, k: int)
    ensures Live(Merge(rec, StartPatch(now, d)))
    ensures RemoteTime(Merge(rec, StartPatch(now, d)), now + k * 1000) == Max0(d - k)
  {
    var e := now + d * 1000 - (now + k * 1000);
    assert e == (d - k) * 1000;
    assert e / 1000 == d - k;
  }

  /** The echo of one's own start write, applied at the instant it was sent, leaves the
      display where it was: starting causes no visible jump. */
  lemma StartEchoKeepsDisplay(rec: SessionRecord, now: int, d: int)
    requires d >= 0
    ensures Snap(d, RemoteTime(Merge(rec, StartPatch(now, d)), now)) == d
  {
    StartPatchResolves(rec, now, d, 0);
  }

  /** A mode write leaves the record paused in the new mode at the new mode's duration. */
  lemma ModePatchResolves(rec: SessionRecord, m: string, time: int, t: int)
    ensures Merge(rec, ModePatch(m, time)).mode == m
    ensures !Live(Merge(rec, ModePatch(m, time)))
    ensures RemoteTime(Merge(rec, ModePatch(m, time)), t) == time
  {
  }

  /** A settings write replaces the table and leaves the record paused at the given duration,
      whatever deadline was running before. */
  lemma SettingsPatchResolves(rec: SessionRecord, s: Settings, time: int, t: int)
    ensures Merge(rec, SettingsPatch(s, time)).settings == Some(s)
    ensures !Live(Merge(rec, SettingsPatch(s, time)))
    ensures RemoteTime(Merge(rec, SettingsPatch(s, time)), t) == time
  {
  }

  /** A newly created session resolves to its full duration whatever the clock says. */
  lemma NewRecordResolves(id: string, host: string, mode: string, time: int, s: Settings, t: int)
    ensures RemoteTime(NewRecord(id, host, mode, time, s), t) == time
  {
  }

  /** `backend.sessionData?.settings || localSettings` */
  function ModesOf(data: Option<SessionRecord>, local: Settings): Settings {
    if data.Some? && data.value.settings.Some? then data.value.settings.value else local
  }

  /** `backend.sessionData?.mode || localMode` */
  function ModeOf(data: Option<SessionRecord>, localMode: string): string {
    if data.Some? && data.value.mode != "" then data.value.mode else localMode
  }

  class Timer {
    const backend: SessionClient
    /** Whether an `onComplete` callback was supplied. */
    const notifies: bool
    var localSettings: Settings
    var localMode: string
    var localTime: int
    var localIsRunning: bool
    var displayTime: int
    /** The argument of every `onComplete(isSynced)` call, oldest first. */
    var completions: seq<bool>

    /** The hook's initial state; `saved` is the mode table read back from local storage, if
        any could be read. */
    constructor (backend: SessionClient, saved: Option<Settings>, notifies: bool)
      requires "pomodoro" in ModesOf(backend.sessionData, saved.GetOr(DefaultModes))
      ensures this.backend == backend && this.notifies == notifies
      ensures localSettings == saved.GetOr(DefaultModes) && localMode == "pomodoro"
      ensures localTime == Modes()["pomodoro"].time && displayTime == localTime
      ensures !localIsRunning && completions == []
    {
      this.backend := backend;
      this.notifies := notifies;
      localSettings := saved.GetOr(DefaultModes);
      localMode := "pomodoro";
      localTime := ModesOf(backend.sessionData, saved.GetOr(DefaultModes))["pomodoro"].time;
      localIsRunning := false;
      displayTime := localTime;
      completions := [];
    }

    /** `!!backend.sessionId` */
    predicate IsSynced()
      reads backend
    {
      Truthy(backend.sessionId)
    }

    /** The mode table in effect. */
    function Modes(): Settings
      reads this, backend
    {
      ModesOf(backend.sessionData, localSettings)
    }

    function CurrentMode(): string
      reads this, backend
    {
      ModeOf(backend.sessionData, localMode)
    }

    /** Synced: the record says running; solo: the local flag. */
    predicate IsRunning()
      reads this, backend
    {
      if IsSynced() then backend.sessionData.Some? && backend.sessionData.value.status == Running
      else localIsRunning
    }

    /** `calculateTimeLeft()` at instant `now`: the record's resolution when synced and a
        record is present, the local counter otherwise. */
    function TimeLeft(now: int): (r: int)
      reads this, backend
      ensures IsSynced() && backend.sessionData.Some? ==> r == RemoteTime(backend.sessionData.value, now)
      ensures !(IsSynced() && backend.sessionData.Some?) ==> r == localTime
      ensures IsSynced() && backend.sessionData.Some? && Live(backend.sessionData.value) ==> r >= 0
    {
      if IsSynced() && backend.sessionData.Some? then RemoteTime(backend.sessionData.value, now)
      else localTime
    }

    /** The interval exists exactly while the timer runs with time left on the display. */
    predicate Scheduled()
      reads this, backend
    {
      IsRunning() && displayTime > 0
    }

    /** Effect 1, run when the bound record changes: snap the display to the record's value. */
    method SyncWithBackend(now: int)
      modifies this`displayTime
      ensures IsSynced() && backend.sessionData.Some? ==>
        displayTime == Snap(old(displayTime), RemoteTime(backend.sessionData.value, now))
      ensures IsSynced() && backend.sessionData.Some? ==>
        -1 <= displayTime - TimeLeft(now) <= 1
      ensures !(IsSynced() && backend.sessionData.Some?) ==> displayTime == old(displayTime)
    {
      if IsSynced() && backend.sessionData.Some? {
        var newTime := RemoteTime(backend.sessionData.value, now);
        displayTime := Snap(displayTime, newTime);
      }
    }

    /** Effect 2, run when the source, the mode, the table or the local running flag changes:
        a solo timer that is not running shows the current mode's full duration. */
    method SyncWithLocalSettings()
      requires !IsSynced() && !localIsRunning ==> CurrentMode() in Modes()
      modifies this`localTime, this`displayTime
      ensures !IsSynced() && !localIsRunning ==>
        localTime == Modes()[CurrentMode()].time && displayTime == localTime
      ensures IsSynced() || localIsRunning ==>
        localTime == old(localTime) && displayTime == old(displayTime)
    {
      if !IsSynced() {
        if !localIsRunning {
          var targetTime := Modes()[CurrentMode()].time;
          localTime := targetTime;
          displayTime := targetTime;
        }
      }
    }

    /** One firing of the once-per-second interval. It fires only while `Scheduled()`: above
        one second it counts down by one and does nothing else; at the bottom it shows zero,
        calls `onComplete(isSynced)` and either writes the paused zero record (synced) or
        clears the local running flag (solo). */
    method Tick()
      modifies this`displayTime, this`localIsRunning, this`completions, backend`log
      ensures !old(Scheduled()) ==>
        displayTime == old(displayTime) && localIsRunning == old(localIsRunning) &&
        completions == old(completions) && backend.log == old(backend.log)
      ensures old(Scheduled()) && old(displayTime) > 1 ==>
        displayTime == old(displayTime) - 1 && localIsRunning == old(localIsRunning) &&
        completions == old(completions) && backend.log == old(backend.log)
      ensures old(Scheduled()) && old(displayTime) <= 1 ==>
        displayTime == 0 && !Scheduled() &&
        completions == old(completions) + (if notifies then [IsSynced()] else [])
      ensures old(Scheduled()) && old(displayTime) <= 1 && IsSynced() ==>
        backend.log == old(backend.log) + [PausePatch(0)] && localIsRunning == old(localIsRunning)
      ensures old(Scheduled()) && old(displayTime) <= 1 && !IsSynced() ==>
        backend.log == old(backend.log) && !localIsRunning
    {
      if IsRunning() && displayTime > 0 {
        var prev := displayTime;
        if prev <= 1 {
          if notifies {
            completions := completions + [IsSynced()];
          }
          if IsSynced() {
            backend.UpdateSession(PausePatch(0));
          } else {
            localIsRunning := false;
          }
          displayTime := 0;
        } else {
          displayTime := prev - 1;
        }
      }
    }

    /** Effect 3's own body, run after every render: a solo timer left running at zero is
        stopped, and the local counter takes the displayed value. */
    method TickEffect()
      modifies this`localTime, this`localIsRunning
      ensures localIsRunning ==
        if old(IsRunning()) && displayTime == 0 && !IsSynced() then false else old(localIsRunning)
      ensures localTime == displayTime
    {
      if !(IsRunning() && displayTime > 0) && displayTime == 0 && IsRunning() {
        if !IsSynced() {
          localIsRunning := false;
        }
      }
      if displayTime != localTime {
        localTime := displayTime;
      }
    }

    /** `toggle()` at instant `now`. Synced: a running timer writes a pause at the displayed
        value, a paused one writes a deadline `displayTime` seconds ahead. Solo: flips the
        local running flag. */
    method Toggle(now: int)
      modifies this`localIsRunning, backend`log
      ensures IsSynced() && old(IsRunning()) ==>
        backend.log == old(backend.log) + [PausePatch(displayTime)] &&
        localIsRunning == old(localIsRunning)
      ensures IsSynced() && !old(IsRunning()) ==>
        backend.log == old(backend.log) + [StartPatch(now, displayTime)] &&
        localIsRunning == old(localIsRunning)
      ensures !IsSynced() ==>
        localIsRunning == !old(localIsRunning) && backend.log == old(backend.log)
    {
      if IsSynced() {
        if IsRunning() {
          backend.UpdateSession(PausePatch(displayTime));
        } else {
          backend.UpdateSession(StartPatch(now, displayTime));
        }
      } else {
        localIsRunning := !localIsRunning;
      }
    }

    /** `changeMode(m)`: synced, one write of the paused record in mode `m` at its full
        duration; solo, the same state set locally. */
    method ChangeMode(m: string)
      requires m in Modes()
      modifies this`localMode, this`localIsRunning, this`localTime, this`displayTime, backend`log
      ensures IsSynced() ==>
        backend.log == old(backend.log) + [ModePatch(m, Modes()[m].time)] &&
        localMode == old(localMode) && localIsRunning == old(localIsRunning) &&
        localTime == old(localTime) && displayTime == old(displayTime)
      ensures !IsSynced() ==>
        localMode == m && !localIsRunning && localTime == Modes()[m].time &&
        displayTime == localTime && backend.log == old(backend.log)
    {
      var newTime := Modes()[m].time;
      if IsSynced() {
        backend.UpdateSession(ModePatch(m, newTime));
      } else {
        localMode := m;
        localIsRunning := false;
        localTime := newTime;
        displayTime := newTime;
      }
    }

    /** `updateSettings(s)`: synced, one write of the new table with the record paused at the
        current mode's new duration; solo, the table is kept locally and the countdown is
        stopped and reset to the local mode's new duration. */
    method UpdateSettings(s: Settings)
      requires (if IsSynced() then CurrentMode() else localMode) in s
      modifies this`localSettings, this`localTime, this`displayTime, this`localIsRunning, backend`log
      ensures IsSynced() ==>
        backend.log == old(backend.log) + [SettingsPatch(s, s[CurrentMode()].time)] &&
        localSettings == old(localSettings) && localTime == old(localTime) &&
        displayTime == old(displayTime) && localIsRunning == old(localIsRunning)
      ensures !IsSynced() ==>
        localSettings == s && localTime == s[localMode].time && displayTime == localTime &&
        !localIsRunning && backend.log == old(backend.log)
    {
      if IsSynced() {
        var currentModeSettings := s[CurrentMode()];
        backend.UpdateSession(SettingsPatch(s, currentModeSettings.time));
      } else {
        localSettings := s;
        localTime := s[localMode].time;
        displayTime := s[localMode].time;
        localIsRunning := false;
      }
    }
  }

  /** Pausing a solo countdown: the toggle clears the running flag, which is one of Effect 2's
      dependencies, so Effect 2 runs and puts the full duration back on the display. */
  method PauseSoloCountdown(t: Timer, now: int)
    requires !t.IsSynced() && t.localIsRunning && t.CurrentMode() in t.Modes()
    modifies t`localIsRunning, t`localTime, t`displayTime, t.backend`log
    ensures !t.localIsRunning && !t.IsRunning()
    ensures t.displayTime == t.Modes()[t.CurrentMode()].time && t.localTime == t.displayTime
    ensures t.backend.log == old(t.backend.log)
  {
    t.Toggle(now);
    t.SyncWithLocalSettings();
  }

  /** A solo countdown at its last second: the tick completes it once and clears the running
      flag, Effect 2 (the running flag changed) restores the full duration, and then Effect 3
      runs; a further tick does nothing. React runs the effects in declaration order. In the
      same commit Effect 3 still sees the render's zero and copies it into the local counter;
      the render that follows copies the full duration back. `TickEffect` reads the current
      fields, so it does both steps at once, and the state at the end is the same. */
  method ExpireSoloCountdown(t: Timer)
    requires !t.IsSynced() && t.localIsRunning && t.displayTime == 1
    requires t.CurrentMode() in t.Modes()
    modifies t`localIsRunning, t`localTime, t`displayTime, t`completions, t.backend`log
    ensures t.completions == old(t.completions) + (if t.notifies then [false] else [])
    ensures !t.localIsRunning && t.displayTime == t.Modes()[t.CurrentMode()].time
    ensures t.localTime == t.displayTime
    ensures t.backend.log == old(t.backend.log)
  {
    t.Tick();
    t.SyncWithLocalSettings();
    t.TickEffect();
    t.Tick();
  }

  /** A synced countdown at its last second: whatever the number of ticks that follow, the
      completion is raised once and the paused zero record is written once. */
  method ExpireSyncedCountdown(t: Timer, extraTicks: nat)
    requires t.IsSynced() && t.IsRunning() && t.displayTime == 1
    modifies t, t.backend`log
    ensures t.completions == old(t.completions) + (if t.notifies then [true] else [])
    ensures t.backend.log == old(t.backend.log) + [PausePatch(0)]
    ensures t.displayTime == 0
  {
    t.Tick();
    var i := 0;
    while i < extraTicks
      invariant t.displayTime == 0 && t.IsSynced()
      invariant t.completions == old(t.completions) + (if t.notifies then [true] else [])
      invariant t.backend.log == old(t.backend.log) + [PausePatch(0)]
    {
      t.TickEffect();
      t.Tick();
      i := i + 1;
    }
  }

  /** Effect 1 run twice on the same record at the same instant is Effect 1 run once. */
  method SyncTwice(t: Timer, now: int)
    modifies t`displayTime
    ensures t.IsSynced() && t.backend.sessionData.Some? ==>
      t.displayTime == Snap(old(t.displayTime), RemoteTime(t.backend.sessionData.value, now))
    ensures !(t.IsSynced() && t.backend.sessionData.Some?) ==> t.displayTime == old(t.displayTime)
  {
    t.SyncWithBackend(now);
    t.SyncWithBackend(now);
    if t.IsSynced() && t.backend.sessionData.Some? {
      SnapIdempotent(old(t.displayTime), RemoteTime(t.backend.sessionData.value, now));
    }
  }

  /** Leaving the session makes the timer solo: the local mode table, mode and counter are
      in effect again. */
  method LeaveMakesSolo(t: Timer)
    modifies t.backend`sessionId, t.backend`sessionData
    ensures !t.IsSynced() && !t.backend.IsHost()
    ensures t.Modes() == t.localSettings && t.CurrentMode() == t.localMode
    ensures t.IsRunning() == t.localIsRunning
    ensures forall now :: t.TimeLeft(now) == t.localTime
  {
    t.backend.LeaveSession();
  }
}
