/** The mode table shared by the timer, the session record and the settings dialog:
    a map from a mode key (`pomodoro`, `short`, `long`) to its label and duration. */
module Modes {
  datatype ModeSetting = ModeSetting(name: string, time: int)  // `{ label, time }`

  /** Durations are in seconds. */
  type Settings = map<string, ModeSetting>

  predicate HasStandardKeys(s: Settings) {
    "pomodoro" in s && "short" in s && "long" in s
  }

  predicate PositiveDurations(s: Settings) {
    forall k :: k in s ==> s[k].time > 0
  }
}

/** The client side of a shared session (app/hooks/useSupabaseSession.js): which session is
    bound, the last record seen for it, and the merge-patches sent to the store. The store
    itself is a map from session id to record, passed in where it is read; writes are
    recorded in `log` and never delivered back. */
module Session {
  import opened Options
  import opened Text
  import opened Modes

  /** `DEFAULT_SETTINGS`: the mode table a new session gets unless its creator passes one. */
  const DefaultSettings: Settings :=
    map["pomodoro" := ModeSetting("Pomodoro", 25 * 60),
        "short" := ModeSetting("Short Break", 5 * 60),
        "long" := ModeSetting("Long Break", 15 * 60)]

  /** The record's `status`; only `'running'` is treated specially, so every other value reads
      as Paused. */
  datatype Status = Running | Paused

  /** One row of the `sessions` table. `endTime` is the deadline in epoch milliseconds;
      an absent `mode` is the empty string, an absent `settings` is None. */
  datatype SessionRecord = SessionRecord(
    id: string,
    hostId: string,
    mode: string,
    status: Status,
    remaining: int,
    endTime: Option<int>,
    settings: Option<Settings>)

  /** A merge-patch: every field that is present overwrites the record's field.
      `endTime == Some(None)` writes `end_time: null`. */
  datatype Patch = Patch(
    mode: Option<string>,
    status: Option<Status>,
    remaining: Option<int>,
    endTime: Option<Option<int>>,
    settings: Option<Settings>)

  /** What the store does with an update: the record with the patch's fields written over it. */
  function Merge(r: SessionRecord, p: Patch): (m: SessionRecord)
    ensures m.id == r.id && m.hostId == r.hostId
    ensures p == Patch(None, None, None, None, None) ==> m == r
  {
    r.(mode := p.mode.GetOr(r.mode),
       status := p.status.GetOr(r.status),
       remaining := p.remaining.GetOr(r.remaining),
       endTime := p.endTime.GetOr(r.endTime),
       settings := if p.settings.Some? then p.settings else r.settings)
  }

  /** Sending the same update twice leaves the record as sending it once. */
  lemma MergeIdempotent(r: SessionRecord, p: Patch)
    ensures Merge(Merge(r, p), p) == Merge(r, p)
  {
  }

  /** JavaScript truthiness of a session id: present and not the empty string. */
  predicate Truthy(id: Option<string>) {
    id.Some? && id.value != ""
  }

  /** `code.trim().toUpperCase()`: the form in which a join code is looked up. */
  function NormalizeCode(code: string): (r: string)
    ensures Trimmed(r)
    ensures |r| <= |code|
  {
    UpperKeepsTrimmed(Trim(code));
    Upper(Trim(code))
  }

  lemma UpperIdempotent(s: string)
    ensures Upper(Upper(s)) == Upper(s)
  {
    assert forall i :: 0 <= i < |s| ==> Upper(Upper(s))[i] == Upper(s)[i];
  }

  /** Normalising a normalised code changes nothing. */
  lemma NormalizeIdempotent(code: string)
    ensures NormalizeCode(NormalizeCode(code)) == NormalizeCode(code)
  {
    var n := NormalizeCode(code);
    assert Trim(n) == n;
    UpperIdempotent(Trim(code));
  }

  /** `s.substring(start, end)`: both bounds clamped to the string, swapped when reversed. */
  function Substring(s: string, start: int, end: int): (r: string)
    ensures |r| <= |s|
  {
    var a := if start < 0 then 0 else if start > |s| then |s| else start;
    var b := if end < 0 then 0 else if end > |s| then |s| else end;
    if a <= b then s[a..b] else s[b..a]
  }

  /** `s.substr(start, length)` for a non-negative start and length. */
  function Substr(s: string, start: nat, length: nat): (r: string)
    ensures |r| <= length
  {
    if start >= |s| then "" else if start + length >= |s| then s[start..] else s[start..start + length]
  }

  /** A digit or lower-case letter: what `toString(36)` prints after the leading `0.`. */
  predicate IsBase36(c: char) {
    IsDigit(c) || 'a' <= c <= 'z'
  }

  /** The id of a new session: characters 2 to 8 of the base-36 rendering `raw` of a random
      number, upper-cased. */
  function GeneratedId(raw: string): (r: string)
    ensures |r| <= 6
  {
    Upper(Substring(raw, 2, 8))
  }

  lemma UpperBase36Normalized(t: string)
    requires forall k :: 0 <= k < |t| ==> IsBase36(t[k])
    ensures NormalizeCode(Upper(t)) == Upper(t)
  {
    assert Trimmed(t) by {
      if t != [] {
        assert IsBase36(t[0]) && IsBase36(t[|t| - 1]);
      }
    }
    assert Trim(t) == t;
    UpperKeepsTrimmed(t);
    UpperIdempotent(t);
  }

  /** A freshly generated id is already in normal form, so joining by it finds it. */
  lemma GeneratedIdNormalized(raw: string)
    requires forall k :: 2 <= k < |raw| ==> IsBase36(raw[k])
    ensures NormalizeCode(GeneratedId(raw)) == GeneratedId(raw)
  {
    var sub := Substring(raw, 2, 8);
    assert forall k :: 0 <= k < |sub| ==> IsBase36(sub[k]) by {
      if |raw| > 2 {
        assert sub == raw[2..if |raw| < 8 then |raw| else 8];
        forall k | 0 <= k < |sub| ensures IsBase36(sub[k]) {
          assert sub[k] == raw[k + 2];
        }
      } else {
        assert sub == [];
      }
    }
    UpperBase36Normalized(sub);
  }

  /** The row `createSession` inserts: paused, no deadline, the full duration remaining. */
  function NewRecord(id: string, hostId: string, mode: string, time: int, settings: Settings): SessionRecord {
    SessionRecord(id, hostId, mode, Paused, time, None, Some(settings))
  }

  class SessionClient {
    const userId: string
    var sessionId: Option<string>
    var sessionData: Option<SessionRecord>
    var error: Option<string>
    /** Every merge-patch sent to the store, oldest first. */
    var log: seq<Patch>

    /** `raw` is the base-36 rendering of the random number the user id is cut from. */
    constructor (raw: string)
      ensures userId == "user-" + Substr(raw, 2, 9)
      ensures sessionId == None && sessionData == None && error == None && log == []
    {
      userId := "user-" + Substr(raw, 2, 9);
      sessionId, sessionData, error, log := None, None, None, [];
    }

    /** `sessionData?.host_id === userId` */
    predicate IsHost()
      reads this
    {
      sessionData.Some? && sessionData.value.hostId == userId
    }

    /** `createSession`: builds the record for the id cut from `raw`, and if the store
        accepts it (`insertError == None`) binds to it and returns its id; otherwise
        records the error and returns None. */
    method CreateSession(initialMode: string, initialTime: int, settings: Option<Settings>,
                         raw: string, insertError: Option<string>) returns (r: Option<string>)
      modifies this`sessionId, this`sessionData, this`error
      ensures insertError.Some? ==>
        r == None && error == insertError &&
        sessionId == old(sessionId) && sessionData == old(sessionData)
      ensures insertError.None? ==>
        r == Some(GeneratedId(raw)) && sessionId == r && error == old(error) &&
        sessionData == Some(NewRecord(GeneratedId(raw), userId, initialMode, initialTime,
                                      settings.GetOr(DefaultSettings)))
      ensures insertError.None? ==> IsHost()
      ensures insertError.None? ==>
        (sessionData.value.status == Paused && sessionData.value.endTime == None &&
         sessionData.value.remaining == initialTime)
    {
      var newId := GeneratedId(raw);
      var newSession := NewRecord(newId, userId, initialMode, initialTime, settings.GetOr(DefaultSettings));
      if insertError.Some? {
        error := insertError;
        return None;
      }
      sessionId := Some(newId);
      sessionData := Some(newSession);
      return Some(newId);
    }

    /** `joinSession`: looks the normalised code up in `store`; `failed` is a failed query. */
    method JoinSession(code: string, store: map<string, SessionRecord>, failed: bool) returns (ok: bool)
      modifies this`sessionId, this`sessionData
      ensures ok <==> !failed && NormalizeCode(code) in store
      ensures ok ==> sessionId == Some(NormalizeCode(code)) &&
                     sessionData == Some(store[NormalizeCode(code)])
      ensures !ok ==> sessionId == old(sessionId) && sessionData == old(sessionData)
    {
      var cleanId := NormalizeCode(code);
      var rows := if !failed && cleanId in store then [store[cleanId]] else [];
      if failed || |rows| == 0 {
        return false;
      }
      sessionId := Some(cleanId);
      sessionData := Some(rows[0]);
      return true;
    }

    /** `updateSession`: sends the patch, unless no session is bound. */
    method UpdateSession(p: Patch)
      modifies this`log
      ensures log == if Truthy(sessionId) then old(log) + [p] else old(log)
    {
      if !Truthy(sessionId) {
        return;
      }
      log := log + [p];
    }

    /** `leaveSession` */
    method LeaveSession()
      modifies this`sessionId, this`sessionData
      ensures sessionId == None && sessionData == None
      ensures !Truthy(sessionId) && !IsHost()
    {
      sessionId := None;
      sessionData := None;
    }
  }
}
