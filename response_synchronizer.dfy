/** The whiteboard action scheduler of the client (web/src/utils/ResponseSynchronizer.js, class
    `ResponseSynchronizer`): a list of timestamped actions, each fired at most once through the
    action callback, either at once (time of at most one second) or by the synchronisation loop
    when the elapsed playing time reaches it. The clock is a parameter (milliseconds since the
    epoch); the callbacks are recorded in logs. */
module Synchronizer {
  import opened Wrappers

  /** A timestamped action as the server sends it: its other fields (kept as one text) and its
      time in seconds from the start of speech. */
  datatype TimedAction = TimedAction(body: string, time: real)

  /** A scheduled action with its `triggered` flag. */
  datatype Cue = Cue(body: string, time: real, triggered: bool)

  /** An already parsed message given to `processMessage`: a `whiteboard_actions` object, whose
      `actions` may be missing, or anything else. */
  datatype Incoming = WhiteboardActions(actions: Option<seq<TimedAction>>) | OtherMessage

  /** A cue fires when it has not fired yet and its time has come. */
  predicate IsDue(c: Cue, limit: real) {
    !c.triggered && c.time <= limit
  }

  /** The cues that fire at `limit`, in list order. */
  function Due(cues: seq<Cue>, limit: real): (d: seq<Cue>)
    ensures |d| <= |cues|
    ensures forall x :: x in d ==> x in cues && IsDue(x, limit)
  {
    if cues == [] then []
    else
      var last := cues[|cues| - 1];
      Due(cues[..|cues| - 1], limit) + (if IsDue(last, limit) then [last] else [])
  }

  /** The cue after a step at `limit`. */
  function Mark(c: Cue, limit: real): Cue {
    c.(triggered := c.triggered || c.time <= limit)
  }

  /** The cues after a step at `limit`: every due cue is marked triggered, nothing else changes. */
  function MarkDue(cues: seq<Cue>, limit: real): (m: seq<Cue>)
    ensures |m| == |cues|
    ensures forall i :: 0 <= i < |cues| ==> m[i] == Mark(cues[i], limit)
  {
    seq(|cues|, i requires 0 <= i < |cues| => Mark(cues[i], limit))
  }

  /** The number of cues that have not fired. */
  function Pending(cues: seq<Cue>): nat {
    if cues == [] then 0
    else Pending(cues[..|cues| - 1]) + (if cues[|cues| - 1].triggered then 0 else 1)
  }

  /** Some cue is pending exactly when `actions.some(action => !action.triggered)`. */
  lemma {:induction false} PendingSome(cues: seq<Cue>)
    ensures Pending(cues) > 0 <==> exists i :: 0 <= i < |cues| && !cues[i].triggered
  {
    if cues != [] {
      var n := |cues| - 1;
      PendingSome(cues[..n]);
      if Pending(cues[..n]) > 0 {
        var i :| 0 <= i < n && !cues[..n][i].triggered;
        assert !cues[i].triggered;
      }
      if exists i :: 0 <= i < |cues| && !cues[i].triggered {
        var i :| 0 <= i < |cues| && !cues[i].triggered;
        if i < n { assert !cues[..n][i].triggered; }
      }
    }
  }

  /** A step fires exactly the cues it marks: what fired plus what is still pending after the
      step is what was pending before it. */
  lemma {:induction false} FiredAndPending(cues: seq<Cue>, limit: real)
    ensures |Due(cues, limit)| + Pending(MarkDue(cues, limit)) == Pending(cues)
  {
    if cues != [] {
      var n := |cues| - 1;
      FiredAndPending(cues[..n], limit);
      assert MarkDue(cues, limit)[..n] == MarkDue(cues[..n], limit);
    }
  }

  /** A cue that fired is never due again, whatever the elapsed time of a later step: each
      action fires at most once. */
  lemma FiresOnce(cues: seq<Cue>, limit: real, later: real, i: nat)
    requires i < |cues| && IsDue(cues[i], limit)
    ensures !IsDue(MarkDue(cues, limit)[i], later)
  {
  }

  /** Once every cue has fired, a step fires nothing and changes nothing. */
  lemma {:induction false} AllTriggeredQuiet(cues: seq<Cue>, limit: real)
    requires forall i :: 0 <= i < |cues| ==> cues[i].triggered
    ensures Due(cues, limit) == [] && MarkDue(cues, limit) == cues && Pending(cues) == 0
  {
    if cues != [] {
      AllTriggeredQuiet(cues[..|cues| - 1], limit);
    }
  }

  /** The elapsed seconds `(Date.now() - this.startTime) / 1000`, where a missing start time
      counts as 0 as `null` does in JavaScript arithmetic. */
  function Elapsed(now: int, startTime: Option<int>): real {
    (now - startTime.GetOr(0)) as real / 1000.0
  }

  /** Everything the synchroniser holds or has done: its cues, whether it is playing, its start
      time, which callbacks are set, the actions handed to the action callback and the values
      handed to the speaking callback. */
  datatype SyncState = SyncState(
    actions: seq<Cue>, isPlaying: bool, startTime: Option<int>,
    hasActionCallback: bool, hasSpeakingCallback: bool,
    fired: seq<Cue>, speaking: seq<bool>)

  /** The new state `syncState`'s speaking callback gives when told `value`. */
  function Notified(st: SyncState, value: bool): SyncState {
    if st.hasSpeakingCallback then st.(speaking := st.speaking + [value]) else st
  }

  /** Firing the cues due at `limit`: they are marked, and handed to the action callback when
      `report` holds. */
  function Fired(st: SyncState, limit: real, report: bool): SyncState {
    st.(actions := MarkDue(st.actions, limit),
        fired := st.fired + if report then Due(st.actions, limit) else [])
  }

  /** `_triggerImmediateActions`: with actions and an action callback, the cues of time at most
      one second fire; otherwise nothing happens. */
  function Immediate(st: SyncState): SyncState {
    if st.actions == [] || !st.hasActionCallback then st else Fired(st, 1.0, true)
  }

  /** `processMessage` on an already parsed message: whether it was taken, and the new state. */
  function Processed(st: SyncState, m: Incoming): (r: (bool, SyncState))
    ensures r.0 <==> m.WhiteboardActions? && m.actions.Some?
    ensures !r.0 ==> r.1 == st
    ensures r.0 ==> |r.1.actions| == |m.actions.value|
    ensures r.0 ==> forall i :: 0 <= i < |m.actions.value| ==>
      r.1.actions[i].body == m.actions.value[i].body && r.1.actions[i].time == m.actions.value[i].time
  {
    match m
    case WhiteboardActions(Some(acts)) =>
      var cues := seq(|acts|, i requires 0 <= i < |acts| => Cue(acts[i].body, acts[i].time, false));
      (true, Immediate(st.(actions := cues)))
    case _ => (false, st)
  }

  /** One `syncLoop` step at time `now`: nothing when not playing; otherwise every due cue is
      marked and handed to the callback if there is one. */
  function Stepped(st: SyncState, now: int): SyncState {
    if !st.isPlaying then st else Fired(st, Elapsed(now, st.startTime), st.hasActionCallback)
  }

  /** Whether the step re-arms itself for the next animation frame. */
  predicate Rearms(st: SyncState) {
    st.isPlaying && Pending(st.actions) > 0
  }

  /** `startSync(audio)` at time `now`, up to its first loop step. */
  function Started(st: SyncState, now: int): SyncState {
    Immediate(Notified(st.(isPlaying := true, startTime := Some(now)), true))
  }

  /** `stopSync`, and the audio element's `ended` listener. */
  function Stopped(st: SyncState): SyncState {
    Notified(st.(isPlaying := false), false)
  }

  /** `reset`. */
  function Cleared(st: SyncState): SyncState {
    Notified(st.(actions := [], isPlaying := false, startTime := None), false)
  }

  /** `processMessage` replaces the action list, never appends to it: the new list is the
      message's actions, none triggered unless it fired at once. */
  lemma ProcessReplaces(st: SyncState, acts: seq<TimedAction>)
    ensures var (taken, next) := Processed(st, WhiteboardActions(Some(acts)));
      taken && |next.actions| == |acts| && next.isPlaying == st.isPlaying
      && forall i :: 0 <= i < |acts| ==>
           (next.actions[i].triggered <==> st.hasActionCallback && acts[i].time <= 1.0)
  {
  }

  /** A step when not playing does nothing and does not re-arm. */
  lemma IdleStep(st: SyncState, now: int)
    requires !st.isPlaying
    ensures Stepped(st, now) == st && !Rearms(Stepped(st, now))
  {
  }

  /** A step while playing marks every cue whose time has come, even without a callback, and
      re-arms exactly while something is still pending. */
  lemma PlayingStep(st: SyncState, now: int)
    requires st.isPlaying
    ensures var next := Stepped(st, now);
      var e := Elapsed(now, st.startTime);
      (forall i :: 0 <= i < |st.actions| ==> (next.actions[i].triggered <==> st.actions[i].triggered || st.actions[i].time <= e))
      && (Rearms(next) <==> exists i :: 0 <= i < |next.actions| && !next.actions[i].triggered)
  {
    PendingSome(Stepped(st, now).actions);
  }

  /** After `reset` there is nothing to fire, whatever happens next. */
  lemma ResetIsQuiet(st: SyncState, now: int)
    ensures var r := Cleared(st);
      r.actions == [] && !r.isPlaying && r.startTime.None?
      && Stepped(Started(r, now), now).fired == r.fired && !Rearms(Started(r, now))
  {
  }

  class ResponseSynchronizer {
    var actions: seq<Cue>
    var isPlaying: bool
    var startTime: Option<int>
    var hasActionCallback: bool
    var hasSpeakingCallback: bool
    var fired: seq<Cue>
    var speaking: seq<bool>

    function Snapshot(): SyncState
      reads this
    {
      SyncState(actions, isPlaying, startTime, hasActionCallback, hasSpeakingCallback, fired, speaking)
    }

    constructor ()
      ensures Snapshot() == SyncState([], false, None, false, false, [], [])
    {
      actions, isPlaying, startTime := [], false, None;
      hasActionCallback, hasSpeakingCallback := false, false;
      fired, speaking := [], [];
    }

    /** `setActionCallback`; `present` says whether a function or `null` is given. */
    method SetActionCallback(present: bool)
      modifies this
      ensures Snapshot() == old(Snapshot()).(hasActionCallback := present)
    {
      hasActionCallback := present;
    }

    /** `setSpeakingCallback`. */
    method SetSpeakingCallback(present: bool)
      modifies this
      ensures Snapshot() == old(Snapshot()).(hasSpeakingCallback := present)
    {
      hasSpeakingCallback := present;
    }

    method NotifySpeaking(value: bool)
      modifies this
      ensures Snapshot() == Notified(old(Snapshot()), value)
    {
      if hasSpeakingCallback {
        speaking := speaking + [value];
      }
    }

    /** The filter-then-`forEach` over the cues due at `limit`, in list order: each is handed to
        the callback when `report` holds and marked triggered. */
    method FireDue(limit: real, report: bool)
      modifies this
      ensures Snapshot() == Fired(old(Snapshot()), limit, report)
    {
      var acts, cues, log := actions, actions, fired;
      var i := 0;
      while i < |cues|
        invariant 0 <= i <= |cues| == |acts|
        invariant forall j :: 0 <= j < i ==> cues[j] == Mark(acts[j], limit)
        invariant forall j :: i <= j < |cues| ==> cues[j] == acts[j]
        invariant report ==> log == fired + Due(acts[..i], limit)
        invariant !report ==> log == fired
      {
        assert acts[..i + 1][..i] == acts[..i];
        if !cues[i].triggered && cues[i].time <= limit {
          if report {
            log := log + [cues[i]];
          }
          cues := cues[i := cues[i].(triggered := true)];
        }
        i := i + 1;
      }
      assert acts[..i] == acts;
      assert cues == MarkDue(acts, limit);
      actions, fired := cues, log;
    }

    method TriggerImmediateActions()
      modifies this
      ensures Snapshot() == Immediate(old(Snapshot()))
    {
      if |actions| == 0 || !hasActionCallback {
        return;
      }
      FireDue(1.0, true);
    }

    /** `processMessage`: true exactly for a `whiteboard_actions` object with its actions. */
    method ProcessMessage(m: Incoming) returns (taken: bool)
      modifies this
      ensures (taken, Snapshot()) == Processed(old(Snapshot()), m)
    {
      match m
      case WhiteboardActions(Some(acts)) =>
        actions := seq(|acts|, i requires 0 <= i < |acts| => Cue(acts[i].body, acts[i].time, false));
        TriggerImmediateActions();
        taken := true;
      case _ =>
        taken := false;
    }

    /** `syncLoop` at time `now`; `rearm` says whether it asks for another animation frame. */
    method SyncLoop(now: int) returns (rearm: bool)
      modifies this
      ensures Snapshot() == Stepped(old(Snapshot()), now)
      ensures rearm <==> Rearms(Snapshot())
    {
      if !isPlaying {
        return false;
      }
      var elapsed := Elapsed(now, startTime);
      FireDue(elapsed, hasActionCallback);
      rearm := isPlaying && Pending(actions) > 0;
    }

    /** `startSync(audio)` at time `now`: playing from `now`, speaking notified, immediate cues
        fired, then one loop step. */
    method StartSync(now: int) returns (rearm: bool)
      modifies this
      ensures Snapshot() == Stepped(Started(old(Snapshot()), now), now)
      ensures rearm <==> Rearms(Snapshot())
    {
      isPlaying := true;
      startTime := Some(now);
      NotifySpeaking(true);
      TriggerImmediateActions();
      rearm := SyncLoop(now);
    }

    /** `stopSync`; the audio element's `ended` listener does the same. */
    method StopSync()
      modifies this
      ensures Snapshot() == Stopped(old(Snapshot()))
    {
      isPlaying := false;
      NotifySpeaking(false);
    }

    method Reset()
      modifies this
      ensures Snapshot() == Cleared(old(Snapshot()))
    {
      actions := [];
      isPlaying := false;
      startTime := None;
      NotifySpeaking(false);
    }
  }
}
