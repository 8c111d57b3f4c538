/** The call-change detector of dsd_flutter_jni.cpp. The poll thread reads
    the decoder's last talkgroup and source every 100 ms, compares them with
    the pair it saw last (`g_last_tg`, `g_last_src`) and, on a change, sends
    one call event to the app: a start, an update or an end. `nativeInit`
    and `nativeStart` put the remembered pair back to (0, 0). */
module CallEvents {
  import opened Wrappers

  /** What the poll thread reads from the decoder state in one round:
      `lasttg`, `lastsrc`, `nac`, `currentslot`, `gi[0]` and
      `p25_call_emergency[0]`. */
  datatype Observation = Observation(tg: int, src: int, nac: int, slot: int, gi0: int, emergency0: int)

  /** The arguments of one `send_call_event_to_flutter` call. */
  datatype CallEvent = CallEvent(
    eventType: int,        // 0 = start, 1 = update, 2 = end
    tg: int,
    src: int,
    nac: int,
    callType: string,
    encrypted: bool,
    emergency: bool,
    algName: string,
    slot: int,
    frequency: real,
    systemName: string,
    groupName: string,
    sourceName: string)

  const CALL_START: int := 0
  const CALL_UPDATE: int := 1
  const CALL_END: int := 2

  /** The remembered pair. */
  datatype Tracker = Tracker(lastTg: int, lastSrc: int)

  /** The pair the detector starts from and is reset to. */
  const IDLE: Tracker := Tracker(0, 0)

  /** The result of one poll round: the new remembered pair and the event
      sent, if any. */
  datatype Step = Step(next: Tracker, event: Option<CallEvent>)

  function IsIdle(t: Tracker): bool { t.lastTg == 0 && t.lastSrc == 0 }

  function Seen(o: Observation): Tracker { Tracker(o.tg, o.src) }

  /** The call type of a new or updated call: `gi[0] == 1` marks a private
      call, anything else a group call. */
  function CallType(gi0: int): (r: string)
    ensures r == "Private" || r == "Group"
    ensures r == "Private" <==> gi0 == 1
  {
    if gi0 == 1 then "Private" else "Group"
  }

  /** One round of the change detector in `poll_thread_func`. */
  function Detect(t: Tracker, o: Observation): (r: Step)
    ensures r.next == Seen(o)
    ensures r.event.Some? <==> Seen(o) != t
    ensures r.event.Some? ==> r.event.value.eventType in {CALL_START, CALL_UPDATE, CALL_END}
  {
    if o.tg != t.lastTg || o.src != t.lastSrc then
      var event :=
        if o.tg != 0 || o.src != 0 then
          Some(CallEvent(
            if IsIdle(t) then CALL_START else CALL_UPDATE,
            o.tg, o.src, o.nac, CallType(o.gi0),
            false, o.emergency0 != 0, "", o.slot, 0.0, "", "", ""))
        else if t.lastTg != 0 || t.lastSrc != 0 then
          Some(CallEvent(CALL_END, t.lastTg, t.lastSrc, o.nac, "Group", false, false, "", o.slot, 0.0, "", "", ""))
        else
          None;
      Step(Seen(o), event)
    else
      Step(t, None)
  }

  /** An unchanged pair sends nothing and keeps the remembered pair. */
  lemma NoChangeNoEvent(t: Tracker, o: Observation)
    requires Seen(o) == t
    ensures Detect(t, o) == Step(t, None)
  {
  }

  /** A change to a non-zero pair starts a call when none was in progress
      and updates it otherwise; the event carries the new pair, the NAC, the
      slot, the call type and the emergency flag, and is never marked
      encrypted. */
  lemma ChangeToCall(t: Tracker, o: Observation)
    requires Seen(o) != t && !IsIdle(Seen(o))
    ensures Detect(t, o).event.Some?
    ensures var e := Detect(t, o).event.value;
            && e.eventType == (if IsIdle(t) then CALL_START else CALL_UPDATE)
            && e.tg == o.tg && e.src == o.src && e.nac == o.nac && e.slot == o.slot
            && e.callType == CallType(o.gi0)
            && !e.encrypted && e.emergency == (o.emergency0 != 0)
  {
  }

  /** A change to (0, 0) ends the call in progress: the event carries the
      pair that was remembered, as a non-emergency group call. */
  lemma ChangeToIdle(t: Tracker, o: Observation)
    requires Seen(o) != t && IsIdle(Seen(o))
    ensures Detect(t, o).event.Some?
    ensures var e := Detect(t, o).event.value;
            && e.eventType == CALL_END && e.tg == t.lastTg && e.src == t.lastSrc
            && e.callType == "Group" && !e.encrypted && !e.emergency
  {
  }

  /** An event is private exactly when it reports a call whose `gi[0]` is 1. */
  lemma PrivateExactlyWhenIndividual(t: Tracker, o: Observation)
    requires Detect(t, o).event.Some?
    ensures Detect(t, o).event.value.callType == "Private"
            <==> Detect(t, o).event.value.eventType != CALL_END && o.gi0 == 1
  {
  }

  /** The same observation seen twice in a row sends at most one event. */
  lemma RepeatIsSilent(t: Tracker, o: Observation)
    ensures Detect(Detect(t, o).next, o).event.None?
  {
  }

  /** The rounds of the poll loop over a sequence of observations: the
      remembered pair at the end and the events sent, in order. */
  function Track(t: Tracker, obs: seq<Observation>): (r: Trace)
    ensures |obs| > 0 ==> r.last == Seen(obs[|obs| - 1])
    ensures |obs| == 0 ==> r.last == t
    ensures |r.events| <= |obs|
    decreases |obs|
  {
    if |obs| == 0 then Trace(t, [])
    else
      var prev := Track(t, obs[..|obs| - 1]);
      var s := Detect(prev.last, obs[|obs| - 1]);
      Trace(s.next, prev.events + (if s.event.Some? then [s.event.value] else []))
  }

  /** The remembered pair and the events of several rounds. */
  datatype Trace = Trace(last: Tracker, events: seq<CallEvent>)

  /** A run of identical observations sends exactly one event when it
      differs from the remembered pair and none otherwise. */
  lemma {:induction false} RunSendsOnce(t: Tracker, o: Observation, n: nat)
    requires n > 0
    ensures |Track(t, seq(n, _ => o)).events| == (if Seen(o) != t then 1 else 0)
  {
    var run := seq(n, _ => o);
    if n > 1 {
      assert run[..n - 1] == seq(n - 1, _ => o);
      RunSendsOnce(t, o, n - 1);
      RepeatIsSilent(Track(t, run[..n - 1]).last, o);
      assert Track(t, run[..n - 1]).last == Seen(o);
    } else {
      assert run[..0] == [];
    }
  }

  /** Events from a reset detector are well-bracketed: every start or
      update names the pair now in progress, every end names the pair of
      the event just before it, which is a start or an update, and the
      first event is a start. */
  ghost predicate Bracketed(last: Tracker, events: seq<CallEvent>)
  {
    && (|events| > 0 ==> events[0].eventType == CALL_START)
    && (forall i :: 0 <= i < |events| && events[i].eventType == CALL_END ==>
          && i > 0 && events[i - 1].eventType != CALL_END
          && events[i - 1].tg == events[i].tg && events[i - 1].src == events[i].src)
    && (!IsIdle(last) ==> |events| > 0 && events[|events| - 1].eventType != CALL_END
                          && Announced(events[|events| - 1]) == last)
    && (IsIdle(last) ==> |events| == 0 || events[|events| - 1].eventType == CALL_END)
  }

  function Announced(e: CallEvent): Tracker { Tracker(e.tg, e.src) }

  /** One poll round keeps the events well-bracketed. */
  lemma BracketedStep(last: Tracker, events: seq<CallEvent>, o: Observation)
    requires Bracketed(last, events)
    ensures var s := Detect(last, o);
            Bracketed(s.next, events + (if s.event.Some? then [s.event.value] else []))
  {
    var s := Detect(last, o);
    if s.event.Some? {
      var e := s.event.value;
      var events' := events + [e];
      if IsIdle(Seen(o)) {
        ChangeToIdle(last, o);
        assert events'[|events'| - 2] == events[|events| - 1];
        forall i | 0 <= i < |events'| && events'[i].eventType == CALL_END
          ensures i > 0 && events'[i - 1].eventType != CALL_END
          ensures events'[i - 1].tg == events'[i].tg && events'[i - 1].src == events'[i].src
        {
          if i < |events| {
            assert events'[i] == events[i] && events'[i - 1] == events[i - 1];
          }
        }
      } else {
        ChangeToCall(last, o);
        forall i | 0 <= i < |events'| && events'[i].eventType == CALL_END
          ensures i > 0 && events'[i - 1].eventType != CALL_END
          ensures events'[i - 1].tg == events'[i].tg && events'[i - 1].src == events'[i].src
        {
          assert i < |events|;
          assert events'[i] == events[i] && events'[i - 1] == events[i - 1];
        }
      }
    }
  }

  /** From a reset the first event is a start, and each end event reports
      the call announced by the event before it. */
  lemma {:induction false} TrackFromResetIsBracketed(obs: seq<Observation>)
    ensures Bracketed(Track(IDLE, obs).last, Track(IDLE, obs).events)
    decreases |obs|
  {
    if |obs| > 0 {
      var prev := Track(IDLE, obs[..|obs| - 1]);
      TrackFromResetIsBracketed(obs[..|obs| - 1]);
      BracketedStep(prev.last, prev.events, obs[|obs| - 1]);
    }
  }

  /** The detector's globals and the flags of dsd_flutter_jni.cpp that
      decide when it runs and when it is reset. */
  class CallMonitor {
    var lastTg: int          // g_last_tg
    var lastSrc: int         // g_last_src
    var hasOpts: bool        // g_opts != nullptr
    var hasState: bool       // g_state != nullptr
    var engineRunning: bool  // g_engine_running

    function Tracked(): Tracker
      reads this
    {
      Tracker(lastTg, lastSrc)
    }

    /** The globals at load time. */
    constructor ()
      ensures Tracked() == IDLE && !hasOpts && !hasState && !engineRunning
    {
      lastTg, lastSrc := 0, 0;
      hasOpts, hasState, engineRunning := false, false, false;
    }

    /** One round of the poll loop: report the event of the change, if
        any, and remember the new pair when it changed. */
    method Poll(o: Observation) returns (event: Option<CallEvent>)
      modifies this`lastTg, this`lastSrc
      ensures Tracked() == Seen(o)
      ensures event == Detect(old(Tracked()), o).event
    {
      event := None;
      if o.tg != lastTg || o.src != lastSrc {
        if o.tg != 0 || o.src != 0 {
          var eventType := if lastTg == 0 && lastSrc == 0 then CALL_START else CALL_UPDATE;
          event := Some(CallEvent(eventType, o.tg, o.src, o.nac, CallType(o.gi0),
                                  false, o.emergency0 != 0, "", o.slot, 0.0, "", "", ""));
        } else if lastTg != 0 || lastSrc != 0 {
          event := Some(CallEvent(CALL_END, lastTg, lastSrc, o.nac, "Group",
                                  false, false, "", o.slot, 0.0, "", "", ""));
        }
        lastTg := o.tg;
        lastSrc := o.src;
      }
    }

    /** `poll_thread_func`: while the engine runs and the decoder state
        exists, one round per observation (the 100 ms sleep between rounds
        is not modelled). */
    method PollLoop(obs: seq<Observation>) returns (events: seq<CallEvent>)
      modifies this`lastTg, this`lastSrc
      ensures engineRunning && hasState ==> events == Track(old(Tracked()), obs).events
                                            && Tracked() == Track(old(Tracked()), obs).last
      ensures !(engineRunning && hasState) ==> events == [] && Tracked() == old(Tracked())
    {
      events := [];
      var i := 0;
      while i < |obs| && engineRunning && hasState
        invariant 0 <= i <= |obs|
        invariant engineRunning && hasState ==> events == Track(old(Tracked()), obs[..i]).events
                                                && Tracked() == Track(old(Tracked()), obs[..i]).last
        invariant !(engineRunning && hasState) ==> i == 0 && events == [] && Tracked() == old(Tracked())
      {
        var event := Poll(obs[i]);
        assert obs[..i + 1][..i] == obs[..i];
        if event.Some? {
          events := events + [event.value];
        }
        i := i + 1;
      }
      if engineRunning && hasState {
        assert obs[..i] == obs;
      }
    }

    /** `nativeInit`: an earlier instance is torn down (a running engine is
        told to exit and joined; its thread clears the running flag on the
        way out), the options and the state are allocated again, and only
        when both allocations succeed is the detector reset to (0, 0). */
    method NativeInit(optsAlloc: bool, stateAlloc: bool)
      modifies this
      ensures hasOpts == optsAlloc && hasState == stateAlloc
      ensures old(hasOpts) ==> !engineRunning
      ensures !old(hasOpts) ==> engineRunning == old(engineRunning)
      ensures optsAlloc && stateAlloc ==> Tracked() == IDLE
      ensures !(optsAlloc && stateAlloc) ==> Tracked() == old(Tracked())
    {
      if hasOpts {
        if engineRunning {
          engineRunning := false;
        }
      }
      hasOpts := optsAlloc;
      hasState := stateAlloc;
      if !hasOpts || !hasState {
        return;
      }
      lastTg := 0;
      lastSrc := 0;
    }

    /** `nativeStart`: nothing happens while the engine runs; otherwise,
        when the options and the state exist, the detector is reset to
        (0, 0) and the engine is marked running unless its thread cannot be
        created. */
    method NativeStart(engineThreadOk: bool)
      modifies this`lastTg, this`lastSrc, this`engineRunning
      ensures old(engineRunning) ==> unchanged(this)
      ensures !old(engineRunning) && hasOpts && hasState ==> Tracked() == IDLE && engineRunning == engineThreadOk
      ensures !old(engineRunning) && !(hasOpts && hasState) ==> unchanged(this)
    {
      if engineRunning {
        return;
      }
      if hasOpts && hasState {
        lastTg := 0;
        lastSrc := 0;
        engineRunning := true;
        if !engineThreadOk {
          engineRunning := false;
        }
      }
    }
  }

  /** After a reset, the first observation of a call is reported as a start. */
  lemma FirstCallAfterResetStarts(o: Observation)
    requires !IsIdle(Seen(o))
    ensures Detect(IDLE, o).event.Some? && Detect(IDLE, o).event.value.eventType == CALL_START
  {
  }
}
