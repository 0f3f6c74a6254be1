/**
 The monitor's view of one hash chain: a timed automaton over the messages a chain sends and the
 ticks of the monitor's clock. Times are in milliseconds.
 */
module Monitor {
  import opened Wrappers

  const START_TIMEOUT: nat := 180_000
  const RUN_UPDATE_TIMEOUT: nat := 10_000

  datatype Message = On | Running(temperature: real) | Off

  datatype ChainState =
    | StartedAt(started: nat)
    | RunningSince(started: nat, lastHeartbeat: nat, temperature: real)
    | Stopped
    | Broken(reason: Reason)

  datatype Reason = BadTransition | StartTooLong | UpdateTooLate

  /** `now - then`; `Instant` never runs backwards. */
  function Elapsed(now: nat, then_: nat): nat {
    if now >= then_ then now - then_ else 0
  }

  function AfterMessage(s: ChainState, now: nat, m: Message): ChainState {
    match m
    case On => if s.Stopped? then StartedAt(now) else Broken(BadTransition)
    case Running(t) =>
      if s.StartedAt? || s.RunningSince? then RunningSince(s.started, now, t) else Broken(BadTransition)
    case Off => if s.StartedAt? || s.RunningSince? then Stopped else Broken(BadTransition)
  }

  function AfterTick(s: ChainState, now: nat): ChainState {
    match s
    case StartedAt(started) => if Elapsed(now, started) >= START_TIMEOUT then Broken(StartTooLong) else s
    case RunningSince(_, beat, _) => if Elapsed(now, beat) >= RUN_UPDATE_TIMEOUT then Broken(UpdateTooLate) else s
    case _ => s
  }

  class Chain {
    var state: ChainState

    constructor ()
      ensures state == Stopped
    {
      state := Stopped;
    }

    method BadTransition()
      modifies this
      ensures state == Broken(Reason.BadTransition)
    {
      state := Broken(Reason.BadTransition);
    }

    method Transition(now: nat, m: Message)
      modifies this
      ensures state == AfterMessage(old(state), now, m)
    {
      match m
      case On =>
        if state.Stopped? { state := StartedAt(now); } else { BadTransition(); }
      case Running(temperature) =>
        if state.RunningSince? || state.StartedAt? {
          state := RunningSince(state.started, now, temperature);
        } else {
          BadTransition();
        }
      case Off =>
        if state.StartedAt? || state.RunningSince? { state := Stopped; } else { BadTransition(); }
    }

    method Tick(now: nat)
      modifies this
      ensures state == AfterTick(old(state), now)
    {
      match state
      case StartedAt(started) =>
        if Elapsed(now, started) >= START_TIMEOUT { state := Broken(StartTooLong); }
      case RunningSince(_, beat, _) =>
        if Elapsed(now, beat) >= RUN_UPDATE_TIMEOUT { state := Broken(UpdateTooLate); }
      case _ =>
    }

    /** The receiving task and the ticking task, in the order their steps happen. */
    method Observe(events: seq<Event>)
      modifies this
      requires state == Stopped
      ensures state == StateAfter(events)
    {
      for i := 0 to |events|
        invariant state == StateAfter(events[..i])
      {
        assert events[..i + 1][..i] == events[..i];
        match events[i]
        case Received(now, m) => Transition(now, m);
        case Ticked(now) => Tick(now);
      }
      assert events[..|events|] == events;
    }
  }

  // ----- Runs -----

  datatype Event = Received(now: nat, message: Message) | Ticked(now: nat)

  function StateAfter(events: seq<Event>): ChainState
    decreases |events|
  {
    if events == [] then Stopped
    else
      var s := StateAfter(events[..|events| - 1]);
      match events[|events| - 1]
      case Received(now, m) => AfterMessage(s, now, m)
      case Ticked(now) => AfterTick(s, now)
  }

  /** The messages among the events. */
  function Messages(events: seq<Event>): seq<Message>
    decreases |events|
  {
    if events == [] then []
    else match events[|events| - 1]
      case Received(_, m) => Messages(events[..|events| - 1]) + [m]
      case Ticked(_) => Messages(events[..|events| - 1])
  }

  // ----- The pattern (On Running* Off)* -----

  /** How many `Running` messages come first. */
  function Beats(ms: seq<Message>): (k: nat)
    ensures k <= |ms|
    ensures forall i :: 0 <= i < k ==> ms[i].Running?
    ensures k < |ms| ==> !ms[k].Running?
  {
    if ms == [] || !ms[0].Running? then 0 else 1 + Beats(ms[1..])
  }

  /**
   A prefix of (On Running* Off)*: an On, its Running messages, and then either the end or an Off
   and again a prefix.
   */
  predicate Pattern(ms: seq<Message>)
    decreases |ms|
  {
    ms == [] ||
    (ms[0].On? &&
     var rest := Rest(ms);
     rest == [] || (rest[0].Off? && Pattern(rest[1..])))
  }

  /** Whether `m` may follow a chain of messages ending in `last`. */
  predicate MayFollow(last: Option<Message>, m: Message) {
    if m.On? then last.None? || last.value.Off? else last.Some? && !last.value.Off?
  }

  function Last(ms: seq<Message>): Option<Message> {
    if ms == [] then None else Some(ms[|ms| - 1])
  }

  lemma {:induction false} BeatsSnoc(ms: seq<Message>, m: Message)
    ensures Beats(ms + [m]) == if Beats(ms) < |ms| then Beats(ms) else if m.Running? then |ms| + 1 else |ms|
  {
    if ms != [] && ms[0].Running? {
      assert (ms + [m])[1..] == ms[1..] + [m];
      BeatsSnoc(ms[1..], m);
    } else if ms == [] {
      assert ms + [m] == [m];
      assert [m][1..] == [];
    }
  }

  /** What remains after the first On and its Running messages. */
  function Rest(ms: seq<Message>): seq<Message>
    requires ms != []
  {
    ms[1 + Beats(ms[1..])..]
  }

  lemma {:induction false} RestSnoc(ms: seq<Message>, m: Message)
    requires ms != []
    ensures Rest(ms) != [] ==> Rest(ms + [m]) == Rest(ms) + [m]
    ensures Rest(ms) == [] ==> Rest(ms + [m]) == if m.Running? then [] else [m]
  {
    hide Beats;
    assert (ms + [m])[1..] == ms[1..] + [m];
    BeatsSnoc(ms[1..], m);
  }

  /** A message list that is all one session so far does not end in Off. */
  lemma {:induction false} OpenSession(ms: seq<Message>)
    requires ms != [] && ms[0].On? && Rest(ms) == []
    ensures !ms[|ms| - 1].Off?
  {
    if |ms| > 1 {
      assert ms[|ms| - 1] == ms[1..][|ms| - 2];
    }
  }

  lemma {:induction false} PatternDef(ms: seq<Message>)
    ensures Pattern(ms) <==> ms == [] || (ms[0].On? && (Rest(ms) == [] || (Rest(ms)[0].Off? && Pattern(Rest(ms)[1..]))))
  {
    hide Beats;
  }

  lemma {:induction false} PatternOfOne(m: Message)
    ensures Pattern([]) && (Pattern([m]) <==> m.On?)
  {
    PatternDef([]);
    PatternDef([m]);
    assert [m][1..] == [];
    assert Rest([m]) == [];
  }

  /** The pattern grows one message at a time, each allowed by the one before it. */
  lemma {:induction false} PatternSnoc(ms: seq<Message>, m: Message)
    ensures Pattern(ms + [m]) <==> Pattern(ms) && MayFollow(Last(ms), m)
    decreases |ms|
  {
    hide Beats, Pattern, Rest;
    PatternDef(ms);
    PatternDef(ms + [m]);
    PatternOfOne(m);
    if ms == [] {
      assert ms + [m] == [m];
    } else if ms[0].On? {
      RestSnoc(ms, m);
      if Rest(ms) == [] {
        OpenSession(ms);
        assert [m][1..] == [];
      } else if Rest(ms)[0].Off? {
        var tail := Rest(ms)[1..];
        assert (Rest(ms) + [m])[1..] == tail + [m];
        RestIsSuffix(ms);
        PatternSnoc(tail, m);
      }
    }
  }

  lemma {:induction false} RestIsSuffix(ms: seq<Message>)
    requires ms != [] && Rest(ms) != []
    ensures |Rest(ms)| < |ms|
    ensures var tail := Rest(ms)[1..]; if tail == [] then Last(ms) == Some(Rest(ms)[0]) else Last(ms) == Last(tail)
  {
    hide Beats;
  }

  // ----- Characterisation -----

  /** The time of the most recent message. */
  function LastTime(events: seq<Event>): nat
    decreases |events|
  {
    if events == [] then 0
    else if events[|events| - 1].Received? then events[|events| - 1].now
    else LastTime(events[..|events| - 1])
  }

  /** The time of the most recent On. */
  function OnTime(events: seq<Event>): nat
    decreases |events|
  {
    if events == [] then 0
    else if events[|events| - 1].Received? && events[|events| - 1].message.On? then events[|events| - 1].now
    else OnTime(events[..|events| - 1])
  }

  /** Event `i` is a tick that finds the start three minutes, or the last heartbeat ten seconds, ago. */
  predicate LateTick(events: seq<Event>, i: nat)
    requires i < |events|
  {
    var seen := events[..i];
    && events[i].Ticked?
    && match Last(Messages(seen))
       case Some(On) => events[i].now >= LastTime(seen) + 180_000
       case Some(Running(_)) => events[i].now >= LastTime(seen) + 10_000
       case _ => false
  }

  ghost predicate SomeLateTick(events: seq<Event>) {
    exists i :: 0 <= i < |events| && LateTick(events, i)
  }

  /** What the state is when nothing went wrong, read off the messages alone. */
  predicate Healthy(events: seq<Event>, s: ChainState) {
    match Last(Messages(events))
    case Some(On) => s == StartedAt(LastTime(events)) && OnTime(events) == LastTime(events)
    case Some(Running(t)) => s == RunningSince(OnTime(events), LastTime(events), t)
    case _ => s == Stopped
  }

  lemma {:induction false} LateTickSnoc(events: seq<Event>)
    requires events != []
    ensures SomeLateTick(events) <==> SomeLateTick(events[..|events| - 1]) || LateTick(events, |events| - 1)
  {
    var before := events[..|events| - 1];
    forall i | 0 <= i < |before| ensures LateTick(before, i) == LateTick(events, i) {
      assert before[..i] == events[..i];
    }
    if SomeLateTick(before) {
      var i :| 0 <= i < |before| && LateTick(before, i);
      assert LateTick(events, i);
    }
    if SomeLateTick(events) && !LateTick(events, |events| - 1) {
      var i :| 0 <= i < |events| && LateTick(events, i);
      assert LateTick(before, i);
    }
  }

  /**
   A chain is Broken exactly when its messages leave (On Running* Off)* or some tick came too late
   after the start or the last heartbeat. Otherwise its state tells the time of the session's On and
   of the last heartbeat.
   */
  lemma {:induction false} BrokenExactly(events: seq<Event>)
    ensures StateAfter(events).Broken? <==> !Pattern(Messages(events)) || SomeLateTick(events)
    ensures !StateAfter(events).Broken? ==> Healthy(events, StateAfter(events))
  {
    if events != [] {
      hide LateTick, Pattern, Healthy, SomeLateTick, StateAfter, Messages;
      var before, e := events[..|events| - 1], events[|events| - 1];
      BrokenExactly(before);
      LateTickSnoc(events);
      match e
      case Received(now, m) =>
        PatternSnoc(Messages(before), m);
        NoTick(events);
        LastReceived(events);
      case Ticked(now) =>
        if !StateAfter(before).Broken? { LastTick(events); } else { StaysBroken(events); }
    } else {
      assert Pattern([]);
    }
  }

  lemma {:induction false} StaysBroken(events: seq<Event>)
    requires events != [] && StateAfter(events[..|events| - 1]).Broken? && events[|events| - 1].Ticked?
    ensures StateAfter(events).Broken? && Messages(events) == Messages(events[..|events| - 1])
  {
  }

  lemma {:induction false} LastReceived(events: seq<Event>)
    requires events != [] && events[|events| - 1].Received?
    ensures var before, m := events[..|events| - 1], events[|events| - 1].message;
            var s, s' := StateAfter(before), StateAfter(events);
            && Messages(events) == Messages(before) + [m]
            && (s.Broken? ==> s'.Broken?)
            && (Healthy(before, s) ==>
                  if MayFollow(Last(Messages(before)), m) then !s'.Broken? && Healthy(events, s') else s'.Broken?)
  {
  }

  lemma {:induction false} NoTick(events: seq<Event>)
    requires events != [] && events[|events| - 1].Received?
    ensures !LateTick(events, |events| - 1)
  {
  }

  lemma {:induction false} LastTick(events: seq<Event>)
    requires events != [] && events[|events| - 1].Ticked?
    requires Healthy(events[..|events| - 1], StateAfter(events[..|events| - 1]))
    ensures LateTick(events, |events| - 1) <==> StateAfter(events).Broken?
    ensures !StateAfter(events).Broken? ==> Healthy(events, StateAfter(events))
    ensures Messages(events) == Messages(events[..|events| - 1])
  {
  }

  /** Broken is final: no message and no tick leads out of it. */
  lemma {:induction false} BrokenIsFinal(events: seq<Event>, i: nat)
    requires i <= |events| && StateAfter(events[..i]).Broken?
    ensures StateAfter(events).Broken?
    decreases |events|
  {
    if i == |events| {
      assert events[..i] == events;
    } else {
      assert events[..|events| - 1][..i] == events[..i];
      BrokenIsFinal(events[..|events| - 1], i);
    }
  }
}
