/**
 Opening a channel is confluent: the subscribe result, the authorize result, the difficulty and
 the notifications may arrive in any order, and the session that comes out depends only on what
 arrived, not on when.
 */
module TranslationOpening {
  import opened Wrappers
  import opened Stratum
  import opened TranslationSpec
  import opened TranslationSafety

  /** Every frame offered to the client is taken. */
  ghost predicate Delivering(env: Env) {
    forall k: nat :: env.v2Fate(k)
  }

  /** The ids of the requests of an open: subscribe, authorize and, if it is tried, extranonce.subscribe. */
  datatype Ids = Ids(subscribe: u32, authorize: u32, xnsub: Option<u32>)

  /** What the ids of an open that are still registered are registered for. */
  ghost predicate Registered(m: map<u32, Kind>, ids: Ids) {
    && (ids.subscribe in m ==> m[ids.subscribe] == SubscribeReq)
    && (ids.authorize in m ==> m[ids.authorize] == AuthorizeReq)
    && (ids.xnsub.Some? && ids.xnsub.value in m ==> m[ids.xnsub.value] == ExtranonceSubscribeReq)
  }

  ghost predicate Distinct(ids: Ids) {
    ids.subscribe != ids.authorize && ids.xnsub != Some(ids.subscribe) && ids.xnsub != Some(ids.authorize)
  }

  /** A first open in progress, with all its requests sent and none of them answered. */
  ghost predicate Opening(s: Session, ids: Ids) {
    && s.state == OpenPending && s.channel.Some? && s.forceFutureJobs
    && s.extraNonce1.None? && !s.authorized
    && ids.subscribe in s.reqMap && ids.authorize in s.reqMap
    && (ids.xnsub.Some? ==> ids.xnsub.value in s.reqMap)
    && Registered(s.reqMap, ids)
    && (s.deferred.Some? ==> |s.deferred.value.prevHash| == 32)
  }

  // ----- The pool's side of an opening -----

  predicate IsSubscribeOk(e: Event, ids: Ids) {
    e.V1Response? && e.id == Some(ids.subscribe) && e.response.ResultResponse? && e.response.result.Subscribed().Some?
  }

  predicate IsAuthorizeOk(e: Event, ids: Ids) {
    e.V1Response? && e.id == Some(ids.authorize) && e.response.ResultResponse?
        && e.response.result.Boolean() == Some(true)
  }

  /** Any answer to extranonce.subscribe, a refusal or an error included. */
  predicate IsXnsubAnswer(e: Event, ids: Ids) {
    e.V1Response? && ids.xnsub.Some? && e.id == ids.xnsub
  }

  /** What a pool sends during an opening without errors; each kind any number of times. */
  predicate PoolEvent(e: Event, ids: Ids) {
    || IsSubscribeOk(e, ids)
    || IsAuthorizeOk(e, ids)
    || (e.V1SetDifficulty? && AtLeastOne(e.difficulty))
    || (e.V1Notify? && |e.notify.prevHash| == 32)
    || IsXnsubAnswer(e, ids)
    || e.V1SetVersionMask?
  }

  ghost predicate PoolEvents(events: seq<Event>, ids: Ids) {
    forall i :: 0 <= i < |events| ==> PoolEvent(events[i], ids)
  }

  /** The first subscribe result. */
  function Subscribed(events: seq<Event>, ids: Ids): Option<Subscription>
    decreases |events|
  {
    if events == [] then None
    else
      var e, before := events[|events| - 1], Subscribed(events[..|events| - 1], ids);
      if before.Some? then before
      else if IsSubscribeOk(e, ids) then e.response.result.Subscribed()
      else None
  }

  /** The first answer to extranonce.subscribe. */
  function XnsubAnswer(events: seq<Event>, ids: Ids): Option<Response>
    decreases |events|
  {
    if events == [] then None
    else
      var e, before := events[|events| - 1], XnsubAnswer(events[..|events| - 1], ids);
      if before.Some? then before
      else if IsXnsubAnswer(e, ids) then Some(e.response)
      else None
  }

  /** The extranonce flag after such an answer. */
  function XnsubFlag(answer: Option<Response>, initially: bool): bool {
    match answer
    case None => initially
    case Some(ResultResponse(p)) => if p.Boolean().Some? then p.Boolean().value else initially
    case Some(ErrorResponse(_)) => false
  }

  predicate Authorized(events: seq<Event>, ids: Ids) {
    exists i :: 0 <= i < |events| && IsAuthorizeOk(events[i], ids)
  }

  /** The target of the latest difficulty. */
  function Target(events: seq<Event>, initially: Option<nat>): Option<nat>
    decreases |events|
  {
    if events == [] then initially
    else
      var e := events[|events| - 1];
      if e.V1SetDifficulty? && Truncated(e.difficulty) != 0 then Some(DIFF1_TARGET / Truncated(e.difficulty))
      else Target(events[..|events| - 1], initially)
  }

  /** The latest notification. */
  function Cached(events: seq<Event>, initially: Option<Notify>): Option<Notify>
    decreases |events|
  {
    if events == [] then initially
    else
      var e := events[|events| - 1];
      if e.V1Notify? then Some(e.notify) else Cached(events[..|events| - 1], initially)
  }

  /** All three prerequisites have arrived. */
  predicate Ready(s0: Session, ids: Ids, events: seq<Event>) {
    Subscribed(events, ids).Some? && Authorized(events, ids) && Target(events, s0.target).Some?
  }

  // ----- Before and after -----

  /** The ids that the events answered. */
  function Answered(ids: Ids, sub: bool, auth: bool, xnsub: bool): set<u32> {
    (if sub then {ids.subscribe} else {}) + (if auth then {ids.authorize} else {}) +
    (if xnsub && ids.xnsub.Some? then {ids.xnsub.value} else {})
  }

  /** What has arrived so far. */
  datatype Arrived = Arrived(
    sub: Option<Subscription>, auth: bool, xnsub: Option<Response>, target: Option<nat>, cached: Option<Notify>)

  function ArrivedIn(s0: Session, ids: Ids, events: seq<Event>): Arrived {
    Arrived(Subscribed(events, ids), Authorized(events, ids), XnsubAnswer(events, ids),
            Target(events, s0.target), Cached(events, s0.deferred))
  }

  /** What has arrived after one more event. */
  function Arrive(a: Arrived, e: Event, ids: Ids): Arrived {
    Arrived(if a.sub.None? && IsSubscribeOk(e, ids) then e.response.result.Subscribed() else a.sub,
            a.auth || IsAuthorizeOk(e, ids),
            if a.xnsub.None? && IsXnsubAnswer(e, ids) then Some(e.response) else a.xnsub,
            if e.V1SetDifficulty? && Truncated(e.difficulty) != 0 then Some(DIFF1_TARGET / Truncated(e.difficulty))
            else a.target,
            if e.V1Notify? then Some(e.notify) else a.cached)
  }

  function WaitingWith(s0: Session, ids: Ids, a: Arrived): Session {
    s0.(reqMap := s0.reqMap - Answered(ids, a.sub.Some?, a.auth, a.xnsub.Some?),
        extraNonce1 := if a.sub.Some? then Some(a.sub.value.extraNonce1) else None,
        extraNonce2Size := if a.sub.Some? then a.sub.value.extraNonce2Size else s0.extraNonce2Size,
        authorized := a.auth,
        xnsubEnabled := XnsubFlag(a.xnsub, s0.xnsubEnabled),
        target := a.target,
        deferred := a.cached)
  }

  /** The session while prerequisites are missing: only what arrived was noted. */
  function Waiting(s0: Session, ids: Ids, events: seq<Event>): Session {
    WaitingWith(s0, ids, ArrivedIn(s0, ids, events))
  }

  /** The two messages of the job that a notification becomes. */
  function JobMessages(env: Env, id: u32, n: Notify, x: Subscription): seq<Sent<V2Message>> {
    var root := MerkleRoot(env.hash, n, x.extraNonce1, ExtraNonce2(CHANNEL_ID, x.extraNonce2Size));
    [Sent(NewMiningJob(id, true, root, n.version), true), Sent(SetNewPrevHash(id, n.prevHash, n.time, n.bits), true)]
  }

  /** What an opening has collected. */
  datatype Collected = Collected(
    subscription: Subscription, target: nat, cached: Option<Notify>, xnsub: Option<Response>)

  function Collect(s0: Session, ids: Ids, events: seq<Event>): Collected
    requires Ready(s0, ids, events)
  {
    Collected(Subscribed(events, ids).value, Target(events, s0.target).value, Cached(events, s0.deferred),
              XnsubAnswer(events, ids))
  }

  /** The session once the channel is open, with the reply and the job of the cached notification sent. */
  function Opened(env: Env, s0: Session, ids: Ids, c: Collected): Session
    requires s0.channel.Some?
  {
    var x := c.subscription;
    var open := s0.(state := Operational, reqMap := s0.reqMap - Answered(ids, true, true, c.xnsub.Some?),
                    extraNonce1 := Some(x.extraNonce1), extraNonce2Size := x.extraNonce2Size, authorized := true,
                    xnsubEnabled := XnsubFlag(c.xnsub, s0.xnsubEnabled), target := Some(c.target), deferred := None,
                    v2Log := s0.v2Log + [Sent(OpenSuccess(s0.channel.value.reqId, c.target), true)]);
    match c.cached
    case None => open
    case Some(n) =>
      open.(jobId := NextId(s0.jobId), jobMap := map[s0.jobId := Template(n)],
            v2Log := open.v2Log + JobMessages(env, s0.jobId, n, x))
  }

  // ----- One step -----

  predicate Complete(s: Session) {
    s.extraNonce1.Some? && s.authorized && s.target.Some?
  }

  /** What a step notes down from a pool event. */
  function Noted(s: Session, e: Event, ids: Ids): Session {
    if IsSubscribeOk(e, ids) then
      if ids.subscribe !in s.reqMap then s
      else s.(reqMap := s.reqMap - {ids.subscribe},
              extraNonce1 := Some(e.response.result.Subscribed().value.extraNonce1),
              extraNonce2Size := e.response.result.Subscribed().value.extraNonce2Size)
    else if IsAuthorizeOk(e, ids) then
      if ids.authorize !in s.reqMap then s else s.(reqMap := s.reqMap - {ids.authorize}, authorized := true)
    else if IsXnsubAnswer(e, ids) then
      if ids.xnsub.value !in s.reqMap then s
      else s.(reqMap := s.reqMap - {ids.xnsub.value}, xnsubEnabled := XnsubFlag(Some(e.response), s.xnsubEnabled))
    else if e.V1SetDifficulty? && Truncated(e.difficulty) != 0
    then s.(target := Some(DIFF1_TARGET / Truncated(e.difficulty)))
    else if e.V1Notify? then s.(deferred := Some(e.notify))
    else s
  }

  /** A session on the way from an opening to its completion. */
  ghost predicate UnderWay(s: Session, ids: Ids) {
    && s.state == OpenPending && s.channel.Some? && s.forceFutureJobs
    && Distinct(ids) && Registered(s.reqMap, ids)
    && (s.deferred.Some? ==> |s.deferred.value.prevHash| == 32)
  }

  lemma {:induction false} FinalizeOpens(env: Env, s: Session)
    requires Delivering(env) && s.channel.Some? && Complete(s) && s.forceFutureJobs
    requires s.deferred.Some? ==> |s.deferred.value.prevHash| == 32
    ensures var x := Subscription(s.extraNonce1.value, s.extraNonce2Size);
            var log := s.v2Log + [Sent(OpenSuccess(s.channel.value.reqId, s.target.value), true)];
            FinalizeOpenChannel(env, s) ==
            Done(match s.deferred
                 case None => s.(state := Operational, v2Log := log)
                 case Some(n) => s.(state := Operational, deferred := None, jobId := NextId(s.jobId),
                                    jobMap := map[s.jobId := Template(n)],
                                    v2Log := log + JobMessages(env, s.jobId, n, x)),
                 true)
  {
    hide MerkleRoot, ExtraNonce2, Template, NextId;
    assert env.v2Fate(|s.v2Log|) && env.v2Fate(|s.v2Log| + 1) && env.v2Fate(|s.v2Log| + 2);
    if s.deferred.Some? {
      var log := s.v2Log + [Sent(OpenSuccess(s.channel.value.reqId, s.target.value), true)];
      var ms := JobMessages(env, s.jobId, s.deferred.value, Subscription(s.extraNonce1.value, s.extraNonce2Size));
      assert log + [ms[0]] + [ms[1]] == log + ms;
    }
  }

  lemma {:induction false} SubscribeNotes(env: Env, s: Session, e: Event, ids: Ids)
    requires Delivering(env) && UnderWay(s, ids) && !Complete(s) && IsSubscribeOk(e, ids)
    ensures StepOf(env, s, e, Noted(s, e, ids))
  {
    hide FinalizeOpenChannel, AbortOpenChannel, VisitSetupConnection, VisitOpenChannel, VisitSubmitShares;
    if Complete(Noted(s, e, ids)) { FinalizeOpens(env, Noted(s, e, ids)); }
  }

  lemma {:induction false} AuthorizeNotes(env: Env, s: Session, e: Event, ids: Ids)
    requires Delivering(env) && UnderWay(s, ids) && !Complete(s) && IsAuthorizeOk(e, ids)
    ensures StepOf(env, s, e, Noted(s, e, ids))
  {
    hide FinalizeOpenChannel, AbortOpenChannel, VisitSetupConnection, VisitOpenChannel, VisitSubmitShares;
    if Complete(Noted(s, e, ids)) { FinalizeOpens(env, Noted(s, e, ids)); }
  }

  lemma {:induction false} NotificationNotes(env: Env, s: Session, e: Event, ids: Ids)
    requires Delivering(env) && UnderWay(s, ids) && !Complete(s)
    requires (e.V1SetDifficulty? && AtLeastOne(e.difficulty)) || e.V1Notify? || e.V1SetVersionMask?
    ensures StepOf(env, s, e, Noted(s, e, ids))
  {
    hide FinalizeOpenChannel, PerformNotify, VisitResponse;
  }

  lemma {:induction false} XnsubNotes(env: Env, s: Session, e: Event, ids: Ids)
    requires Delivering(env) && UnderWay(s, ids) && !Complete(s) && IsXnsubAnswer(e, ids)
    ensures StepOf(env, s, e, Noted(s, e, ids))
  {
    hide FinalizeOpenChannel, AbortOpenChannel, VisitSetupConnection, VisitOpenChannel, VisitSubmitShares;
  }

  /** A step from `s` that notes `n`: it finalizes when `n` is complete and stops there otherwise. */
  ghost predicate StepOf(env: Env, s: Session, e: Event, n: Session) {
    if Complete(n) then Visit(env, s, e) == FinalizeOpenChannel(env, n)
    else Visit(env, s, e).Done? && Visit(env, s, e).session == n
  }

  /** Until the opening is complete a step only notes; the step that completes it finalizes. */
  lemma {:induction false} StepNotes(env: Env, s: Session, e: Event, ids: Ids)
    requires Delivering(env) && UnderWay(s, ids) && !Complete(s) && PoolEvent(e, ids)
    ensures var n := Noted(s, e, ids); UnderWay(n, ids) && StepOf(env, s, e, n)
  {
    hide StepOf, Visit;
    if IsSubscribeOk(e, ids) {
      SubscribeNotes(env, s, e, ids);
    } else if IsAuthorizeOk(e, ids) {
      AuthorizeNotes(env, s, e, ids);
    } else if IsXnsubAnswer(e, ids) {
      XnsubNotes(env, s, e, ids);
    } else {
      NotificationNotes(env, s, e, ids);
    }
  }

  // ----- Whole openings -----

  lemma {:induction false} AuthorizedSnoc(events: seq<Event>, ids: Ids)
    requires events != []
    ensures Authorized(events, ids) <==>
            Authorized(events[..|events| - 1], ids) || IsAuthorizeOk(events[|events| - 1], ids)
  {
    var before := events[..|events| - 1];
    if Authorized(before, ids) {
      var i :| 0 <= i < |before| && IsAuthorizeOk(before[i], ids);
      assert IsAuthorizeOk(events[i], ids);
    }
    if Authorized(events, ids) && !IsAuthorizeOk(events[|events| - 1], ids) {
      var i :| 0 <= i < |events| && IsAuthorizeOk(events[i], ids);
      assert IsAuthorizeOk(before[i], ids);
    }
  }

  lemma {:induction false} ArrivedSnoc(s0: Session, ids: Ids, events: seq<Event>)
    requires events != []
    ensures ArrivedIn(s0, ids, events) == Arrive(ArrivedIn(s0, ids, events[..|events| - 1]), events[|events| - 1], ids)
  {
    hide Authorized;
    AuthorizedSnoc(events, ids);
  }

  lemma {:induction false} TakenOut(m: map<u32, Kind>, gone: set<u32>, id: u32)
    ensures m - (gone + {id}) == m - gone - {id}
  {
  }

  lemma {:induction false} AnsweredMore(ids: Ids, sub: bool, auth: bool, xnsub: bool)
    ensures Answered(ids, true, auth, xnsub) == Answered(ids, sub, auth, xnsub) + {ids.subscribe}
    ensures Answered(ids, sub, true, xnsub) == Answered(ids, sub, auth, xnsub) + {ids.authorize}
    ensures ids.xnsub.Some? ==> Answered(ids, sub, auth, true) == Answered(ids, sub, auth, xnsub) + {ids.xnsub.value}
  {
  }

  /** A request of the open is registered exactly until its answer has arrived. */
  lemma {:induction false} StillRegistered(s0: Session, ids: Ids, a: Arrived)
    requires Opening(s0, ids) && Distinct(ids)
    ensures var m := WaitingWith(s0, ids, a).reqMap;
            && (ids.subscribe in m <==> a.sub.None?)
            && (ids.authorize in m <==> !a.auth)
            && (ids.xnsub.Some? ==> (ids.xnsub.value in m <==> a.xnsub.None?))
  {
    hide Registered, XnsubFlag;
  }

  /** The request map after one more arrival. */
  lemma {:induction false} AnsweredStep(s0: Session, ids: Ids, a: Arrived, e: Event)
    requires Opening(s0, ids) && Distinct(ids)
    ensures WaitingWith(s0, ids, Arrive(a, e, ids)).reqMap == Noted(WaitingWith(s0, ids, a), e, ids).reqMap
  {
    hide Registered, Opening, Answered, XnsubFlag, Truncated;
    var gone := Answered(ids, a.sub.Some?, a.auth, a.xnsub.Some?);
    StillRegistered(s0, ids, a);
    AnsweredMore(ids, a.sub.Some?, a.auth, a.xnsub.Some?);
    if IsSubscribeOk(e, ids) {
      TakenOut(s0.reqMap, gone, ids.subscribe);
    } else if IsAuthorizeOk(e, ids) {
      TakenOut(s0.reqMap, gone, ids.authorize);
    } else if IsXnsubAnswer(e, ids) {
      TakenOut(s0.reqMap, gone, ids.xnsub.value);
    }
  }

  lemma {:induction false} ArriveStep(s0: Session, ids: Ids, a: Arrived, e: Event)
    requires Opening(s0, ids) && Distinct(ids)
    ensures WaitingWith(s0, ids, Arrive(a, e, ids)) == Noted(WaitingWith(s0, ids, a), e, ids)
  {
    hide Registered, Answered;
    AnsweredStep(s0, ids, a, e);
    StillRegistered(s0, ids, a);
  }

  lemma {:induction false} WaitingSnoc(s0: Session, ids: Ids, events: seq<Event>)
    requires Opening(s0, ids) && events != []
    ensures Waiting(s0, ids, events) ==
            Noted(Waiting(s0, ids, events[..|events| - 1]), events[|events| - 1], ids)
    ensures Complete(Waiting(s0, ids, events)) <==> Ready(s0, ids, events)
  {
    WaitingComplete(s0, ids, events);
    ArrivedSnoc(s0, ids, events);
    hide ArrivedIn, Noted, WaitingWith, Arrive;
    ArriveStep(s0, ids, ArrivedIn(s0, ids, events[..|events| - 1]), events[|events| - 1]);
  }

  /** While a prerequisite is missing the session only notes what arrived, and nothing is sent. */
  lemma {:induction false} OpeningWaits(env: Env, s0: Session, ids: Ids, events: seq<Event>)
    requires Delivering(env) && Opening(s0, ids) && PoolEvents(events, ids)
    requires !Ready(s0, ids, events)
    ensures RunFrom(env, s0, events) == Some(Waiting(s0, ids, events))
    ensures UnderWay(Waiting(s0, ids, events), ids)
  {
    hide Visit, Noted;
    if events == [] {
      assert Waiting(s0, ids, events) == s0;
    } else {
      var before, e := events[..|events| - 1], events[|events| - 1];
      NotReadyBefore(s0, ids, events);
      OpeningWaits(env, s0, ids, before);
      WaitingComplete(s0, ids, before);
      WaitingSnoc(s0, ids, events);
      StepNotes(env, Waiting(s0, ids, before), e, ids);
    }
  }

  lemma {:induction false} WaitingComplete(s0: Session, ids: Ids, events: seq<Event>)
    ensures Complete(Waiting(s0, ids, events)) <==> Ready(s0, ids, events)
  {
  }

  lemma {:induction false} NotReadyBefore(s0: Session, ids: Ids, events: seq<Event>)
    requires events != [] && !Ready(s0, ids, events)
    ensures !Ready(s0, ids, events[..|events| - 1])
  {
    hide Authorized;
    AuthorizedSnoc(events, ids);
  }

  /**
   The step that brings the last prerequisite opens the channel: one success reply with the target
   of the latest difficulty, then the job of the latest notification if one came.
   */
  lemma {:induction false} OpeningCompletes(env: Env, s0: Session, ids: Ids, events: seq<Event>)
    requires Delivering(env) && Opening(s0, ids) && PoolEvents(events, ids) && events != []
    requires Ready(s0, ids, events) && !Ready(s0, ids, events[..|events| - 1])
    ensures RunFrom(env, s0, events) ==
            Some(Opened(env, s0, ids, Collect(s0, ids, events)))
  {
    hide Visit, Noted, FinalizeOpenChannel, NextId, Template, JobMessages, Subscribed, Authorized, Target, Cached;
    var before, e := events[..|events| - 1], events[|events| - 1];
    OpeningWaits(env, s0, ids, before);
    WaitingComplete(s0, ids, before);
    WaitingSnoc(s0, ids, events);
    StepNotes(env, Waiting(s0, ids, before), e, ids);
    FinalizeOpens(env, Waiting(s0, ids, events));
  }

  /** Confluence: whatever the order of arrival, equal prerequisites open the channel into the same session. */
  lemma {:induction false} OpeningConfluent(env: Env, s0: Session, ids: Ids, events: seq<Event>, events': seq<Event>)
    requires Delivering(env) && Opening(s0, ids)
    requires JustReady(s0, ids, events) && JustReady(s0, ids, events')
    requires Collect(s0, ids, events) == Collect(s0, ids, events')
    ensures RunFrom(env, s0, events) == RunFrom(env, s0, events')
    ensures RunFrom(env, s0, events).Some? && RunFrom(env, s0, events).value.state == Operational
  {
    hide RunFrom, Subscribed, Target, Cached, Ready;
    OpeningCompletes(env, s0, ids, events);
    OpeningCompletes(env, s0, ids, events');
  }

  /** The last of the events brings the last prerequisite. */
  ghost predicate JustReady(s0: Session, ids: Ids, events: seq<Event>) {
    && events != [] && PoolEvents(events, ids)
    && Ready(s0, ids, events) && !Ready(s0, ids, events[..|events| - 1])
  }

  // ----- Exactly one reply -----

  /** How many replies to open requests were sent. */
  function Replies(log: seq<Sent<V2Message>>): nat {
    if log == [] then 0
    else Replies(log[..|log| - 1]) + if log[|log| - 1].msg.OpenSuccess? || log[|log| - 1].msg.OpenError? then 1 else 0
  }

  lemma {:induction false} RepliesSnoc(log: seq<Sent<V2Message>>, m: Sent<V2Message>)
    ensures Replies(log + [m]) == Replies(log) + if m.msg.OpenSuccess? || m.msg.OpenError? then 1 else 0
  {
    assert (log + [m])[..|log|] == log;
  }

  lemma {:induction false} RepliesJob(env: Env, log: seq<Sent<V2Message>>, id: u32, n: Notify, x: Subscription)
    ensures Replies(log + JobMessages(env, id, n, x)) == Replies(log)
  {
    hide MerkleRoot, ExtraNonce2;
    var ms := JobMessages(env, id, n, x);
    assert log + ms == log + [ms[0]] + [ms[1]];
    RepliesSnoc(log, ms[0]);
    RepliesSnoc(log + [ms[0]], ms[1]);
  }

  /** An open channel whose opening requests have been answered. */
  ghost predicate Live(s: Session, ids: Ids) {
    && s.state == Operational && s.authorized && s.extraNonce1.Some? && s.forceFutureJobs
    && ids.subscribe !in s.reqMap && ids.authorize !in s.reqMap && Registered(s.reqMap, ids)
  }

  lemma {:induction false} PerformNotifySends(env: Env, s: Session, n: Notify)
    requires Delivering(env) && s.extraNonce1.Some? && s.forceFutureJobs && |n.prevHash| == 32
    ensures var x := Subscription(s.extraNonce1.value, s.extraNonce2Size);
            PerformNotify(env, s, n) ==
            Done(s.(jobId := NextId(s.jobId), jobMap := map[s.jobId := Template(n)],
                    v2Log := s.v2Log + JobMessages(env, s.jobId, n, x)), true)
  {
    hide MerkleRoot, ExtraNonce2, Template, NextId;
    assert env.v2Fate(|s.v2Log|) && env.v2Fate(|s.v2Log| + 1);
    var ms := JobMessages(env, s.jobId, n, Subscription(s.extraNonce1.value, s.extraNonce2Size));
    assert s.v2Log + [ms[0]] + [ms[1]] == s.v2Log + ms;
  }

  lemma {:induction false} LiveResponse(env: Env, s: Session, e: Event, ids: Ids)
    requires Live(s, ids) && e.V1Response? && PoolEvent(e, ids)
    ensures var r := Visit(env, s, e); r.Done? && Live(r.session, ids) && r.session.v2Log == s.v2Log
  {
    hide ConfigureResult, SubscribeResult, AuthorizeResult, SubmitResult, SendShareError, AuthorizeOrSubscribeError;
    hide ErrorText, VisitSetDifficulty, VisitNotify, VisitSetupConnection, VisitOpenChannel, VisitSubmitShares;
    if IsXnsubAnswer(e, ids) && e.id.value in s.reqMap {
      assert s.reqMap[e.id.value] == ExtranonceSubscribeReq;
    } else {
      assert e.id.value !in s.reqMap;
    }
  }

  lemma {:induction false} LiveStep(env: Env, s: Session, e: Event, ids: Ids)
    requires Delivering(env) && Live(s, ids) && PoolEvent(e, ids)
    ensures var r := Visit(env, s, e);
            r.Done? && Live(r.session, ids) && Replies(r.session.v2Log) == Replies(s.v2Log)
  {
    hide PerformNotify, FinalizeOpenChannel, Replies, VisitResponse, Registered, VisitSetupConnection;
    hide VisitOpenChannel, VisitSubmitShares;
    match e
    case V1Response(_, _) => LiveResponse(env, s, e, ids);
    case V1SetDifficulty(v) =>
      RepliesSnoc(s.v2Log, Sent(SetTarget(DIFF1_TARGET / Truncated(v)), env.v2Fate(|s.v2Log|)));
    case V1Notify(n) =>
      PerformNotifySends(env, s, n);
      RepliesJob(env, s.v2Log, s.jobId, n, Subscription(s.extraNonce1.value, s.extraNonce2Size));
    case _ =>
  }

  /** Whatever the pool events and their order, exactly one reply is sent once they are all there, and none before. */
  lemma {:induction false} ExactlyOneReply(env: Env, s0: Session, ids: Ids, events: seq<Event>)
    requires Delivering(env) && Opening(s0, ids) && PoolEvents(events, ids)
    ensures var r := RunFrom(env, s0, events);
            && r.Some?
            && Replies(r.value.v2Log) == Replies(s0.v2Log) + (if Ready(s0, ids, events) then 1 else 0)
            && (Ready(s0, ids, events) ==> Live(r.value, ids))
  {
    hide Visit, Replies, Waiting, Subscribed, Authorized, Target, Cached;
    if !Ready(s0, ids, events) {
      OpeningWaits(env, s0, ids, events);
      WaitingLog(s0, ids, events);
    } else if events == [] {
      NotReadyYet(s0, ids);
    } else {
      var before := events[..|events| - 1];
      if Ready(s0, ids, before) {
        ExactlyOneReply(env, s0, ids, before);
        LiveStep(env, RunFrom(env, s0, before).value, events[|events| - 1], ids);
        ReadyStays(s0, ids, events);
      } else {
        OpeningCompletes(env, s0, ids, events);
        OpenedReplies(env, s0, ids, Collect(s0, ids, events));
      }
    }
  }

  lemma {:induction false} WaitingLog(s0: Session, ids: Ids, events: seq<Event>)
    ensures Waiting(s0, ids, events).v2Log == s0.v2Log
  {
  }

  lemma {:induction false} NotReadyYet(s0: Session, ids: Ids)
    ensures !Ready(s0, ids, [])
  {
  }

  lemma {:induction false} ReadyStays(s0: Session, ids: Ids, events: seq<Event>)
    requires events != [] && Ready(s0, ids, events[..|events| - 1])
    ensures Ready(s0, ids, events)
  {
    hide Authorized;
    AuthorizedSnoc(events, ids);
  }

  lemma {:induction false} OpenedReplies(env: Env, s0: Session, ids: Ids, c: Collected)
    requires Opening(s0, ids)
    ensures var s := Opened(env, s0, ids, c);
            Live(s, ids) && Replies(s.v2Log) == Replies(s0.v2Log) + 1
  {
    hide Replies, JobMessages, Template, NextId;
    var m := Sent(OpenSuccess(s0.channel.value.reqId, c.target), true);
    RepliesSnoc(s0.v2Log, m);
    if c.cached.Some? {
      RepliesJob(env, s0.v2Log + [m], s0.jobId, c.cached.value, c.subscription);
    }
  }

  // ----- Reaching an opening -----

  /** Three requests sent in a row are registered under three ids in a row. */
  lemma {:induction false} RequestsRegistered(env: Env, s: Session, conn: Connection, p: Channel, ids: Ids)
    requires forall k: nat :: env.v1Fate(k)
    requires !OpenRunsOutOfIds(env, s)
    requires ids == if env.tryXnsub then Ids(s.reqId, NextId(NextId(s.reqId)), Some(NextId(s.reqId)))
                    else Ids(s.reqId, NextId(s.reqId), None)
    ensures var r := RequestChannel(env, s, conn, p);
            && r.Done? && r.ok
            && r.session == s.(reqId := r.session.reqId, reqMap := r.session.reqMap, v1Log := r.session.v1Log)
            && ids.subscribe in r.session.reqMap && ids.authorize in r.session.reqMap
            && (ids.xnsub.Some? ==> ids.xnsub.value in r.session.reqMap)
            && Registered(r.session.reqMap, ids)
  {
    hide HostPort;
    assert env.v1Fate(|s.v1Log|) && env.v1Fate(|s.v1Log| + 1) && env.v1Fate(|s.v1Log| + 2);
  }

  /** A first open request on a set-up connection, with its sends taken, starts an opening. */
  lemma {:induction false} OpenRequestStarts(env: Env, s: Session, p: Channel)
    requires s.state == ConnectionSetup && s.conn.Some? && s.forceFutureJobs && s.extraNonce1.None? && !s.authorized
    requires s.deferred.Some? ==> |s.deferred.value.prevHash| == 32
    requires forall k: nat :: env.v1Fate(k)
    requires !OpenRunsOutOfIds(env, s)
    ensures var r := Visit(env, s, V2OpenChannel(p));
            var second, third := NextId(s.reqId), NextId(NextId(s.reqId));
            var ids := if env.tryXnsub then Ids(s.reqId, third, Some(second)) else Ids(s.reqId, second, None);
            r.Done? && r.ok && Opening(r.session, ids) && r.session.v2Log == s.v2Log
  {
    hide VisitSetupConnection, VisitSubmitShares, VisitResponse, VisitSetDifficulty, VisitNotify;
    hide RequestChannel, RefuseOpen, Registered, NextId;
    var ids := if env.tryXnsub then Ids(s.reqId, NextId(NextId(s.reqId)), Some(NextId(s.reqId)))
               else Ids(s.reqId, NextId(s.reqId), None);
    RequestsRegistered(env, s.(channel := Some(p), state := OpenPending), s.conn.value, p, ids);
  }
}
