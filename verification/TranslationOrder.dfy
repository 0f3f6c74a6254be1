/**
 What the client sees over a whole run: which replies and jobs leave in which order, and which
 notification each live job came from.
 */
module TranslationOrder {
  import opened Wrappers
  import opened Stratum
  import opened TranslationSpec
  import opened TranslationSafety
  import Text

  // ----- What one step writes -----

  /** The session in which the step for `e` finalizes the channel, if it does. */
  function Finalizing(s: Session, e: Event): Option<Session> {
    match e
    case V1SetDifficulty(v) =>
      if Truncated(v) != 0 && s.authorized && s.extraNonce1.Some? && s.state == OpenPending
      then Some(s.(target := Some(DIFF1_TARGET / Truncated(v)))) else None
    case V1Response(Some(id), ResultResponse(p)) =>
      if id !in s.reqMap || s.target.None? then None
      else
        var s1 := s.(reqMap := s.reqMap - {id});
        if s.reqMap[id] == SubscribeReq && p.Subscribed().Some? && s.authorized
        then Some(s1.(extraNonce1 := Some(p.Subscribed().value.extraNonce1),
                      extraNonce2Size := p.Subscribed().value.extraNonce2Size))
        else if s.reqMap[id] == AuthorizeReq && p.Boolean() == Some(true) && s.extraNonce1.Some?
        then Some(s1.(authorized := true))
        else None
    case _ => None
  }

  /** Messages that neither open a channel nor belong to a job. */
  predicate Plain(m: V2Message) {
    !m.OpenSuccess? && !m.NewMiningJob? && !m.SetNewPrevHash?
  }

  /** At most one plain message was written, and no delivered open error leaves the channel operational. */
  ghost predicate PlainWrite(log: seq<Sent<V2Message>>, log': seq<Sent<V2Message>>, operational: bool) {
    || log' == log
    || (&& |log'| == |log| + 1 && log' == log + [log'[|log|]]
        && Plain(log'[|log|].msg) && (operational ==> !(log'[|log|].msg.OpenError? && log'[|log|].ok)))
  }

  /** A step that writes nothing but plain messages, leaves the jobs alone and opens nothing. */
  ghost predicate Muted(s: Session, s': Session) {
    && s'.jobId == s.jobId && s'.jobMap == s.jobMap
    && (s'.state == Operational ==> s.state == Operational)
    && PlainWrite(s.v2Log, s'.v2Log, s'.state == Operational)
  }

  /** The outcome of finalizing, followed by an abort when finalizing failed and its caller aborts. */
  ghost predicate FinalizedOrAborted(env: Env, s1: Session, s': Session) {
    var r := FinalizeOpenChannel(env, s1);
    r.Done? && (s' == r.session || (!r.ok && exists code :: s' == AbortOpenChannel(env, r.session, code)))
  }

  ghost predicate Effect(env: Env, s: Session, e: Event, s': Session) {
    if Finalizing(s, e).Some? then FinalizedOrAborted(env, Finalizing(s, e).value, s')
    else if e.V1Notify? && s.state == Operational then
      PerformNotify(env, s, e.notify).Done? && s' == PerformNotify(env, s, e.notify).session
    else Muted(s, s')
  }

  lemma {:induction false} PlainSend(log: seq<Sent<V2Message>>, m: Sent<V2Message>, operational: bool)
    requires Plain(m.msg) && !m.msg.OpenError?
    ensures PlainWrite(log, log, operational)
    ensures PlainWrite(log, log + [m], operational)
  {
    assert (log + [m])[|log|] == m;
  }

  lemma {:induction false} AbortMutes(env: Env, s: Session, code: string)
    ensures Muted(s, AbortOpenChannel(env, s, code))
  {
  }

  lemma {:induction false} SubscribeEffect(env: Env, s: Session, p: V1Result)
    requires SubscribeResult(env, s, p).Done? && !(p.Subscribed().Some? && s.authorized && s.target.Some?)
    ensures Muted(s, SubscribeResult(env, s, p).session)
  {
    hide FinalizeOpenChannel, AbortOpenChannel;
    AbortMutes(env, s, SUBSCRIBE_FAILED);
  }

  lemma {:induction false} AuthorizeEffect(env: Env, s: Session, p: V1Result)
    requires AuthorizeResult(env, s, p).Done? && !(p.Boolean() == Some(true) && s.extraNonce1.Some? && s.target.Some?)
    ensures Muted(s, AuthorizeResult(env, s, p).session)
  {
    hide FinalizeOpenChannel, AbortOpenChannel;
    AbortMutes(env, s, NOT_AUTHORIZED);
    AbortMutes(env, s.(authorized := false), NOT_AUTHORIZED);
  }

  lemma {:induction false} SubmitReplyEffect(env: Env, s: Session, p: V1Result, channelId: u32, seqNum: u32,
                                             text: string)
    ensures var r := SendShareError(env, s, channelId, seqNum, text); r.Done? ==> Muted(s, r.session)
    ensures var r := SubmitResult(env, s, p); r.Done? ==> Muted(s, r.session)
  {
    hide Text.TakeBytes, REFUSED;
  }

  lemma {:induction false} OtherResponsesEffect(env: Env, s: Session, p: V1Result)
    ensures Muted(s, ConfigureResult(env, s, p).session)
    ensures Muted(s, ExtranonceSubscribeResult(s, p).session)
    ensures Muted(s, AuthorizeOrSubscribeError(env, s).session)
  {
    hide AbortOpenChannel, PlainWrite;
    AbortMutes(env, s, NOT_READY);
    var ok := env.v2Fate(|s.v2Log|);
    PlainSend(s.v2Log, Sent(SetupConnectionSuccess, ok), false);
    PlainSend(s.v2Log, Sent(SetupConnectionError(0, MASK_NOT_NEGOTIATED), ok), s.state == Operational);
  }

  lemma {:induction false} ResponseEffect(env: Env, s: Session, id: Option<u32>, p: Response)
    requires VisitResponse(env, s, id, p).Done? && Finalizing(s, V1Response(id, p)).None?
    ensures Muted(s, VisitResponse(env, s, id, p).session)
  {
    hide SubscribeResult, AuthorizeResult, SubmitResult, ConfigureResult, ExtranonceSubscribeResult;
    hide AuthorizeOrSubscribeError, SendShareError, ErrorText, PlainWrite;
    PlainSend(s.v2Log, Sent(SetupConnectionError(0, MASK_NOT_NEGOTIATED), env.v2Fate(|s.v2Log|)),
              s.state == Operational);
    if id.Some? && id.value in s.reqMap {
      var kind, s1 := s.reqMap[id.value], s.(reqMap := s.reqMap - {id.value});
      match p
      case ResultResponse(r) =>
        if kind == SubscribeReq { SubscribeEffect(env, s1, r); }
        if kind == AuthorizeReq { AuthorizeEffect(env, s1, r); }
        SubmitReplyEffect(env, s1, r, CHANNEL_ID, 0, "");
        OtherResponsesEffect(env, s1, r);
      case ErrorResponse(r) =>
        SubmitReplyEffect(env, s1, BoolResult(true), CHANNEL_ID, 0, ErrorText(env, r));
        OtherResponsesEffect(env, s1, BoolResult(true));
    }
  }

  lemma {:induction false} FinalizingResponse(env: Env, s: Session, id: u32, p: V1Result)
    requires id in s.reqMap && VisitResponse(env, s, Some(id), ResultResponse(p)).Done?
    requires Finalizing(s, V1Response(Some(id), ResultResponse(p))).Some?
    ensures FinalizedOrAborted(env, Finalizing(s, V1Response(Some(id), ResultResponse(p))).value,
                               VisitResponse(env, s, Some(id), ResultResponse(p)).session)
  {
    hide FinalizeOpenChannel, AbortOpenChannel, SubmitResult, ConfigureResult, ExtranonceSubscribeResult;
  }

  lemma {:induction false} SetupConnectionEffect(env: Env, s: Session, p: Connection)
    requires VisitSetupConnection(env, s, p).Done?
    ensures Muted(s, VisitSetupConnection(env, s, p).session)
  {
    hide PlainWrite;
    PlainSend(s.v2Log, Sent(SetupConnectionError(p.flags, SETUP_ONLY_ONCE), env.v2Fate(|s.v2Log|)), false);
    PlainSend(s.v2Log, Sent(SetupConnectionError(p.flags, SETUP_ONLY_ONCE), env.v2Fate(|s.v2Log|)), true);
  }

  lemma {:induction false} SendRequestEffect(env: Env, s: Session, kind: Kind, q: V1Request)
    ensures var r := SendRequest(env, s, kind, q);
            r.Done? ==> r.session.(reqId := s.reqId, reqMap := s.reqMap, v1Log := s.v1Log) == s
  {
  }

  lemma {:induction false} RequestChannelEffect(env: Env, s: Session, conn: Connection, p: Channel)
    ensures var r := RequestChannel(env, s, conn, p);
            r.Done? ==> r.session.(reqId := s.reqId, reqMap := s.reqMap, v1Log := s.v1Log) == s
  {
    hide SendRequest, HostPort;
    var subscribe := Subscribe(conn.firmware, HostPort(conn));
    SendRequestEffect(env, s, SubscribeReq, subscribe);
    var subscribed := SendRequest(env, s, SubscribeReq, subscribe);
    if subscribed.Done? && subscribed.ok {
      SendRequestEffect(env, subscribed.session, ExtranonceSubscribeReq, ExtranonceSubscribe);
      SendRequestEffect(env, subscribed.session, AuthorizeReq, Authorize(p.user));
      var extended := SendRequest(env, subscribed.session, ExtranonceSubscribeReq, ExtranonceSubscribe);
      if extended.Done? { SendRequestEffect(env, extended.session, AuthorizeReq, Authorize(p.user)); }
    }
  }

  lemma {:induction false} OpenChannelEffect(env: Env, s: Session, p: Channel)
    requires Inv(s) && VisitOpenChannel(env, s, p).Done?
    ensures Muted(s, VisitOpenChannel(env, s, p).session)
  {
    hide RequestChannel, OnlyNewestJob, RefuseOpen;
    if s.state != ConnectionSetup && s.state != SubscribeOrAuthorizeFail {
      OutOfSequencePanics(env, s, p);
    } else if s.conn.Some? {
      RequestChannelEffect(env, s.(channel := Some(p), state := OpenPending), s.conn.value, p);
    }
  }

  lemma {:induction false} SubmitSharesEffect(env: Env, s: Session, p: Share)
    requires VisitSubmitShares(env, s, p).Done?
    ensures Muted(s, VisitSubmitShares(env, s, p).session)
  {
    hide Text.TakeBytes, ForeignChannelText, UnknownJobText, ExtraNonce2;
  }

  lemma {:induction false} VisitEffect(env: Env, s: Session, e: Event)
    requires Inv(s) && Visit(env, s, e).Done?
    ensures Effect(env, s, e, Visit(env, s, e).session)
  {
    hide FinalizeOpenChannel, PerformNotify, VisitResponse, VisitSubmitShares, VisitOpenChannel, VisitSetupConnection;
    match e
    case V1Response(id, p) =>
      if Finalizing(s, e).Some? {
        FinalizingResponse(env, s, id.value, p.result);
      } else {
        ResponseEffect(env, s, id, p);
      }
    case V2SetupConnection(p) => SetupConnectionEffect(env, s, p);
    case V2OpenChannel(p) => OpenChannelEffect(env, s, p);
    case V2SubmitShares(p) => SubmitSharesEffect(env, s, p);
    case V1SetDifficulty(v) => SetDifficultySound(env, s, v);
    case _ =>
  }

  // ----- Order of replies and jobs -----

  type V2Log = seq<Sent<V2Message>>

  predicate IsReply(m: V2Message) {
    m.OpenSuccess? || m.OpenError?
  }

  /** The most recent reply to an open request. */
  function LastReply(log: V2Log): Option<V2Message> {
    if log == [] then None
    else if IsReply(log[|log| - 1].msg) then Some(log[|log| - 1].msg)
    else LastReply(log[..|log| - 1])
  }

  predicate Open(log: V2Log) {
    LastReply(log).Some? && LastReply(log).value.OpenSuccess?
  }

  /** Every reply to an open request reached the client. */
  ghost predicate RepliesDelivered(log: V2Log) {
    forall i :: 0 <= i < |log| && IsReply(log[i].msg) ==> log[i].ok
  }

  /** Whenever a job is offered, the most recent reply to an open request is a success. */
  ghost predicate JobsWhileOpen(log: V2Log) {
    forall i :: 0 <= i < |log| && log[i].msg.NewMiningJob? ==> Open(log[..i])
  }

  /**
   The message right after a delivered job is the previous-hash message of that job, and such a
   message comes nowhere else.
   */
  ghost predicate JobsPaired(log: V2Log) {
    && (forall i :: 0 <= i < |log| && log[i].msg.NewMiningJob? && log[i].ok ==>
          i + 1 < |log| && log[i + 1].msg.SetNewPrevHash? && log[i + 1].msg.jobId == log[i].msg.jobId)
    && (forall i :: 0 <= i < |log| && log[i].msg.SetNewPrevHash? ==>
          i > 0 && log[i - 1].msg.NewMiningJob? && log[i - 1].ok && log[i - 1].msg.jobId == log[i].msg.jobId)
  }

  ghost predicate InOrder(log: V2Log, operational: bool) {
    && JobsPaired(log)
    && (RepliesDelivered(log) ==> JobsWhileOpen(log) && (operational ==> Open(log)))
  }

  lemma {:induction false} AppendReplies(log: V2Log, m: Sent<V2Message>)
    ensures RepliesDelivered(log + [m]) <==> RepliesDelivered(log) && (IsReply(m.msg) ==> m.ok)
    ensures LastReply(log + [m]) == if IsReply(m.msg) then Some(m.msg) else LastReply(log)
    ensures JobsWhileOpen(log + [m]) <==> JobsWhileOpen(log) && (m.msg.NewMiningJob? ==> Open(log))
  {
    var log' := log + [m];
    assert log'[..|log|] == log && log'[|log|] == m;
    forall i | 0 <= i < |log|
      ensures log'[i] == log[i] && log'[..i] == log[..i]
    {
    }
    if RepliesDelivered(log') {
      forall i | 0 <= i < |log| && IsReply(log[i].msg) ensures log[i].ok { assert log'[i].ok; }
    }
    if JobsWhileOpen(log') {
      forall i | 0 <= i < |log| && log[i].msg.NewMiningJob? ensures Open(log[..i]) { assert Open(log'[..i]); }
    }
  }

  lemma {:induction false} AppendUnpaired(log: V2Log, m: Sent<V2Message>)
    requires JobsPaired(log) && !(m.msg.NewMiningJob? && m.ok) && !m.msg.SetNewPrevHash?
    ensures JobsPaired(log + [m])
  {
  }

  lemma {:induction false} AppendPair(log: V2Log, job: Sent<V2Message>, prev: Sent<V2Message>)
    requires JobsPaired(log) && job.msg.NewMiningJob? && job.ok
    requires prev.msg.SetNewPrevHash? && prev.msg.jobId == job.msg.jobId
    ensures JobsPaired(log + [job] + [prev])
  {
    var log' := log + [job] + [prev];
    assert log'[|log|] == job && log'[|log| + 1] == prev;
    assert forall i :: 0 <= i < |log| ==> log'[i] == log[i];
  }

  lemma {:induction false} AppendInOrder(log: V2Log, m: Sent<V2Message>, before: bool, after: bool)
    requires InOrder(log, before) && !m.msg.SetNewPrevHash? && !m.msg.NewMiningJob?
    requires after ==> m.msg.OpenSuccess? || (before && !(m.msg.OpenError? && m.ok))
    ensures InOrder(log + [m], after)
  {
    AppendReplies(log, m);
    AppendUnpaired(log, m);
  }

  lemma {:induction false} PerformNotifyInOrder(env: Env, s: Session, n: Notify)
    requires InOrder(s.v2Log, true) && s.forceFutureJobs && PerformNotify(env, s, n).Done?
    ensures InOrder(PerformNotify(env, s, n).session.v2Log, true)
  {
    hide MerkleRoot, ExtraNonce2, Template, InOrder;
    if s.extraNonce1.Some? && |n.prevHash| == 32 {
      var log, id := s.v2Log, s.jobId;
      var root := MerkleRoot(env.hash, n, s.extraNonce1.value, ExtraNonce2(CHANNEL_ID, s.extraNonce2Size));
      JobInOrder(log, Sent(NewMiningJob(id, true, root, n.version), env.v2Fate(|log|)),
                 Sent(SetNewPrevHash(id, n.prevHash, n.time, n.bits), env.v2Fate(|log| + 1)));
    }
  }

  lemma {:induction false} JobInOrder(log: V2Log, job: Sent<V2Message>, prev: Sent<V2Message>)
    requires InOrder(log, true) && job.msg.NewMiningJob? && prev.msg.SetNewPrevHash? && prev.msg.jobId == job.msg.jobId
    ensures InOrder(if job.ok then log + [job] + [prev] else log + [job], true)
  {
    AppendReplies(log, job);
    if job.ok {
      AppendPair(log, job, prev);
      AppendReplies(log + [job], prev);
    } else {
      AppendUnpaired(log, job);
    }
  }

  lemma {:induction false} FinalizeInOrder(env: Env, s: Session)
    requires InOrder(s.v2Log, s.state == Operational) && s.forceFutureJobs && FinalizeOpenChannel(env, s).Done?
    ensures var s' := FinalizeOpenChannel(env, s).session; InOrder(s'.v2Log, s'.state == Operational)
  {
    hide PerformNotify, InOrder;
    if s.channel.Some? {
      var m := OpenSuccess(s.channel.value.reqId, s.target.value);
      AppendInOrder(s.v2Log, Sent(m, env.v2Fate(|s.v2Log|)), s.state == Operational, true);
      var sent := SendV2(env, s.(state := Operational), m);
      if sent.ok && s.deferred.Some? {
        PerformNotifyState(env, sent.session.(deferred := None), s.deferred.value);
        PerformNotifyInOrder(env, sent.session.(deferred := None), s.deferred.value);
      }
    }
  }

  /** Translating a notification touches only the jobs and the output. */
  lemma {:induction false} PerformNotifyState(env: Env, s: Session, n: Notify)
    requires PerformNotify(env, s, n).Done?
    ensures var s' := PerformNotify(env, s, n).session;
            s' == s.(jobId := s'.jobId, jobMap := s'.jobMap, v2Log := s'.v2Log)
  {
    hide MerkleRoot, ExtraNonce2, Template, NextId, SendV2;
    if s.extraNonce1.Some? {
      var root := MerkleRoot(env.hash, n, s.extraNonce1.value, ExtraNonce2(CHANNEL_ID, s.extraNonce2Size));
      var future := s.jobMap == map[] || n.cleanJobs || s.forceFutureJobs;
      var jobs := (if future then map[] else s.jobMap)[s.jobId := Template(n)];
      var s1, job := s.(jobId := NextId(s.jobId), jobMap := jobs), NewMiningJob(s.jobId, future, root, n.version);
      SendV2State(env, s1, job);
      SendV2State(env, SendV2(env, s1, job).session, SetNewPrevHash(s.jobId, n.prevHash, n.time, n.bits));
    }
  }

  lemma {:induction false} SendV2State(env: Env, s: Session, m: V2Message)
    ensures var r := SendV2(env, s, m); r.Done? && r.session == s.(v2Log := r.session.v2Log)
  {
  }

  lemma {:induction false} MutedInOrder(s: Session, s': Session)
    requires InOrder(s.v2Log, s.state == Operational) && Muted(s, s')
    ensures InOrder(s'.v2Log, s'.state == Operational)
  {
    if s'.v2Log != s.v2Log {
      AppendInOrder(s.v2Log, s'.v2Log[|s.v2Log|], s.state == Operational, s'.state == Operational);
    }
  }

  lemma {:induction false} VisitInOrder(env: Env, s: Session, e: Event)
    requires Inv(s) && InOrder(s.v2Log, s.state == Operational) && Visit(env, s, e).Done?
    ensures var s' := Visit(env, s, e).session; InOrder(s'.v2Log, s'.state == Operational)
  {
    hide Visit, InOrder, FinalizeOpenChannel, PerformNotify, AbortOpenChannel, Muted;
    var s' := Visit(env, s, e).session;
    VisitEffect(env, s, e);
    if Finalizing(s, e).Some? {
      var s1 := Finalizing(s, e).value;
      FinalizeInOrder(env, s1);
      var r := FinalizeOpenChannel(env, s1);
      if s' != r.session {
        var code :| s' == AbortOpenChannel(env, r.session, code);
        AbortMutes(env, r.session, code);
        MutedInOrder(r.session, s');
      }
    } else if e.V1Notify? && s.state == Operational {
      PerformNotifyState(env, s, e.notify);
      PerformNotifyInOrder(env, s, e.notify);
    } else {
      MutedInOrder(s, s');
    }
  }

  /**
   Over whole runs, with any sends failing: a delivered NewMiningJob is immediately followed by the
   SetNewPrevHash of the same job; and as long as no open reply was lost, the most recent open
   reply is a success whenever a NewMiningJob is sent.
   */
  lemma {:induction false} OutputInOrder(env: Env, events: seq<Event>)
    requires Run(env, events).Some?
    ensures var s := Run(env, events).value; InOrder(s.v2Log, s.state == Operational)
  {
    hide Visit;
    if events != [] {
      var before := events[..|events| - 1];
      OutputInOrder(env, before);
      RunKeepsInv(env, before);
      VisitInOrder(env, Run(env, before).value, events[|events| - 1]);
    }
  }
}
