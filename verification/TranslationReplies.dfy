/**
 Which answers the client gets: over whole runs, a connection is confirmed or refused and a share accepted
 or refused exactly as often as the pool, or the proxy itself, decided so; and the target the client was
 told last is the one of the latest difficulty.
 */
module TranslationReplies {
  import opened Wrappers
  import opened Stratum
  import opened TranslationSpec
  import opened TranslationSafety
  import opened TranslationOrder
  import Text

  // ----- Kinds of answers -----

  datatype Verdict = ConnectionConfirmed | ConnectionRefused | ShareAccepted | ShareRefused

  function VerdictIn(m: V2Message): Option<Verdict> {
    match m
    case SetupConnectionSuccess => Some(ConnectionConfirmed)
    case SetupConnectionError(_, _) => Some(ConnectionRefused)
    case SubmitSharesSuccess => Some(ShareAccepted)
    case SubmitSharesError(_, _, _) => Some(ShareRefused)
    case _ => None
  }

  /** How many messages of the output give the verdict. */
  function Tally(log: V2Log, v: Verdict): nat {
    if log == [] then 0
    else Tally(log[..|log| - 1], v) + if VerdictIn(log[|log| - 1].msg) == Some(v) then 1 else 0
  }

  // ----- What decides them -----

  /** The event answers an outstanding request of the kind. */
  predicate AnswerTo(s: Session, e: Event, kind: Kind) {
    e.V1Response? && e.id.Some? && e.id.value in s.reqMap && s.reqMap[e.id.value] == kind
  }

  /** The pool grants version rolling with the whole mask. */
  predicate Grants(env: Env, r: Response) {
    && r.ResultResponse? && r.result.OtherResult?
    && r.result.versionMask == Some(env.mask) && r.result.versionRolling == Some(true)
  }

  /** The pool answers with something that is no mask at all. */
  predicate Unreadable(r: Response) {
    r.ResultResponse? && (r.result.BoolResult? || r.result.versionMask.None?)
  }

  /** The event decides the verdict, in the session it finds. */
  predicate Decides(env: Env, s: Session, e: Event, v: Verdict) {
    match v
    case ConnectionConfirmed => AnswerTo(s, e, ConfigureReq) && Grants(env, e.response)
    case ConnectionRefused =>
      || (AnswerTo(s, e, ConfigureReq) && !Grants(env, e.response) && !Unreadable(e.response))
      || (e.V2SetupConnection? && s.state != Init)
    case ShareAccepted => AnswerTo(s, e, SubmitReq) && e.response == ResultResponse(BoolResult(true))
    case ShareRefused =>
      || (AnswerTo(s, e, SubmitReq) && (e.response == ResultResponse(BoolResult(false)) || e.response.ErrorResponse?))
      || (e.V2SubmitShares? && (e.share.channelId != 0 || e.share.jobId !in s.jobMap))
  }

  // ----- One step -----

  lemma {:induction false} TallySnoc(log: V2Log, m: Sent<V2Message>, v: Verdict)
    ensures Tally(log + [m], v) == Tally(log, v) + if VerdictIn(m.msg) == Some(v) then 1 else 0
  {
    assert (log + [m])[..|log|] == log;
  }

  lemma {:induction false} SendTally(env: Env, s: Session, m: V2Message, v: Verdict)
    ensures var r := SendV2(env, s, m);
            r.Done? && Tally(r.session.v2Log, v) == Tally(s.v2Log, v) + if VerdictIn(m) == Some(v) then 1 else 0
  {
    TallySnoc(s.v2Log, Sent(m, env.v2Fate(|s.v2Log|)), v);
  }

  /** A step that gives no verdict. */
  ghost predicate Silent(s: Session, r: Outcome) {
    r.Done? ==> forall v :: Tally(r.session.v2Log, v) == Tally(s.v2Log, v)
  }

  lemma {:induction false} PerformNotifySilent(env: Env, s: Session, n: Notify)
    ensures Silent(s, PerformNotify(env, s, n))
  {
    hide MerkleRoot, ExtraNonce2, Template, NextId, Tally;
    if s.extraNonce1.Some? {
      var root := MerkleRoot(env.hash, n, s.extraNonce1.value, ExtraNonce2(CHANNEL_ID, s.extraNonce2Size));
      var future := s.jobMap == map[] || n.cleanJobs || s.forceFutureJobs;
      var job := Sent(NewMiningJob(s.jobId, future, root, n.version), env.v2Fate(|s.v2Log|));
      var prev := Sent(SetNewPrevHash(s.jobId, n.prevHash, n.time, n.bits), env.v2Fate(|s.v2Log| + 1));
      forall v ensures Tally(s.v2Log + [job], v) == Tally(s.v2Log, v)
               ensures Tally(s.v2Log + [job] + [prev], v) == Tally(s.v2Log, v)
      {
        TallySnoc(s.v2Log, job, v);
        TallySnoc(s.v2Log + [job], prev, v);
      }
    }
  }

  lemma {:induction false} FinalizeSilent(env: Env, s: Session)
    ensures Silent(s, FinalizeOpenChannel(env, s))
  {
    hide PerformNotify, Tally;
    if s.target.Some? && s.channel.Some? {
      var m := OpenSuccess(s.channel.value.reqId, s.target.value);
      var sent := SendV2(env, s.(state := Operational), m);
      forall v ensures Tally(sent.session.v2Log, v) == Tally(s.v2Log, v) {
        TallySnoc(s.v2Log, Sent(m, env.v2Fate(|s.v2Log|)), v);
      }
      if s.deferred.Some? { PerformNotifySilent(env, sent.session.(deferred := None), s.deferred.value); }
    }
  }

  lemma {:induction false} AbortSilent(env: Env, s: Session, code: string)
    ensures forall v :: Tally(AbortOpenChannel(env, s, code).v2Log, v) == Tally(s.v2Log, v)
  {
    hide Tally;
    if s.channel.Some? {
      forall v ensures Tally(AbortOpenChannel(env, s, code).v2Log, v) == Tally(s.v2Log, v) {
        TallySnoc(s.v2Log, Sent(OpenError(s.channel.value.reqId, code), env.v2Fate(|s.v2Log|)), v);
      }
    }
  }

  lemma {:induction false} FinalizeOrAbortSilent(env: Env, s: Session, code: string)
    ensures Silent(s, FinalizeOrAbort(env, s, code))
  {
    hide FinalizeOpenChannel, AbortOpenChannel, Tally;
    FinalizeSilent(env, s);
    var r := FinalizeOpenChannel(env, s);
    if r.Done? { AbortSilent(env, r.session, code); }
  }

  /** Answers to the requests of an open give no verdict. */
  lemma {:induction false} OpeningAnswersSilent(env: Env, s: Session, p: V1Result)
    ensures Silent(s, SubscribeResult(env, s, p)) && Silent(s, AuthorizeResult(env, s, p))
    ensures Silent(s, ExtranonceSubscribeResult(s, p)) && Silent(s, AuthorizeOrSubscribeError(env, s))
  {
    hide FinalizeOrAbort, AbortOpenChannel, Tally;
    AbortSilent(env, s, SUBSCRIBE_FAILED);
    AbortSilent(env, s, NOT_AUTHORIZED);
    AbortSilent(env, s.(authorized := false), NOT_AUTHORIZED);
    AbortSilent(env, s, NOT_READY);
    FinalizeOrAbortSilent(env, s.(authorized := true), NOT_AUTHORIZED);
    if p.Subscribed().Some? {
      var x := p.Subscribed().value;
      FinalizeOrAbortSilent(env, s.(extraNonce1 := Some(x.extraNonce1), extraNonce2Size := x.extraNonce2Size),
                            SUBSCRIBE_FAILED);
    }
  }

  /** The verdicts that a step adds are those that its event decides. */
  ghost predicate Given(env: Env, s: Session, e: Event, r: Outcome) {
    r.Done? ==> forall v :: Tally(r.session.v2Log, v) == Tally(s.v2Log, v) + if Decides(env, s, e, v) then 1 else 0
  }

  lemma {:induction false} ConfigureGiven(env: Env, s: Session, e: Event)
    requires AnswerTo(s, e, ConfigureReq)
    ensures Given(env, s, e, VisitResponse(env, s, e.id, e.response))
  {
    hide SubscribeResult, AuthorizeResult, SubmitResult, SendShareError, AuthorizeOrSubscribeError, Tally, ErrorText;
    var s1 := s.(reqMap := s.reqMap - {e.id.value});
    var granted, refused := SetupConnectionSuccess, SetupConnectionError(0, MASK_NOT_NEGOTIATED);
    forall v
      ensures var r := SendV2(env, s1.(state := ConnectionSetup), granted);
              Tally(r.session.v2Log, v) == Tally(s1.v2Log, v) + if v == ConnectionConfirmed then 1 else 0
      ensures var r := SendV2(env, s1, refused);
              Tally(r.session.v2Log, v) == Tally(s1.v2Log, v) + if v == ConnectionRefused then 1 else 0
    {
      SendTally(env, s1.(state := ConnectionSetup), granted, v);
      SendTally(env, s1, refused, v);
    }
    hide SendV2;
  }

  lemma {:induction false} ShareErrorGiven(env: Env, s: Session, channelId: u32, seqNum: u32, text: string)
    ensures var r := SendShareError(env, s, channelId, seqNum, text);
            r.Done? ==> forall v :: Tally(r.session.v2Log, v) == Tally(s.v2Log, v) + if v == ShareRefused then 1 else 0
  {
    hide Text.TakeBytes, Tally, SendV2;
    var code := Text.TakeBytes(text, MAX_CODE);
    if code.Some? {
      forall v ensures var r := SendV2(env, s, SubmitSharesError(channelId, seqNum, code.value));
                       r.Done? && Tally(r.session.v2Log, v) == Tally(s.v2Log, v) + if v == ShareRefused then 1 else 0
      {
        SendTally(env, s, SubmitSharesError(channelId, seqNum, code.value), v);
      }
    }
  }

  lemma {:induction false} SubmitGiven(env: Env, s: Session, e: Event)
    requires AnswerTo(s, e, SubmitReq)
    ensures Given(env, s, e, VisitResponse(env, s, e.id, e.response))
  {
    hide SubscribeResult, AuthorizeResult, ConfigureResult, SendShareError, AuthorizeOrSubscribeError, Tally;
    hide ErrorText, REFUSED;
    var s1 := s.(reqMap := s.reqMap - {e.id.value});
    ShareErrorGiven(env, s1, CHANNEL_ID, 0, REFUSED);
    if e.response.ErrorResponse? { ShareErrorGiven(env, s1, CHANNEL_ID, 0, ErrorText(env, e.response.error)); }
    forall v ensures var r := SendV2(env, s1, SubmitSharesSuccess);
                     Tally(r.session.v2Log, v) == Tally(s1.v2Log, v) + if v == ShareAccepted then 1 else 0
    {
      SendTally(env, s1, SubmitSharesSuccess, v);
    }
    hide SendV2;
  }

  lemma {:induction false} ResponseGiven(env: Env, s: Session, e: Event)
    requires e.V1Response?
    ensures Given(env, s, e, VisitResponse(env, s, e.id, e.response))
  {
    hide Tally;
    if AnswerTo(s, e, ConfigureReq) {
      ConfigureGiven(env, s, e);
    } else if AnswerTo(s, e, SubmitReq) {
      SubmitGiven(env, s, e);
    } else if e.id.Some? && e.id.value in s.reqMap {
      hide SubscribeResult, AuthorizeResult, ExtranonceSubscribeResult, ConfigureResult, SubmitResult;
      hide AuthorizeOrSubscribeError, SendShareError, ErrorText;
      var s1 := s.(reqMap := s.reqMap - {e.id.value});
      OpeningAnswersSilent(env, s1, if e.response.ResultResponse? then e.response.result else BoolResult(true));
    }
  }

  lemma {:induction false} SendRequestSilent(env: Env, s: Session, kind: Kind, q: V1Request)
    ensures var r := SendRequest(env, s, kind, q); r.Done? ==> r.session.v2Log == s.v2Log
  {
  }

  lemma {:induction false} SetupGiven(env: Env, s: Session, p: Connection)
    ensures Given(env, s, V2SetupConnection(p), VisitSetupConnection(env, s, p))
  {
    hide Tally, SendRequest, SendV2;
    var refusal := SetupConnectionError(p.flags, SETUP_ONLY_ONCE);
    var refused := if s.state == Init then Done(s, true) else SendV2(env, s, refusal);
    forall v
      ensures refused.Done?
      ensures Tally(refused.session.v2Log, v) ==
              Tally(s.v2Log, v) + if v == ConnectionRefused && s.state != Init then 1 else 0
    {
      SendTally(env, s, refusal, v);
    }
    SendTally(env, s, refusal, ConnectionRefused);
    SendRequestSilent(env, refused.session.(conn := Some(p)), ConfigureReq, Configure(env.mask));
  }

  lemma {:induction false} OpenGiven(env: Env, s: Session, p: Channel)
    ensures Given(env, s, V2OpenChannel(p), VisitOpenChannel(env, s, p))
  {
    hide Tally, RequestChannel, RefuseOpen;
    if s.state != ConnectionSetup && s.state != SubscribeOrAuthorizeFail {
      OutOfSequencePanics(env, s, p);
    } else if s.conn.Some? {
      RequestChannelEffect(env, s.(channel := Some(p), state := OpenPending), s.conn.value, p);
    }
  }

  lemma {:induction false} SubmittedSilent(env: Env, s: Session, p: Share)
    requires p.channelId == CHANNEL_ID && p.jobId in s.jobMap
    ensures var r := VisitSubmitShares(env, s, p); r.Done? ==> r.session.v2Log == s.v2Log
  {
    hide ExtraNonce2;
  }

  lemma {:induction false} SharesGiven(env: Env, s: Session, p: Share)
    ensures Given(env, s, V2SubmitShares(p), VisitSubmitShares(env, s, p))
  {
    if p.channelId == CHANNEL_ID && p.jobId in s.jobMap {
      hide Tally, VisitSubmitShares;
      SubmittedSilent(env, s, p);
    } else {
      hide Tally, SendShareError, ForeignChannelText, UnknownJobText;
      ShareErrorGiven(env, s, p.channelId, p.seqNum, ForeignChannelText(p.channelId));
      ShareErrorGiven(env, s, p.channelId, p.seqNum, UnknownJobText(p.jobId));
    }
  }

  lemma {:induction false} NotificationGiven(env: Env, s: Session, e: Event)
    requires e.V1SetDifficulty? || e.V1Notify? || e.V1SetExtranonce? || e.V1SetVersionMask?
    ensures Given(env, s, e, Visit(env, s, e))
  {
    hide Tally, FinalizeOpenChannel, PerformNotify, SendV2, VisitResponse, VisitSetupConnection, VisitOpenChannel;
    hide VisitSubmitShares;
    match e
    case V1SetDifficulty(f) =>
      if Truncated(f) != 0 {
        var s1 := s.(target := Some(DIFF1_TARGET / Truncated(f)));
        FinalizeSilent(env, s1);
        forall v ensures var r := SendV2(env, s1, SetTarget(s1.target.value));
                         r.Done? && Tally(r.session.v2Log, v) == Tally(s1.v2Log, v)
        {
          SendTally(env, s1, SetTarget(s1.target.value), v);
        }
      }
    case V1Notify(n) => PerformNotifySilent(env, s, n);
    case _ =>
  }

  /**
   In every state: a step adds a verdict exactly when its event decides it. A confirmed connection means
   that the pool granted the mask, an accepted share that the pool answered true.
   */
  lemma {:induction false} VerdictsOfStep(env: Env, s: Session, e: Event)
    ensures Given(env, s, e, Visit(env, s, e))
  {
    hide Given, VisitResponse, VisitSetDifficulty, VisitNotify;
    hide VisitSetupConnection, VisitOpenChannel, VisitSubmitShares;
    match e
    case V1Response(_, _) => ResponseGiven(env, s, e);
    case V2SetupConnection(p) => SetupGiven(env, s, p);
    case V2OpenChannel(p) => OpenGiven(env, s, p);
    case V2SubmitShares(p) => SharesGiven(env, s, p);
    case _ => NotificationGiven(env, s, e);
  }

  // ----- Whole runs -----

  /** How many events of the run decided the verdict. */
  function Decided(env: Env, events: seq<Event>, v: Verdict): nat
    decreases |events|
  {
    if events == [] then 0
    else
      var before, e := events[..|events| - 1], events[|events| - 1];
      var s := Run(env, before);
      Decided(env, before, v) + if s.Some? && Decides(env, s.value, e, v) then 1 else 0
  }

  /**
   Over every run the client was told each verdict exactly as often as an event decided it: accepted
   shares are the `true` answers to submissions, refused ones the `false` and error answers and the shares
   that were rejected without asking the pool.
   */
  lemma {:induction false} VerdictsBalance(env: Env, events: seq<Event>, v: Verdict)
    requires Run(env, events).Some?
    ensures Tally(Run(env, events).value.v2Log, v) == Decided(env, events, v)
  {
    hide Visit, Tally, Decides;
    if events != [] {
      var before := events[..|events| - 1];
      VerdictsBalance(env, before, v);
      VerdictsOfStep(env, Run(env, before).value, events[|events| - 1]);
    } else {
      NoVerdictsYet(v);
    }
  }

  lemma {:induction false} NoVerdictsYet(v: Verdict)
    ensures Tally([], v) == 0
  {
  }

  // ----- Replies to shares -----

  /** How an error of the pool reads, its message and traceback in quotes. */
  lemma {:induction false} ErrorTextIs(env: Env, e: V1Error)
    ensures ErrorText(env, e) ==
            "ShareRjct:StratumError(" + Text.Signed(e.code) + ", " + Text.Quoted(env.style, e.message) + ", " +
            (if e.traceback.None? then "None)" else "Some(" + Text.Quoted(env.style, e.traceback.value) + "))")
  {
    hide Text.Signed, Text.Escaped;
    var q: string := "\"";
    assert ", \"" == ", " + q && "\", " == q + ", ";
    assert "None" + ")" == "None)" && ")" + ")" == "))";
  }

  /** The refusal of a share: nothing changes but the output, by one message with these parts. */
  ghost predicate RefusedWith(s: Session, r: Outcome, channelId: u32, seqNum: u32, reason: string) {
    && r.Done? && r.session == s.(v2Log := r.session.v2Log) && |r.session.v2Log| == |s.v2Log| + 1
    && r.session.v2Log[..|s.v2Log|] == s.v2Log
    && var m := r.session.v2Log[|s.v2Log|].msg;
    && m.SubmitSharesError? && m.channelId == channelId && m.seqNum == seqNum
    && |m.code| == 32 && m.code <= reason
  }

  lemma {:induction false} RefusalParts(env: Env, s: Session, channelId: u32, seqNum: u32, text: string)
    requires Text.Ascii(text) && SendShareError(env, s, channelId, seqNum, text).Done?
    ensures RefusedWith(s, SendShareError(env, s, channelId, seqNum, text), channelId, seqNum, text)
  {
    Text.TakeBytesAscii(text, 32);
    hide Text.TakeBytes;
  }

  lemma {:induction false} ForeignReasonAscii(id: u32)
    ensures Text.Ascii(ForeignChannelText(id))
  {
    hide Text.Decimal;
    assert Text.Ascii("Unrecognized channel ID ");
  }

  lemma {:induction false} UnknownReasonAscii(id: u32)
    ensures Text.Ascii(UnknownJobText(id))
  {
    hide Text.Decimal;
    assert Text.Ascii("General error: V2 Job ID not present ") && Text.Ascii(" in registry");
  }

  /** A share that is not submitted is answered with its own numbers and the beginning of the reason. */
  lemma {:induction false} RejectedShare(env: Env, s: Session, p: Share)
    requires VisitSubmitShares(env, s, p).Done?
    ensures p.channelId != 0 ==>
              RefusedWith(s, VisitSubmitShares(env, s, p), p.channelId, p.seqNum,
                          "Unrecognized channel ID " + Text.Decimal(p.channelId))
    ensures p.channelId == 0 && p.jobId !in s.jobMap ==>
              RefusedWith(s, VisitSubmitShares(env, s, p), 0, p.seqNum,
                          "General error: V2 Job ID not present " + Text.Decimal(p.jobId) + " in registry")
  {
    ForeignReasonAscii(p.channelId);
    UnknownReasonAscii(p.jobId);
    hide SendShareError, RefusedWith, ExtraNonce2, Text.Decimal, Text.Ascii;
    if p.channelId != 0 {
      RefusalParts(env, s, p.channelId, p.seqNum, ForeignChannelText(p.channelId));
    } else if p.jobId !in s.jobMap {
      RefusalParts(env, s, 0, p.seqNum, UnknownJobText(p.jobId));
    }
  }

  // ----- What the other replies say -----

  /** The step's one message. */
  ghost predicate Says(env: Env, s: Session, r: Outcome, m: V2Message) {
    r.Done? && r.session.v2Log == s.v2Log + [Sent(m, env.v2Fate(|s.v2Log|))]
  }

  /** A second connection is refused with the client's flags, an ungranted mask with the reason. */
  lemma {:induction false} ConnectionReplies(env: Env, s: Session, e: Event)
    ensures e.V2SetupConnection? && s.state != Init && VisitSetupConnection(env, s, e.connection).Done? ==>
              Says(env, s, VisitSetupConnection(env, s, e.connection),
                   SetupConnectionError(e.connection.flags, "Connection can be setup only once"))
    ensures AnswerTo(s, e, ConfigureReq) && !Grants(env, e.response) && !Unreadable(e.response) ==>
              && Says(env, s, VisitResponse(env, s, e.id, e.response),
                      SetupConnectionError(0, "Cannot negotiate upstream V1 version mask"))
              && VisitResponse(env, s, e.id, e.response).session.state == s.state
    ensures AnswerTo(s, e, ConfigureReq) && Grants(env, e.response) ==>
              && Says(env, s, VisitResponse(env, s, e.id, e.response), SetupConnectionSuccess)
              && VisitResponse(env, s, e.id, e.response).session.state == ConnectionSetup
  {
    hide SubscribeResult, AuthorizeResult, SubmitResult, SendShareError, AuthorizeOrSubscribeError, ErrorText;
  }

  /** The pool's verdict on a share is passed on; the reason of a refusal is the beginning of what the pool answered. */
  lemma {:induction false} ShareReplies(env: Env, s: Session, e: Event)
    requires AnswerTo(s, e, SubmitReq) && VisitResponse(env, s, e.id, e.response).Done?
    ensures var r := VisitResponse(env, s, e.id, e.response);
            match e.response
            case ResultResponse(BoolResult(true)) => Says(env, s, r, SubmitSharesSuccess)
            case ResultResponse(BoolResult(false)) =>
              Says(env, s, r, SubmitSharesError(0, 0, "ShareRjct:StratumResult(Bool(fal"))
            case ResultResponse(_) => r.session.v2Log == s.v2Log
            case ErrorResponse(p) =>
              && Text.TakeBytes(ErrorText(env, p), 32).Some?
              && Says(env, s, r, SubmitSharesError(0, 0, Text.TakeBytes(ErrorText(env, p), 32).value))
  {
    hide SubscribeResult, AuthorizeResult, ConfigureResult, AuthorizeOrSubscribeError;
    hide ErrorText, REFUSED, Text.TakeBytes;
    hide Text.ByteLength;
    RefusedCut();
  }

  /** Why an opening fails, as the client is told. */
  lemma {:induction false} OpeningRefusals(env: Env, s: Session, e: Event)
    requires e.V1Response? && s.channel.Some? && VisitResponse(env, s, e.id, e.response).Done?
    ensures AnswerTo(s, e, SubscribeReq) && e.response.ResultResponse? && e.response.result.Subscribed().None? ==>
              Says(env, s, VisitResponse(env, s, e.id, e.response),
                   OpenError(s.channel.value.reqId, "Upstream subscribe failed"))
    ensures AnswerTo(s, e, AuthorizeReq) && e.response.ResultResponse? && e.response.result != BoolResult(true) ==>
              Says(env, s, VisitResponse(env, s, e.id, e.response), OpenError(s.channel.value.reqId, "Not authorized"))
    ensures (AnswerTo(s, e, SubscribeReq) || AnswerTo(s, e, AuthorizeReq)) && e.response.ErrorResponse?
            && s.state != SubscribeOrAuthorizeFail ==>
              Says(env, s, VisitResponse(env, s, e.id, e.response),
                   OpenError(s.channel.value.reqId, "Service not ready"))
  {
    hide SubmitResult, ConfigureResult, SendShareError, ErrorText, FinalizeOpenChannel, AbortOpenChannel;
    if e.id.Some? && e.id.value in s.reqMap {
      var s1 := s.(reqMap := s.reqMap - {e.id.value});
      AbortClears(env, s1, SUBSCRIBE_FAILED);
      AbortClears(env, s1, NOT_AUTHORIZED);
      AbortClears(env, s1.(authorized := false), NOT_AUTHORIZED);
      AbortClears(env, s1, NOT_READY);
    }
  }

  // ----- The target -----

  /** The target in the last message that gives one. */
  function Announced(log: V2Log): Option<nat> {
    if log == [] then None
    else match log[|log| - 1].msg
      case OpenSuccess(_, target) => Some(target)
      case SetTarget(target) => Some(target)
      case _ => Announced(log[..|log| - 1])
  }

  predicate GivesTarget(m: V2Message) {
    m.OpenSuccess? || m.SetTarget?
  }

  /** The target in the last delivered message that gives one. */
  function Told(log: V2Log): Option<nat> {
    if log == [] then None
    else match log[|log| - 1]
      case Sent(OpenSuccess(_, target), true) => Some(target)
      case Sent(SetTarget(target), true) => Some(target)
      case _ => Told(log[..|log| - 1])
  }

  /** The queue took the last message that gives a target. */
  predicate LastTaken(log: V2Log) {
    exists i :: 0 <= i < |log| && GivesTarget(log[i].msg) && log[i].ok
                && forall j :: i < j < |log| ==> !GivesTarget(log[j].msg)
  }

  lemma {:induction false} TakenIsTold(log: V2Log)
    requires LastTaken(log)
    ensures Told(log) == Announced(log)
  {
    var i :| 0 <= i < |log| && GivesTarget(log[i].msg) && log[i].ok
             && forall j :: i < j < |log| ==> !GivesTarget(log[j].msg);
    if i < |log| - 1 {
      var before := log[..|log| - 1];
      assert before[i] == log[i];
      TakenIsTold(before);
    }
  }

  /** On an operational channel the last target in the output is the session's. */
  predicate TargetShown(s: Session) {
    s.state == Operational ==> s.target.Some? && Announced(s.v2Log) == s.target
  }

  lemma {:induction false} AnnouncedSnoc(log: V2Log, m: Sent<V2Message>)
    ensures Announced(log + [m]) == match m.msg
                                    case OpenSuccess(_, target) => Some(target)
                                    case SetTarget(target) => Some(target)
                                    case _ => Announced(log)
  {
    assert (log + [m])[..|log|] == log;
  }

  lemma {:induction false} PerformNotifyAnnounces(env: Env, s: Session, n: Notify)
    requires PerformNotify(env, s, n).Done?
    ensures Announced(PerformNotify(env, s, n).session.v2Log) == Announced(s.v2Log)
  {
    hide MerkleRoot, ExtraNonce2, Template, NextId, Announced;
    if s.extraNonce1.Some? {
      var root := MerkleRoot(env.hash, n, s.extraNonce1.value, ExtraNonce2(CHANNEL_ID, s.extraNonce2Size));
      var future := s.jobMap == map[] || n.cleanJobs || s.forceFutureJobs;
      var job := Sent(NewMiningJob(s.jobId, future, root, n.version), env.v2Fate(|s.v2Log|));
      AnnouncedSnoc(s.v2Log, job);
      AnnouncedSnoc(s.v2Log + [job],
                    Sent(SetNewPrevHash(s.jobId, n.prevHash, n.time, n.bits), env.v2Fate(|s.v2Log| + 1)));
    }
  }

  lemma {:induction false} FinalizeAnnounces(env: Env, s: Session)
    requires FinalizeOpenChannel(env, s).Done? && TargetShown(s)
    ensures TargetShown(FinalizeOpenChannel(env, s).session)
  {
    hide PerformNotify, Announced;
    if s.channel.Some? {
      var m := OpenSuccess(s.channel.value.reqId, s.target.value);
      AnnouncedSnoc(s.v2Log, Sent(m, env.v2Fate(|s.v2Log|)));
      var sent := SendV2(env, s.(state := Operational), m);
      if sent.ok && s.deferred.Some? {
        PerformNotifyState(env, sent.session.(deferred := None), s.deferred.value);
        PerformNotifyAnnounces(env, sent.session.(deferred := None), s.deferred.value);
      }
    }
  }

  /** The target is left alone, and nothing that was sent gives one. */
  ghost predicate KeepsTarget(s: Session, r: Outcome) {
    r.Done? ==>
      && r.session.target == s.target
      && (|r.session.v2Log| > |s.v2Log| ==> !r.session.v2Log[|s.v2Log|].msg.SetTarget?)
  }

  lemma {:induction false} AbortKeepsTarget(env: Env, s: Session, code: string)
    ensures KeepsTarget(s, Done(AbortOpenChannel(env, s, code), false))
  {
  }

  lemma {:induction false} OpeningKeepsTarget(env: Env, s: Session, p: V1Result)
    ensures !(p.Subscribed().Some? && s.authorized && s.target.Some?) ==> KeepsTarget(s, SubscribeResult(env, s, p))
    ensures !(p.Boolean() == Some(true) && s.extraNonce1.Some? && s.target.Some?) ==>
              KeepsTarget(s, AuthorizeResult(env, s, p))
    ensures KeepsTarget(s, AuthorizeOrSubscribeError(env, s))
  {
    hide FinalizeOpenChannel, AbortOpenChannel;
    AbortKeepsTarget(env, s, SUBSCRIBE_FAILED);
    AbortKeepsTarget(env, s, NOT_AUTHORIZED);
    AbortKeepsTarget(env, s.(authorized := false), NOT_AUTHORIZED);
    AbortKeepsTarget(env, s, NOT_READY);
  }

  lemma {:induction false} ShareErrorKeepsTarget(env: Env, s: Session, channelId: u32, seqNum: u32, text: string)
    ensures KeepsTarget(s, SendShareError(env, s, channelId, seqNum, text))
  {
    hide Text.TakeBytes;
  }

  lemma {:induction false} OthersKeepTarget(env: Env, s: Session, p: V1Result)
    ensures KeepsTarget(s, ConfigureResult(env, s, p)) && KeepsTarget(s, ExtranonceSubscribeResult(s, p))
    ensures KeepsTarget(s, SubmitResult(env, s, p))
    ensures KeepsTarget(s, SendV2(env, s, SetupConnectionError(0, MASK_NOT_NEGOTIATED)))
  {
    hide SendShareError;
    ShareErrorKeepsTarget(env, s, CHANNEL_ID, 0, REFUSED);
    hide REFUSED;
  }

  lemma {:induction false} ResponseKeepsTarget(env: Env, s: Session, id: Option<u32>, p: Response)
    requires Finalizing(s, V1Response(id, p)).None?
    ensures KeepsTarget(s, VisitResponse(env, s, id, p))
  {
    hide SubscribeResult, AuthorizeResult, ConfigureResult, ExtranonceSubscribeResult, SubmitResult, SendShareError;
    hide AuthorizeOrSubscribeError, ErrorText, SendV2;
    if id.Some? && id.value in s.reqMap {
      hide KeepsTarget;
      var s1 := s.(reqMap := s.reqMap - {id.value});
      var result := if p.ResultResponse? then p.result else BoolResult(true);
      OpeningKeepsTarget(env, s1, result);
      OthersKeepTarget(env, s1, result);
      if p.ErrorResponse? { ShareErrorKeepsTarget(env, s1, CHANNEL_ID, 0, ErrorText(env, p.error)); }
      SameTarget(s, s1, VisitResponse(env, s, id, p));
    }
  }

  lemma {:induction false} SameTarget(s: Session, s1: Session, r: Outcome)
    requires s1.target == s.target && s1.v2Log == s.v2Log
    ensures KeepsTarget(s, r) <==> KeepsTarget(s1, r)
  {
  }

  lemma {:induction false} SetupKeepsTarget(env: Env, s: Session, p: Connection)
    ensures KeepsTarget(s, VisitSetupConnection(env, s, p))
  {
  }

  lemma {:induction false} OpenKeepsTarget(env: Env, s: Session, p: Channel)
    ensures KeepsTarget(s, VisitOpenChannel(env, s, p))
  {
    hide RequestChannel, RefuseOpen;
    if s.state != ConnectionSetup && s.state != SubscribeOrAuthorizeFail {
      OutOfSequencePanics(env, s, p);
    } else if s.conn.Some? {
      RequestChannelEffect(env, s.(channel := Some(p), state := OpenPending), s.conn.value, p);
    }
  }

  lemma {:induction false} SharesKeepTarget(env: Env, s: Session, p: Share)
    ensures KeepsTarget(s, VisitSubmitShares(env, s, p))
  {
    hide ExtraNonce2, ForeignChannelText, UnknownJobText, SendShareError;
    ShareErrorKeepsTarget(env, s, p.channelId, p.seqNum, ForeignChannelText(p.channelId));
    ShareErrorKeepsTarget(env, s, p.channelId, p.seqNum, UnknownJobText(p.jobId));
  }

  lemma {:induction false} ClientKeepsTarget(env: Env, s: Session, e: Event)
    requires e.V2SetupConnection? || e.V2OpenChannel? || e.V2SubmitShares?
    ensures KeepsTarget(s, Visit(env, s, e))
  {
    hide VisitResponse, VisitSetDifficulty, VisitNotify, VisitSetupConnection, VisitOpenChannel, VisitSubmitShares;
    hide KeepsTarget;
    match e
    case V2SetupConnection(p) => SetupKeepsTarget(env, s, p);
    case V2OpenChannel(p) => OpenKeepsTarget(env, s, p);
    case V2SubmitShares(p) => SharesKeepTarget(env, s, p);
  }

  lemma {:induction false} PlainAnnounces(log: V2Log, log': V2Log, operational: bool)
    requires PlainWrite(log, log', operational) && (|log'| > |log| ==> !log'[|log|].msg.SetTarget?)
    ensures Announced(log') == Announced(log)
  {
    if log' != log { AnnouncedSnoc(log, log'[|log|]); }
  }

  lemma {:induction false} DifficultyShown(env: Env, s: Session, f: Float)
    requires Inv(s) && VisitSetDifficulty(env, s, f).Done?
    ensures TargetShown(VisitSetDifficulty(env, s, f).session)
  {
    hide FinalizeOpenChannel, Announced;
    var s1 := s.(target := Some(DIFF1_TARGET / Truncated(f)));
    if s.authorized && s.extraNonce1.Some? {
      if s.state == OpenPending {
        FinalizeAnnounces(env, s1);
      } else {
        AnnouncedSnoc(s.v2Log, Sent(SetTarget(s1.target.value), env.v2Fate(|s.v2Log|)));
      }
    }
  }

  lemma {:induction false} StepShowsTarget(env: Env, s: Session, e: Event)
    requires Inv(s) && TargetShown(s) && Visit(env, s, e).Done?
    ensures TargetShown(Visit(env, s, e).session)
  {
    hide FinalizeOpenChannel, PerformNotify, AbortOpenChannel, Announced, VisitResponse, VisitSetupConnection;
    hide VisitOpenChannel, VisitSubmitShares, VisitSetDifficulty;
    var s' := Visit(env, s, e).session;
    if e.V1SetDifficulty? {
      DifficultyShown(env, s, e.difficulty);
    } else {
      VisitEffect(env, s, e);
      if Finalizing(s, e).Some? {
        var s1 := Finalizing(s, e).value;
        FinalizeAnnounces(env, s1);
        var r := FinalizeOpenChannel(env, s1);
        if s' != r.session {
          var code :| s' == AbortOpenChannel(env, r.session, code);
          AbortedState(env, r.session, code);
        }
      } else if e.V1Notify? && s.state == Operational {
        PerformNotifyState(env, s, e.notify);
        PerformNotifyAnnounces(env, s, e.notify);
      } else {
        if e.V1Response? { ResponseKeepsTarget(env, s, e.id, e.response); }
        if e.V2SetupConnection? || e.V2OpenChannel? || e.V2SubmitShares? { ClientKeepsTarget(env, s, e); }
        PlainAnnounces(s.v2Log, s'.v2Log, s'.state == Operational);
      }
    }
  }

  lemma {:induction false} AbortedState(env: Env, s: Session, code: string)
    ensures AbortOpenChannel(env, s, code).state == SubscribeOrAuthorizeFail
  {
  }

  /**
   In every run, failed sends included, the session's target was the last one offered to an operational
   channel; if the queue took it, it is the last one delivered.
   */
  lemma {:induction false} RunShowsTarget(env: Env, events: seq<Event>)
    requires Run(env, events).Some?
    ensures var s := Run(env, events).value;
            && (s.state == Operational ==> s.target.Some? && Announced(s.v2Log) == s.target)
            && (s.state == Operational && LastTaken(s.v2Log) ==> Told(s.v2Log) == s.target)
  {
    hide Visit, Announced, LastTaken, Told;
    if events != [] {
      var before := events[..|events| - 1];
      RunShowsTarget(env, before);
      RunKeepsInv(env, before);
      StepShowsTarget(env, Run(env, before).value, events[|events| - 1]);
    }
    var log := Run(env, events).value.v2Log;
    if LastTaken(log) { TakenIsTold(log); }
  }

  /** The difficulty that was set last. */
  function LastDifficulty(events: seq<Event>): Option<Float>
    decreases |events|
  {
    if events == [] then None
    else if events[|events| - 1].V1SetDifficulty? then Some(events[|events| - 1].difficulty)
    else LastDifficulty(events[..|events| - 1])
  }

  /** `d` is the difficulty as a whole number: its whole part, but no more than fits into 32 bits. */
  ghost predicate WholePart(f: Float, d: nat) {
    match f
    case Finite(v) => if v < 4294967296.0 then d as real <= v < (d + 1) as real else d == 0xffff_ffff
    case Infinite(negative) => !negative && d == 0xffff_ffff
    case NotANumber => false
  }

  /** What one stands for in the most significant of the four words of a 256-bit number. */
  const FIRST_WORD: nat := 0x1_0000_0000_0000_0000 * 0x1_0000_0000_0000_0000 * 0x1_0000_0000_0000_0000

  /** The target is the greatest whose product with the difficulty does not exceed the first target. */
  ghost predicate TargetOf(f: Float, target: nat) {
    exists d: nat :: WholePart(f, d) && target * d <= 0xffff_0000 * FIRST_WORD < (target + 1) * d
  }

  lemma {:induction false} TargetFromDifficulty(f: Float)
    requires Truncated(f) != 0
    ensures TargetOf(f, DIFF1_TARGET / Truncated(f))
  {
    var d := Truncated(f);
    assert WholePart(f, d);
    hide WholePart, Truncated;
    DividedTarget(DIFF1_TARGET, d);
  }

  lemma {:induction false} DividedTarget(n: nat, d: nat)
    requires d >= 1
    ensures n / d * d <= n < (n / d + 1) * d
  {
  }

  /** In every run the session's target is that of the difficulty set last, if one was set. */
  lemma {:induction false} RunTracksDifficulty(env: Env, events: seq<Event>)
    requires Run(env, events).Some?
    ensures var s, f := Run(env, events).value, LastDifficulty(events);
            (s.target.Some? <==> f.Some?) && (f.Some? ==> TargetOf(f.value, s.target.value))
  {
    hide Visit, TargetOf;
    if events != [] {
      var before, e := events[..|events| - 1], events[|events| - 1];
      RunTracksDifficulty(env, before);
      RunKeepsInv(env, before);
      StepTracksDifficulty(env, Run(env, before).value, e);
    }
  }

  lemma {:induction false} StepTracksDifficulty(env: Env, s: Session, e: Event)
    requires Inv(s) && Visit(env, s, e).Done?
    ensures var target := Visit(env, s, e).session.target;
            if e.V1SetDifficulty? then target.Some? && TargetOf(e.difficulty, target.value) else target == s.target
  {
    hide FinalizeOpenChannel, PerformNotify, AbortOpenChannel, VisitResponse, VisitSetupConnection, VisitOpenChannel;
    hide VisitSubmitShares, TargetOf, Truncated;
    if e.V1SetDifficulty? {
      var s1 := s.(target := Some(DIFF1_TARGET / Truncated(e.difficulty)));
      TargetFromDifficulty(e.difficulty);
      FinalizeKeepsTarget(env, s1);
    } else {
      VisitEffect(env, s, e);
      if Finalizing(s, e).Some? {
        var s1 := Finalizing(s, e).value;
        FinalizeKeepsTarget(env, s1);
        var r := FinalizeOpenChannel(env, s1);
        if Visit(env, s, e).session != r.session {
          var code :| Visit(env, s, e).session == AbortOpenChannel(env, r.session, code);
          AbortKeepsTarget(env, r.session, code);
        }
      } else if e.V1Notify? && s.state == Operational {
        PerformNotifyState(env, s, e.notify);
      } else {
        if e.V1Response? { ResponseKeepsTarget(env, s, e.id, e.response); }
        if e.V2SetupConnection? || e.V2OpenChannel? || e.V2SubmitShares? { ClientKeepsTarget(env, s, e); }
      }
    }
  }

  lemma {:induction false} FinalizeKeepsTarget(env: Env, s: Session)
    ensures var r := FinalizeOpenChannel(env, s); r.Done? ==> r.session.target == s.target
  {
    hide PerformNotify;
    if s.target.Some? && s.channel.Some? && s.deferred.Some? {
      var sent := SendV2(env, s.(state := Operational), OpenSuccess(s.channel.value.reqId, s.target.value));
      if PerformNotify(env, sent.session.(deferred := None), s.deferred.value).Done? {
        PerformNotifyState(env, sent.session.(deferred := None), s.deferred.value);
      }
    }
  }
}
