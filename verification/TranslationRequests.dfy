/**
 Pairing of V1 responses with the requests they answer, over whole runs and past the point where
 the 32-bit request ids wrap around.
 */
module TranslationRequests {
  import opened Wrappers
  import opened Stratum
  import opened TranslationSpec
  import opened TranslationSafety
  import opened TranslationOrder
  import Text

  type V1Log = seq<Sent<V1Frame>>

  /** The handlers a request is registered with. */
  function KindOf(r: V1Request): Kind {
    match r
    case Configure(_) => ConfigureReq
    case Subscribe(_, _) => SubscribeReq
    case ExtranonceSubscribe => ExtranonceSubscribeReq
    case Authorize(_) => AuthorizeReq
    case Submit(_, _, _, _, _, _) => SubmitReq
  }

  /** How many requests were issued under `id`. */
  function Issued(log: V1Log, id: u32): nat {
    if log == [] then 0
    else Issued(log[..|log| - 1], id) + if log[|log| - 1].msg.id == id then 1 else 0
  }

  /** Which request was issued last under `id`. */
  function LastIssue(log: V1Log, id: u32): (k: Option<nat>)
    ensures k.Some? ==> k.value < |log| && log[k.value].msg.id == id
    ensures k.Some? ==> forall j :: k.value < j < |log| ==> log[j].msg.id != id
    ensures k.None? ==> forall j :: 0 <= j < |log| ==> log[j].msg.id != id
  {
    if log == [] then None
    else if log[|log| - 1].msg.id == id then Some(|log| - 1)
    else
      var k := LastIssue(log[..|log| - 1], id);
      assert forall j :: 0 <= j < |log| - 1 ==> log[j] == log[..|log| - 1][j];
      k
  }

  /** Whether the step for `e` runs the handlers registered under `id`. */
  predicate Answers(s: Session, e: Event, id: u32) {
    e.V1Response? && e.id == Some(id) && id in s.reqMap
  }

  /** How many times the handlers registered under `id` ran. */
  function Handled(env: Env, events: seq<Event>, id: u32): nat
    decreases |events|
  {
    if events == [] then 0
    else
      var before := events[..|events| - 1];
      var s := Run(env, before);
      Handled(env, before, id) + if s.Some? && Answers(s.value, events[|events| - 1], id) then 1 else 0
  }

  // ----- What holds of the requests -----

  /** Request number `k` carries the id `k` modulo 2^32, and the generator stands at the next one. */
  ghost predicate Numbered(reqId: u32, log: V1Log) {
    && reqId == |log| % U32_MODULUS
    && forall k :: 0 <= k < |log| ==> log[k].msg.id == k % U32_MODULUS
  }

  /** Issued requests are either handled or registered, and are registered with the handlers of their kind. */
  ghost predicate Balanced(reqMap: map<u32, Kind>, log: V1Log, id: u32, handled: nat) {
    && Issued(log, id) == handled + (if id in reqMap then 1 else 0)
    && (id in reqMap ==> LastIssue(log, id).Some? && reqMap[id] == KindOf(log[LastIssue(log, id).value].msg.request))
  }

  ghost predicate Paired(s: Session, id: u32, handled: nat) {
    Numbered(s.reqId, s.v1Log) && Balanced(s.reqMap, s.v1Log, id, handled)
  }

  lemma {:induction false} NumberedSnoc(reqId: u32, log: V1Log, r: V1Request, ok: bool)
    requires Numbered(reqId, log)
    ensures Numbered(NextId(reqId), log + [Sent(V1Frame(reqId, r), ok)])
  {
    var log' := log + [Sent(V1Frame(reqId, r), ok)];
    assert forall k :: 0 <= k < |log| ==> log'[k] == log[k];
  }

  lemma {:induction false} LastIssueSnoc(log: V1Log, m: Sent<V1Frame>, id: u32)
    ensures LastIssue(log + [m], id) == if m.msg.id == id then Some(|log|) else LastIssue(log, id)
    ensures Issued(log + [m], id) == Issued(log, id) + if m.msg.id == id then 1 else 0
  {
    assert (log + [m])[..|log|] == log;
  }

  lemma {:induction false} IssueKeepsPairing(reqId: u32, reqMap: map<u32, Kind>, log: V1Log, r: V1Request, ok: bool,
                                             id: u32, handled: nat)
    requires Numbered(reqId, log) && Balanced(reqMap, log, id, handled) && reqId !in reqMap
    ensures var log' := log + [Sent(V1Frame(reqId, r), ok)];
            Numbered(NextId(reqId), log') && Balanced(reqMap[reqId := KindOf(r)], log', id, handled)
  {
    hide Numbered, LastIssue, Issued;
    NumberedSnoc(reqId, log, r, ok);
    LastIssueSnoc(log, Sent(V1Frame(reqId, r), ok), id);
  }

  lemma {:induction false} SendKeepsPairing(env: Env, s: Session, kind: Kind, r: V1Request, id: u32, handled: nat)
    requires Paired(s, id, handled) && kind == KindOf(r) && SendRequest(env, s, kind, r).Done?
    ensures Paired(SendRequest(env, s, kind, r).session, id, handled)
  {
    hide Numbered, Balanced;
    IssueKeepsPairing(s.reqId, s.reqMap, s.v1Log, r, env.v1Fate(|s.v1Log|), id, handled);
  }

  ghost predicate SameRequests(s: Session, s': Session) {
    s'.reqId == s.reqId && s'.reqMap == s.reqMap && s'.v1Log == s.v1Log
  }

  lemma {:induction false} FinalizeKeepsRequests(env: Env, s: Session)
    ensures var r := FinalizeOpenChannel(env, s); r.Done? ==> SameRequests(s, r.session)
  {
    hide PerformNotify;
    if s.target.Some? && s.channel.Some? && s.deferred.Some? {
      var sent := SendV2(env, s.(state := Operational), OpenSuccess(s.channel.value.reqId, s.target.value));
      var r := PerformNotify(env, sent.session.(deferred := None), s.deferred.value);
      if r.Done? {
        PerformNotifyState(env, sent.session.(deferred := None), s.deferred.value);
      }
    }
  }

  lemma {:induction false} AbortKeepsRequests(env: Env, s: Session, code: string)
    ensures SameRequests(s, AbortOpenChannel(env, s, code))
  {
  }

  lemma {:induction false} FinalizeOrAbortKeepsRequests(env: Env, s: Session, code: string)
    ensures var r := FinalizeOrAbort(env, s, code); r.Done? ==> SameRequests(s, r.session)
  {
    hide FinalizeOpenChannel, AbortOpenChannel;
    var r := FinalizeOpenChannel(env, s);
    FinalizeKeepsRequests(env, s);
    if r.Done? { AbortKeepsRequests(env, r.session, code); }
  }

  lemma {:induction false} ResultKeepsRequests(env: Env, s: Session, kind: Kind, p: V1Result)
    ensures var r := HandleResult(env, s, kind, p); r.Done? ==> SameRequests(s, r.session)
  {
    hide FinalizeOrAbort, AbortOpenChannel, SendShareError;
    match kind
    case SubscribeReq =>
      AbortKeepsRequests(env, s, SUBSCRIBE_FAILED);
      if p.Subscribed().Some? {
        var x := p.Subscribed().value;
        FinalizeOrAbortKeepsRequests(env, s.(extraNonce1 := Some(x.extraNonce1), extraNonce2Size := x.extraNonce2Size),
                                     SUBSCRIBE_FAILED);
      }
    case AuthorizeReq =>
      AbortKeepsRequests(env, s, NOT_AUTHORIZED);
      AbortKeepsRequests(env, s.(authorized := false), NOT_AUTHORIZED);
      FinalizeOrAbortKeepsRequests(env, s.(authorized := true), NOT_AUTHORIZED);
    case _ =>
      ShareErrorKeepsRequests(env, s, REFUSED);
  }

  lemma {:induction false} ShareErrorKeepsRequests(env: Env, s: Session, text: string)
    ensures var r := SendShareError(env, s, CHANNEL_ID, 0, text); r.Done? ==> SameRequests(s, r.session)
  {
    hide Text.TakeBytes;
  }

  lemma {:induction false} ErrorKeepsRequests(env: Env, s: Session, kind: Kind, p: V1Error)
    ensures var r := HandleError(env, s, kind, p); r.Done? ==> SameRequests(s, r.session)
  {
    hide Text.TakeBytes, ErrorText;
  }

  lemma {:induction false} ResponseKeepsPairing(env: Env, s: Session, rid: Option<u32>, p: Response, id: u32,
                                                handled: nat)
    requires Paired(s, id, handled) && VisitResponse(env, s, rid, p).Done?
    ensures Paired(VisitResponse(env, s, rid, p).session, id,
                   handled + if Answers(s, V1Response(rid, p), id) then 1 else 0)
  {
    hide HandleResult, HandleError, Numbered, Issued, LastIssue;
    if rid.Some? && rid.value in s.reqMap {
      var s1 := s.(reqMap := s.reqMap - {rid.value});
      match p
      case ResultResponse(r) => ResultKeepsRequests(env, s1, s.reqMap[rid.value], r);
      case ErrorResponse(r) => ErrorKeepsRequests(env, s1, s.reqMap[rid.value], r);
    }
  }

  lemma {:induction false} OpenKeepsPairing(env: Env, s: Session, p: Channel, id: u32, handled: nat)
    requires Paired(s, id, handled) && VisitOpenChannel(env, s, p).Done?
    ensures Paired(VisitOpenChannel(env, s, p).session, id, handled)
  {
    hide Numbered, Balanced, RequestChannel, RefuseOpen;
    if s.state != ConnectionSetup && s.state != SubscribeOrAuthorizeFail {
      OutOfSequencePanics(env, s, p);
    } else if s.conn.Some? {
      RequestChannelKeepsPairing(env, s.(channel := Some(p), state := OpenPending), s.conn.value, p, id, handled);
    }
  }

  lemma {:induction false} RequestChannelKeepsPairing(env: Env, s: Session, conn: Connection, p: Channel, id: u32,
                                                      handled: nat)
    requires Paired(s, id, handled) && RequestChannel(env, s, conn, p).Done?
    ensures Paired(RequestChannel(env, s, conn, p).session, id, handled)
  {
    hide Paired, SendRequest, HostPort;
    var subscribe := Subscribe(conn.firmware, HostPort(conn));
    SendKeepsPairing(env, s, SubscribeReq, subscribe, id, handled);
    var subscribed := SendRequest(env, s, SubscribeReq, subscribe);
    if subscribed.ok {
      if env.tryXnsub {
        SendKeepsPairing(env, subscribed.session, ExtranonceSubscribeReq, ExtranonceSubscribe, id, handled);
      }
      var extended := if !env.tryXnsub then subscribed
                      else SendRequest(env, subscribed.session, ExtranonceSubscribeReq, ExtranonceSubscribe);
      if extended.ok {
        SendKeepsPairing(env, extended.session, AuthorizeReq, Authorize(p.user), id, handled);
      }
    }
  }

  lemma {:induction false} SetupKeepsPairing(env: Env, s: Session, p: Connection, id: u32, handled: nat)
    requires Paired(s, id, handled) && VisitSetupConnection(env, s, p).Done?
    ensures Paired(VisitSetupConnection(env, s, p).session, id, handled)
  {
    hide Numbered, Balanced, SendRequest;
    var refused := if s.state == Init then Done(s, true)
                   else SendV2(env, s, SetupConnectionError(p.flags, SETUP_ONLY_ONCE));
    if refused.ok {
      SendKeepsPairing(env, refused.session.(conn := Some(p)), ConfigureReq, Configure(env.mask), id, handled);
    }
  }

  lemma {:induction false} SharesKeepPairing(env: Env, s: Session, p: Share, id: u32, handled: nat)
    requires Paired(s, id, handled) && VisitSubmitShares(env, s, p).Done?
    ensures Paired(VisitSubmitShares(env, s, p).session, id, handled)
  {
    hide Numbered, Balanced, SendRequest, ExtraNonce2, Text.TakeBytes, ForeignChannelText, UnknownJobText;
    if p.channelId == CHANNEL_ID && s.channel.Some? && p.jobId in s.jobMap {
      var submit := Submit(s.channel.value.user, s.jobMap[p.jobId].jobId, ExtraNonce2(CHANNEL_ID, s.extraNonce2Size),
                           p.ntime, p.nonce, p.version & env.mask);
      SendKeepsPairing(env, s, SubmitReq, submit, id, handled);
    }
  }

  lemma {:induction false} NotificationKeepsPairing(env: Env, s: Session, e: Event, id: u32, handled: nat)
    requires e.V1SetDifficulty? || e.V1Notify? || e.V1SetExtranonce? || e.V1SetVersionMask?
    requires Paired(s, id, handled) && Visit(env, s, e).Done?
    ensures Paired(Visit(env, s, e).session, id, handled)
  {
    hide Numbered, Balanced, FinalizeOpenChannel, PerformNotify;
    match e
    case V1SetDifficulty(v) =>
      if Truncated(v) != 0 { FinalizeKeepsRequests(env, s.(target := Some(DIFF1_TARGET / Truncated(v)))); }
    case V1Notify(n) => if s.state == Operational { PerformNotifyState(env, s, n); }
    case _ =>
  }

  lemma {:induction false} VisitKeepsPairing(env: Env, s: Session, e: Event, id: u32, handled: nat)
    requires Paired(s, id, handled) && Visit(env, s, e).Done?
    ensures Paired(Visit(env, s, e).session, id, handled + if Answers(s, e, id) then 1 else 0)
  {
    hide Paired, VisitResponse, VisitSetDifficulty, VisitNotify, VisitSetupConnection, VisitOpenChannel;
    hide VisitSubmitShares;
    match e
    case V1Response(rid, p) => ResponseKeepsPairing(env, s, rid, p, id, handled);
    case V2SetupConnection(p) => SetupKeepsPairing(env, s, p, id, handled);
    case V2OpenChannel(p) => OpenKeepsPairing(env, s, p, id, handled);
    case V2SubmitShares(p) => SharesKeepPairing(env, s, p, id, handled);
    case _ => NotificationKeepsPairing(env, s, e, id, handled);
  }

  /**
   Conservation: in every run and for every id, the requests issued under the id are the responses
   handled under it plus the one still registered, if any; and that one is registered with the
   handlers of the request issued last. So no request is handled twice.
   */
  lemma {:induction false} RequestsBalance(env: Env, events: seq<Event>, id: u32)
    requires Run(env, events).Some?
    ensures var s := Run(env, events).value;
            && Issued(s.v1Log, id) == Handled(env, events, id) + (if id in s.reqMap then 1 else 0)
            && Paired(s, id, Handled(env, events, id))
  {
    hide Visit;
    if events != [] {
      var before := events[..|events| - 1];
      RequestsBalance(env, before, id);
      VisitKeepsPairing(env, Run(env, before).value, events[|events| - 1], id, Handled(env, before, id));
    }
  }

  /**
   A response that answers no outstanding request leaves no trace: the run with it is the run
   without it, whatever follows.
   */
  lemma {:induction false} StrayResponse(env: Env, before: seq<Event>, id: Option<u32>, r: Response, after: seq<Event>)
    requires Run(env, before).Some? && (id.Some? ==> id.value !in Run(env, before).value.reqMap)
    ensures Run(env, before + [V1Response(id, r)] + after) == Run(env, before + after)
    decreases |after|
  {
    hide Run, HandleResult, HandleError, VisitSetDifficulty, VisitNotify, VisitSetupConnection;
    hide VisitOpenChannel, VisitSubmitShares;
    var stray := V1Response(id, r);
    if after == [] {
      RunSnoc(env, before, stray);
      assert before + [stray] + after == before + [stray] && before + after == before;
    } else {
      var rest, e := after[..|after| - 1], after[|after| - 1];
      StrayResponse(env, before, id, r, rest);
      RunSnoc(env, before + [stray] + rest, e);
      RunSnoc(env, before + rest, e);
      assert before + [stray] + after == before + [stray] + rest + [e] && before + after == before + rest + [e];
    }
  }

  /** Request number `k` has not been answered. */
  predicate Outstanding(s: Session, k: nat) {
    k < |s.v1Log| && s.v1Log[k].msg.id in s.reqMap && LastIssue(s.v1Log, s.v1Log[k].msg.id) == Some(k)
  }

  lemma {:induction false} TakenByOutstanding(s: Session, handled: nat)
    requires Paired(s, s.reqId, handled)
    ensures s.reqId in s.reqMap <==> |s.v1Log| >= U32_MODULUS && Outstanding(s, |s.v1Log| - U32_MODULUS)
  {
    var n := |s.v1Log|;
    if s.reqId in s.reqMap {
      var k := LastIssue(s.v1Log, s.reqId).value;
      SameResidue(k, n);
      assert s.v1Log[n - U32_MODULUS].msg.id == s.reqId;
    }
  }

  /** The next id is taken exactly when the request issued 2^32 requests ago is still outstanding. */
  lemma {:induction false} CollidesExactly(env: Env, events: seq<Event>)
    requires Run(env, events).Some?
    ensures var s := Run(env, events).value;
            IdTaken(s, 0) <==> |s.v1Log| >= U32_MODULUS && Outstanding(s, |s.v1Log| - U32_MODULUS)
  {
    hide Run, Outstanding, Paired;
    var s := Run(env, events).value;
    RequestsBalance(env, events, s.reqId);
    TakenByOutstanding(s, Handled(env, events, s.reqId));
  }

  lemma {:induction false} SameResidue(k: nat, n: nat)
    requires k < n && k % U32_MODULUS == n % U32_MODULUS
    ensures k <= n - U32_MODULUS && (n - U32_MODULUS) % U32_MODULUS == n % U32_MODULUS
  {
  }

  /** When every outstanding request is among the last 2^32 - 1 issued, a new id never collides. */
  lemma {:induction false} NoCollision(env: Env, events: seq<Event>)
    requires Run(env, events).Some?
    requires var s := Run(env, events).value; forall k: nat :: Outstanding(s, k) ==> k > |s.v1Log| - U32_MODULUS
    ensures !IdTaken(Run(env, events).value, 0)
  {
    CollidesExactly(env, events);
  }
}
