/**
 Where what the proxy passes on comes from: the requests it sends upstream carry what the client said, and
 what it remembers was said by one of the two peers.
 */
module TranslationSources {
  import opened Wrappers
  import opened Stratum
  import opened TranslationSpec
  import opened TranslationSafety
  import opened TranslationOrder
  import Text

  // ----- The requests of one step -----

  /** Offers requests in order, under successive ids, and stops after the first that is not taken. */
  function Offered(env: Env, id: u32, log: seq<Sent<V1Frame>>, requests: seq<V1Request>): seq<Sent<V1Frame>>
    decreases |requests|
  {
    if requests == [] then log
    else
      var log' := log + [Sent(V1Frame(id, requests[0]), env.v1Fate(|log|))];
      if env.v1Fate(|log|) then Offered(env, (id + 1) % 0x1_0000_0000, log', requests[1..]) else log'
  }

  lemma {:induction false} OfferedFirst(env: Env, id: u32, log: seq<Sent<V1Frame>>, q: V1Request, rest: seq<V1Request>)
    ensures var log' := log + [Sent(V1Frame(id, q), env.v1Fate(|log|))];
            Offered(env, id, log, [q] + rest)
            == if env.v1Fate(|log|) then Offered(env, NextId(id), log', rest) else log'
  {
    assert ([q] + rest)[1..] == rest;
  }

  lemma {:induction false} OfferedNothing(env: Env, id: u32, log: seq<Sent<V1Frame>>)
    ensures Offered(env, id, log, []) == log
  {
  }

  lemma {:induction false} OfferedOne(env: Env, id: u32, log: seq<Sent<V1Frame>>, q: V1Request)
    ensures Offered(env, id, log, [q]) == log + [Sent(V1Frame(id, q), env.v1Fate(|log|))]
  {
    hide Offered;
    assert [q] + [] == [q];
    OfferedFirst(env, id, log, q, []);
    OfferedNothing(env, NextId(id), log + [Sent(V1Frame(id, q), env.v1Fate(|log|))]);
  }

  /** A connection, unless its refusal cannot be sent, asks the pool for the whole mask. */
  lemma {:induction false} SetupAsksForMask(env: Env, s: Session, p: Connection)
    requires VisitSetupConnection(env, s, p).Done? && (s.state != Init ==> env.v2Fate(|s.v2Log|))
    ensures var s' := VisitSetupConnection(env, s, p).session;
            s'.v1Log == Offered(env, s.reqId, s.v1Log, [Configure(env.mask)]) && s'.conn == Some(p)
  {
    hide Offered;
    OfferedOne(env, s.reqId, s.v1Log, Configure(env.mask));
  }

  lemma {:induction false} RequestsOffered(env: Env, s: Session, conn: Connection, p: Channel)
    requires RequestChannel(env, s, conn, p).Done?
    ensures var subscribe, authorize := Subscribe(conn.firmware, HostPort(conn)), Authorize(p.user);
            RequestChannel(env, s, conn, p).session.v1Log ==
            Offered(env, s.reqId, s.v1Log, if env.tryXnsub then [subscribe] + ([ExtranonceSubscribe] + [authorize])
                                           else [subscribe] + [authorize])
  {
    hide Offered, HostPort, NextId;
    var subscribe, authorize := Subscribe(conn.firmware, HostPort(conn)), Authorize(p.user);
    var log1 := s.v1Log + [Sent(V1Frame(s.reqId, subscribe), env.v1Fate(|s.v1Log|))];
    var log2 := log1 + [Sent(V1Frame(NextId(s.reqId), ExtranonceSubscribe), env.v1Fate(|log1|))];
    OfferedFirst(env, s.reqId, s.v1Log, subscribe, [ExtranonceSubscribe] + [authorize]);
    OfferedFirst(env, s.reqId, s.v1Log, subscribe, [authorize]);
    OfferedFirst(env, NextId(s.reqId), log1, ExtranonceSubscribe, [authorize]);
    OfferedOne(env, NextId(s.reqId), log1, authorize);
    OfferedOne(env, NextId(NextId(s.reqId)), log2, authorize);
  }

  /**
   An open in sequence asks the pool, in this order, for a subscription with the client's firmware, host and
   port, for extranonce changes if they are to be tried, and for the authorization of the channel's user.
   */
  lemma {:induction false} OpenAsksForClient(env: Env, s: Session, p: Channel)
    requires VisitOpenChannel(env, s, p).Done? && s.conn.Some?
    ensures var s' := VisitOpenChannel(env, s, p).session;
            var conn := s.conn.value;
            var subscribe := Subscribe(conn.firmware, conn.host + ":" + Text.Decimal(conn.port));
            && s'.v1Log == Offered(env, s.reqId, s.v1Log,
                                   if env.tryXnsub then [subscribe] + ([ExtranonceSubscribe] + [Authorize(p.user)])
                                   else [subscribe] + [Authorize(p.user)])
            && s'.channel == Some(p) && s'.state == OpenPending
  {
    hide RequestChannel, RefuseOpen, Offered, Text.Decimal;
    if s.state != ConnectionSetup && s.state != SubscribeOrAuthorizeFail {
      OutOfSequencePanics(env, s, p);
    } else {
      var s1 := s.(channel := Some(p), state := OpenPending);
      RequestsOffered(env, s1, s.conn.value, p);
      RequestChannelEffect(env, s1, s.conn.value, p);
    }
  }

  // ----- What the session remembers -----

  /** The connection, the channel and the cached notification were given by earlier messages. */
  ghost predicate Remembered(s: Session, events: seq<Event>) {
    && (s.conn.Some? ==> V2SetupConnection(s.conn.value) in events)
    && (s.channel.Some? ==> V2OpenChannel(s.channel.value) in events)
    && (s.deferred.Some? ==> V1Notify(s.deferred.value) in events)
  }

  /** A step takes these over, forgets them, or takes them from its message. */
  ghost predicate TakenOver(s: Session, e: Event, s': Session) {
    && (s'.conn == s.conn || (e.V2SetupConnection? && s'.conn == Some(e.connection)))
    && (s'.channel == s.channel || s'.channel.None? || (e.V2OpenChannel? && s'.channel == Some(e.open)))
    && (s'.deferred == s.deferred || s'.deferred.None? || (e.V1Notify? && s'.deferred == Some(e.notify)))
  }

  /** A step that takes these over or forgets them. */
  ghost predicate Forgets(s: Session, s': Session) {
    && s'.conn == s.conn
    && (s'.channel == s.channel || s'.channel.None?)
    && (s'.deferred == s.deferred || s'.deferred.None?)
  }

  lemma {:induction false} SendForgets(env: Env, s: Session, m: V2Message)
    ensures var r := SendV2(env, s, m);
            r.Done? && r.session.conn == s.conn && r.session.channel == s.channel && r.session.deferred == s.deferred
  {
  }

  lemma {:induction false} FinalizeForgets(env: Env, s: Session)
    ensures var r := FinalizeOpenChannel(env, s); r.Done? ==> Forgets(s, r.session)
  {
    hide PerformNotify, SendV2;
    if s.target.Some? && s.channel.Some? {
      SendForgets(env, s.(state := Operational), OpenSuccess(s.channel.value.reqId, s.target.value));
    }
    if s.target.Some? && s.channel.Some? && s.deferred.Some? {
      var sent := SendV2(env, s.(state := Operational), OpenSuccess(s.channel.value.reqId, s.target.value));
      if PerformNotify(env, sent.session.(deferred := None), s.deferred.value).Done? {
        PerformNotifyState(env, sent.session.(deferred := None), s.deferred.value);
      }
    }
  }

  lemma {:induction false} AbortForgets(env: Env, s: Session, code: string)
    ensures Forgets(s, AbortOpenChannel(env, s, code))
  {
  }

  lemma {:induction false} FinalizeOrAbortForgets(env: Env, s: Session, code: string)
    ensures var r := FinalizeOrAbort(env, s, code); r.Done? ==> Forgets(s, r.session)
  {
    hide FinalizeOpenChannel, AbortOpenChannel;
    FinalizeForgets(env, s);
    var r := FinalizeOpenChannel(env, s);
    if r.Done? { AbortForgets(env, r.session, code); }
  }

  lemma {:induction false} OpeningForgets(env: Env, s: Session, p: V1Result)
    ensures var r := SubscribeResult(env, s, p); r.Done? ==> Forgets(s, r.session)
    ensures var r := AuthorizeResult(env, s, p); r.Done? ==> Forgets(s, r.session)
    ensures Forgets(s, AuthorizeOrSubscribeError(env, s).session)
  {
    hide FinalizeOrAbort, AbortOpenChannel;
    AbortForgets(env, s, SUBSCRIBE_FAILED);
    AbortForgets(env, s, NOT_AUTHORIZED);
    AbortForgets(env, s.(authorized := false), NOT_AUTHORIZED);
    AbortForgets(env, s, NOT_READY);
    FinalizeOrAbortForgets(env, s.(authorized := true), NOT_AUTHORIZED);
    if p.Subscribed().Some? {
      var x := p.Subscribed().value;
      FinalizeOrAbortForgets(env, s.(extraNonce1 := Some(x.extraNonce1), extraNonce2Size := x.extraNonce2Size),
                               SUBSCRIBE_FAILED);
    }
  }

  lemma {:induction false} ShareErrorForgets(env: Env, s: Session, channelId: u32, seqNum: u32, text: string)
    ensures var r := SendShareError(env, s, channelId, seqNum, text); r.Done? ==> Forgets(s, r.session)
  {
    hide Text.TakeBytes;
  }

  lemma {:induction false} OthersForget(env: Env, s: Session, p: V1Result)
    ensures Forgets(s, ConfigureResult(env, s, p).session) && Forgets(s, ExtranonceSubscribeResult(s, p).session)
    ensures var r := SubmitResult(env, s, p); r.Done? ==> Forgets(s, r.session)
    ensures Forgets(s, SendV2(env, s, SetupConnectionError(0, MASK_NOT_NEGOTIATED)).session)
    ensures Forgets(s, s.(xnsubEnabled := false))
  {
    hide SendShareError, REFUSED, SendV2;
    ShareErrorForgets(env, s, CHANNEL_ID, 0, REFUSED);
    SendForgets(env, s, SetupConnectionError(0, MASK_NOT_NEGOTIATED));
    SendForgets(env, s.(state := ConnectionSetup), SetupConnectionSuccess);
    SendForgets(env, s, SubmitSharesSuccess);
  }

  lemma {:induction false} SameDetails(s: Session, s1: Session, s': Session)
    requires s1.conn == s.conn && s1.channel == s.channel && s1.deferred == s.deferred
    ensures Forgets(s, s') <==> Forgets(s1, s')
  {
  }

  lemma {:induction false} ResponseForgets(env: Env, s: Session, id: Option<u32>, p: Response)
    ensures var r := VisitResponse(env, s, id, p); r.Done? ==> Forgets(s, r.session)
  {
    hide SubscribeResult, AuthorizeResult, SendShareError, AuthorizeOrSubscribeError, ErrorText, ConfigureResult;
    hide ExtranonceSubscribeResult, SubmitResult, SendV2;
    if id.Some? && id.value in s.reqMap {
      hide Forgets;
      var s1 := s.(reqMap := s.reqMap - {id.value});
      var result := if p.ResultResponse? then p.result else BoolResult(true);
      OpeningForgets(env, s1, result);
      OthersForget(env, s1, result);
      if p.ErrorResponse? { ShareErrorForgets(env, s1, CHANNEL_ID, 0, ErrorText(env, p.error)); }
      if VisitResponse(env, s, id, p).Done? { SameDetails(s, s1, VisitResponse(env, s, id, p).session); }
    }
  }

  lemma {:induction false} SharesForget(env: Env, s: Session, p: Share)
    ensures var r := VisitSubmitShares(env, s, p); r.Done? ==> Forgets(s, r.session)
  {
    hide ExtraNonce2, ForeignChannelText, UnknownJobText, SendShareError;
    ShareErrorForgets(env, s, p.channelId, p.seqNum, ForeignChannelText(p.channelId));
    ShareErrorForgets(env, s, p.channelId, p.seqNum, UnknownJobText(p.jobId));
  }

  lemma {:induction false} OpenTakesOver(env: Env, s: Session, p: Channel)
    ensures var r := VisitOpenChannel(env, s, p); r.Done? ==> TakenOver(s, V2OpenChannel(p), r.session)
  {
    hide RequestChannel, RefuseOpen;
    if s.state != ConnectionSetup && s.state != SubscribeOrAuthorizeFail {
      OutOfSequencePanics(env, s, p);
    } else if s.conn.Some? {
      RequestChannelEffect(env, s.(channel := Some(p), state := OpenPending), s.conn.value, p);
    }
  }

  lemma {:induction false} SetupTakesOver(env: Env, s: Session, p: Connection)
    ensures var r := VisitSetupConnection(env, s, p); r.Done? ==> TakenOver(s, V2SetupConnection(p), r.session)
  {
  }

  lemma {:induction false} StepTakesOver(env: Env, s: Session, e: Event)
    requires Visit(env, s, e).Done?
    ensures TakenOver(s, e, Visit(env, s, e).session)
  {
    hide VisitResponse, VisitSetupConnection, VisitOpenChannel, VisitSubmitShares, FinalizeOpenChannel, PerformNotify;
    match e
    case V1Response(id, p) => ResponseForgets(env, s, id, p);
    case V1SetDifficulty(f) =>
      if Truncated(f) != 0 { FinalizeForgets(env, s.(target := Some(DIFF1_TARGET / Truncated(f)))); }
    case V1Notify(n) => if s.state == Operational { PerformNotifyState(env, s, n); }
    case V2SetupConnection(p) => SetupTakesOver(env, s, p);
    case V2OpenChannel(p) => OpenTakesOver(env, s, p);
    case V2SubmitShares(p) => SharesForget(env, s, p);
    case _ =>
  }

  /** In every run. */
  lemma {:induction false} RunRemembers(env: Env, events: seq<Event>)
    requires Run(env, events).Some?
    ensures Remembered(Run(env, events).value, events)
  {
    hide Visit;
    if events != [] {
      var before, e := events[..|events| - 1], events[|events| - 1];
      RunRemembers(env, before);
      StepTakesOver(env, Run(env, before).value, e);
      assert events == before + [e];
    }
  }
}
