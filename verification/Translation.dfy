/**
 The translation object itself. Its handlers update the fields in place, in the order of the
 source; each is proved to do to the object what its specification does to a session value.
 */
module Translation {
  import opened Wrappers
  import opened Stratum
  import opened TranslationSpec
  import Text

  /** How a handler ends. */
  datatype Status = Ok | Err | Panicked

  function StatusOf(ok: bool): Status {
    if ok then Ok else Err
  }

  class V2ToV1Translation {
    const env: Env
    var state: Setup
    var v1ReqId: u32
    var v1ReqMap: map<u32, Kind>
    var v1ExtraNonce1: Option<seq<byte>>
    var v1ExtraNonce2Size: nat
    var v1Authorized: bool
    var v1XnsubEnabled: bool
    var v1ForceFutureJobs: bool
    var v1DeferredNotify: Option<Notify>
    var v2ConnDetails: Option<Connection>
    var v2ChannelDetails: Option<Channel>
    var v2Target: Option<nat>
    var v2JobId: u32
    var v2ToV1JobMap: map<u32, SubmitTemplate>
    /** The frames offered to the two queues so far. */
    var v1Tx: seq<Sent<V1Frame>>
    var v2Tx: seq<Sent<V2Message>>

    ghost function View(): Session
      reads this
    {
      Session(state, v1ReqId, v1ReqMap, v1ExtraNonce1, v1ExtraNonce2Size, v1Authorized, v1XnsubEnabled,
              v1ForceFutureJobs, v1DeferredNotify, v2ConnDetails, v2ChannelDetails, v2Target, v2JobId,
              v2ToV1JobMap, v1Tx, v2Tx)
    }

    /** The object and the status agree with a specified outcome; after a panic only the status counts. */
    ghost predicate Agrees(r: Status, o: Outcome)
      reads this
    {
      match o
      case Panic => r == Panicked
      case Done(s, ok) => View() == s && r == StatusOf(ok)
    }

    constructor (env: Env)
      ensures this.env == env && View() == FRESH
    {
      this.env := env;
      state := Init;
      v1ReqId, v1ReqMap, v1Tx := 0, map[], [];
      v1ExtraNonce1, v1ExtraNonce2Size, v1Authorized, v1XnsubEnabled := None, 0, false, false;
      v1ForceFutureJobs, v1DeferredNotify := true, None;
      v2ConnDetails, v2ChannelDetails, v2Target := None, None, None;
      v2JobId, v2ToV1JobMap, v2Tx := 0, map[], [];
    }

    /** util::submit_message on the V2 queue. */
    method SubmitV2(m: V2Message) returns (ok: bool)
      modifies this`v2Tx
      ensures Done(View(), ok) == SendV2(env, old(View()), m)
    {
      ok := env.v2Fate(|v2Tx|);
      v2Tx := v2Tx + [Sent(m, ok)];
    }

    /** v1_method_into_message followed by util::submit_message on the V1 queue. */
    method SubmitRequest(kind: Kind, request: V1Request) returns (r: Status)
      modifies this`v1ReqId, this`v1ReqMap, this`v1Tx
      ensures Agrees(r, SendRequest(env, old(View()), kind, request))
    {
      var id := v1ReqId;
      v1ReqId := NextId(id);
      var taken := id in v1ReqMap;
      v1ReqMap := v1ReqMap[id := kind];
      if taken {
        return Panicked;
      }
      var ok := env.v1Fate(|v1Tx|);
      v1Tx := v1Tx + [Sent(V1Frame(id, request), ok)];
      return StatusOf(ok);
    }

    method PerformNotify(n: Notify) returns (r: Status)
      modifies this
      ensures Agrees(r, TranslationSpec.PerformNotify(env, old(View()), n))
    {
      if v1ExtraNonce1.None? {
        return Err;
      }
      var root := MerkleRoot(env.hash, n, v1ExtraNonce1.value, ExtraNonce2(CHANNEL_ID, v1ExtraNonce2Size));
      var id := v2JobId;
      v2JobId := NextId(id);
      var future := v2ToV1JobMap == map[] || n.cleanJobs || v1ForceFutureJobs;
      if future {
        v2ToV1JobMap := map[];
        if |n.prevHash| != 32 {
          return Err;
        }
      }
      var taken := id in v2ToV1JobMap;
      v2ToV1JobMap := v2ToV1JobMap[id := Template(n)];
      if taken {
        return Panicked;
      }
      var ok := SubmitV2(NewMiningJob(id, future, root, n.version));
      if ok && future {
        ok := SubmitV2(SetNewPrevHash(id, n.prevHash, n.time, n.bits));
      }
      return StatusOf(ok);
    }

    method FinalizeOpenChannel() returns (r: Status)
      modifies this
      ensures Agrees(r, TranslationSpec.FinalizeOpenChannel(env, old(View())))
    {
      hide TranslationSpec.PerformNotify;
      if v2Target.None? {
        return Panicked;
      }
      if v2ChannelDetails.None? {
        return Err;
      }
      state := Operational;
      var ok := SubmitV2(OpenSuccess(v2ChannelDetails.value.reqId, v2Target.value));
      if !ok {
        return Err;
      }
      if v1DeferredNotify.Some? {
        var n := v1DeferredNotify.value;
        v1DeferredNotify := None;
        r := PerformNotify(n);
        return r;
      }
      return Ok;
    }

    method AbortOpenChannel(code: string)
      modifies this
      ensures View() == TranslationSpec.AbortOpenChannel(env, old(View()), code)
    {
      hide SendV2;
      state := SubscribeOrAuthorizeFail;
      v1Authorized, v1ExtraNonce1, v1ExtraNonce2Size := false, None, 0;
      if v2ChannelDetails.Some? {
        var reqId := v2ChannelDetails.value.reqId;
        v2ChannelDetails := None;
        var ok := SubmitV2(OpenError(reqId, code));
      }
    }

    method FinalizeOrAbort(code: string) returns (r: Status)
      modifies this
      ensures Agrees(r, TranslationSpec.FinalizeOrAbort(env, old(View()), code))
    {
      hide TranslationSpec.FinalizeOpenChannel, TranslationSpec.AbortOpenChannel;
      r := FinalizeOpenChannel();
      if r == Err {
        AbortOpenChannel(code);
      }
    }

    method HandleConfigureResult(p: V1Result) returns (r: Status)
      modifies this
      ensures Agrees(r, ConfigureResult(env, old(View()), p))
    {
      if p.Mask().None? {
        return Err;
      }
      var ok;
      if p.Rolling() == Some(true) && p.Mask().value == env.mask {
        state := ConnectionSetup;
        ok := SubmitV2(SetupConnectionSuccess);
      } else {
        ok := SubmitV2(SetupConnectionError(0, MASK_NOT_NEGOTIATED));
      }
      return StatusOf(ok);
    }

    method HandleExtranonceSubscribeResult(p: V1Result) returns (r: Status)
      modifies this
      ensures Agrees(r, ExtranonceSubscribeResult(old(View()), p))
    {
      if p.Boolean().None? {
        return Err;
      }
      v1XnsubEnabled := p.Boolean().value;
      return Ok;
    }

    method HandleSubscribeResult(p: V1Result) returns (r: Status)
      modifies this
      ensures Agrees(r, SubscribeResult(env, old(View()), p))
    {
      hide TranslationSpec.FinalizeOrAbort, TranslationSpec.AbortOpenChannel;
      if p.Subscribed().None? {
        AbortOpenChannel(SUBSCRIBE_FAILED);
        return Err;
      }
      v1ExtraNonce1 := Some(p.Subscribed().value.extraNonce1);
      v1ExtraNonce2Size := p.Subscribed().value.extraNonce2Size;
      if v1Authorized && v2Target.Some? {
        r := FinalizeOrAbort(SUBSCRIBE_FAILED);
        return r;
      }
      return Ok;
    }

    method HandleAuthorizeResult(p: V1Result) returns (r: Status)
      modifies this
      ensures Agrees(r, AuthorizeResult(env, old(View()), p))
    {
      hide TranslationSpec.FinalizeOrAbort, TranslationSpec.AbortOpenChannel;
      if p.Boolean().None? {
        AbortOpenChannel(NOT_AUTHORIZED);
        return Err;
      }
      v1Authorized := p.Boolean().value;
      if !v1Authorized {
        AbortOpenChannel(NOT_AUTHORIZED);
        return Err;
      }
      if v1ExtraNonce1.Some? && v2Target.Some? {
        r := FinalizeOrAbort(NOT_AUTHORIZED);
        return r;
      }
      return Ok;
    }

    method HandleAuthorizeOrSubscribeError() returns (r: Status)
      modifies this
      ensures Agrees(r, AuthorizeOrSubscribeError(env, old(View())))
    {
      if state != SubscribeOrAuthorizeFail {
        AbortOpenChannel(NOT_READY);
        return Err;
      }
      return Ok;
    }

    /** Cuts the text to an error code and sends it. */
    method RejectShares(channelId: u32, seqNum: u32, text: string) returns (r: Status)
      modifies this
      ensures Agrees(r, SendShareError(env, old(View()), channelId, seqNum, text))
    {
      hide Text.TakeBytes;
      var code := Text.TakeBytes(text, 32);
      if code.None? {
        return Panicked;
      }
      var ok := SubmitV2(SubmitSharesError(channelId, seqNum, code.value));
      return StatusOf(ok);
    }

    method HandleSubmitResult(p: V1Result) returns (r: Status)
      modifies this
      ensures Agrees(r, SubmitResult(env, old(View()), p))
    {
      hide SendShareError;
      if p.Boolean().None? {
        return Err;
      }
      if v2ChannelDetails.None? {
        return Panicked;
      }
      if p.Boolean().value {
        if v2ConnDetails.None? {
          return Panicked;
        }
        var ok := SubmitV2(SubmitSharesSuccess);
        return StatusOf(ok);
      }
      r := RejectShares(CHANNEL_ID, 0, REFUSED);
    }

    /** Pairs a response with its request and runs the handler registered for it, once. */
    method VisitStratumResultOrError(id: Option<u32>, response: Response) returns (r: Status)
      modifies this
      ensures Agrees(r, VisitResponse(env, old(View()), id, response))
    {
      hide ConfigureResult, SubscribeResult, AuthorizeResult, ExtranonceSubscribeResult, SubmitResult;
      hide SendShareError;
      hide AuthorizeOrSubscribeError, ErrorText;
      if id.None? || id.value !in v1ReqMap {
        return Err;
      }
      var kind := v1ReqMap[id.value];
      v1ReqMap := v1ReqMap - {id.value};
      match response
      case ResultResponse(p) =>
        match kind {
          case ConfigureReq => r := HandleConfigureResult(p);
          case SubscribeReq => r := HandleSubscribeResult(p);
          case ExtranonceSubscribeReq => r := HandleExtranonceSubscribeResult(p);
          case AuthorizeReq => r := HandleAuthorizeResult(p);
          case SubmitReq => r := HandleSubmitResult(p);
        }
      case ErrorResponse(p) =>
        match kind {
          case ConfigureReq =>
            var ok := SubmitV2(SetupConnectionError(0, MASK_NOT_NEGOTIATED));
            r := StatusOf(ok);
          case ExtranonceSubscribeReq =>
            v1XnsubEnabled := false;
            r := Ok;
          case SubmitReq => r := RejectShares(CHANNEL_ID, 0, ErrorText(env, p));
          case _ => r := HandleAuthorizeOrSubscribeError();
        }
    }

    method SetDifficulty(value: Float) returns (r: Status)
      modifies this
      ensures Agrees(r, VisitSetDifficulty(env, old(View()), value))
    {
      hide TranslationSpec.FinalizeOpenChannel;
      var diff := Truncated(value);
      if diff == 0 {
        return Panicked;
      }
      v2Target := Some(DIFF1_TARGET / diff);
      if v1Authorized && v1ExtraNonce1.Some? {
        if state == OpenPending {
          r := FinalizeOpenChannel();
        } else {
          var ok := SubmitV2(SetTarget(v2Target.value));
          r := StatusOf(ok);
        }
      } else {
        r := Ok;
      }
    }

    method SetExtranonce(x: Subscription) returns (r: Status)
      modifies this
      ensures Agrees(r, Visit(env, old(View()), V1SetExtranonce(x)))
    {
      v1ExtraNonce1 := Some(x.extraNonce1);
      v1ExtraNonce2Size := x.extraNonce2Size;
      return Ok;
    }

    method NotifyArrived(n: Notify) returns (r: Status)
      modifies this
      ensures Agrees(r, VisitNotify(env, old(View()), n))
    {
      hide TranslationSpec.PerformNotify;
      if state != Operational {
        v1DeferredNotify := Some(n);
        return Ok;
      }
      r := PerformNotify(n);
    }

    method SetupConnection(p: Connection) returns (r: Status)
      modifies this
      ensures Agrees(r, VisitSetupConnection(env, old(View()), p))
    {
      if state != Init {
        var ok := SubmitV2(SetupConnectionError(p.flags, SETUP_ONLY_ONCE));
        if !ok {
          return Err;
        }
      }
      v2ConnDetails := Some(p);
      r := SubmitRequest(ConfigureReq, Configure(env.mask));
      if r == Ok {
        state := V1Configure;
      }
    }

    method OpenStandardMiningChannel(p: Channel) returns (r: Status)
      modifies this
      ensures Agrees(r, VisitOpenChannel(env, old(View()), p))
    {
      hide TranslationSpec.RequestChannel, Bounded;
      if state != ConnectionSetup && state != SubscribeOrAuthorizeFail {
        var code := Bounded(OUT_OF_SEQUENCE, MAX_CODE);
        if code.None? {
          return Panicked;
        }
        var ok := SubmitV2(OpenError(p.reqId, code.value));
        if !ok {
          return Err;
        }
      }
      if v2ConnDetails.None? {
        return Ok;
      }
      v2ChannelDetails := Some(p);
      state := OpenPending;
      r := RequestChannel(v2ConnDetails.value, p);
    }

    method RequestChannel(conn: Connection, p: Channel) returns (r: Status)
      modifies this
      ensures Agrees(r, TranslationSpec.RequestChannel(env, old(View()), conn, p))
    {
      hide SendRequest, HostPort;
      r := SubmitRequest(SubscribeReq, Subscribe(conn.firmware, HostPort(conn)));
      if r == Ok && env.tryXnsub {
        r := SubmitRequest(ExtranonceSubscribeReq, ExtranonceSubscribe);
      }
      if r == Ok {
        r := SubmitRequest(AuthorizeReq, Authorize(p.user));
      }
    }

    method SubmitSharesStandard(p: Share) returns (r: Status)
      modifies this
      ensures Agrees(r, VisitSubmitShares(env, old(View()), p))
    {
      hide SendRequest, SendShareError, ExtraNonce2, ForeignChannelText, UnknownJobText;
      if p.channelId != CHANNEL_ID {
        r := RejectShares(p.channelId, p.seqNum, ForeignChannelText(p.channelId));
        return r;
      }
      if v2ChannelDetails.None? {
        return Panicked;
      }
      if p.jobId !in v2ToV1JobMap {
        r := RejectShares(p.channelId, p.seqNum, UnknownJobText(p.jobId));
        return r;
      }
      var template := v2ToV1JobMap[p.jobId];
      r := SubmitRequest(SubmitReq, Submit(v2ChannelDetails.value.user, template.jobId,
                                           ExtraNonce2(CHANNEL_ID, v1ExtraNonce2Size),
                                           p.ntime, p.nonce, p.version & env.mask));
    }

    /** Feeds a whole list of events to the object, stopping at the first panic. */
    method Serve(events: seq<Event>) returns (alive: bool)
      modifies this
      ensures match RunFrom(env, old(View()), events)
              case None => !alive
              case Some(s) => alive && View() == s
    {
      hide VisitResponse, VisitSetDifficulty, VisitNotify, VisitSetupConnection, VisitOpenChannel, VisitSubmitShares;
      for i := 0 to |events|
        invariant RunFrom(env, old(View()), events[..i]) == Some(View())
      {
        assert events[..i + 1][..i] == events[..i];
        var r;
        match events[i] {
          case V1Response(id, p) => r := VisitStratumResultOrError(id, p);
          case V1SetDifficulty(v) => r := SetDifficulty(v);
          case V1SetExtranonce(x) => r := SetExtranonce(x);
          case V1Notify(n) => r := NotifyArrived(n);
          case V1SetVersionMask(_) => r := Ok;
          case V2SetupConnection(p) => r := SetupConnection(p);
          case V2OpenChannel(p) => r := OpenStandardMiningChannel(p);
          case V2SubmitShares(p) => r := SubmitSharesStandard(p);
        }
        if r == Panicked {
          CrashedRun(env, old(View()), events, i + 1);
          return false;
        }
      }
      assert events[..|events|] == events;
      return true;
    }
  }

  /** A run does not recover from a panic. */
  lemma {:induction false} CrashedRun(env: Env, s: Session, events: seq<Event>, i: nat)
    requires i <= |events| && RunFrom(env, s, events[..i]).None?
    ensures RunFrom(env, s, events).None?
    decreases |events|
  {
    hide Visit;
    if i == |events| {
      assert events[..i] == events;
    } else {
      assert events[..|events| - 1][..i] == events[..i];
      CrashedRun(env, s, events[..|events| - 1], i);
    }
  }
}
