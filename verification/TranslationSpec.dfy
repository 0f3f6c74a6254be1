/**
 What one incoming message does to a translation session, as functions on session values. The
 class in Translation.dfy is proved to perform exactly these steps on its fields; the other
 Translation*.dfy files prove what every run of them keeps.
 */
module TranslationSpec {
  import opened Wrappers
  import opened Stratum
  import Text

  /** States of the translation setup. */
  datatype Setup = Init | V1Configure | ConnectionSetup | OpenPending | SubscribeOrAuthorizeFail | Operational

  /** Which pair of result and error handlers a V1 request was registered with. */
  datatype Kind = ConfigureReq | SubscribeReq | ExtranonceSubscribeReq | AuthorizeReq | SubmitReq

  /** What is needed to submit a share for a V2 job upstream. */
  datatype SubmitTemplate = SubmitTemplate(jobId: string, time: u32, version: bv32)

  /** A frame offered to a bounded queue, and whether the queue took it. */
  datatype Sent<+M> = Sent(msg: M, ok: bool)

  /** A V1 request frame. */
  datatype V1Frame = V1Frame(id: u32, request: V1Request)

  /**
   What surrounds the translation: the version mask and options it was built with, the hash, the
   style of debug renderings, and the answers the two queues will give. Attempt number `k` to
   send succeeds when its fate says so.
   */
  datatype Env = Env(
    mask: bv32, tryXnsub: bool, hash: Hash, style: Text.Style, v1Fate: nat -> bool, v2Fate: nat -> bool)

  datatype Session = Session(
    state: Setup,
    reqId: u32,
    reqMap: map<u32, Kind>,
    extraNonce1: Option<seq<byte>>,
    extraNonce2Size: nat,
    authorized: bool,
    xnsubEnabled: bool,
    forceFutureJobs: bool,
    deferred: Option<Notify>,
    conn: Option<Connection>,
    channel: Option<Channel>,
    target: Option<nat>,
    jobId: u32,
    jobMap: map<u32, SubmitTemplate>,
    v1Log: seq<Sent<V1Frame>>,
    v2Log: seq<Sent<V2Message>>)

  const FRESH := Session(Init, 0, map[], None, 0, false, false, true, None, None, None, None, 0, map[], [], [])

  /** A handler either panics, or ends in a session with `Ok` or `Err`. */
  datatype Outcome = Panic | Done(session: Session, ok: bool)

  // ----- Constants -----

  const CHANNEL_ID: u32 := 0
  /** 0xffff0000 in the most significant 64-bit word. */
  const DIFF1_TARGET: nat := 0xffff0000 * 0x1_00000000_00000000_00000000_00000000_00000000_00000000

  // ----- Queues and requests -----

  /** SeqId::next */
  function NextId(id: u32): u32 {
    (id + 1) % U32_MODULUS
  }

  function SendV2(env: Env, s: Session, m: V2Message): Outcome {
    var ok := env.v2Fate(|s.v2Log|);
    Done(s.(v2Log := s.v2Log + [Sent(m, ok)]), ok)
  }

  /** Registers the handlers under a new id and sends the request; panics when the id is taken. */
  function SendRequest(env: Env, s: Session, kind: Kind, r: V1Request): Outcome {
    if s.reqId in s.reqMap then Panic
    else
      var ok := env.v1Fate(|s.v1Log|);
      Done(s.(reqId := NextId(s.reqId), reqMap := s.reqMap[s.reqId := kind],
              v1Log := s.v1Log + [Sent(V1Frame(s.reqId, r), ok)]), ok)
  }

  // ----- Extranonce and jobs -----

  function LittleEndian(n: u32): (b: seq<byte>)
    ensures |b| == 4
  {
    [(n % 256) as byte, (n / 256 % 256) as byte, (n / 65536 % 256) as byte, (n / 16777216 % 256) as byte]
  }

  function Zeros(n: nat): (b: seq<byte>)
    ensures |b| == n
  {
    seq(n, _ => 0 as byte)
  }

  /** channel_to_extra_nonce2_bytes */
  function ExtraNonce2(channelId: u32, size: nat): (b: seq<byte>)
    ensures |b| == size
  {
    if size < 4 then LittleEndian(channelId)[..size] else LittleEndian(channelId) + Zeros(size - 4)
  }

  function Template(n: Notify): SubmitTemplate {
    SubmitTemplate(n.jobId, n.time, n.version)
  }

  function PerformNotify(env: Env, s: Session, n: Notify): Outcome {
    if s.extraNonce1.None? then Done(s, false)
    else
      var root := MerkleRoot(env.hash, n, s.extraNonce1.value, ExtraNonce2(CHANNEL_ID, s.extraNonce2Size));
      var id := s.jobId;
      var future := s.jobMap == map[] || n.cleanJobs || s.forceFutureJobs;
      var s1 := s.(jobId := NextId(id), jobMap := if future then map[] else s.jobMap);
      if future && |n.prevHash| != 32 then Done(s1, false)
      else if id in s1.jobMap then Panic
      else
        var sent := SendV2(env, s1.(jobMap := s1.jobMap[id := Template(n)]), NewMiningJob(id, future, root, n.version));
        if sent.ok && future
        then SendV2(env, sent.session, SetNewPrevHash(id, n.prevHash, n.time, n.bits))
        else sent
  }

  // ----- Opening the channel -----

  function FinalizeOpenChannel(env: Env, s: Session): Outcome {
    if s.target.None? then Panic
    else if s.channel.None? then Done(s, false)
    else
      var sent := SendV2(env, s.(state := Operational), OpenSuccess(s.channel.value.reqId, s.target.value));
      if !sent.ok || s.deferred.None? then sent
      else PerformNotify(env, sent.session.(deferred := None), s.deferred.value)
  }

  function AbortOpenChannel(env: Env, s: Session, code: string): Session {
    var s1 := s.(state := SubscribeOrAuthorizeFail, authorized := false, extraNonce1 := None,
                 extraNonce2Size := 0, channel := None);
    if s.channel.None? then s1
    else SendV2(env, s1, OpenError(s.channel.value.reqId, code)).session
  }

  /** An error from finalizing aborts the channel. */
  function FinalizeOrAbort(env: Env, s: Session, code: string): Outcome {
    var r := FinalizeOpenChannel(env, s);
    if r.Done? && !r.ok then Done(AbortOpenChannel(env, r.session, code), false) else r
  }

  // ----- Responses from the pool -----

  function ConfigureResult(env: Env, s: Session, p: V1Result): Outcome {
    if p.Mask().None? then Done(s, false)
    else if p.Rolling() == Some(true) && p.Mask().value == env.mask
    then SendV2(env, s.(state := ConnectionSetup), SetupConnectionSuccess)
    else SendV2(env, s, SetupConnectionError(0, MASK_NOT_NEGOTIATED))
  }

  function ExtranonceSubscribeResult(s: Session, p: V1Result): Outcome {
    if p.Boolean().None? then Done(s, false) else Done(s.(xnsubEnabled := p.Boolean().value), true)
  }

  function SubscribeResult(env: Env, s: Session, p: V1Result): Outcome {
    if p.Subscribed().None? then Done(AbortOpenChannel(env, s, SUBSCRIBE_FAILED), false)
    else
      var s1 := s.(extraNonce1 := Some(p.Subscribed().value.extraNonce1),
                   extraNonce2Size := p.Subscribed().value.extraNonce2Size);
      if s1.authorized && s1.target.Some? then FinalizeOrAbort(env, s1, SUBSCRIBE_FAILED)
      else Done(s1, true)
  }

  function AuthorizeResult(env: Env, s: Session, p: V1Result): Outcome {
    if p.Boolean().None? then Done(AbortOpenChannel(env, s, NOT_AUTHORIZED), false)
    else if !p.Boolean().value then Done(AbortOpenChannel(env, s.(authorized := false), NOT_AUTHORIZED), false)
    else
      var s1 := s.(authorized := true);
      if s1.extraNonce1.Some? && s1.target.Some? then FinalizeOrAbort(env, s1, NOT_AUTHORIZED)
      else Done(s1, true)
  }

  function AuthorizeOrSubscribeError(env: Env, s: Session): Outcome {
    if s.state == SubscribeOrAuthorizeFail then Done(s, true)
    else Done(AbortOpenChannel(env, s, NOT_READY), false)
  }

  /** A refusal by a result: the debug rendering of the only value that is parsed as `false`. */
  const REFUSED := "ShareRjct:StratumResult(Bool(false))"

  /** What stands before and behind the error's own message in the debug rendering of an error. */
  function ErrorHead(code: i32): string {
    "ShareRjct:StratumError(" + Text.Signed(code) + ", \""
  }

  function ErrorTail(env: Env, traceback: Option<string>): string {
    "\", " + (if traceback.None? then "None" else "Some(" + Text.Quoted(env.style, traceback.value) + ")") + ")"
  }

  /** A refusal by an error, in its debug rendering. */
  function ErrorText(env: Env, e: V1Error): string {
    ErrorHead(e.code) + (Text.Escaped(env.style, e.message) + ErrorTail(env, e.traceback))
  }

  function ForeignChannelText(channelId: u32): string {
    "Unrecognized channel ID " + Text.Decimal(channelId)
  }

  function UnknownJobText(jobId: u32): string {
    "General error: V2 Job ID not present " + Text.Decimal(jobId) + " in registry"
  }

  /** The reply to a refused share; the code is cut to 32 bytes, which panics when it cannot be. */
  function SendShareError(env: Env, s: Session, channelId: u32, seqNum: u32, text: string): Outcome {
    match Text.TakeBytes(text, MAX_CODE)
    case None => Panic
    case Some(code) => SendV2(env, s, SubmitSharesError(channelId, seqNum, code))
  }

  function SubmitResult(env: Env, s: Session, p: V1Result): Outcome {
    if p.Boolean().None? then Done(s, false)
    else if s.channel.None? then Panic
    else if !p.Boolean().value then SendShareError(env, s, CHANNEL_ID, 0, REFUSED)
    else if s.conn.None? then Panic
    else SendV2(env, s, SubmitSharesSuccess)
  }

  function HandleResult(env: Env, s: Session, kind: Kind, p: V1Result): Outcome {
    match kind
    case ConfigureReq => ConfigureResult(env, s, p)
    case SubscribeReq => SubscribeResult(env, s, p)
    case ExtranonceSubscribeReq => ExtranonceSubscribeResult(s, p)
    case AuthorizeReq => AuthorizeResult(env, s, p)
    case SubmitReq => SubmitResult(env, s, p)
  }

  function HandleError(env: Env, s: Session, kind: Kind, p: V1Error): Outcome {
    match kind
    case ConfigureReq => SendV2(env, s, SetupConnectionError(0, MASK_NOT_NEGOTIATED))
    case ExtranonceSubscribeReq => Done(s.(xnsubEnabled := false), true)
    case SubmitReq => SendShareError(env, s, CHANNEL_ID, 0, ErrorText(env, p))
    case _ => AuthorizeOrSubscribeError(env, s)
  }

  datatype Response = ResultResponse(result: V1Result) | ErrorResponse(error: V1Error)

  /** A response without an id, or with one that is not registered, is only logged. */
  function VisitResponse(env: Env, s: Session, id: Option<u32>, r: Response): Outcome {
    if id.None? || id.value !in s.reqMap then Done(s, false)
    else
      var kind := s.reqMap[id.value];
      var s1 := s.(reqMap := s.reqMap - {id.value});
      match r
      case ResultResponse(p) => HandleResult(env, s1, kind, p)
      case ErrorResponse(p) => HandleError(env, s1, kind, p)
  }

  // ----- Notifications from the pool -----

  /** `value as u32` on a floating point number: towards zero, saturating. */
  function Truncated(f: Float): u32 {
    match f
    case Finite(v) => if v < 0.0 then 0 else if v.Floor >= U32_MODULUS then U32_MODULUS - 1 else v.Floor
    case Infinite(negative) => if negative then 0 else U32_MODULUS - 1
    case NotANumber => 0
  }

  function VisitSetDifficulty(env: Env, s: Session, value: Float): Outcome {
    var diff := Truncated(value);
    if diff == 0 then Panic
    else
      var s1 := s.(target := Some(DIFF1_TARGET / diff));
      if !(s1.authorized && s1.extraNonce1.Some?) then Done(s1, true)
      else if s1.state == OpenPending then FinalizeOpenChannel(env, s1)
      else SendV2(env, s1, SetTarget(s1.target.value))
  }

  function VisitNotify(env: Env, s: Session, n: Notify): Outcome {
    if s.state != Operational then Done(s.(deferred := Some(n)), true) else PerformNotify(env, s, n)
  }

  // ----- Messages from the client -----

  function VisitSetupConnection(env: Env, s: Session, p: Connection): Outcome {
    var refused := if s.state == Init then Done(s, true)
                   else SendV2(env, s, SetupConnectionError(p.flags, SETUP_ONLY_ONCE));
    if !refused.ok then refused
    else
      var sent := SendRequest(env, refused.session.(conn := Some(p)), ConfigureReq, Configure(env.mask));
      if sent.Panic? || !sent.ok then sent else Done(sent.session.(state := V1Configure), true)
  }

  function HostPort(p: Connection): string {
    p.host + ":" + Text.Decimal(p.port)
  }

  /** The refusal of an out-of-sequence open; its code must fit into 32 bytes. */
  function RefuseOpen(env: Env, s: Session, p: Channel): Outcome {
    match Bounded(OUT_OF_SEQUENCE, MAX_CODE)
    case None => Panic
    case Some(code) => SendV2(env, s, OpenError(p.reqId, code))
  }

  function VisitOpenChannel(env: Env, s: Session, p: Channel): Outcome {
    var refused := if s.state == ConnectionSetup || s.state == SubscribeOrAuthorizeFail then Done(s, true)
                   else RefuseOpen(env, s, p);
    if refused.Panic? || !refused.ok || s.conn.None? then refused
    else RequestChannel(env, refused.session.(channel := Some(p), state := OpenPending), s.conn.value, p)
  }

  /** Subscribe, optionally extranonce.subscribe, and authorize; the first failed send ends the list. */
  function RequestChannel(env: Env, s: Session, conn: Connection, p: Channel): Outcome {
    var subscribed := SendRequest(env, s, SubscribeReq, Subscribe(conn.firmware, HostPort(conn)));
    if subscribed.Panic? || !subscribed.ok then subscribed
    else
      var extended := if !env.tryXnsub then subscribed
                      else SendRequest(env, subscribed.session, ExtranonceSubscribeReq, ExtranonceSubscribe);
      if extended.Panic? || !extended.ok then extended
      else SendRequest(env, extended.session, AuthorizeReq, Authorize(p.user))
  }

  function VisitSubmitShares(env: Env, s: Session, p: Share): Outcome {
    if p.channelId != CHANNEL_ID
    then SendShareError(env, s, p.channelId, p.seqNum, ForeignChannelText(p.channelId))
    else if s.channel.None? then Panic
    else if p.jobId !in s.jobMap
    then SendShareError(env, s, p.channelId, p.seqNum, UnknownJobText(p.jobId))
    else
      SendRequest(env, s, SubmitReq,
                  Submit(s.channel.value.user, s.jobMap[p.jobId].jobId, ExtraNonce2(CHANNEL_ID, s.extraNonce2Size),
                         p.ntime, p.nonce, p.version & env.mask))
  }

  // ----- Runs -----

  datatype Event =
    | V1Response(id: Option<u32>, response: Response)
    | V1SetDifficulty(difficulty: Float)
    | V1SetExtranonce(extraNonce: Subscription)
    | V1Notify(notify: Notify)
    | V1SetVersionMask(newMask: bv32)
    | V2SetupConnection(connection: Connection)
    | V2OpenChannel(open: Channel)
    | V2SubmitShares(share: Share)

  function Visit(env: Env, s: Session, e: Event): Outcome {
    match e
    case V1Response(id, r) => VisitResponse(env, s, id, r)
    case V1SetDifficulty(v) => VisitSetDifficulty(env, s, v)
    case V1SetExtranonce(x) =>
      Done(s.(extraNonce1 := Some(x.extraNonce1), extraNonce2Size := x.extraNonce2Size), true)
    case V1Notify(n) => VisitNotify(env, s, n)
    case V1SetVersionMask(_) => Done(s, true)
    case V2SetupConnection(p) => VisitSetupConnection(env, s, p)
    case V2OpenChannel(p) => VisitOpenChannel(env, s, p)
    case V2SubmitShares(p) => VisitSubmitShares(env, s, p)
  }

  /** The session after the events, from `s`; `None` once a handler has panicked. Errors are consumed. */
  function RunFrom(env: Env, s: Session, events: seq<Event>): Option<Session>
    decreases |events|
  {
    if events == [] then Some(s)
    else match RunFrom(env, s, events[..|events| - 1])
      case None => None
      case Some(before) =>
        match Visit(env, before, events[|events| - 1])
        case Panic => None
        case Done(after, _) => Some(after)
  }

  /** A run of a new translation. */
  function Run(env: Env, events: seq<Event>): Option<Session> {
    RunFrom(env, FRESH, events)
  }
}
