/**
 What holds of a translation session in every reachable state, whatever the two peers send and
 whichever sends fail.
 */
module TranslationSafety {
  import opened Wrappers
  import opened Stratum
  import opened TranslationSpec
  import Text

  // ----- The state invariant -----

  /** The id handed out just before the generator reached `id`. */
  function PrevId(id: u32): u32 {
    (id + U32_MODULUS - 1) % U32_MODULUS
  }

  /** The job map is empty or holds exactly the job id allocated last. */
  ghost predicate OnlyNewestJob(nextId: u32, jobs: map<u32, SubmitTemplate>) {
    jobs == map[] || jobs.Keys == {PrevId(nextId)}
  }

  ghost predicate Inv(s: Session) {
    && s.forceFutureJobs
    && OnlyNewestJob(s.jobId, s.jobMap)
    && (s.extraNonce1.None? ==> s.extraNonce2Size == 0)
    && (s.channel.Some? ==> s.conn.Some?)
    && (s.state == OpenPending ==> s.channel.Some?)
    && (s.state == Operational ==>
          s.authorized && s.extraNonce1.Some? && s.target.Some? && s.channel.Some?)
  }

  lemma {:induction false} NewestJobAlone(id: u32, t: SubmitTemplate)
    ensures OnlyNewestJob(NextId(id), map[]) && OnlyNewestJob(NextId(id), map[][id := t])
  {
    assert PrevId(NextId(id)) == id;
    assert map[][id := t].Keys == {id};
  }

  lemma {:induction false} PerformNotifyKeepsInv(env: Env, s: Session, n: Notify)
    requires Inv(s) && s.extraNonce1.Some?
    ensures var r := PerformNotify(env, s, n); r.Done? && Inv(r.session) && r.session.state == s.state
  {
    hide MerkleRoot, ExtraNonce2, Template, NextId, OnlyNewestJob;
    NewestJobAlone(s.jobId, Template(n));
  }

  lemma {:induction false} FinalizeKeepsInv(env: Env, s: Session)
    requires Inv(s) && s.target.Some? && s.authorized && s.extraNonce1.Some?
    ensures var r := FinalizeOpenChannel(env, s); r.Done? && Inv(r.session)
  {
    if s.channel.Some? {
      var sent := SendV2(env, s.(state := Operational), OpenSuccess(s.channel.value.reqId, s.target.value));
      if sent.ok && s.deferred.Some? {
        PerformNotifyKeepsInv(env, sent.session.(deferred := None), s.deferred.value);
      }
    }
  }

  /**
   A failed opening leaves nothing of it behind: no authorization, no extranonce, no channel. The client is
   told the reason if it had a channel open or pending.
   */
  lemma {:induction false} AbortClears(env: Env, s: Session, code: string)
    ensures var s' := AbortOpenChannel(env, s, code);
            && s'.state == SubscribeOrAuthorizeFail && !s'.authorized && s'.channel.None?
            && s'.extraNonce1.None? && s'.extraNonce2Size == 0
            && s'.v2Log == (if s.channel.None? then s.v2Log
                            else s.v2Log + [Sent(OpenError(s.channel.value.reqId, code), env.v2Fate(|s.v2Log|))])
            && s'.reqMap == s.reqMap && s'.v1Log == s.v1Log && s'.conn == s.conn && s'.target == s.target
            && s'.deferred == s.deferred && s'.jobMap == s.jobMap && s'.jobId == s.jobId
  {
  }

  // ----- When a handler panics -----

  /** The `k`-th id from now is still registered. */
  predicate IdTaken(s: Session, k: nat) {
    (s.reqId + k) % U32_MODULUS in s.reqMap
  }

  /** How many of the 32 bytes of a code are left for the message of an error. */
  function MessageRoom(code: i32): int {
    6 - |Text.Signed(code)|
  }

  /** The pool's answer to a submitted share cannot be passed on. */
  ghost predicate RefusalPanics(env: Env, s: Session, r: Response) {
    match r
    case ResultResponse(p) => p.BoolResult? && s.channel.None?
    case ErrorResponse(p) => Text.FallsInside(env.style, p.message, MessageRoom(p.code))
  }

  /** The sends of an open request that are reached before one fails, each needing a free id. */
  predicate OpenRunsOutOfIds(env: Env, s: Session) {
    var n := |s.v1Log|;
    || IdTaken(s, 0)
    || (env.v1Fate(n) && IdTaken(s, 1))
    || (env.tryXnsub && env.v1Fate(n) && env.v1Fate(n + 1) && IdTaken(s, 2))
  }

  predicate AtLeastOne(f: Float) {
    match f
    case Finite(v) => v >= 1.0
    case Infinite(negative) => !negative
    case NotANumber => false
  }

  /** What makes the handler of `e` panic, in terms of the state and the message alone. */
  ghost predicate PanicCause(env: Env, s: Session, e: Event) {
    match e
    case V1SetDifficulty(f) => !AtLeastOne(f)
    case V1Response(id, r) =>
      id.Some? && id.value in s.reqMap && s.reqMap[id.value] == SubmitReq && RefusalPanics(env, s, r)
    case V2SetupConnection(_) => (s.state != Init ==> env.v2Fate(|s.v2Log|)) && IdTaken(s, 0)
    case V2OpenChannel(_) =>
      || (s.state != ConnectionSetup && s.state != SubscribeOrAuthorizeFail)
      || (s.conn.Some? && OpenRunsOutOfIds(env, s))
    case V2SubmitShares(p) =>
      if p.channelId != CHANNEL_ID then p.channelId < 10_000_000
      else s.channel.None? || (p.jobId in s.jobMap && IdTaken(s, 0))
    case _ => false
  }

  /** The refusal of a foreign channel id is long enough exactly from eight digits on. */
  lemma {:induction false} ForeignChannelCut(id: u32)
    ensures Text.TakeBytes(ForeignChannelText(id), 32).Some? <==> id >= 10_000_000
  {
    Text.DecimalLength(id, 7);
    assert Text.Pow10(7) == 10_000_000 by {
      assert Text.Pow10(3) == 1000;
      assert Text.Pow10(5) == 100 * Text.Pow10(3);
      assert Text.Pow10(7) == 100 * Text.Pow10(5);
    }
    Text.TakeBytesAscii(ForeignChannelText(id), 32);
  }

  /** The refusal of an unknown job id is always long enough. */
  lemma {:induction false} UnknownJobCut(id: u32)
    ensures Text.TakeBytes(UnknownJobText(id), 32).Some?
  {
    Text.TakeBytesAscii(UnknownJobText(id), 32);
  }

  /** The refusal by a false result is long enough. */
  lemma {:induction false} RefusedCut()
    ensures Text.TakeBytes(REFUSED, 32) == Some("ShareRjct:StratumResult(Bool(fal")
  {
    Text.TakeBytesAscii(REFUSED, 32);
    assert REFUSED[..32] == "ShareRjct:StratumResult(Bool(fal";
  }

  /**
   The refusal by an error always fills 32 bytes, and can be cut there unless byte 32 falls inside
   a character of the error's message.
   */
  lemma {:induction false} ErrorCut(env: Env, e: V1Error)
    ensures Text.TakeBytes(ErrorText(env, e), 32).None?
            <==> Text.FallsInside(env.style, e.message, MessageRoom(e.code))
  {
    hide Text.TakeBytes, Text.FallsInside, Text.Signed;
    var head, room := ErrorHead(e.code), MessageRoom(e.code);
    assert |"ShareRjct:StratumError("| == 23 && |", \""| == 3;
    assert |head| == 32 - room && Text.Ascii(head);
    var rest := Text.Escaped(env.style, e.message) + ErrorTail(env, e.traceback);
    if room <= 0 {
      Text.TakeBytesWithin(head, rest, 32);
      Text.NothingInside(env.style, e.message, room);
    } else {
      Text.TakeBytesBehind(head, rest, 32);
      MessageCut(env, e.message, e.traceback, room);
    }
  }

  lemma {:induction false} MessageCut(env: Env, message: string, traceback: Option<string>, room: nat)
    requires room <= 5
    ensures Text.TakeBytes(Text.Escaped(env.style, message) + ErrorTail(env, traceback), room).None?
            <==> Text.FallsInside(env.style, message, room)
  {
    hide Text.TakeBytes, Text.FallsInside, Text.Escaped;
    var m, tail := Text.Escaped(env.style, message), ErrorTail(env, traceback);
    var shown := tail[..6];
    assert Text.Ascii(shown);
    assert m + tail == (m + shown) + tail[6..];
    Text.EscapedCut(env.style, message, shown, room);
    LongEnough(m, shown, tail[6..], room);
  }

  /** What follows the bytes that a slice takes does not matter. */
  lemma {:induction false} LongEnough(m: string, shown: string, rest: string, n: nat)
    requires Text.Ascii(shown) && n <= |shown|
    ensures Text.TakeBytes(m + shown + rest, n).None? <==> Text.TakeBytes(m + shown, n).None?
  {
    if m == "" {
      assert m + shown + rest == shown + rest && m + shown == shown;
      Text.TakeBytesWithin(shown, rest, n);
      Text.TakeBytesAscii(shown, n);
    } else {
      var w := Text.Utf8Width(m[0]);
      assert (m + shown + rest)[0] == m[0] && (m + shown + rest)[1..] == m[1..] + shown + rest;
      assert (m + shown)[0] == m[0] && (m + shown)[1..] == m[1..] + shown;
      if w <= n { LongEnough(m[1..], shown, rest, n - w); }
    }
  }

  /** An ASCII message, or a long error number, never makes the refusal panic. */
  lemma {:induction false} AsciiErrorCut(env: Env, e: V1Error)
    requires Text.Ascii(e.message) || e.code >= 100_000 || e.code <= -10_000
    ensures Text.TakeBytes(ErrorText(env, e), 32).Some?
  {
    hide Text.TakeBytes, Text.FallsInside, ErrorText;
    ErrorCut(env, e);
    if Text.Ascii(e.message) {
      Text.AsciiNeverCut(env.style, e.message, MessageRoom(e.code));
    } else {
      LongCode(e.code);
      Text.NothingInside(env.style, e.message, MessageRoom(e.code));
    }
  }

  /** A message that starts with a two-byte character, behind a five-digit error number, does. */
  lemma {:induction false} WideErrorPanics(env: Env)
    requires env.style.printable('\U{00e9}')
    ensures Text.TakeBytes(ErrorText(env, V1Error(10_000, ['\U{00e9}'], None)), 32).None?
  {
    hide Text.TakeBytes, ErrorText, Text.Decimal;
    var e := V1Error(10_000, ['\U{00e9}'], None);
    ErrorCut(env, e);
    assert MessageRoom(10_000) == 1 by { Text.DecimalLength(10_000, 4); Text.DecimalLength(10_000, 5); }
    assert Text.InsideAt(env.style, e.message, 1, 0) by { assert e.message[..0] == ""; }
  }

  /** Whether the apostrophe is escaped can decide it. */
  lemma {:induction false} ApostropheDecides(env: Env)
    requires env.style.printable('\U{00e9}') && env.style.printable('\'')
    ensures Text.TakeBytes(ErrorText(env, V1Error(100, ['\'', '\U{00e9}'], None)), 32).None?
            <==> env.style.escapesApostrophe
  {
    hide Text.TakeBytes, ErrorText, Text.Decimal;
    var e := V1Error(100, ['\'', '\U{00e9}'], None);
    ErrorCut(env, e);
    assert MessageRoom(100) == 3 by { Text.DecimalLength(100, 2); Text.DecimalLength(100, 3); }
    assert e.message[..0] == "" && e.message[..1] == ['\''] && e.message[..1][1..] == "";
    assert Text.Escaped(env.style, e.message[..1]) == Text.Shown(env.style, '\'') + Text.Escaped(env.style, "");
    var shown := Text.Shown(env.style, '\'');
    assert shown + "" == shown && Text.Ascii(shown);
    Text.ByteLengthAscii(shown);
    assert Text.InsideAt(env.style, e.message, 3, 1) <==> env.style.escapesApostrophe;
    assert !Text.InsideAt(env.style, e.message, 3, 0);
  }

  lemma {:induction false} LongCode(code: i32)
    requires code >= 100_000 || code <= -10_000
    ensures MessageRoom(code) <= 0
  {
    if code >= 0 { Text.DecimalLength(code, 5); } else { Text.DecimalLength(-(code as int), 4); }
  }

  /** One handler panics exactly when `cause` says so, and otherwise keeps the invariant. */
  ghost predicate Sound(r: Outcome, cause: bool) {
    (r.Panic? <==> cause) && (r.Done? ==> Inv(r.session))
  }

  lemma {:induction false} SubscribeResultSound(env: Env, s: Session, p: V1Result)
    requires Inv(s)
    ensures Sound(SubscribeResult(env, s, p), false)
  {
    hide OnlyNewestJob, FinalizeOpenChannel, AbortOpenChannel;
    AbortKeepsInv(env, s, SUBSCRIBE_FAILED);
    if p.Subscribed().Some? && s.authorized && s.target.Some? {
      var x := p.Subscribed().value;
      var s1 := s.(extraNonce1 := Some(x.extraNonce1), extraNonce2Size := x.extraNonce2Size);
      FinalizeKeepsInv(env, s1);
      AbortKeepsInv(env, FinalizeOpenChannel(env, s1).session, SUBSCRIBE_FAILED);
    }
  }

  lemma {:induction false} AbortUnauthorized(env: Env, s: Session)
    requires Inv(s)
    ensures Inv(AbortOpenChannel(env, s.(authorized := false), NOT_AUTHORIZED))
  {
    hide OnlyNewestJob;
  }

  lemma {:induction false} AuthorizeResultSound(env: Env, s: Session, p: V1Result)
    requires Inv(s)
    ensures Sound(AuthorizeResult(env, s, p), false)
  {
    hide OnlyNewestJob, FinalizeOpenChannel, AbortOpenChannel;
    AbortKeepsInv(env, s, NOT_AUTHORIZED);
    AbortUnauthorized(env, s);
    if p.Boolean() == Some(true) && s.extraNonce1.Some? && s.target.Some? {
      FinalizeKeepsInv(env, s.(authorized := true));
      AbortKeepsInv(env, FinalizeOpenChannel(env, s.(authorized := true)).session, NOT_AUTHORIZED);
    }
  }

  lemma {:induction false} SubmitResultSound(env: Env, s: Session, p: V1Result)
    requires Inv(s)
    ensures Sound(SubmitResult(env, s, p), RefusalPanics(env, s, ResultResponse(p)))
  {
    hide OnlyNewestJob, Text.TakeBytes, Text.ByteLength, REFUSED;
    RefusedCut();
  }

  lemma {:induction false} SubmitErrorSound(env: Env, s: Session, p: V1Error)
    requires Inv(s)
    ensures Sound(SendShareError(env, s, CHANNEL_ID, 0, ErrorText(env, p)), RefusalPanics(env, s, ErrorResponse(p)))
  {
    hide OnlyNewestJob, Text.TakeBytes, Text.FallsInside, ErrorText;
    ErrorCut(env, p);
  }

  lemma {:induction false} AbortKeepsInv(env: Env, s: Session, code: string)
    requires Inv(s)
    ensures Inv(AbortOpenChannel(env, s, code))
  {
    hide OnlyNewestJob;
  }

  lemma {:induction false} OtherErrorSound(env: Env, s: Session)
    requires Inv(s)
    ensures Sound(AuthorizeOrSubscribeError(env, s), false)
  {
    hide OnlyNewestJob, AbortOpenChannel;
    AbortKeepsInv(env, s, NOT_READY);
  }

  lemma {:induction false} OtherResultsSound(env: Env, s: Session, p: V1Result)
    requires Inv(s)
    ensures Sound(ConfigureResult(env, s, p), false)
    ensures Sound(ExtranonceSubscribeResult(s, p), false)
  {
    hide OnlyNewestJob;
  }

  lemma {:induction false} ResponseSound(env: Env, s: Session, id: Option<u32>, p: Response)
    requires Inv(s)
    ensures Sound(VisitResponse(env, s, id, p), PanicCause(env, s, V1Response(id, p)))
  {
    hide ConfigureResult, SubscribeResult, AuthorizeResult, ExtranonceSubscribeResult, SubmitResult;
    hide AuthorizeOrSubscribeError, OnlyNewestJob, SendShareError, ErrorText, Text.FallsInside;
    if id.Some? && id.value in s.reqMap {
      var s1 := s.(reqMap := s.reqMap - {id.value});
      match p
      case ResultResponse(result) =>
        SubscribeResultSound(env, s1, result);
        AuthorizeResultSound(env, s1, result);
        SubmitResultSound(env, s1, result);
        OtherResultsSound(env, s1, result);
      case ErrorResponse(error) =>
        OtherErrorSound(env, s1);
        SubmitErrorSound(env, s1, error);
    }
  }

  lemma {:induction false} SetDifficultySound(env: Env, s: Session, value: Float)
    requires Inv(s)
    ensures Sound(VisitSetDifficulty(env, s, value), !AtLeastOne(value))
  {
    hide OnlyNewestJob, FinalizeOpenChannel;
    if Truncated(value) != 0 && s.authorized && s.extraNonce1.Some? {
      FinalizeKeepsInv(env, s.(target := Some(DIFF1_TARGET / Truncated(value))));
    }
  }

  lemma {:induction false} NotifySound(env: Env, s: Session, n: Notify)
    requires Inv(s)
    ensures Sound(VisitNotify(env, s, n), false)
  {
    hide PerformNotify;
    if s.state == Operational { PerformNotifyKeepsInv(env, s, n); }
  }

  lemma {:induction false} SetupConnectionSound(env: Env, s: Session, p: Connection)
    requires Inv(s)
    ensures Sound(VisitSetupConnection(env, s, p), PanicCause(env, s, V2SetupConnection(p)))
  {
    hide OnlyNewestJob;
  }

  lemma {:induction false} RequestChannelSound(env: Env, s: Session, conn: Connection, p: Channel)
    requires Inv(s)
    ensures Sound(RequestChannel(env, s, conn, p), OpenRunsOutOfIds(env, s))
  {
    hide OnlyNewestJob, HostPort;
  }

  /** An open request out of sequence panics: it is neither refused nor carried out. */
  lemma {:induction false} OutOfSequencePanics(env: Env, s: Session, p: Channel)
    requires s.state != ConnectionSetup && s.state != SubscribeOrAuthorizeFail
    ensures VisitOpenChannel(env, s, p).Panic?
  {
    hide Bounded, OUT_OF_SEQUENCE;
    OutOfSequenceTooLong();
  }

  /** So a client whose first message opens a channel ends the run. */
  lemma {:induction false} OpenFirstPanics(env: Env, p: Channel)
    ensures Run(env, [V2OpenChannel(p)]).None?
  {
    hide VisitOpenChannel;
    OutOfSequencePanics(env, FRESH, p);
    assert RunFrom(env, FRESH, [V2OpenChannel(p)][..0]) == Some(FRESH);
  }

  lemma {:induction false} OpenChannelSound(env: Env, s: Session, p: Channel)
    requires Inv(s)
    ensures Sound(VisitOpenChannel(env, s, p), PanicCause(env, s, V2OpenChannel(p)))
  {
    hide OnlyNewestJob, RequestChannel, RefuseOpen;
    if s.state != ConnectionSetup && s.state != SubscribeOrAuthorizeFail {
      OutOfSequencePanics(env, s, p);
    } else if s.conn.Some? {
      RequestChannelSound(env, s.(channel := Some(p), state := OpenPending), s.conn.value, p);
    }
  }

  lemma {:induction false} SubmitSharesSound(env: Env, s: Session, p: Share)
    requires Inv(s)
    ensures Sound(VisitSubmitShares(env, s, p), PanicCause(env, s, V2SubmitShares(p)))
  {
    hide OnlyNewestJob, Text.TakeBytes, ForeignChannelText, UnknownJobText, ExtraNonce2;
    ForeignChannelCut(p.channelId);
    UnknownJobCut(p.jobId);
  }

  /**
   In every state that meets the invariant, a handler panics exactly for the causes listed in
   `PanicCause`, and otherwise keeps the invariant. So the missing-target, duplicate-job-id and
   missing-connection panics of the source cannot happen.
   */
  lemma {:induction false} VisitSound(env: Env, s: Session, e: Event)
    requires Inv(s)
    ensures Sound(Visit(env, s, e), PanicCause(env, s, e))
  {
    hide VisitResponse, VisitSetDifficulty, VisitNotify, VisitSetupConnection, VisitOpenChannel, VisitSubmitShares;
    match e
    case V1Response(id, p) => ResponseSound(env, s, id, p);
    case V1SetDifficulty(v) => SetDifficultySound(env, s, v);
    case V1Notify(n) => NotifySound(env, s, n);
    case V2SetupConnection(p) => SetupConnectionSound(env, s, p);
    case V2OpenChannel(p) => OpenChannelSound(env, s, p);
    case V2SubmitShares(p) => SubmitSharesSound(env, s, p);
    case _ =>
  }

  lemma {:induction false} RunSnoc(env: Env, events: seq<Event>, e: Event)
    ensures Run(env, events + [e]) ==
            match Run(env, events)
            case None => None
            case Some(s) => if Visit(env, s, e).Done? then Some(Visit(env, s, e).session) else None
  {
    hide Visit;
    assert (events + [e])[..|events|] == events;
  }

  lemma {:induction false} RunKeepsInv(env: Env, events: seq<Event>)
    ensures var r := Run(env, events); r.Some? ==> Inv(r.value)
  {
    hide Visit;
    if events != [] {
      RunKeepsInv(env, events[..|events| - 1]);
      var before := Run(env, events[..|events| - 1]);
      if before.Some? {
        VisitSound(env, before.value, events[|events| - 1]);
      }
    }
  }

  /** Some event of the run meets a cause of panic in the state it finds. */
  ghost predicate CauseMet(env: Env, events: seq<Event>) {
    exists i :: 0 <= i < |events| && CauseAt(env, events, i)
  }

  ghost predicate CauseAt(env: Env, events: seq<Event>, i: nat)
    requires i < |events|
  {
    Run(env, events[..i]).Some? && PanicCause(env, Run(env, events[..i]).value, events[i])
  }

  lemma {:induction false} CauseAtPrefix(env: Env, events: seq<Event>, i: nat)
    requires i < |events| - 1
    ensures CauseAt(env, events[..|events| - 1], i) == CauseAt(env, events, i)
  {
    assert events[..|events| - 1][..i] == events[..i];
  }

  /** A whole run panics exactly when one of its events meets a cause of panic in the state it finds. */
  lemma {:induction false} RunPanicsExactly(env: Env, events: seq<Event>)
    ensures Run(env, events).None? <==> CauseMet(env, events)
  {
    hide Visit, PanicCause;
    if events != [] {
      var before, last := events[..|events| - 1], |events| - 1;
      RunPanicsExactly(env, before);
      RunKeepsInv(env, before);
      forall i | 0 <= i < last ensures CauseAt(env, before, i) == CauseAt(env, events, i) {
        CauseAtPrefix(env, events, i);
      }
      if Run(env, before).None? {
        var i :| 0 <= i < |before| && CauseAt(env, before, i);
        assert CauseAt(env, events, i);
      } else {
        VisitSound(env, Run(env, before).value, events[last]);
        assert CauseAt(env, events, last) <==> PanicCause(env, Run(env, before).value, events[last]);
      }
    }
  }

  /** In every run only shares of the job id allocated last go upstream. */
  lemma {:induction false} OnlyNewestGoesUpstream(env: Env, events: seq<Event>, share: Share)
    requires Run(env, events).Some? && Visit(env, Run(env, events).value, V2SubmitShares(share)).Done?
    ensures var s := Run(env, events).value;
            Visit(env, s, V2SubmitShares(share)).session.v1Log != s.v1Log ==> share.jobId == PrevId(s.jobId)
  {
    hide Run, Text.TakeBytes, ForeignChannelText, UnknownJobText, ExtraNonce2;
    hide VisitResponse, VisitSetDifficulty, VisitNotify, VisitSetupConnection, VisitOpenChannel;
    RunKeepsInv(env, events);
  }
}
