/**
 Translating a share keeps the block header the miner hashed: over every run, the V1 submission
 for a live job lets the pool rebuild that header from its own notification.
 */
module TranslationShares {
  import opened Wrappers
  import opened Stratum
  import opened TranslationSpec
  import opened TranslationSafety
  import opened TranslationOrder
  import opened TranslationSources
  import opened Merkle
  import Opening = TranslationOpening

  // ----- Where a live job comes from -----

  /** The notification a job was built from, and the extranonce in effect at that moment. */
  datatype Origin = Origin(notify: Notify, extraNonce1: seq<byte>, extraNonce2Size: nat)

  /** The notification that the step for `e` translates into a job, if it translates one. */
  function Translated(s: Session, e: Event): Option<Origin> {
    if Finalizing(s, e).Some? then
      var s1 := Finalizing(s, e).value;
      if s1.deferred.Some? && s1.extraNonce1.Some?
      then Some(Origin(s1.deferred.value, s1.extraNonce1.value, s1.extraNonce2Size)) else None
    else if e.V1Notify? && s.extraNonce1.Some?
    then Some(Origin(e.notify, s.extraNonce1.value, s.extraNonce2Size))
    else None
  }

  /** The origin of the job id allocated last. */
  function NewestOrigin(env: Env, events: seq<Event>): Option<Origin>
    decreases |events|
  {
    if events == [] then None
    else
      var before := events[..|events| - 1];
      var s, s' := Run(env, before), Run(env, events);
      if s.Some? && s'.Some? && s'.value.jobId != s.value.jobId
      then Translated(s.value, events[|events| - 1])
      else NewestOrigin(env, before)
  }

  // ----- What the client was told about a job -----

  function JobMessage(env: Env, id: u32, o: Origin): V2Message {
    NewMiningJob(id, true, MerkleRoot(env.hash, o.notify, o.extraNonce1, ExtraNonce2(CHANNEL_ID, o.extraNonce2Size)),
                 o.notify.version)
  }

  function PrevHashMessage(id: u32, o: Origin): V2Message {
    SetNewPrevHash(id, o.notify.prevHash, o.notify.time, o.notify.bits)
  }

  /** Where in the output the most recent job is. */
  function LastJob(log: V2Log): (i: Option<nat>)
    ensures i.Some? ==> i.value < |log| && log[i.value].msg.NewMiningJob?
  {
    if log == [] then None
    else if log[|log| - 1].msg.NewMiningJob? then Some(|log| - 1)
    else LastJob(log[..|log| - 1])
  }

  /** The most recent job in the output is the one of `o`; once delivered, its previous hash follows it. */
  ghost predicate JobWritten(env: Env, log: V2Log, id: u32, o: Origin) {
    && LastJob(log).Some?
    && var i := LastJob(log).value;
    && log[i].msg == JobMessage(env, id, o)
    && (log[i].ok ==> i + 1 < |log| && log[i + 1].msg == PrevHashMessage(id, o))
  }

  ghost predicate LiveJob(env: Env, s: Session, o: Option<Origin>) {
    s.jobMap != map[] ==>
      && o.Some?
      && s.jobMap == map[PrevId(s.jobId) := Template(o.value.notify)]
      && JobWritten(env, s.v2Log, PrevId(s.jobId), o.value)
  }

  lemma {:induction false} PlainKeepsJob(env: Env, log: V2Log, log': V2Log, operational: bool, id: u32, o: Origin)
    requires PlainWrite(log, log', operational) && JobWritten(env, log, id, o)
    ensures JobWritten(env, log', id, o)
  {
    if log' != log {
      assert log'[..|log'| - 1] == log;
      assert LastJob(log') == LastJob(log);
    }
  }

  lemma {:induction false} MutedKeepsJob(env: Env, s: Session, s': Session, o: Option<Origin>)
    requires Muted(s, s') && LiveJob(env, s, o)
    ensures LiveJob(env, s', o)
  {
    hide JobWritten, PlainWrite;
    if s.jobMap != map[] {
      PlainKeepsJob(env, s.v2Log, s'.v2Log, s'.state == Operational, PrevId(s.jobId), o.value);
    }
  }

  lemma {:induction false} JobJustWritten(env: Env, log: V2Log, id: u32, o: Origin, ok: bool, ok': bool)
    ensures var log1 := log + [Sent(JobMessage(env, id, o), ok)];
            JobWritten(env, if ok then log1 + [Sent(PrevHashMessage(id, o), ok')] else log1, id, o)
  {
    hide MerkleRoot, ExtraNonce2;
    var log1 := log + [Sent(JobMessage(env, id, o), ok)];
    var log2 := log1 + [Sent(PrevHashMessage(id, o), ok')];
    assert LastJob(log1) == Some(|log|);
    assert log2[..|log1|] == log1;
    assert LastJob(log2) == Some(|log|);
  }

  lemma {:induction false} PerformNotifyMakesJob(env: Env, s: Session, n: Notify, o: Option<Origin>)
    requires s.forceFutureJobs && PerformNotify(env, s, n).Done? && LiveJob(env, s, o)
    ensures var s' := PerformNotify(env, s, n).session;
            LiveJob(env, s', if s'.jobId == s.jobId then o
                             else if s.extraNonce1.Some? then Some(Origin(n, s.extraNonce1.value, s.extraNonce2Size))
                             else None)
  {
    hide JobWritten, MerkleRoot, ExtraNonce2;
    if s.extraNonce1.Some? && |n.prevHash| == 32 {
      var origin := Origin(n, s.extraNonce1.value, s.extraNonce2Size);
      JobJustWritten(env, s.v2Log, s.jobId, origin, env.v2Fate(|s.v2Log|), env.v2Fate(|s.v2Log| + 1));
    }
  }

  lemma {:induction false} FinalizeMakesJob(env: Env, s: Session, o: Option<Origin>)
    requires s.forceFutureJobs && FinalizeOpenChannel(env, s).Done? && LiveJob(env, s, o) && s.extraNonce1.Some?
    ensures var s' := FinalizeOpenChannel(env, s).session;
            LiveJob(env, s', if s'.jobId == s.jobId then o
                             else if s.deferred.Some?
                             then Some(Origin(s.deferred.value, s.extraNonce1.value, s.extraNonce2Size))
                             else None)
  {
    hide PerformNotify, JobWritten;
    if s.channel.Some? {
      var m := OpenSuccess(s.channel.value.reqId, s.target.value);
      var sent := SendV2(env, s.(state := Operational), m);
      if s.jobMap != map[] {
        SuccessKeepsJob(env, s.v2Log, Sent(m, sent.ok), PrevId(s.jobId), o.value);
      }
      if sent.ok && s.deferred.Some? {
        PerformNotifyMakesJob(env, sent.session.(deferred := None), s.deferred.value, o);
      }
    }
  }

  lemma {:induction false} SuccessKeepsJob(env: Env, log: V2Log, m: Sent<V2Message>, id: u32, o: Origin)
    requires JobWritten(env, log, id, o) && m.msg.OpenSuccess?
    ensures JobWritten(env, log + [m], id, o)
  {
    assert (log + [m])[..|log|] == log;
  }

  lemma {:induction false} VisitKeepsLiveJob(env: Env, s: Session, e: Event, o: Option<Origin>)
    requires Inv(s) && LiveJob(env, s, o) && Visit(env, s, e).Done?
    ensures var s' := Visit(env, s, e).session;
            LiveJob(env, s', if s'.jobId != s.jobId then Translated(s, e) else o)
  {
    hide Visit, LiveJob, FinalizeOpenChannel, PerformNotify, AbortOpenChannel, Muted;
    var s' := Visit(env, s, e).session;
    VisitEffect(env, s, e);
    if Finalizing(s, e).Some? {
      var s1 := Finalizing(s, e).value;
      assert LiveJob(env, s1, o) by { SameJobs(env, s, s1, o); }
      FinalizeMakesJob(env, s1, o);
      var r := FinalizeOpenChannel(env, s1);
      if s' != r.session {
        var code :| s' == AbortOpenChannel(env, r.session, code);
        AbortMutes(env, r.session, code);
        MutedJobs(r.session, s');
        MutedKeepsJob(env, r.session, s', if r.session.jobId == s.jobId then o else Translated(s, e));
      }
    } else if e.V1Notify? && s.state == Operational {
      PerformNotifyMakesJob(env, s, e.notify, o);
    } else {
      MutedJobs(s, s');
      MutedKeepsJob(env, s, s', o);
    }
  }

  lemma {:induction false} MutedJobs(s: Session, s': Session)
    requires Muted(s, s')
    ensures s'.jobId == s.jobId
  {
  }

  lemma {:induction false} SameJobs(env: Env, s: Session, s': Session, o: Option<Origin>)
    requires LiveJob(env, s, o) && s'.jobId == s.jobId && s'.jobMap == s.jobMap && s'.v2Log == s.v2Log
    ensures LiveJob(env, s', o)
  {
  }

  lemma {:induction false} RunKeepsLiveJob(env: Env, events: seq<Event>)
    requires Run(env, events).Some?
    ensures LiveJob(env, Run(env, events).value, NewestOrigin(env, events))
  {
    hide Visit, LiveJob;
    if events != [] {
      var before := events[..|events| - 1];
      RunKeepsLiveJob(env, before);
      RunKeepsInv(env, before);
      VisitKeepsLiveJob(env, Run(env, before).value, events[|events| - 1], NewestOrigin(env, before));
    } else {
      NoJobsYet(env);
    }
  }

  /** The notification that a job was built from was sent by the pool. */
  lemma {:induction false} OriginWasNotified(env: Env, events: seq<Event>)
    requires Run(env, events).Some?
    ensures var o := NewestOrigin(env, events); o.Some? ==> V1Notify(o.value.notify) in events
  {
    hide Visit;
    if events != [] {
      var before, e := events[..|events| - 1], events[|events| - 1];
      OriginWasNotified(env, before);
      RunRemembers(env, before);
      assert events == before + [e];
    }
  }

  lemma {:induction false} NoJobsYet(env: Env)
    ensures LiveJob(env, FRESH, None)
  {
  }

  // ----- Headers -----

  /** The header a miner hashes for a share, from the two messages that describe its job. */
  function MinerHeader(job: V2Message, prev: V2Message, share: Share): Header
    requires job.NewMiningJob? && prev.SetNewPrevHash?
  {
    Header(share.version, prev.prevHash, job.merkleRoot, share.ntime, prev.nbits, share.nonce)
  }

  /** The version bits of a submission replace those of the job under the mask (BIP 310, "version-rolling"). */
  function PoolVersion(job: bv32, bits: bv32, mask: bv32): bv32 {
    Join(Outside(mask, job), Inside(mask, bits))
  }

  function Inside(mask: bv32, x: bv32): bv32 {
    x & mask
  }

  function Outside(mask: bv32, x: bv32): bv32 {
    x & !mask
  }

  function Join(x: bv32, y: bv32): bv32 {
    x | y
  }

  predicate SameOutside(mask: bv32, x: bv32, y: bv32) {
    Outside(mask, x) == Outside(mask, y)
  }

  /**
   The merkle root a pool finds for a submission: it puts the extranonces into its own coinbase, by
   position, and climbs from the hash of that to the root.
   */
  ghost predicate PoolRoot(env: Env, o: Origin, submit: V1Request, coinbase: seq<byte>, root: seq<byte>)
    requires submit.Submit?
  {
    && LaidOut(coinbase, o.notify, o.extraNonce1, submit.extraNonce2)
    && exists path :: Climbs(env.hash, env.hash(coinbase), o.notify.merkleBranch, path, root)
  }

  /** The header a pool rebuilds from its notification, a submission and the merkle root it found. */
  function PoolHeader(mask: bv32, o: Origin, submit: V1Request, root: seq<byte>): Header
    requires submit.Submit?
  {
    Header(PoolVersion(o.notify.version, submit.versionBits, mask), o.notify.prevHash, root,
           submit.ntime, o.notify.bits, submit.nonce)
  }

  /** The pool's root is the one in the job message. */
  lemma {:induction false} PoolRootIsMiners(
      env: Env, o: Origin, submit: V1Request, coinbase: seq<byte>, root: seq<byte>)
    requires submit.Submit? && PoolRoot(env, o, submit, coinbase, root)
    ensures root == MerkleRoot(env.hash, o.notify, o.extraNonce1, submit.extraNonce2)
  {
    CoinBaseLaidOut(coinbase, o.notify, o.extraNonce1, submit.extraNonce2);
    var path :| Climbs(env.hash, env.hash(coinbase), o.notify.merkleBranch, path, root);
    FoldClimbs(env.hash, env.hash(coinbase), o.notify.merkleBranch, path, root);
  }

  lemma {:induction false} MaskTwice(m: bv32, x: bv32)
    ensures Inside(m, Inside(m, x)) == Inside(m, x)
  {
  }

  lemma {:induction false} MaskSplit(m: bv32, x: bv32)
    ensures Join(Outside(m, x), Inside(m, x)) == x
  {
  }

  lemma {:induction false} MaskOut(m: bv32, v: bv32, x: bv32)
    ensures Outside(m, Join(Outside(m, v), Inside(m, x))) == Outside(m, v)
  {
  }

  /** The pool's version is the share's exactly when the share left the bits outside the mask alone. */
  lemma {:induction false} VersionRebuilt(job: bv32, share: bv32, mask: bv32)
    ensures PoolVersion(job, Inside(mask, share), mask) == share <==> SameOutside(mask, share, job)
  {
    hide Inside, Outside, Join;
    MaskTwice(mask, share);
    MaskSplit(mask, share);
    MaskOut(mask, job, share);
    assert PoolVersion(job, Inside(mask, share), mask) == Join(Outside(mask, job), Inside(mask, share));
  }

  /** `submit` reports the share, under an extranonce 2 of the given size. */
  predicate Reports(env: Env, submit: V1Request, share: Share, size: nat)
    requires submit.Submit?
  {
    && submit.extraNonce2 == ExtraNonce2(CHANNEL_ID, size)
    && submit.ntime == share.ntime && submit.nonce == share.nonce
    && submit.versionBits == Inside(env.mask, share.version)
  }

  lemma {:induction false} HeadersAgree(env: Env, o: Origin, submit: V1Request, id: u32, share: Share,
                                        coinbase: seq<byte>, root: seq<byte>)
    requires submit.Submit? && Reports(env, submit, share, o.extraNonce2Size)
    requires PoolRoot(env, o, submit, coinbase, root)
    ensures PoolHeader(env.mask, o, submit, root) == MinerHeader(JobMessage(env, id, o), PrevHashMessage(id, o), share)
            <==> SameOutside(env.mask, share.version, o.notify.version)
  {
    hide MerkleRoot, ExtraNonce2, PoolVersion, SameOutside, Inside, PoolRoot;
    VersionRebuilt(o.notify.version, share.version, env.mask);
    PoolRootIsMiners(env, o, submit, coinbase, root);
  }

  /** The submission that the step for a share of the live job sends. */
  lemma {:induction false} ShareSubmitted(env: Env, s: Session, share: Share)
    requires share.channelId == CHANNEL_ID && s.channel.Some? && share.jobId in s.jobMap && !IdTaken(s, 0)
    ensures var r := Visit(env, s, V2SubmitShares(share));
            && r.Done?
            && r.session.v1Log == s.v1Log + [Sent(V1Frame(s.reqId, SubmissionOf(env, s, share)), env.v1Fate(|s.v1Log|))]
            && r.session.v2Log == s.v2Log
  {
    hide ExtraNonce2;
  }

  function SubmissionOf(env: Env, s: Session, share: Share): (r: V1Request)
    requires s.channel.Some? && share.jobId in s.jobMap
    ensures r.Submit? && Reports(env, r, share, s.extraNonce2Size)
    ensures r.jobId == s.jobMap[share.jobId].jobId && r.submitUser == s.channel.value.user
  {
    Submit(s.channel.value.user, s.jobMap[share.jobId].jobId, ExtraNonce2(CHANNEL_ID, s.extraNonce2Size),
           share.ntime, share.nonce, share.version & env.mask)
  }

  /** The pool rebuilds from `submit` the header that the newest job in the output made the miner hash. */
  ghost predicate HeaderKept(env: Env, log: V2Log, share: Share, o: Origin, submit: V1Request, root: seq<byte>)
    requires submit.Submit? && JobWritten(env, log, share.jobId, o) && log[LastJob(log).value].ok
  {
    var i := LastJob(log).value;
    PoolHeader(env.mask, o, submit, root) == MinerHeader(log[i].msg, log[i + 1].msg, share)
  }

  lemma {:induction false} SubmittedForOrigin(env: Env, s: Session, share: Share, o: Origin, coinbase: seq<byte>,
                                              root: seq<byte>)
    requires s.channel.Some? && share.jobId in s.jobMap && LiveJob(env, s, Some(o))
    ensures var submit := SubmissionOf(env, s, share);
            && submit.jobId == o.notify.jobId
            && JobWritten(env, s.v2Log, share.jobId, o)
            && (s.extraNonce2Size == o.extraNonce2Size && s.v2Log[LastJob(s.v2Log).value].ok
                && PoolRoot(env, o, submit, coinbase, root) ==>
                  (HeaderKept(env, s.v2Log, share, o, submit, root)
                   <==> SameOutside(env.mask, share.version, o.notify.version)))
  {
    hide PoolHeader, MinerHeader, SameOutside, JobMessage, PrevHashMessage, LastJob, SubmissionOf, Reports, PoolRoot;
    var submit := SubmissionOf(env, s, share);
    if s.extraNonce2Size == o.extraNonce2Size && PoolRoot(env, o, submit, coinbase, root) {
      HeadersAgree(env, o, submit, share.jobId, share, coinbase, root);
    }
  }

  /**
   In every run, a share for a live job is submitted under the V1 id of the notification the job
   was built from and for the channel's user. With the extranonce size unchanged since then, the pool,
   from its own coinbase and merkle path, rebuilds the very header that the delivered job and
   previous-hash messages made the miner hash, exactly when the share differs from the job's version
   only inside the mask.
   */
  lemma {:induction false} ShareKeepsHeader(env: Env, events: seq<Event>, share: Share, coinbase: seq<byte>,
                                            root: seq<byte>)
    requires Run(env, events).Some?
    requires var s := Run(env, events).value;
             share.channelId == CHANNEL_ID && s.channel.Some? && share.jobId in s.jobMap && !IdTaken(s, 0)
    ensures NewestOrigin(env, events).Some?
    ensures var s, o := Run(env, events).value, NewestOrigin(env, events).value;
            var r, submit := Visit(env, s, V2SubmitShares(share)), SubmissionOf(env, s, share);
            && r.Done?
            && r.session.v1Log == s.v1Log + [Sent(V1Frame(s.reqId, submit), env.v1Fate(|s.v1Log|))]
            && submit.jobId == o.notify.jobId && submit.submitUser == s.channel.value.user
            && JobWritten(env, s.v2Log, share.jobId, o)
            && (s.extraNonce2Size == o.extraNonce2Size && s.v2Log[LastJob(s.v2Log).value].ok
                && PoolRoot(env, o, submit, coinbase, root) ==>
                  (HeaderKept(env, s.v2Log, share, o, submit, root)
                   <==> SameOutside(env.mask, share.version, o.notify.version)))
  {
    hide Visit, Run, NewestOrigin, PoolHeader, SameOutside, JobWritten, SubmissionOf, HeaderKept, PoolRoot;
    var s := Run(env, events).value;
    RunKeepsLiveJob(env, events);
    ShareSubmitted(env, s, share);
    SubmittedForOrigin(env, s, share, NewestOrigin(env, events).value, coinbase, root);
  }

  /**
   The same for a pool that keeps the block's transactions: if the branch it sent is that of its list,
   with its coinbase in front, the root is that of the whole tree.
   */
  lemma {:induction false} ShareKeepsTreeHeader(env: Env, events: seq<Event>, share: Share, coinbase: seq<byte>,
                                                transactions: seq<seq<byte>>)
    requires Run(env, events).Some?
    requires var s := Run(env, events).value;
             share.channelId == CHANNEL_ID && s.channel.Some? && share.jobId in s.jobMap && !IdTaken(s, 0)
    ensures NewestOrigin(env, events).Some?
    ensures var s, o := Run(env, events).value, NewestOrigin(env, events).value;
            var submit, leaves := SubmissionOf(env, s, share), [env.hash(coinbase)] + transactions;
            && JobWritten(env, s.v2Log, share.jobId, o)
            && (s.extraNonce2Size == o.extraNonce2Size && s.v2Log[LastJob(s.v2Log).value].ok
                && LaidOut(coinbase, o.notify, o.extraNonce1, submit.extraNonce2)
                && o.notify.merkleBranch == Branch(env.hash, leaves) ==>
                  (HeaderKept(env, s.v2Log, share, o, submit, TreeRoot(env.hash, leaves))
                   <==> SameOutside(env.mask, share.version, o.notify.version)))
  {
    hide Visit, Run, NewestOrigin, PoolHeader, SameOutside, JobWritten, SubmissionOf, HeaderKept, LaidOut, Climbs;
    hide Branch, TreeRoot;
    var leaves := [env.hash(coinbase)] + transactions;
    var root := TreeRoot(env.hash, leaves);
    ShareKeepsHeader(env, events, share, coinbase, root);
    FoldGivesRoot(env.hash, leaves);
    var path := FoldPath(env.hash, leaves[0], Branch(env.hash, leaves));
  }

  /** What the newest job in the output tells the client, field by field. */
  lemma {:induction false} LiveJobAsNotified(env: Env, events: seq<Event>, coinbase: seq<byte>, path: seq<seq<byte>>,
                                             root: seq<byte>)
    requires Run(env, events).Some? && Run(env, events).value.jobMap != map[]
    ensures NewestOrigin(env, events).Some?
    ensures var s, o := Run(env, events).value, NewestOrigin(env, events).value;
            && LastJob(s.v2Log).Some?
            && var i := LastJob(s.v2Log).value;
            && var job := s.v2Log[i].msg;
            && s.jobMap.Keys == {job.jobId} && job.futureJob && job.version == o.notify.version
            && (LaidOut(coinbase, o.notify, o.extraNonce1, ExtraNonce2(CHANNEL_ID, o.extraNonce2Size)) ==>
                  Climbs(env.hash, env.hash(coinbase), o.notify.merkleBranch, path, root) ==> job.merkleRoot == root)
            && (s.v2Log[i].ok ==> && i + 1 < |s.v2Log| && s.v2Log[i + 1].msg.SetNewPrevHash?
                                  && var prev := s.v2Log[i + 1].msg;
                                  && prev.jobId == job.jobId && prev.prevHash == o.notify.prevHash
                                  && prev.minNtime == o.notify.time && prev.nbits == o.notify.bits)
  {
    hide Run, NewestOrigin, Template, LastJob, ExtraNonce2, LaidOut, FoldBranch, Climbs, CoinBase;
    RunKeepsLiveJob(env, events);
    var s, o := Run(env, events).value, NewestOrigin(env, events).value;
    var x := ExtraNonce2(CHANNEL_ID, o.extraNonce2Size);
    CoinBaseLaidOut(coinbase, o.notify, o.extraNonce1, x);
    if Climbs(env.hash, env.hash(coinbase), o.notify.merkleBranch, path, root) {
      FoldClimbs(env.hash, env.hash(coinbase), o.notify.merkleBranch, path, root);
    }
  }

  /** The submitted extranonce 2 completes the coinbase of the job exactly when its size is unchanged. */
  lemma {:induction false} CoinBaseKept(env: Env, s: Session, share: Share, o: Origin)
    requires s.channel.Some? && share.jobId in s.jobMap
    ensures CoinBase(o.notify, o.extraNonce1, SubmissionOf(env, s, share).extraNonce2)
            == CoinBase(o.notify, o.extraNonce1, ExtraNonce2(CHANNEL_ID, o.extraNonce2Size))
            <==> s.extraNonce2Size == o.extraNonce2Size
  {
    hide Template;
    var x, y := ExtraNonce2(CHANNEL_ID, s.extraNonce2Size), ExtraNonce2(CHANNEL_ID, o.extraNonce2Size);
    assert |CoinBase(o.notify, o.extraNonce1, x)| - |CoinBase(o.notify, o.extraNonce1, y)| == |x| - |y|;
  }

  /**
   After any run with a live job, a new extranonce of another size leaves the job live: its shares
   still go upstream, with an extranonce 2 that does not complete the coinbase of the job.
   */
  lemma {:induction false} SizeChangeMisleads(env: Env, events: seq<Event>, x: Subscription, share: Share)
    requires Run(env, events).Some?
    requires var s := Run(env, events).value;
             share.channelId == CHANNEL_ID && s.channel.Some? && share.jobId in s.jobMap && !IdTaken(s, 0)
    ensures NewestOrigin(env, events).Some?
    ensures var o, changed := NewestOrigin(env, events).value, events + [V1SetExtranonce(x)];
            && Run(env, changed).Some? && NewestOrigin(env, changed) == Some(o)
            && var s := Run(env, changed).value;
            && s.channel.Some? && share.jobId in s.jobMap
            && Visit(env, s, V2SubmitShares(share)).Done?
            && Visit(env, s, V2SubmitShares(share)).session.v1Log ==
               s.v1Log + [Sent(V1Frame(s.reqId, SubmissionOf(env, s, share)), env.v1Fate(|s.v1Log|))]
            && (CoinBase(o.notify, o.extraNonce1, SubmissionOf(env, s, share).extraNonce2) ==
                CoinBase(o.notify, o.extraNonce1, ExtraNonce2(CHANNEL_ID, o.extraNonce2Size))
                <==> x.extraNonce2Size == o.extraNonce2Size)
  {
    RunKeepsLiveJob(env, events);
    var changed := events + [V1SetExtranonce(x)];
    assert changed[..|events|] == events;
    ExtranonceStep(env, Run(env, events).value, x);
    hide Visit, CoinBase, ExtraNonce2, LiveJob, SubmissionOf;
    var s := Run(env, changed).value;
    ShareSubmitted(env, s, share);
    CoinBaseKept(env, s, share, NewestOrigin(env, events).value);
  }

  lemma {:induction false} ExtranonceStep(env: Env, s: Session, x: Subscription)
    ensures Visit(env, s, V1SetExtranonce(x)) ==
            Done(s.(extraNonce1 := Some(x.extraNonce1), extraNonce2Size := x.extraNonce2Size), true)
  {
  }

  lemma {:induction false} RunConcat(env: Env, s: Session, a: seq<Event>, b: seq<Event>)
    requires RunFrom(env, s, a).Some?
    ensures RunFrom(env, s, a + b) == RunFrom(env, RunFrom(env, s, a).value, b)
    decreases |b|
  {
    hide Visit;
    if b == [] {
      assert a + b == a;
    } else {
      assert (a + b)[..|a + b| - 1] == a + b[..|b| - 1];
      RunConcat(env, s, a, b[..|b| - 1]);
    }
  }

  /** Every frame offered upstream is taken, too. */
  ghost predicate Taking(env: Env) {
    (forall k: nat :: env.v1Fate(k)) && Opening.Delivering(env)
  }

  lemma {:induction false} SetupRun(env: Env, c: Connection)
    requires Taking(env)
    ensures var r := Visit(env, FRESH, V2SetupConnection(c));
            r == Done(FRESH.(state := V1Configure, conn := Some(c), reqId := 1, reqMap := map[0 := ConfigureReq],
                             v1Log := r.session.v1Log), true)
  {
    hide VisitSubmitShares, VisitSetDifficulty, VisitNotify, VisitOpenChannel, VisitResponse;
    assert env.v1Fate(0);
  }

  lemma {:induction false} ConfiguredRun(env: Env, s: Session)
    requires Taking(env) && s.reqMap == map[0 := ConfigureReq]
    ensures var r := Visit(env, s, V1Response(Some(0), ResultResponse(OtherResult(Some(env.mask), Some(true), None))));
            r == Done(s.(state := ConnectionSetup, reqMap := map[], v2Log := r.session.v2Log), true)
  {
    hide VisitSubmitShares, VisitSetDifficulty, VisitNotify, VisitOpenChannel, VisitSetupConnection;
    hide SubscribeResult, AuthorizeResult, SubmitResult, HandleError;
    assert env.v2Fate(|s.v2Log|);
  }

  lemma {:induction false} OpenRun(env: Env, s: Session, p: Channel)
    requires Taking(env) && !env.tryXnsub && s.state == ConnectionSetup && s.conn.Some? && s.reqId == 1
             && s.reqMap == map[]
    ensures var r := Visit(env, s, V2OpenChannel(p));
            r == Done(s.(state := OpenPending, channel := Some(p), reqId := 3,
                         reqMap := map[1 := SubscribeReq, 2 := AuthorizeReq], v1Log := r.session.v1Log), true)
  {
    hide VisitSubmitShares, VisitSetDifficulty, VisitNotify, VisitSetupConnection, VisitResponse, HostPort, RefuseOpen;
    assert env.v1Fate(|s.v1Log|) && env.v1Fate(|s.v1Log| + 1);
  }

  /** A client sets up its connection and opens a channel. */
  lemma {:induction false} PendingRun(env: Env, c: Connection, p: Channel) returns (events: seq<Event>)
    requires Taking(env) && !env.tryXnsub
    ensures Run(env, events).Some?
    ensures var s := Run(env, events).value;
            && Opening.Opening(s, Opening.Ids(1, 2, None)) && s.reqMap.Keys == {1, 2} && s.reqId == 3
            && s.target.None? && s.deferred.None? && s.channel == Some(p) && s.jobId == 0
  {
    hide Visit, Run;
    var configured := V1Response(Some(0), ResultResponse(OtherResult(Some(env.mask), Some(true), None)));
    assert Run(env, []) == Some(FRESH) by { EmptyRun(env); }
    SetupRun(env, c);
    RunSnoc(env, [], V2SetupConnection(c));
    ConfiguredRun(env, Run(env, [] + [V2SetupConnection(c)]).value);
    RunSnoc(env, [] + [V2SetupConnection(c)], configured);
    OpenRun(env, Run(env, [] + [V2SetupConnection(c)] + [configured]).value, p);
    RunSnoc(env, [] + [V2SetupConnection(c)] + [configured], V2OpenChannel(p));
    events := [] + [V2SetupConnection(c)] + [configured] + [V2OpenChannel(p)];
  }

  lemma {:induction false} EmptyRun(env: Env)
    ensures Run(env, []) == Some(FRESH)
  {
  }

  /** What a pool may send to an open request: a notification, both answers and a difficulty. */
  function PoolAnswers(x: Subscription, n: Notify): seq<Event> {
    [V1Notify(n), V1Response(Some(1), ResultResponse(OtherResult(None, None, Some(x)))),
     V1Response(Some(2), ResultResponse(BoolResult(true))), V1SetDifficulty(Finite(1.0))]
  }

  lemma {:induction false} PoolAnswersReady(s0: Session, x: Subscription, n: Notify)
    requires s0.target.None? && |n.prevHash| == 32
    ensures Opening.JustReady(s0, Opening.Ids(1, 2, None), PoolAnswers(x, n))
    ensures Opening.Cached(PoolAnswers(x, n), s0.deferred) == Some(n)
  {
    var ids, es := Opening.Ids(1, 2, None), PoolAnswers(x, n);
    assert Opening.ArrivedIn(s0, ids, es[..0]) == Opening.Arrived(None, false, None, None, s0.deferred);
    hide Opening.Subscribed, Opening.Authorized, Opening.Target, Opening.Cached, Opening.XnsubAnswer;
    assert es[..1][..0] == es[..0] && es[..2][..1] == es[..1] && es[..3][..2] == es[..2] && es[..3] == es[..|es| - 1];
    Opening.ArrivedSnoc(s0, ids, es[..1]);
    Opening.ArrivedSnoc(s0, ids, es[..2]);
    Opening.ArrivedSnoc(s0, ids, es[..3]);
    Opening.ArrivedSnoc(s0, ids, es);
    assert Opening.ArrivedIn(s0, ids, es[..3]) == Opening.Arrived(Some(x), true, None, None, Some(n));
  }

  /** With such answers the job of the notification is live. */
  lemma {:induction false} LiveRun(env: Env, c: Connection, p: Channel, x: Subscription, n: Notify)
    returns (events: seq<Event>)
    requires Taking(env) && !env.tryXnsub && |n.prevHash| == 32
    ensures Run(env, events).Some?
    ensures var s := Run(env, events).value; s.channel == Some(p) && 0 in s.jobMap && !IdTaken(s, 0)
  {
    hide Visit, RunFrom;
    var ids, answers := Opening.Ids(1, 2, None), PoolAnswers(x, n);
    var pending := PendingRun(env, c, p);
    var s0 := Run(env, pending).value;
    PoolAnswersReady(s0, x, n);
    Opening.OpeningCompletes(env, s0, ids, answers);
    RunConcat(env, FRESH, pending, answers);
    events := pending + answers;
  }

  /** So there are runs in which a share goes upstream with an extranonce 2 of the wrong size. */
  lemma {:induction false} MisledRunExists(env: Env) returns (events: seq<Event>, share: Share)
    requires Taking(env) && !env.tryXnsub
    ensures Run(env, events).Some? && NewestOrigin(env, events).Some?
    ensures var s, o := Run(env, events).value, NewestOrigin(env, events).value;
            && s.channel.Some? && share.jobId in s.jobMap
            && Visit(env, s, V2SubmitShares(share)).Done?
            && Visit(env, s, V2SubmitShares(share)).session.v1Log ==
               s.v1Log + [Sent(V1Frame(s.reqId, SubmissionOf(env, s, share)), true)]
            && CoinBase(o.notify, o.extraNonce1, SubmissionOf(env, s, share).extraNonce2)
               != CoinBase(o.notify, o.extraNonce1, ExtraNonce2(CHANNEL_ID, o.extraNonce2Size))
  {
    hide Visit, Run, CoinBase, ExtraNonce2, SubmissionOf;
    share := Share(CHANNEL_ID, 0, 0, 0, 0, 0);
    var n := Notify("job", Zeros(32), [], [], [], 0, 0, 0, true);
    var live := LiveRun(env, Connection("pool", 3333, "1.0", 0), Channel(1, "worker"), Subscription([], 4), n);
    SizeChangeMisleads(env, live, Subscription([], 4), share);
    var x := Subscription([], NewestOrigin(env, live).value.extraNonce2Size + 1);
    SizeChangeMisleads(env, live, x, share);
    events := live + [V1SetExtranonce(x)];
    assert env.v1Fate(|Run(env, events).value.v1Log|);
  }

  // ----- Extranonce 2 -----

  /** The number a little-endian byte string stands for. */
  function LittleEndianValue(b: seq<byte>): nat {
    if b == [] then 0 else b[0] as nat + 256 * LittleEndianValue(b[1..])
  }

  function Pow256(k: nat): (p: nat)
    ensures p >= 1
  {
    if k == 0 then 1 else 256 * Pow256(k - 1)
  }

  lemma {:induction false} ZerosValue(n: nat)
    ensures LittleEndianValue(Zeros(n)) == 0
  {
    if n > 0 {
      assert Zeros(n)[1..] == Zeros(n - 1);
      ZerosValue(n - 1);
    }
  }

  lemma {:induction false} ValueOfConcat(a: seq<byte>, b: seq<byte>)
    ensures LittleEndianValue(a + b) == LittleEndianValue(a) + Pow256(|a|) * LittleEndianValue(b)
  {
    if a == [] {
      assert a + b == b;
    } else {
      ValueOfConcat(a[1..], b);
      assert (a + b)[1..] == a[1..] + b;
      assert Pow256(|a|) * LittleEndianValue(b) == 256 * (Pow256(|a| - 1) * LittleEndianValue(b));
    }
  }

  lemma {:induction false} ValueOfFour(b: seq<byte>)
    requires |b| == 4
    ensures LittleEndianValue(b) == b[0] as nat + 256 * (b[1] as nat + 256 * (b[2] as nat + 256 * b[3] as nat))
  {
    assert b[1..] == [b[1], b[2], b[3]] && b[1..][1..] == [b[2], b[3]] && b[1..][1..][1..] == [b[3]];
    assert LittleEndianValue([b[3]]) == b[3] as nat;
    assert LittleEndianValue([b[2], b[3]]) == b[2] as nat + 256 * b[3] as nat;
  }

  lemma {:induction false} Digits(n: u32)
    ensures n == n % 256 + 256 * (n / 256 % 256 + 256 * (n / 65536 % 256 + 256 * (n / 16777216 % 256)))
  {
    assert n / 256 / 256 == n / 65536 && n / 65536 / 256 == n / 16777216;
  }

  lemma {:induction false} LittleEndianRoundTrip(n: u32)
    ensures LittleEndianValue(LittleEndian(n)) == n
  {
    hide LittleEndianValue;
    ValueOfFour(LittleEndian(n));
    Digits(n);
  }

  /** The extranonce 2 has the pool's size and encodes the channel id, or its low bytes when it is short. */
  lemma {:induction false} ExtraNonce2Value(channelId: u32, size: nat)
    ensures |ExtraNonce2(channelId, size)| == size
    ensures size >= 4 ==> LittleEndianValue(ExtraNonce2(channelId, size)) == channelId
    ensures size < 4 ==>
              var low := LittleEndianValue(ExtraNonce2(channelId, size));
              var high := LittleEndianValue(LittleEndian(channelId)[size..]);
              low < Pow256(size) && channelId == low + Pow256(size) * high
  {
    LittleEndianRoundTrip(channelId);
    hide LittleEndian, LittleEndianValue, Pow256, Zeros;
    var b := LittleEndian(channelId);
    if size >= 4 {
      ValueOfConcat(b, Zeros(size - 4));
      ZerosValue(size - 4);
    } else {
      ValueOfConcat(b[..size], b[size..]);
      assert b[..size] + b[size..] == b;
      ValueBelow(b[..size]);
    }
  }

  lemma {:induction false} ValueBelow(b: seq<byte>)
    ensures LittleEndianValue(b) < Pow256(|b|)
  {
    if b != [] {
      ValueBelow(b[1..]);
    }
  }
}
