/**
 The messages the translating proxy exchanges with a Stratum V2 client (downstream) and a
 Stratum V1 pool (upstream), and the pieces of a block header both sides hash.
 */
module Stratum {
  import opened Wrappers
  import Text

  newtype byte = x: int | 0 <= x < 256
  const U32_MODULUS: nat := 0x1_0000_0000
  type u32 = x: int | 0 <= x < 0x1_0000_0000
  type i32 = x: int | -0x8000_0000 <= x < 0x8000_0000

  // ----- Stratum V1 -----

  /** mining.notify */
  datatype Notify = Notify(
    jobId: string, prevHash: seq<byte>, coinBase1: seq<byte>, coinBase2: seq<byte>,
    merkleBranch: seq<seq<byte>>, version: bv32, bits: u32, time: u32, cleanJobs: bool)

  datatype Subscription = Subscription(extraNonce1: seq<byte>, extraNonce2Size: nat)

  /**
   The JSON value of a V1 response. The parser for a plain answer takes a boolean and nothing else;
   any other value is given by what the two remaining parsers make of it (`None` when a parser
   rejects it).
   */
  datatype V1Result =
    | BoolResult(flag: bool)
    | OtherResult(versionMask: Option<bv32>, versionRolling: Option<bool>, subscription: Option<Subscription>)
  {
    function Boolean(): Option<bool> {
      if BoolResult? then Some(flag) else None
    }

    function Mask(): Option<bv32> {
      if BoolResult? then None else versionMask
    }

    function Rolling(): Option<bool> {
      if BoolResult? then None else versionRolling
    }

    function Subscribed(): Option<Subscription> {
      if BoolResult? then None else subscription
    }
  }

  /** A V1 error response. */
  datatype V1Error = V1Error(code: i32, message: string, traceback: Option<string>)

  /** A single precision number, as mining.set_difficulty carries one. */
  datatype Float = Finite(value: real) | Infinite(negative: bool) | NotANumber

  /** The requests the proxy sends upstream. */
  datatype V1Request =
    | Configure(mask: bv32)
    | Subscribe(agent: string, hostPort: string)
    | ExtranonceSubscribe
    | Authorize(user: string)
    | Submit(submitUser: string, jobId: string, extraNonce2: seq<byte>, ntime: u32, nonce: u32, versionBits: bv32)

  // ----- Stratum V2 -----

  /** SetupConnection */
  datatype Connection = Connection(host: string, port: u32, firmware: string, flags: u32)

  /** OpenStandardMiningChannel */
  datatype Channel = Channel(reqId: u32, user: string)

  /** SubmitSharesStandard */
  datatype Share = Share(channelId: u32, seqNum: u32, jobId: u32, ntime: u32, nonce: u32, version: bv32)

  // The fixed texts of V2 error messages.
  const MASK_NOT_NEGOTIATED := "Cannot negotiate upstream V1 version mask"
  const SETUP_ONLY_ONCE := "Connection can be setup only once"
  const SUBSCRIBE_FAILED := "Upstream subscribe failed"
  const NOT_AUTHORIZED := "Not authorized"
  const NOT_READY := "Service not ready"
  const OUT_OF_SEQUENCE := "Out of sequence OpenStandardMiningChannel msg"

  /** The most bytes a Str0_32 and a Str0_255 can hold. */
  const MAX_CODE: nat := 32
  const MAX_SETUP_CODE: nat := 255

  /** The conversion of a text to a bounded string; the proxy panics when it fails. */
  function Bounded(s: string, max: nat): Option<string> {
    if Text.ByteLength(s) <= max then Some(s) else None
  }

  lemma {:induction false} AsciiFits(s: string, max: nat)
    requires Text.Ascii(s) && |s| <= max
    ensures Bounded(s, max).Some?
  {
    Text.ByteLengthAscii(s);
  }

  lemma {:induction false} ShortFits(s: string, max: nat)
    requires 4 * |s| <= max
    ensures Bounded(s, max).Some?
  {
    Text.ByteLengthBetween(s);
  }

  /** The fixed texts fit into the codes of their messages ... */
  lemma {:induction false} FixedTextsFit()
    ensures Bounded(MASK_NOT_NEGOTIATED, MAX_SETUP_CODE).Some? && Bounded(SETUP_ONLY_ONCE, MAX_SETUP_CODE).Some?
    ensures Bounded(SUBSCRIBE_FAILED, MAX_CODE).Some? && Bounded(NOT_AUTHORIZED, MAX_CODE).Some?
    ensures Bounded(NOT_READY, MAX_CODE).Some?
  {
    hide Bounded;
    ShortFits(MASK_NOT_NEGOTIATED, MAX_SETUP_CODE);
    ShortFits(SETUP_ONLY_ONCE, MAX_SETUP_CODE);
    AsciiFits(SUBSCRIBE_FAILED, MAX_CODE);
    AsciiFits(NOT_AUTHORIZED, MAX_CODE);
    AsciiFits(NOT_READY, MAX_CODE);
  }

  /** ... all but one, which has 45 characters. */
  lemma {:induction false} OutOfSequenceTooLong()
    ensures Bounded(OUT_OF_SEQUENCE, MAX_CODE).None?
  {
    hide Text.ByteLength;
    Text.ByteLengthBetween(OUT_OF_SEQUENCE);
    assert |OUT_OF_SEQUENCE| == 45;
  }

  /**
   The messages the proxy sends downstream. A code has at most 32 bytes, that of a
   SetupConnectionError at most 255.
   */
  datatype V2Message =
    | SetupConnectionSuccess
    | SetupConnectionError(flags: u32, code: string)
    | OpenSuccess(reqId: u32, target: nat)
    | OpenError(reqId: u32, code: string)
    | SetTarget(maxTarget: nat)
    | NewMiningJob(jobId: u32, futureJob: bool, merkleRoot: seq<byte>, version: bv32)
    | SetNewPrevHash(jobId: u32, prevHash: seq<byte>, minNtime: u32, nbits: u32)
    | SubmitSharesSuccess
    | SubmitSharesError(channelId: u32, seqNum: u32, code: string)

  // ----- Blocks -----

  datatype Header = Header(
    version: bv32, prevHash: seq<byte>, merkleRoot: seq<byte>, time: u32, bits: u32, nonce: u32)

  /** Double SHA-256; nothing about it is used except that it is a function. */
  type Hash = seq<byte> -> seq<byte>

  /** Folds the branch hashes over the coinbase hash. */
  function FoldBranch(hash: Hash, root: seq<byte>, branch: seq<seq<byte>>): seq<byte>
    decreases |branch|
  {
    if branch == [] then root else FoldBranch(hash, hash(root + branch[0]), branch[1..])
  }

  function CoinBase(n: Notify, extraNonce1: seq<byte>, extraNonce2: seq<byte>): seq<byte> {
    n.coinBase1 + extraNonce1 + extraNonce2 + n.coinBase2
  }

  /** The merkle root of the block that `n` describes once both extranonces are filled in. */
  function MerkleRoot(hash: Hash, n: Notify, extraNonce1: seq<byte>, extraNonce2: seq<byte>): seq<byte> {
    FoldBranch(hash, hash(CoinBase(n, extraNonce1, extraNonce2)), n.merkleBranch)
  }
}
