# Verified models of a mining stack

This project models and proves the trickiest logic of a Bitcoin mining firmware and its proxy: the
Stratum V2 to V1 translating proxy, the PLL divider table of the hashing chip, the start/stop life
cycle of a hash chain and the monitor that watches it, the work registry with its solution
accounting, the Block Erupter solver, and three text formats and configuration rules of the build
and upgrade tools.

Each part follows the shape of the source. Objects that change in place are classes
(`V2ToV1Translation`, `Chain`, `Manager`, `WorkRegistry`, `HashChain`, `BlockErupterSolver`); loops
are methods with invariants. Every such method is proved to do what a function on values says, and
the lemmas prove what all runs of those functions keep. Every lemma is marked `{:induction false}`: no
proof leans on Dafny's automatic induction, and each inductive step is written out.

| file | part |
|---|---|
| `Stratum.dfy`, `TranslationSpec.dfy`, `Translation.dfy` | messages, one step of the translation, the translation object |
| `TranslationSafety.dfy` | state invariant, exact causes of panics, the job map |
| `TranslationOrder.dfy` | order of replies and jobs over whole runs |
| `TranslationOpening.dfy` | confluence of the opening handshake |
| `TranslationReplies.dfy`, `TranslationSources.dfy` | which answers the client gets over whole runs; where what is passed on comes from |
| `Merkle.dfy`, `TranslationShares.dfy` | merkle trees and branches; a translated share keeps the block header |
| `TranslationRequests.dfy` | pairing of requests and responses, wrap-around included |
| `Pll.dfy` | divider table and lookup |
| `Monitor.dfy`, `Lifecycle.dfy` | the timed automaton, and the manager whose messages it accepts |
| `Registry.dfy`, `Accounting.dfy` | work registry, counters, solution accounting |
| `Erupter.dfy` | the solver iterator |
| `Prefix.dfy`, `Sorting.dfy` | longest prefix wins |
| `Packages.dfy`, `PackageDicts.dfy`, `PackagesParsed.dfy`, `PackagesRoundTrip.dfy` | the package index: parser and printer, attribute dictionaries, what parsed packages are like, the round trip |
| `Backup.dfy`, `Rounding.dfy` | the partition table round trip, division in doubles |
| `Text.dfy`, `Wrappers.dfy` | text as Rust and Python handle it, options |

How the environment enters: each attempt to send to one of the proxy's bounded queues succeeds or
fails as a function of its number says, and theorems hold for every such function unless they say
which sends succeed. Double SHA-256 is an arbitrary function. The debug rendering of a
pool's error takes an arbitrary table of printable characters and both habits that library versions
differ in. A work generator that has ended stays ended, as
open/bosminer/bosminer/src/work/solver.rs:190-205 has it. The version mask is a parameter; the
source's constant is at open/protocols/stratum/src/lib.rs:33. A panic ends a run. Times are
millisecond numbers handed to each step.

Properties that look natural but are false of the code, with what is proved instead:

- An out-of-sequence OpenStandardMiningChannel is refused: its 45-byte refusal does not fit into a
  32-byte code, so the conversion panics before anything is sent
  (`TranslationSafety.OutOfSequencePanics`; `TranslationSafety.OpenFirstPanics` is a run of one
  message). The refusal of a repeated SetupConnection does fit, and that one falls through.
- Messages of a manager always follow (On Running* Off)*: false when a start follows a halt that was
  not confirmed or an initialisation that panicked, since no Off was sent
  (`Lifecycle.StrandedRunExists`), or is made while a chain is installed; proved exactly otherwise.
- Refusing a share never fails: the refusal of a foreign channel id below 10000000 is shorter than
  the 32 bytes that are cut from it and panics (`TranslationSafety.ForeignChannelCut`), and so does
  passing on an error whose message has a character across byte 32 (`TranslationSafety.ErrorCut`,
  `TranslationSafety.WideErrorPanics`).
- A share always rebuilds its header: only while the extranonce 2 size is the one at the job's
  notification (`TranslationShares.SizeChangeMisleads`, `TranslationShares.MisledRunExists`) and
  outside the mask the version is the job's.
- The client of an open channel knows the session's target: not after a SetTarget that the queue did not
  take, since nothing repeats it (`TranslationReplies.RunShowsTarget`).
- Resizing the chip counters keeps the totals: only when the dropped chips are zero
  (`Accounting.ResizeKeepsTotals`).
- A backup can be read back: not one without partitions (`Backup.NoPartitionsFails`) or with a comma
  or line break in a name, and a size whose 1024th part is no double comes back rounded
  (`Backup.SizeRoundTrip`); `Backup.BackupAndRead` has the exact condition.
- A printed package index is read back: not with a blank line in a value
  (`PackagesRoundTrip.BlankLineCuts`) or an empty Require before Version
  (`PackagesRoundTrip.LossyIndexExists`); `PackagesRoundTrip.ParsePrintParse` has the exact condition.
- The registry's comment gives work a lifetime of size / 2 stores; the code keeps it for
  size - size / 2, which is one more for odd sizes. The code is modelled.

## Model

| member | source | states |
|---|---|---|
| `Translation.V2ToV1Translation.constructor` | open/stratum-proxy/src/translation.rs:192-217 | a new translation is in the initial state with empty maps, counters at zero and future jobs forced |
| `Translation.V2ToV1Translation.SubmitRequest` | open/stratum-proxy/src/translation.rs:220-252 | registers the handlers under the next id and offers the request; panics exactly when the id is still registered |
| `Translation.V2ToV1Translation.PerformNotify` | open/stratum-proxy/src/translation.rs:757-811 | allocates the job id and clears the map before the previous hash can fail, then sends the job and, if that was taken, its previous hash |
| `Translation.V2ToV1Translation.FinalizeOpenChannel` | open/stratum-proxy/src/translation.rs:255-287 | goes operational before the reply can fail; a cached notification is translated only after a delivered reply |
| `Translation.V2ToV1Translation.AbortOpenChannel` | open/stratum-proxy/src/translation.rs:308-341 | forgets authorization, extranonce and channel, and replies with an error only if there was a channel |
| `Translation.V2ToV1Translation.RejectShares` | open/stratum-proxy/src/translation.rs:738-755 | sends the first 32 bytes of the text; panics exactly when there is no such slice |
| `Translation.V2ToV1Translation.VisitStratumResultOrError` | open/stratum-proxy/src/translation.rs:816-841 | the registered handlers are removed and run once; unknown and missing ids change nothing |
| `Translation.V2ToV1Translation.SetupConnection` | open/stratum-proxy/src/translation.rs:994-1038 | a repeated setup is refused and then still carried out |
| `Translation.V2ToV1Translation.OpenStandardMiningChannel` | open/stratum-proxy/src/translation.rs:1048-1084 | an out-of-sequence open converts its refusal first, which panics; otherwise channel and state are set before the requests go out |
| `Translation.V2ToV1Translation.RequestChannel` | open/stratum-proxy/src/translation.rs:1092-1140 | subscribe, optional extranonce subscription and authorize, up to the first send that fails |
| `Translation.V2ToV1Translation.SubmitSharesStandard` | open/stratum-proxy/src/translation.rs:1149-1218 | a share goes upstream under the live job's id with the masked version bits, or is rejected |
| `Translation.V2ToV1Translation.Serve` | open/stratum-proxy/src/translation.rs:870-1219 | handling any list of messages one by one is the specified run, up to the first panic |
| `Stratum.FixedTextsFit` | open/protocols/stratum/src/v2/types.rs:126-136 | the texts of the other error messages fit into the 32 or 255 bytes of their codes, so converting them cannot panic |
| `Stratum.OutOfSequenceTooLong` | open/stratum-proxy/src/translation.rs:1066-1070 | the text for an out-of-sequence open does not fit into the 32 bytes of its code |
| `TranslationSafety.RunKeepsInv` | open/stratum-proxy/src/translation.rs:255-341 | in every run, failed sends included: operational implies authorized, extranonce, target, channel and connection present; pending implies a channel; no extranonce implies no extranonce 2 size; the job map is empty or holds exactly the id allocated last |
| `TranslationSafety.VisitSound` | open/stratum-proxy/src/translation.rs:816-1219 | from any such state a handler panics exactly for the listed causes and otherwise keeps the state so; missing-target, duplicate-job and missing-connection panics cannot happen |
| `TranslationSafety.RunPanicsExactly` | open/stratum-proxy/src/translation.rs:816-1219 | a whole run panics exactly when one of its messages meets a cause in the state it finds |
| `TranslationSafety.OutOfSequencePanics` | open/stratum-proxy/src/translation.rs:1059-1081 | an open in any state but the two that expect it panics: it is neither refused nor carried out |
| `TranslationSafety.OpenFirstPanics` | open/stratum-proxy/src/translation.rs:1059-1081 | a run whose first message is an open ends in a panic |
| `TranslationSafety.ForeignChannelCut` | open/stratum-proxy/src/translation.rs:1162-1168 | the refusal of a foreign channel id fills 32 bytes exactly from id 10000000 on |
| `TranslationSafety.UnknownJobCut` | open/stratum-proxy/src/translation.rs:1179-1187 | the refusal of an unknown job id always fills 32 bytes |
| `TranslationSafety.RefusedCut` | open/stratum-proxy/src/translation.rs:592 | the refusal by a false result is always cut to the same 32 bytes and never panics |
| `TranslationSafety.ErrorCut` | open/stratum-proxy/src/translation.rs:622 | the refusal by an error panics exactly when byte 32 falls inside a character of the error message as it is shown, for every version of the debug rendering |
| `TranslationSafety.AsciiErrorCut` | open/stratum-proxy/src/translation.rs:622 | an error with an ASCII message or a number of six or more characters never makes the refusal panic |
| `TranslationSafety.WideErrorPanics` | open/stratum-proxy/src/translation.rs:622 | a message starting with a two-byte character behind a five-digit number does |
| `TranslationSafety.ApostropheDecides` | open/stratum-proxy/src/translation.rs:622 | one error for which it depends on the library version, by whether an apostrophe is escaped |
| `TranslationSafety.SubmitResultSound` | open/stratum-proxy/src/translation.rs:548-603 | a result for a share panics exactly when it is a boolean and there is no channel |
| `TranslationSafety.SubmitErrorSound` | open/stratum-proxy/src/translation.rs:605-628 | an error for a share panics exactly when the cut falls inside a character of its message |
| `TranslationSafety.SetDifficultySound` | open/stratum-proxy/src/translation.rs:905-922 | panics exactly for a difficulty below 1, a negative infinity or no number |
| `TranslationSafety.SetupConnectionSound` | open/stratum-proxy/src/translation.rs:1005-1037 | panics exactly when the request id is taken and the refusal, if one is due, was sent |
| `TranslationSafety.OpenChannelSound` | open/stratum-proxy/src/translation.rs:1059-1140 | panics exactly out of sequence, or when one of the requests it gets to send finds its id taken |
| `TranslationSafety.SubmitSharesSound` | open/stratum-proxy/src/translation.rs:1149-1218 | panics exactly for a foreign channel id with a short text, a missing channel, or a taken request id |
| `TranslationSafety.PerformNotifyKeepsInv` | open/stratum-proxy/src/translation.rs:757-811 | with an extranonce a notification never panics and leaves at most the newest job in the map, also after the id wraps around |
| `TranslationSafety.AbortClears` | open/stratum-proxy/src/translation.rs:308-341 | a failed opening leaves no authorization, extranonce or channel behind, and tells the client the reason if there was a channel |
| `TranslationSafety.OnlyNewestGoesUpstream` | open/stratum-proxy/src/translation.rs:1179-1216 | in every run a share that goes upstream is for the job id allocated last |
| `TranslationOrder.OutputInOrder` | open/stratum-proxy/src/translation.rs:255-341 | over every run a delivered job is followed at once by the previous hash of the same job, which comes nowhere else; while no open reply is lost, the latest open reply is a success whenever a job is sent |
| `TranslationOrder.VisitEffect` | open/stratum-proxy/src/translation.rs:816-1219 | every step finalizes, translates a notification, or sends at most one message that is neither job nor success |
| `TranslationOrder.FinalizeInOrder` | open/stratum-proxy/src/translation.rs:255-287 | finalizing keeps the order of replies and jobs |
| `TranslationOrder.PerformNotifyInOrder` | open/stratum-proxy/src/translation.rs:757-811 | translating a notification on an open channel keeps the order |
| `TranslationOrder.VisitInOrder` | open/stratum-proxy/src/translation.rs:816-1219 | each step keeps the order of the output |
| `TranslationReplies.VerdictsBalance` | open/stratum-proxy/src/translation.rs:548-628 | over every run the client is told that a connection is confirmed or refused, a share accepted or refused, exactly as often as it was decided: accepted shares are the true answers to outstanding submissions, refused ones the false and error answers plus the shares rejected without asking; confirmed connections are the grants of the whole mask |
| `TranslationReplies.VerdictsOfStep` | open/stratum-proxy/src/translation.rs:816-1219 | in every state a step gives such a verdict exactly when its message decides it |
| `TranslationReplies.ConnectionReplies` | open/stratum-proxy/src/translation.rs:345-411 | what a confirmed and a refused connection is told, and when the state becomes set up |
| `TranslationReplies.ShareReplies` | open/stratum-proxy/src/translation.rs:548-628 | the reply to each kind of answer to a submission |
| `TranslationReplies.ErrorTextIs` | open/stratum-proxy/src/translation.rs:622 | how an error of the pool reads in the reply |
| `TranslationReplies.RejectedShare` | open/stratum-proxy/src/translation.rs:738-755 | a share that is not submitted is answered with its own channel and sequence number and the first 32 bytes of the reason |
| `TranslationReplies.OpeningRefusals` | open/stratum-proxy/src/translation.rs:445-546 | which reason the client is told for each way an opening fails |
| `TranslationReplies.RunShowsTarget` | open/stratum-proxy/src/translation.rs:894-923 | in every run the last target offered to an operational channel is the session's, and so is the last one delivered if the queue took that offer |
| `TranslationReplies.RunTracksDifficulty` | open/stratum-proxy/src/translation.rs:905-906 | in every run the target is the greatest whose product with the whole part of the latest difficulty does not exceed the first target |
| `TranslationSources.SetupAsksForMask` | open/stratum-proxy/src/translation.rs:1020-1037 | a connection asks the pool for the whole mask |
| `TranslationSources.OpenAsksForClient` | open/stratum-proxy/src/translation.rs:1082-1140 | an open asks for a subscription with the client's firmware, host and port, then optionally for extranonce changes, then for the authorization of the channel's user, up to the first request that is not taken |
| `TranslationSources.RunRemembers` | open/stratum-proxy/src/translation.rs:957-1084 | in every run connection, channel and cached notification were given by earlier messages |
| `Merkle.FoldGivesRoot` | open/stratum-proxy/src/translation.rs:660-668 | folding the branch of the first transaction over its hash gives the root of the tree built by pairing neighbours, for every transaction list |
| `Merkle.BranchWithoutFirst` | open/stratum-proxy/src/translation.rs:660-668 | the branch does not depend on the first transaction |
| `Merkle.FoldClimbs` | open/stratum-proxy/src/translation.rs:660-668 | for every branch the fold is the node reached by hashing with each sibling on the right |
| `Merkle.CoinBaseLaidOut` | open/stratum-proxy/src/translation.rs:637-653 | the coinbase has the two parts and the two extranonces at their positions |
| `TranslationShares.RunKeepsLiveJob` | open/stratum-proxy/src/translation.rs:757-811 | in every run the job in the map has the template of the notification it was built from, and the newest job message carries that notification's merkle root, version, previous hash, time and bits |
| `TranslationShares.LiveJobAsNotified` | open/stratum-proxy/src/translation.rs:757-811 | what the newest job tells the client, field by field: the notification's version, previous hash, time and bits, and the root reached from the laid out coinbase |
| `TranslationShares.OriginWasNotified` | open/stratum-proxy/src/translation.rs:950-970 | the notification behind a job was sent by the pool |
| `TranslationShares.ShareKeepsHeader` | open/stratum-proxy/src/translation.rs:1179-1216 | a share for the live job is submitted under its V1 job id for the channel's user; with the extranonce size unchanged, the pool, from its own coinbase and merkle path, rebuilds the header the miner hashed exactly when the share changed the version only inside the mask |
| `TranslationShares.ShareKeepsTreeHeader` | open/stratum-proxy/src/translation.rs:1179-1216 | the same for a pool that computes the root of the whole transaction tree |
| `TranslationShares.CoinBaseKept` | open/stratum-proxy/src/translation.rs:717-735 | the submitted extranonce 2 completes the job's coinbase exactly when its size is what it was at the notification |
| `TranslationShares.SizeChangeMisleads` | open/stratum-proxy/src/translation.rs:939-941 | after any run with a live job, a new extranonce leaves the job live and its shares still go upstream; they complete the job's coinbase exactly when the size is unchanged |
| `TranslationShares.MisledRunExists` | open/stratum-proxy/src/translation.rs:925-942 | there are runs in which a share goes upstream with an extranonce 2 that does not complete its coinbase |
| `TranslationShares.VersionRebuilt` | open/stratum-proxy/src/translation.rs:1196-1202 | masked version bits put back under the mask give the share's version exactly when the rest of the version is the job's |
| `TranslationShares.HeadersAgree` | open/stratum-proxy/src/translation.rs:633-678 | for any submission that reports a share and any root the pool finds for it, the pool's header and the miner's header are equal under the same condition |
| `TranslationShares.PoolRootIsMiners` | open/stratum-proxy/src/translation.rs:633-678 | the root a pool finds for a submission is the one in the job message |
| `TranslationShares.SubmittedForOrigin` | open/stratum-proxy/src/translation.rs:1188-1203 | the submission of a live job's share names the notification's job and, with the size unchanged, keeps the header under that condition |
| `TranslationShares.ExtraNonce2Value` | open/stratum-proxy/src/translation.rs:717-735 | the extranonce 2 has the pool's size and encodes the channel id, or its low bytes if it is short |
| `TranslationShares.PerformNotifyMakesJob` | open/stratum-proxy/src/translation.rs:757-811 | a translated notification leaves its own job live and written, or none |
| `TranslationOpening.OpenRequestStarts` | open/stratum-proxy/src/translation.rs:1059-1140 | a first open whose requests are taken starts an opening |
| `TranslationOpening.OpeningWaits` | open/stratum-proxy/src/translation.rs:445-519 | while a prerequisite is missing, in any order of arrival, the session only notes what came, an answer to extranonce.subscribe included, and sends nothing |
| `TranslationOpening.OpeningCompletes` | open/stratum-proxy/src/translation.rs:255-287 | the message that brings the last prerequisite sends one success with the latest difficulty's target, then the job of the latest notification, and the whole session is determined |
| `TranslationOpening.OpeningConfluent` | open/stratum-proxy/src/translation.rs:445-519 | equal prerequisites and extranonce answers open into the same session whatever their order |
| `TranslationOpening.ExactlyOneReply` | open/stratum-proxy/src/translation.rs:255-287 | over any list of pool messages, answers to extranonce.subscribe and version masks among them, exactly one reply is sent once all prerequisites are there, and none before |
| `TranslationOpening.FinalizeOpens` | open/stratum-proxy/src/translation.rs:255-287 | what finalizing does to a complete session when sends succeed |
| `TranslationOpening.LiveStep` | open/stratum-proxy/src/translation.rs:894-970 | once open, further pool messages send no open reply |
| `TranslationRequests.RequestsBalance` | open/stratum-proxy/src/translation.rs:220-252 | in every run and for every id: requests issued equal responses handled plus the one registered, which has the handlers of the request issued last |
| `TranslationRequests.CollidesExactly` | open/stratum-proxy/src/translation.rs:54-68 | the next id is taken exactly when the request issued 2^32 requests ago is still outstanding |
| `TranslationRequests.NoCollision` | open/stratum-proxy/src/translation.rs:229-246 | no collision while every outstanding request is among the last 2^32 - 1 |
| `TranslationRequests.VisitKeepsPairing` | open/stratum-proxy/src/translation.rs:816-841 | each step keeps the numbering and the balance of requests |
| `TranslationRequests.ResponseKeepsPairing` | open/stratum-proxy/src/translation.rs:816-841 | a handled response takes exactly its own request out of the balance |
| `TranslationRequests.StrayResponse` | open/stratum-proxy/src/translation.rs:823-833 | a response without an id or for no outstanding request leaves no trace: whatever follows, the run is the one without it |
| `Text.TakeBytesAscii` | open/stratum-proxy/src/translation.rs:743-749 | on ASCII text the byte slice exists exactly when the text is long enough |
| `Text.EscapedCut` | open/stratum-proxy/src/translation.rs:622 | cutting a rendered string fails exactly inside a character that is shown as it is |
| `Text.DecimalLength` | open/stratum-proxy/src/translation.rs:1165 | a numeral has more than k digits exactly from 10^k on |
| `Text.DecimalRoundTrip` | braiins-os/upgrade/backup.py:37-53 | reading a printed numeral as Python does gives the number |
| `Text.SplitJoin` | braiins-os/upgrade/backup.py:60 | splitting a joined list at a character that occurs in no part gives the list |
| `Text.UniversalPlain` | braiins-os/upgrade/backup.py:66-72 | reading a file leaves no carriage return, and changes nothing in a file that has none |
| `Pll.CalcSets` | open/bosminer/bosminer-am1-s9/src/bm1387.rs:602-609 | the frequency of a divider is the whole number of hertz it makes of the crystal: the quotient by the product of the three dividers, rounded down once |
| `Pll.PrecomputePllTable` | open/bosminer/bosminer-am1-s9/src/bm1387.rs:650-704 | for every crystal, with or without overflow checks: a table that is strictly increasing, with one entry per reachable bin, each with the frequency its divider sets and the first best divider of its bin over all enumerated ones; a checked build panics exactly when some divider's rounding sum overflows |
| `Pll.FillBins` | open/bosminer/bosminer-am1-s9/src/bm1387.rs:659-698 | after the four loops every enumerated divider in range is covered by a preferred one in its bin; they end early exactly at a checked overflow |
| `Pll.Consider` | open/bosminer/bosminer-am1-s9/src/bm1387.rs:664-695 | a divider replaces the one in its bin exactly when it is strictly nearer to the bin centre; a checked overflow of the rounding sum panics |
| `Pll.WrappedBin` | open/bosminer/bosminer-am1-s9/src/bm1387.rs:671-675 | where the rounding sum wraps around, both the wrapped and the exact bin are out of range |
| `Pll.LookupIn` | open/bosminer/bosminer-am1-s9/src/bm1387.rs:708-731 | succeeds exactly inside the span of the table and gives the nearest entry, the lower of two equally near |
| `Pll.LowerBound` | open/bosminer/bosminer-am1-s9/src/bm1387.rs:711 | the insertion point of the binary search |
| `Pll.LookupFreq` | open/bosminer/bosminer-am1-s9/src/bm1387.rs:708-731 | at 25 MHz: succeeds exactly from 100 to 1200 MHz; the dividers found set the frequency found; it is the nearest of the best dividers of all bins and at most 999999 Hz worse than any divider of the loops whose frequency is in range; reference divider at most 15 from 200 MHz on |
| `Pll.NearOptimal` | open/bosminer/bosminer-am1-s9/src/bm1387.rs:650-731 | for every crystal no enumerated divider of a supported bin is better by more than 999999 Hz |
| `Pll.BestIsInTable` | open/bosminer/bosminer-am1-s9/src/bm1387.rs:699-703 | the table holds the best divider of every bin that has one |
| `Pll.DefaultSpan` | open/bosminer/bosminer-am1-s9/src/bm1387.rs:599-600 | at 25 MHz the table runs from exactly 100 MHz to exactly 1200 MHz |
| `Pll.DefaultQuiet` | open/bosminer/bosminer-am1-s9/src/bm1387.rs:623-624 | at 25 MHz no rounding sum overflows |
| `Pll.FastMeansSmallRefdiv` | open/bosminer/bosminer-am1-s9/src/bm1387.rs:585-587 | at 25 MHz a divider that reaches 200 MHz has a reference divider of at most 15 |
| `Pll.ExactEntry` | open/bosminer/bosminer-am1-s9/src/bm1387.rs:676-691 | a bin whose centre some divider hits holds exactly that frequency |
| `Monitor.Chain.constructor` | open/bosminer/bosminer-am1-s9/src/monitor.rs:203-210 | a chain starts out stopped |
| `Monitor.Chain.Transition` | open/bosminer/bosminer-am1-s9/src/monitor.rs:128-150 | On only from stopped, Running and Off only in a session, the session start kept; anything else breaks the chain |
| `Monitor.Chain.Tick` | open/bosminer/bosminer-am1-s9/src/monitor.rs:155-169 | breaks a chain that has been starting, or silent, for the timeout |
| `Monitor.Chain.Observe` | open/bosminer/bosminer-am1-s9/src/monitor.rs:632-637 | handling messages and ticks one by one gives the state of the run |
| `Monitor.BrokenExactly` | open/bosminer/bosminer-am1-s9/src/monitor.rs:118-169 | a chain is broken exactly when its messages leave (On Running* Off)* or some tick is late; otherwise its state shows the session's On time and the last heartbeat |
| `Monitor.BrokenIsFinal` | open/bosminer/bosminer-am1-s9/src/monitor.rs:118-121 | no message and no tick leads out of broken |
| `Monitor.PatternSnoc` | open/bosminer/bosminer-am1-s9/src/monitor.rs:50-58 | a message list stays a prefix of (On Running* Off)* exactly when each message may follow the one before |
| `Lifecycle.MessagesFollowPattern` | open/bosminer/bosminer-am1-s9/src/lib.rs:1340-1428 | over every run of starts, failing and panicking initialisations, heartbeats, exits, halts and stops, the messages are a prefix of (On Running* Off)* exactly when no start is made while a chain is installed, after a halt that was not confirmed, or after an initialisation that panicked |
| `Lifecycle.ManagerFollowsPattern` | open/bosminer/bosminer-am1-s9/src/lib.rs:1340-1428 | the manager object is at any time what its steps made of a new one, so its messages are a prefix of the pattern exactly without such starts |
| `Lifecycle.StrandedRunExists` | open/bosminer/bosminer-am1-s9/src/lib.rs:1378-1388 | a run without a start on an installed chain, in which a start follows a halt that timed out, does leave the pattern |
| `Lifecycle.MonitorAccepts` | open/bosminer/bosminer-am1-s9/src/monitor.rs:128-150 | without such a start the monitor breaks the chain only for a late tick |
| `Lifecycle.NextKeepsInv` | open/bosminer/bosminer-am1-s9/src/halt.rs:100-120 | each step keeps live heartbeat tasks among those still to be halted, so none is alive when Off is sent |
| `Lifecycle.StrandedStep` | open/bosminer/bosminer-am1-s9/src/halt.rs:219-232 | a session stays open without a chain exactly from an unconfirmed halt or a panicking initialisation on |
| `Lifecycle.Manager.constructor` | open/bosminer/bosminer-am1-s9/src/lib.rs:1617-1620 | a new manager has no chain and has sent nothing |
| `Lifecycle.Manager.BeginStart` | open/bosminer/bosminer-am1-s9/src/lib.rs:1348-1359 | On is sent before the assertion that no chain is installed can fail |
| `Lifecycle.Manager.Spawn` | open/bosminer/bosminer-am1-s9/src/halt.rs:189-193 | tasks are registered in order and become alive |
| `Lifecycle.Manager.PowerUp` | open/bosminer/bosminer-am1-s9/src/power.rs:723-745 | the two voltage tasks are registered |
| `Lifecycle.Manager.InitSucceeds` | open/bosminer/bosminer-am1-s9/src/lib.rs:1392-1404 | the workers are spawned and the chain installed |
| `Lifecycle.Manager.EndInit` | open/bosminer/bosminer-am1-s9/src/lib.rs:1378-1388 | a failed initialisation halts what it spawned, a panicking one does not |
| `Lifecycle.Manager.Beat` | open/bosminer/bosminer-am1-s9/src/lib.rs:838-841 | a live heartbeat task sends Running |
| `Lifecycle.Manager.HaltNextTask` | open/bosminer/bosminer-am1-s9/src/halt.rs:213-233 | an ended task is skipped, a confirming one is dead, anything else is a failed halt |
| `Lifecycle.Manager.SendHalt` | open/bosminer/bosminer-am1-s9/src/halt.rs:208-234 | succeeds exactly when every live task of the queue confirms, and then exactly these are gone |
| `Lifecycle.Manager.FinishHalt` | open/bosminer/bosminer-am1-s9/src/lib.rs:1424-1427 | Off is sent last |
| `Lifecycle.Manager.HaltAndReport` | open/bosminer/bosminer-am1-s9/src/lib.rs:1421-1427 | Off is sent exactly when the halt succeeded, and then the tasks of the queue are gone |
| `Lifecycle.Manager.AttemptStartChain` | open/bosminer/bosminer-am1-s9/src/lib.rs:1340-1407 | sends On; a start fails, with Off and no task left that was not there before, exactly when power fails or enumeration fails and both voltage tasks confirm; the chain is installed, with its tasks registered and alive, exactly on success; everything else panics without Off |
| `Lifecycle.Manager.TakeChain` | open/bosminer/bosminer-am1-s9/src/lib.rs:1410-1419 | the chain is taken out and its registered tasks are to be halted |
| `Lifecycle.Manager.StopChain` | open/bosminer/bosminer-am1-s9/src/lib.rs:1410-1428 | the chain is taken out; Off is sent, and its tasks are gone, exactly when there was one and every live task of it confirmed |
| `Lifecycle.Manager.Others` | open/bosminer/bosminer-am1-s9/src/lib.rs:838-841 | tasks that still run add heartbeats only |
| `Lifecycle.Manager.Start` | open/bosminer/bosminer-am1-s9/src/lib.rs:1037-1090 | at most eleven attempts, the last six accepting fewer chips, ending at the first that starts or panics; On and Off are those of the attempts whatever heartbeats and exits fall into the delays |
| `Registry.WorkRegistry.constructor` | open/bosminer/bosminer-am1-s9/src/registry.rs:108-114 | an empty registry |
| `Registry.WorkRegistry.AllocNextWorkId` | open/bosminer/bosminer-am1-s9/src/registry.rs:118-126 | ids go round |
| `Registry.WorkRegistry.StoreWork` | open/bosminer/bosminer-am1-s9/src/registry.rs:131-147 | retires the slot half a turn ahead and fills the next one |
| `Registry.WorkRegistry.InsertSolution` | open/bosminer/bosminer-am1-s9/src/registry.rs:45-70 | a nonce seen before for this work is a duplicate and is not recorded again |
| `Registry.SlotsRefineLog` | open/bosminer/bosminer-am1-s9/src/registry.rs:83-101 | for every size and run a slot holds the last work stored under its id if that is among the last n - n/2 stores, else nothing; once warm exactly n/2 slots are free |
| `Registry.StoreRefines` | open/bosminer/bosminer-am1-s9/src/registry.rs:131-147 | a store on the slots is an append on the list |
| `Registry.InsertRefines` | open/bosminer/bosminer-am1-s9/src/registry.rs:45-70 | an insert on the slots is the same insert on the live list element |
| `Registry.RecordedOnce` | open/bosminer/bosminer-am1-s9/src/registry.rs:45-70 | a stored work records every inserted nonce once and changes in nothing else |
| `Registry.NoOverwrite` | open/bosminer/bosminer-am1-s9/src/registry.rs:131-144 | with two or more slots a store never hits live work |
| `Registry.StoreUses` | open/bosminer/bosminer-am1-s9/src/registry.rs:134-144 | a store uses one more slot until the window is full and none after |
| `Registry.LiveAfterStore` | open/bosminer/bosminer-am1-s9/src/registry.rs:134-144 | which store is live for an id after one more store |
| `Accounting.AddressOf` | open/bosminer/bosminer-am1-s9/src/bm1387.rs:150-157 | chip and core are in range for every nonce |
| `Accounting.AddressFields` | open/bosminer/bosminer-am1-s9/src/bm1387.rs:150-157 | chip is bits 2 to 7 and core bits 24 to 30 of the nonce |
| `Accounting.HashChain.constructor` | open/bosminer/bosminer-am1-s9/src/counters.rs:88-97 | all counters at zero |
| `Accounting.HashChain.Reset` | open/bosminer/bosminer-am1-s9/src/counters.rs:99-106 | every core, chip and chain counter is zero again |
| `Accounting.HashChain.AddValid` | open/bosminer/bosminer-am1-s9/src/counters.rs:123-132 | adds the difficulty to core, chip and chain, and nothing for a chip that does not exist |
| `Accounting.HashChain.AddError` | open/bosminer/bosminer-am1-s9/src/counters.rs:134-143 | adds one error to core, chip and chain, and nothing for a chip that does not exist |
| `Accounting.HashChain.SetChipCount` | open/bosminer/bosminer-am1-s9/src/counters.rs:145-147 | cuts the chips or adds zero ones |
| `Accounting.AddKeepsTotals` | open/bosminer/bosminer-am1-s9/src/counters.rs:123-143 | counting keeps chain, chip and core totals in agreement |
| `Accounting.ResizeKeepsTotals` | open/bosminer/bosminer-am1-s9/src/counters.rs:145-147 | resizing keeps the totals exactly when the dropped chips have nothing counted |
| `Accounting.SolutionRxTask` | open/bosminer/bosminer-am1-s9/src/lib.rs:684-740 | the receiving loop does to registry, counters and output what the specified rounds do |
| `Accounting.AccountsBalance` | open/bosminer/bosminer-am1-s9/src/lib.rs:692-736 | over every run: valid is the difficulty times the good solutions since the last reset and errors the other countable ones; totals agree; no stored work forwards a nonce twice |
| `Accounting.CoresBalance` | open/bosminer/bosminer-am1-s9/src/lib.rs:692-736 | over every run each core's counters show exactly the countable solutions with its address since the last reset |
| `Accounting.CountKept` | open/bosminer/bosminer-am1-s9/src/lib.rs:717-731 | each countable solution is counted once, as valid or as error |
| `Accounting.ForwardKept` | open/bosminer/bosminer-am1-s9/src/lib.rs:715-725 | a solution is forwarded only if its nonce is new for the stored work |
| `Erupter.BlockErupterSolver.constructor` | open/bosminer/bosminer-erupter/src/device.rs:206-216 | no work, no pending solution |
| `Erupter.BlockErupterSolver.WaitForNonce` | open/bosminer/bosminer-erupter/src/device.rs:237-250 | the next nonce of the current work, a timeout, or a remembered error |
| `Erupter.BlockErupterSolver.Generate` | open/bosminer/bosminer-erupter/src/device.rs:314-323 | the next work and its being sent, or the end |
| `Erupter.BlockErupterSolver.Switch` | open/bosminer/bosminer-erupter/src/device.rs:313-323 | puts the current work aside as the previous one and takes the next; at the end, or when sending fails, everything has been yielded |
| `Erupter.BlockErupterSolver.Found` | open/bosminer/bosminer-erupter/src/device.rs:281-307 | the nonce is credited to the previous work if there is one pending, and to the current work |
| `Erupter.BlockErupterSolver.TakePending` | open/bosminer/bosminer-erupter/src/device.rs:270-275 | the second solution of a nonce credited twice comes before anything else |
| `Erupter.BlockErupterSolver.Next` | open/bosminer/bosminer-erupter/src/device.rs:269-327 | yields the credits of the run one by one, in order, each with the time its nonce was read, and nothing after the last |
| `Erupter.SolveAll` | open/bosminer/bosminer-erupter/src/device.rs:269-327 | iterating to the end yields exactly the credits of the run |
| `Erupter.CreditedExactly` | open/bosminer/bosminer-erupter/src/device.rs:281-307 | every assignment is credited with its own nonces and, if the next one has any, that one's first nonce, under indices 0, 1, 2, ... without gap or repeat |
| `Prefix.Resolve` | braiins-os/builder/config.py:437-446 | every attribute gets the value of a matching pattern that defines it such that no other such pattern is longer, or the given value if there is none |
| `Prefix.DecidedOnce` | braiins-os/README.md:352-353 | there is one such value only |
| `Prefix.Walk` | braiins-os/builder/config.py:417-459 | the remotes come from the repositories in order; each shows for location, project and branch the value of the longest matching and defining pattern, else the repository's, else the default, its uri is the alias's server, a slash and the project; a repository is skipped exactly when location or project is empty, and the walk stops exactly at the first unknown alias |
| `Prefix.GetSysupgradeAttr` | braiins-os/builder/builder.py:224-229 | a non-empty value of a matching pattern such that no longer one has any; nothing exactly when no matching pattern has one |
| `Prefix.LongestOfSorted` | braiins-os/README.md:352-353 | the longest matching pattern does not depend on the order |
| `Prefix.LastIsLongest` | braiins-os/builder/config.py:437-446 | in sorted order the last applying pattern is the longest |
| `Prefix.FirstFromBehind` | braiins-os/builder/builder.py:227-229 | from behind the first applying pattern is the longest |
| `Sorting.PrefixesByLength` | braiins-os/builder/config.py:439-440 | among prefixes of one string the sorting order is the order of length |
| `Sorting.LessExactly` | braiins-os/builder/config.py:441 | the order of strings is that of dictionaries, by the first difference |
| `Sorting.SortSorts` | braiins-os/builder/config.py:441 | distinct keys come out strictly increasing |
| `Sorting.SortOrders` | braiins-os/builder/builder.py:2079 | whatever the keys, no element comes behind one with a greater key |
| `Sorting.SortStable` | braiins-os/builder/builder.py:2079 | elements with equal keys keep their order |
| `Sorting.SortKeeps` | braiins-os/builder/config.py:441 | sorting keeps all elements |
| `Rounding.NearestIsNearest` | braiins-os/upgrade/backup.py:50 | the modelled quotient is a double and none is nearer |
| `Rounding.TiesToEven` | braiins-os/upgrade/backup.py:50 | half way between two doubles the even multiple of their distance is taken |
| `Rounding.NearestExactly` | braiins-os/upgrade/backup.py:50 | the division is exact exactly when the quotient has 53 bits followed by zeros |
| `Rounding.DividedDouble` | braiins-os/upgrade/backup.py:46-53 | once a size is a double every further division is exact |
| `Backup.MtdpartsSizeToStr` | braiins-os/upgrade/backup.py:46-53 | for every size: fails exactly when the quotient is too large for a double; otherwise the text reads back as the size with its quotient rounded |
| `Backup.SizeReadBack` | braiins-os/upgrade/backup.py:37-53 | which sizes can be printed, and what a printed size is read back as |
| `Backup.WithUnit` | braiins-os/upgrade/backup.py:37-43 | the units k, m and g stand for 2^10, 2^20 and 2^30 |
| `Backup.SizeRoundTrip` | braiins-os/upgrade/backup.py:37-53 | printing a size and reading it back gives the size exactly when it is no multiple of 1024 or its quotient is a double |
| `Backup.SmallSizesKept` | braiins-os/upgrade/backup.py:46-53 | all sizes up to 2^53 KiB are kept; (2^53 + 1) KiB is not |
| `Backup.WriteUEnv` | braiins-os/upgrade/backup.py:122-142 | the recovery file with the partition list, or an error exactly when a size cannot be printed |
| `Backup.UEnvLines` | braiins-os/upgrade/backup.py:138-141 | the three lines of the file, spelled out |
| `Backup.ParseUEnv` | braiins-os/upgrade/backup.py:66-72 | the stripped rest of the first recovery line of the file as it is read in text mode |
| `Backup.ParseMtdparts` | braiins-os/upgrade/backup.py:56-63 | the devices of the list with running numbers, or an error |
| `Backup.PartitionsRoundTrip` | braiins-os/upgrade/backup.py:56-72 | for every non-empty list with plain names the written line is found and read back with the same names, the sizes as they read back, and ids mtd0, mtd1, ... |
| `Backup.ReadNamesPlain` | braiins-os/upgrade/backup.py:56-72 | a name that is read back never has a comma or a line break |
| `Backup.NoPartitionsFails` | braiins-os/upgrade/backup.py:56-63 | an empty list cannot be read back |
| `Backup.BackupAndRead` | braiins-os/upgrade/backup.py:122-142 | the partitions come back under mtd0, mtd1, … exactly when there are any, no name has a comma or a line break, and every size can be printed and is kept; with only sizes at fault they come back rounded |
| `Backup.StrippedTwice` | braiins-os/upgrade/backup.py:57-58 | dropping the prefix length a second time leaves the colon in front of the list |
| `Backup.EntryRoundTrip` | braiins-os/upgrade/backup.py:60-62 | one printed entry is read back |
| `Packages.GetPackageRecord` | braiins-os/builder/packages.py:105-137 | the record up to the next blank line, and where reading goes on |
| `Packages.ReadPackages` | braiins-os/builder/packages.py:139-155 | all records of the index file as it is read in text mode, or an error |
| `Packages.WriteAttributes` | braiins-os/builder/builder.py:2080-2082 | the set attributes of a package, one printed after the other |
| `Packages.WriteIndex` | braiins-os/builder/builder.py:2078-2084 | the printed index |
| `PackagesRoundTrip.IndexRoundTrip` | braiins-os/builder/builder.py:2078-2084 | for packages as the parser makes them: parsing the index printed in file name order gives the packages in that order, attributes in order, without Source and Maintainer, an unset Require restored in its place, exactly when no published value has a blank line and no published Require before Version is unset, or empty with something behind Version; packages that share a file name keep their order |
| `PackagesRoundTrip.ParsePrintParse` | braiins-os/builder/packages.py:105-155 | parsing, printing and parsing again any index whose packages have file names gives the published part of the same packages exactly under that condition |
| `PackagesRoundTrip.CleanIndexKept` | braiins-os/builder/packages.py:105-155 | an index without blank continuation lines and empty Require lines meets the condition |
| `PackagesRoundTrip.LossyIndexExists` | braiins-os/builder/packages.py:118-122 | an index whose empty Require stands before Version is not read back |
| `PackagesRoundTrip.BlankLineCuts` | braiins-os/builder/packages.py:113-116 | a blank line in a printed value ends the record, and what is read is another package |
| `PackagesParsed.ReadAllGood` | braiins-os/builder/packages.py:105-155 | every parsed package has lines, names and the place of Require as stated, and more so for a clean index |
| `PackagesParsed.ReadAllPlain` | braiins-os/builder/packages.py:105-155 | packages parsed from a file have no carriage returns, so the printed index is read as it was printed |
| `PackagesRoundTrip.PackageRoundTrip` | braiins-os/builder/packages.py:105-137 | reading one printed package gives its published attributes, and leaves the rest of the text, exactly under that condition; otherwise another record is read |
| `PackagesRoundTrip.PublishedNames` | braiins-os/builder/packages.py:69-72 | no published attribute is Source or Maintainer |
| `PackagesRoundTrip.PublishedStays` | braiins-os/builder/packages.py:69-72 | every other attribute is published |
| `PackagesRoundTrip.FilenameFound` | braiins-os/builder/packages.py:39-41 | packages are sorted by the attribute Filename |
| `PackageDicts.RereadExactly` | braiins-os/builder/packages.py:118-135 | storing the printed attributes of a parsed package again gives the same dictionary exactly when Require is kept |
| `PackageDicts.RereadRequireFirst` | braiins-os/builder/packages.py:118-135 | an unset Require before Version moves behind it, and an empty one is unset unless Version comes last |
| `PackagesRoundTrip.SetRequireKeeps` | braiins-os/builder/packages.py:51-53 | a package whose Require is set is one that the parser can make |
| `PackagesRoundTrip.SetRequireKept` | braiins-os/builder/packages.py:51-53 | set to something neither empty nor with a blank line, it is read back |
| `PackagesRoundTrip.ReadAttribute` | braiins-os/builder/packages.py:123-131 | a printed attribute is read back with its continuation lines |
| `PackagesParsed.StoreKeepsPlace` | braiins-os/builder/packages.py:119-122 | storing attributes keeps Require right behind Version or before it |

## Left out

- Sockets, framing, the Noise handshake and the accept loop of the proxy; only the queues remain.
- The JSON of V1 responses: a response is a boolean, or given by what the other two parsers make of it.
- TranslationSafety.RunPanicsExactly: memory is unbounded; a pool's extranonce 2 size that no buffer can have, which would panic when the buffer is made, is not modelled.
- Translation.V2ToV1Translation.SetDifficulty: the cast of a difficulty saturates, which the compiler versions of that time left undefined out of range.
- The log lines, `v2_req_id` and the device details that only the log uses.
- Voltage, work delay, fan control, I2C, GPIO and the FPGA: hardware or floating point.
- Temperatures and fan decisions of the monitor: they do not take part in the chain states.
- Exit hooks of a halt context and concurrent halts of one context: the life cycle has neither.
- Exclusive ownership of a chain through `owned_by`; in the delays of `Lifecycle.Manager.Start` only tasks run.
- Pll: `usize` has 32 bits, as on the target.
- Times of counters (`started`, `stopped`) and the overflow of counters.
- Backup.ParseMtdparts: the digits outside ASCII that Python's `int` also takes are errors here.
- The union of two package sets before printing, copying, signing and compressing the index.
- YAML loading; configuration comes as maps, and a pattern list has no pattern twice.
- The command line tools, SSH, git and build orchestration.
