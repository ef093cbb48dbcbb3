# SRTLA, modelled and verified in Dafny

SRTLA bonds several UDP links into one SRT stream. A sender spreads the packets of
an SRT caller over its links, and a receiver collects them and feeds one SRT
socket per sender. This project models the parts of both programs that keep state,
and proves what they guarantee on every run.

The same behaviour appears twice. A value model gives each operation as a function
of the state, and the theorems are about runs of those functions. An object model
has the fields, arrays and loops of the program, and every method is proved to
change the objects as the function says. `ReceiverProgram.MainLoop` and
`SenderObjects.Sender` carry the run so far as a ghost field, so that the theorems
about runs hold of the objects (`ReceiverProgram.RunningGuarantees`,
`SenderObjects.SenderAccounts`).

| file | models |
|---|---|
| `Bytes.dfy` | sequences, sums, big-endian fields |
| `TsContinuity.dfy` | the MPEG-TS continuity tracker (ISO/IEC 13818-1, section 2.4.3.3) |
| `NakDedup.dfy` | the NAK hash and the suppression cache |
| `AuthLimiter.dfy` | addresses; the throttle on authentication failures |
| `AckStream.dfy` | the receive log, the SRTLA ACK packet and its decoder |
| `SenderLinks.dfy`, `SenderMoves.dfy`, `SenderObjects.dfy` | the sender's links: log, in-flight counter, window, link choice; what every event does to them, in numbers |
| `LossLists.dfy` | the ACK and NAK packets that the sender reads (draft-sharabayko-srt, sections 3.2.4 and 3.2.5 and appendix A) |
| `ReceiverTypes.dfy`, `Registry.dfy` | connections, groups, look-ups, eviction, the reaper |
| `Quality.dfy`, `Verdicts.dfy` | connection evaluation and weights, over reals; what they make of the counters |
| `Receiver.dfy`, `Wire.dfy` | the receiver's steps: registration, traffic, the SRT side, the end of the main loop; how it reads packets |
| `ReceiverInvariants.dfy`, `ReceiverTheorems.dfy` | what every step keeps, and the guarantees on every run |
| `Reg1Flood.dfy` | a run that fills the table, and what a refused REG1 does then |
| `Turns.dfy`, `Origins.dfy` | runs of the receiver turn by turn, and what a turn makes of one group and one connection |
| `AckRuns.dfy`, `NakRuns.dfy`, `LimiterRuns.dfy`, `ConnRuns.dfy`, `GroupRuns.dfy` | on every run: the ACK stream and the history of every connection, the NAK filter and the history of every group, the throttle |
| `Confluence.dfy` | order and repetition of REG2s |
| `Handshake.dfy`, `HandshakeMoves.dfy`, `Completion.dfy` | registration of senders with the receiver over a network that loses, duplicates and reorders; each step of it, and its completion |
| `Bonding.dfy` | a sender's links and the receiver's acknowledgements over such a network |
| `ConnectionObjects.dfy`, `ReceiverObjects.dfy`, `ReceiverProgram.dfy` | connections, groups, the registry, the handlers and the main loop as objects |

What the environment decides is an input: clock readings, whether a send or the SRT
socket works, what the SRT server answers, the random half of a group id, and which
sockets are ready. Runs are arbitrary sequences of events; the receiver's clock does
not run backwards between iterations.

Where the code and its documentation disagree the model follows the code. The
documentation's ACK throttling and recovery boost (README.md,
EXTENDED_KEEPALIVE_FIX.md) are not in the code and not in the model. The NAK hash
starts from the repository's own constant (src/utils/nak_dedup.h:22), which is not
the published FNV-1a offset basis; nothing proved depends on its value.

Some statements one might expect are false of the code, and the model says what
holds instead:

- The number of packets in flight is not the number of entries in a link's log:
  `SenderLinks.NakLeavesInFlight` and `SenderLinks.ZeroAckTakesInFlight` are runs on
  which the two differ. `SenderLinks.InFlightAccount` gives the difference on every
  run, and `SenderLinks.AccountLostIff` says which event brings in more than NAK hits
  and aged-out entries.
- Five failures within a minute need not block an IP, because the window tumbles.
  `AuthLimiter.FiveTripInRun` says exactly when they do, from the entry that the first
  of them finds; `AuthLimiter.SevenMayNotTrip` has seven that do not, and
  `AuthLimiter.EightTrip` proves that eight always do.
- A refused REG1 may change the table, because eviction comes before the address
  check. `Reg1Flood.RefusedReg1Evicts` reaches a state in which it does, and
  `ReceiverTheorems.RefusedReg1KeepsIff` says exactly when it does not.
- The fastest link may be charged for its bandwidth: `Quality.FastestLinkCharged` has
  one that is charged in full, and `Quality.FastestLinkPenalty` says exactly when it is
  charged. `ReceiverTheorems.FirstVerdict` shows that the first evaluation after the
  grace period charges every link, because nothing has been measured yet.

## Model

| member | source | states |
|---|---|---|
| `TsContinuity.FieldsExact` | tests/compat/srt-sink/ts_continuity.h:86-104 | the PID, the continuity counter, the payload flag and the discontinuity flag of a header are those it was built from |
| `TsContinuity.CountersExact` | tests/compat/srt-sink/ts_continuity.h:81-113 | for every stream the three counters are the number of packets, of packets without sync byte, and of packets that break the continuity of their PID, where a break is defined on the stream alone |
| `TsContinuity.LastCcExact` | tests/compat/srt-sink/ts_continuity.h:105-112 | the remembered counter of a PID is that of its last tracked packet in the stream, and unset if it never appeared |
| `TsContinuity.ChunkIndependence` | tests/compat/srt-sink/ts_continuity.h:53-78 | however a byte stream is cut into feed calls, counters, per-PID state and carry are those of the whole stream; the carry is its tail |
| `TsContinuity.AbsorbConcat` | tests/compat/srt-sink/ts_continuity.h:53-78 | absorbing a stream in two parts, with the tail of the first carried over, equals absorbing it at once |
| `TsContinuity.CleanAdvance` | tests/compat/srt-sink/ts_continuity.h:105-112 | over an error-free stretch a PID's counter advances by its payload packets modulo 16 |
| `TsContinuity.ReplayErrors` | tests/compat/srt-sink/ts_continuity.h:81-113 | replaying a stretch that is clean after one state from another state costs exactly one error for each PID in it whose counters differ |
| `TsContinuity.DropDetection` | tests/compat/srt-sink/ts_continuity.h:81-113 | deleting a run of packets from a clean stream raises the error count by exactly the non-null PIDs on both sides of the gap that lost a number of payload packets not divisible by 16 |
| `TsContinuity.Tracker.ParsePacket` | tests/compat/srt-sink/ts_continuity.h:81-113 | the fields and the counter table change as the fold does for one packet |
| `TsContinuity.Tracker.ParseWhole` | tests/compat/srt-sink/ts_continuity.h:69-72 | the loop over whole packets absorbs the data from an offset and stops where its tail begins |
| `TsContinuity.Tracker.CompleteCarry` | tests/compat/srt-sink/ts_continuity.h:57-67 | the bytes that complete the carried packet: either still too few, and all is done, or the rest of the data remains to be fed to an empty carry |
| `TsContinuity.Tracker.FeedAligned` | tests/compat/srt-sink/ts_continuity.h:69-77 | whole packets straight from the data, the rest into the carry |
| `TsContinuity.Tracker.Feed` | tests/compat/srt-sink/ts_continuity.h:53-78 | the object does what `FeedOne`, the subject of the chunking theorem, says |
| `NakDedup.ComputeHash` | src/utils/nak_dedup.cpp:5-23 | the byte loop computes the fold of the mixing step over the hashed prefix |
| `NakDedup.PrimeInvertible` | src/utils/nak_dedup.cpp:18-20 | the odd multiplier has an inverse modulo 2^64 |
| `NakDedup.MixAllInjective` | src/utils/nak_dedup.cpp:18-20 | for fixed bytes the hash is injective in the state it starts from |
| `NakDedup.SingleByteChangesHash` | src/utils/nak_dedup.cpp:5-23 | two payloads of equal hashed length that differ in exactly one hashed byte never have the same hash |
| `NakDedup.ShouldAcceptNak` | src/utils/nak_dedup.cpp:25-50 | answer and new cache of one call, including a clock that ran backwards |
| `NakDedup.SuppressionExact` | src/utils/nak_dedup.cpp:25-50 | in every call sequence with any clock the accepted times of a hash are its first call and its first later call at least 100 ms after it, and no more |
| `NakRuns.NakFilterOnRun` | src/protocol/srtla_handler.cpp:43-48 | on every run of the receiver, of all NAKs with one hash that members of a group ever send the first passes, then the first at least 100 ms later, and no others |
| `NakRuns.NakCacheOnRun` | src/protocol/srtla_handler.cpp:154-178 | in every reachable state a group's cache is what exactly the NAKs of its members have made of the empty one |
| `AuthLimiter.Limiter.RecordFailure` | src/utils/auth_rate_limiter.cpp:24-41 | the entry of the IP becomes the one that the failure leads to; the others stay |
| `AuthLimiter.Limiter.IsBlocked` | src/utils/auth_rate_limiter.cpp:43-49 | the answer is whether the IP has an entry whose block is later than now |
| `AuthLimiter.Limiter.BlockedCount` | src/utils/auth_rate_limiter.cpp:51-59 | the answer is the number of blocked IPs |
| `AuthLimiter.Limiter.Cleanup` | src/utils/auth_rate_limiter.cpp:61-72 | exactly the entries with neither block nor open window are gone |
| `AuthLimiter.Projection` | src/utils/auth_rate_limiter.cpp:24-72 | in every run, what can still matter of an IP's entry depends on that IP's own failures only |
| `AuthLimiter.SweepUnobservable` | src/utils/auth_rate_limiter.cpp:61-72 | cleanups inserted anywhere in a run change no later answer: not which failure trips, not who is blocked, not how many are |
| `AuthLimiter.WindowContents` | src/utils/auth_rate_limiter.cpp:24-41 | the open window holds the most recent failures, fewer than five, none of which tripped |
| `AuthLimiter.TripNeedsFive` | src/utils/auth_rate_limiter.cpp:24-41 | a trip needs five failures of the IP within 60 s, none but the last of which tripped |
| `AuthLimiter.EightTrip` | src/utils/auth_rate_limiter.cpp:28-40 | any eight consecutive failures within 60 s contain a trip |
| `AuthLimiter.FiveTripIff` | src/utils/auth_rate_limiter.cpp:28-40 | of five failures within 60 s one trips exactly if no window is open when they begin, or the open one still covers the failure that is its fifth |
| `AuthLimiter.FiveTripInRun` | src/utils/auth_rate_limiter.cpp:24-41 | the same in every run, for the entry that the first of the five finds, whatever was swept before |
| `AuthLimiter.SevenMayNotTrip` | src/utils/auth_rate_limiter.cpp:28-31 | seven failures within 60 s after an older one, and no trip |
| `AuthLimiter.BlockedIffRecentTrip` | src/utils/auth_rate_limiter.cpp:43-49 | in every run an IP is blocked exactly when one of its failures tripped less than 60 s ago |
| `AuthLimiter.TripObserved` | src/utils/auth_rate_limiter.cpp:24-41 | whether a failure trips in a run is decided by that IP's own earlier failures |
| `AuthLimiter.BlockNeedsFive` | src/utils/auth_rate_limiter.cpp:24-49 | a block at t rests on five failures of that IP within 60 s, the last later than t - 60 |
| `LimiterRuns.LimiterOnRun` | src/protocol/srt_handler.cpp:102-115 | in every reachable state the limiter is what exactly the refused sessions and the sweeps of the run have made of the empty table |
| `LimiterRuns.ThrottledIff` | src/protocol/srtla_handler.cpp:206-219 | on every run with true clocks a REG1 is throttled exactly when a refused session of its IP tripped the limiter less than 60 s ago; it is then refused and nothing changes |
| `AckStream.StreamExact` | src/protocol/srtla_handler.cpp:352-385 | the ACK batches so far followed by the pending log entries are the registered numbers, in order, each once |
| `AckRuns.AckStreamOnRun` | src/protocol/srtla_handler.cpp:107-188 | in every reachable state and for every live connection: the batches of the ACK packets sent to it since it joined, followed by the pending entries, are the sequence numbers of its data packets |
| `AckRuns.TurnFollows` | src/protocol/srtla_handler.cpp:352-385 | in any turn a log changes only by a data packet of its own connection, whose completed batch is what goes out to it, and a connection starts with an empty log |
| `AckStream.AckCount` | src/protocol/srtla_handler.cpp:363-384 | there is one batch for every ten packets, each of ten numbers |
| `AckStream.WordsRead` | src/sender.cpp:411-419 | after a header of whole words, the words of a packet are the numbers that were encoded |
| `Bytes.ReadWords` | src/sender.cpp:411-419 | the sender's decode loop reads every whole word of a packet, in order |
| `AckStream.AckRoundTrip` | src/sender.cpp:411-419 | the words it reads from an ACK packet are the numbers that were encoded |
| `SenderLinks.FindComplete` | src/sender.cpp:256-302 | the backward scan finds a number whenever a visible slot holds it |
| `SenderLinks.FindIffHolds` | src/sender.cpp:256-302 | the scan finds a number exactly when some slot other than the next to be written holds it |
| `SenderLinks.ChoosesFirstBest` | src/sender.cpp:169-216 | the link chosen is the first of maximal window / (in flight + 1) among those not timed out, and there is none exactly when all are timed out |
| `SenderLinks.ActionAccounted` | src/sender.cpp:155-321 | sends, NAK and ACK hits, SRT ACKs and resets each keep the account of a link, whatever their numbers |
| `SenderLinks.StepAccounted` | src/sender.cpp:155-327 | every event keeps the account of every link |
| `SenderLinks.RunAccounted` | src/sender.cpp:155-327 | so does every run, from fresh links |
| `SenderLinks.InFlightAccount` | src/sender.cpp:155-163 | on every run, with any numbers and any clock, a link's in-flight counter is its positive visible log entries plus the NAK hits plus the entries aged out plus the strays since its last SRT ACK or reset, and it is not negative |
| `SenderLinks.StrayIff` | src/sender.cpp:247-321 | a stray comes exactly from logging a number below 1, from an ACK that hits an entry below 1 while something is in flight, and from an SRT ACK below 1 that finds entries between itself and 0 |
| `SenderLinks.NoStrays` | src/sender.cpp:247-321 | runs of positive sequence and ACK numbers have no strays |
| `SenderLinks.InFlightExact` | src/sender.cpp:155-163 | on every run of positive numbers the in-flight counter is the positive visible log entries plus the NAK hits plus the entries aged out since the last SRT ACK or reset |
| `SenderLinks.AccountLostIff` | src/sender.cpp:247-321 | the next event keeps it so on a link exactly if its action there leaves no stray |
| `SenderLinks.SrtAckResynchronises` | src/sender.cpp:310-327 | on every run an SRT ACK restores equality with the visible log on a link exactly if it is positive or finds nothing there between itself and 0 |
| `SenderLinks.NakLeavesInFlight` | src/sender.cpp:256-274 | a run on which a packet reported lost stays in flight although no log shows it |
| `SenderLinks.ZeroAckTakesInFlight` | src/sender.cpp:276-302 | a run on which acknowledging number 0 takes a packet out of flight that the log still shows |
| `SenderLinks.WindowKeptIff` | src/sender.cpp:256-302 | an action takes a window out of 1000..60000 exactly if it is an ACK hit on a link that is down and has no room left for the increase |
| `SenderLinks.WindowInRange` | src/sender.cpp:256-302 | on every steady run every window stays in 1000..60000 |
| `SenderLinks.HitIffVisible` | src/sender.cpp:276-302 | some link is hit exactly when some visible slot of some link holds the number |
| `SenderLinks.AckOnRun` | src/sender.cpp:276-302 | on every run of positive numbers one more SRTLA ACK takes one packet out of flight if some link still shows the number, and none otherwise |
| `SenderLinks.AckLowersTotal` | src/sender.cpp:276-302 | from any state and for any number an SRTLA ACK lowers the total in flight by one if the first link that shows it has something in flight, and by none otherwise |
| `SenderMoves.StartLinks` | src/sender.cpp:450-497 | at the start every link has window 20000, nothing in flight and nothing but zeros in its log |
| `SenderMoves.NakMoves` | src/sender.cpp:256-274 | on every run one more NAK lowers the window of the first link that shows the number by 100, or to 1000 if that is higher, strikes out its newest entry, and changes no other link |
| `SenderMoves.AckMoves` | src/sender.cpp:276-302 | on every run one more SRTLA ACK raises every live window by 1 up to 60000; the first link that shows the number loses its newest entry and one packet in flight, and gains 29 more exactly if 1000 times what is left in flight exceeds its window |
| `SenderMoves.SrtAckMoves` | src/sender.cpp:310-327 | on every run one more SRT ACK strikes out every visible number below it and leaves in flight as many as visible slots hold one from it on |
| `SenderMoves.SendMoves` | src/sender.cpp:169-240 | on every run one more packet goes to the first of the links heard of in the last 4 s with the largest window per packet in flight and to come; a data packet is logged in the hidden slot and counted, a link that cannot send is unusable until it is heard of again, no other link changes |
| `SenderMoves.ReceivedMoves` | src/sender.cpp:382 | a packet from the receiver is news of its link alone |
| `SenderMoves.HousekeepingMoves` | src/sender.cpp:622-641 | on every run a pass tries closed links again, and resets to window 1000 and an empty log those heard of but not in the last 4 s; no other link changes |
| `SenderObjects.Conn.RegisterPacket` | src/sender.cpp:155-163 | the number is written at the index, which moves on cyclically, and one more packet is in flight |
| `SenderObjects.Conn.Lookup` | src/sender.cpp:258-260 | the loop over the circular array finds what `Find` finds |
| `SenderObjects.Conn.TryNak` | src/sender.cpp:258-268 | a hit strikes the slot and lowers the window by 100, or to 1000 if that is higher; without a hit nothing changes; the in-flight counter stays |
| `SenderObjects.Conn.TryAck` | src/sender.cpp:280-300 | the first hit strikes the slot and lowers the counter; every live link grows its window by one, up to its maximum |
| `SenderObjects.Conn.RegisterSrtAck` | src/sender.cpp:310-321 | numbers before the ACK are struck from the log and the counter becomes the number of the others |
| `SenderObjects.Conn.HousekeepLink` | src/sender.cpp:622-641 | a closed link is reopened, a timed-out live link is reset, any other is left alone |
| `SenderObjects.Sender.constructor` | src/sender.cpp:450-497 | a sender starts with fresh links and an empty history |
| `SenderObjects.Sender.SelectConn` | src/sender.cpp:169-216 | the loop finds the link that `Choose` defines |
| `SenderObjects.Sender.HandleSrtData` | src/sender.cpp:218-240 | one send event: chosen link, log entry, time stamp |
| `SenderObjects.Sender.RegisterNak` | src/sender.cpp:256-274 | one NAK event: only the first link that shows the number changes |
| `SenderObjects.Sender.RegisterSrtlaAck` | src/sender.cpp:276-302 | one ACK event on all links |
| `SenderObjects.Sender.RegisterSrtAck` | src/sender.cpp:323-327 | one cumulative ACK event on all links |
| `SenderObjects.Sender.Housekeep` | src/sender.cpp:622-641 | one housekeeping event on all links |
| `SenderObjects.Sender.RegisterLosses` | src/sender.cpp:392-408 | a loss list is, in order, one NAK for each number it names, singly or in a range |
| `SenderObjects.Sender.RegisterAcks` | src/sender.cpp:411-419 | an SRTLA ACK packet is, in order, one ACK for each word in it, read as a signed number |
| `SenderObjects.Sender.HandleFeedback` | src/sender.cpp:329-433 | a packet from the receiver touches its link and has the events that its bytes spell; REG_NGP, REG2 and empty reads do neither |
| `SenderObjects.AfterIsRun` | src/sender.cpp:155-327 | the links of the objects after a history are those of the run of `SenderLinks` |
| `SenderObjects.AckPacketAcks` | src/sender.cpp:411-419 | an ACK packet built by the receiver is read back as the acknowledgements of its batch, in order |
| `SenderObjects.SenderAccounts` | src/sender.cpp:155-327 | the counters of the sender's objects satisfy the account after every history, without strays if its numbers are positive, and the windows are in range if it is steady |
| `LossLists.NakPacketNaks` | src/sender.cpp:392-408 | a NAK packet with any list of single numbers and ranges is, to the sender, one loss for each number of the list in order |
| `LossLists.SrtAckPacketAcks` | src/sender.cpp:385-390 | an SRT ACK packet is a cumulative acknowledgement of the number at byte 16 |
| `LossLists.FeedbackExact` | src/sender.cpp:341-382 | a packet is news of its link unless it is empty, REG_NGP or REG2, and nothing else unless it is an ACK or a NAK |
| `Bonding.HappenedInv` | src/sender.cpp:218-240 | every step of sender, network and receiver keeps pending and acknowledged numbers backed by packets that were sent |
| `Bonding.AckedWasSent` | src/protocol/srtla_handler.cpp:352-385 | on every run each number in an ACK packet to one of the sender's links was carried by a data packet from that link, and the sender logged it when it chose that link |
| `Bonding.EveryAckEarned` | src/sender.cpp:411-419 | every SRTLA acknowledgement that the sender's links have seen was for a number sent before, unless the SRT server makes up SRTLA ACKs |
| `Registry.FindByAddressExact` | src/connection/connection_registry.cpp:89-110 | with unique owners the first-match scan is a map: connection k of group i exactly for its address, group i alone exactly for an address that is only its last one, nobody only if unclaimed |
| `Registry.NobodyIffUnclaimed` | src/connection/connection_registry.cpp:89-110 | the scan finds nobody exactly when no group claims the address |
| `Registry.OrderIrrelevant` | src/connection/connection_registry.cpp:89-110 | with unique owners the answer is the same for every order of the groups |
| `Registry.OldestGhostExact` | src/connection/connection_registry.cpp:58-78 | the victim is the first of the oldest groups without connection and data, and there is none exactly when there is no such group |
| `Registry.ReapConnsTwice` | src/connection/connection_registry.cpp:136-174 | reaping connections at t1 and then at t2 leaves and counts what reaping at t2 alone does |
| `Registry.ReapGroupsTwice` | src/connection/connection_registry.cpp:112-192 | the same for the whole table, with expiry of groups |
| `Quality.SortSorts` | src/quality/quality_evaluator.cpp:118-125 | the sort under the median is sorted and a permutation |
| `Quality.TypicalBounds` | src/quality/quality_evaluator.cpp:99-136 | if some link carries data the median of the good links is between half of the fastest and the fastest, and the fallback over all links is dead code |
| `Quality.FastestLinkPenalty` | src/quality/quality_evaluator.cpp:156-240 | a judged connection's error points are its bandwidth charge plus loss and telemetry; the fastest one is charged for bandwidth exactly when it stays below 85% of the minimum expected of a connection |
| `Quality.FastestLinkCharged` | src/quality/quality_evaluator.cpp:63-67 | a group whose only, hence fastest, connection gets 40 points |
| `Quality.FirstEvaluation` | src/quality/quality_evaluator.cpp:63-92 | a connection that was never evaluated is charged in full for its bandwidth once it is out of grace, and for nothing else but telemetry |
| `Quality.JudgeKeepsStats` | src/quality/quality_evaluator.cpp:402-456 | without extended keepalives the error points are the legacy ones, and the legacy weight is the table value of the legacy points |
| `Quality.LegacyComparison` | src/quality/quality_evaluator.cpp:402-456 | without extended keepalives the weight is at most the legacy weight; without fresh telemetry the points are at most the legacy points |
| `Quality.EvaluatedInStep` | src/quality/quality_evaluator.cpp:41-285 | evaluation never falls so far behind the balancer that a rebalancing is missed |
| `Quality.TendedAgrees` | src/quality/load_balancer.cpp:17-72 | after evaluation and balancing every weight is the table value of the error points, though the two run on separate timers |
| `Verdicts.MedianExact` | src/quality/quality_evaluator.cpp:118-125 | the median is halfway between the lower and the upper middle element, where less than half are less than the lower one and half or more at most it, and conversely for the upper one |
| `Verdicts.MedianHalves` | src/quality/quality_evaluator.cpp:118-125 | at most half of the values are less than the median, and at most half more |
| `Verdicts.TypicalExact` | src/quality/quality_evaluator.cpp:99-136 | the typical speed is the median of those that reach half of the largest, each counted as often as it occurs, and 0 if nothing was received |
| `Verdicts.SpeedCharged` | src/quality/quality_evaluator.cpp:181-206 | a speed below 30, 50, 70 and 85% of what is expected costs 40, 25, 15 and 5 points, or 10, 7, 4 and 2 with extended keepalives |
| `Verdicts.LossCharged` | src/quality/quality_evaluator.cpp:208-217 | losses cost 40, 20, 10 or 5 points exactly if 5, 10, 20 or 100 times the lost packets exceed the received and lost ones, over the raw counters with wrap-around |
| `Verdicts.NakCharged` | src/quality/quality_evaluator.cpp:338-359 | so do the sender's NAKs, against the packets received |
| `Verdicts.JitteryIff` | src/quality/quality_evaluator.cpp:287-336 | jitter is charged exactly if of n >= 2 known round trips n times the sum of squares less the square of the sum exceeds 2500 n^2 |
| `Verdicts.CongestedIff` | src/quality/quality_evaluator.cpp:361-379 | a window is charged 15 points exactly if 20 times the packets in flight exceed 19 times the window |
| `Verdicts.EvaluationCharges` | src/quality/quality_evaluator.cpp:144-265 | an evaluation leaves connections younger than 10 s alone; every other gets the sum of its charges for speed, loss and telemetry, all stated over its counters, its legacy points, and new baselines for the next period |
| `Verdicts.LossNeverHelps` | src/quality/quality_evaluator.cpp:208-217 | if more packets of a connection were lost, all else equal, it would not get fewer points, and every other connection would get the same |
| `Verdicts.TendedVerdict` | src/quality/load_balancer.cpp:17-72 | a group is evaluated exactly if it has connections and 5 s have passed; every weight is then 10, 40, 55, 70, 85 or 100 by the thresholds 40, 25, 15, 10 and 5 of its points |
| `ReceiverInvariants.RegisterGroupInv` | src/protocol/srtla_handler.cpp:206-277 | REG1 keeps the global invariant, whatever it answers |
| `ReceiverInvariants.RegisterConnectionInv` | src/protocol/srtla_handler.cpp:279-350 | so does REG2 |
| `ReceiverInvariants.HandleTrafficInv` | src/protocol/srtla_handler.cpp:107-188 | so does every other packet from a client, forwarded, dropped or fatal to its group |
| `ReceiverInvariants.HandleServerInv` | src/protocol/srt_handler.cpp:71-181 | so does every packet from the SRT server |
| `ReceiverInvariants.StepInv` | src/receiver_main.cpp:197-223 | so does every event |
| `ReceiverInvariants.CleanedUpInv` | src/connection/connection_registry.cpp:112-192 | so does the reaper, at any later time |
| `ReceiverInvariants.LoopTailInv` | src/receiver_main.cpp:225-230 | so does the end of an iteration, which also leaves every weight at its table value |
| `ReceiverInvariants.ErasedNotRecovering` | src/connection/connection_registry.cpp:140-173 | a connection that times out has no open recovery left |
| `ReceiverTheorems.RunInv` | src/receiver_main.cpp:186-231 | the invariant holds after every run of the main loop |
| `Turns.ReachedAsTurns` | src/receiver_main.cpp:186-231 | every reachable state is that of an ordered list of turns, events and ends of iterations |
| `ReceiverTheorems.AddressOwnership` | src/connection/connection_registry.cpp:89-110 | in every reachable state each address has at most one owner, so look-ups do not depend on the order of the groups |
| `ReceiverTheorems.Conservation` | src/protocol/srtla_handler.cpp:206-277 | on every run registrations are live groups plus idle, auth, SRT-error and evicted removals; recoveries started are completed, failed, open or discarded; never more than 200 groups or 16 connections in one |
| `ReceiverTheorems.BroadcastReachesAll` | src/protocol/srt_handler.cpp:117-147 | in every reachable state a relayed ACK or NAK goes to every member of the group, once and in order |
| `ReceiverTheorems.ReaperClosesRecoveries` | src/connection/connection_registry.cpp:136-174 | no connection that the reaper erases is still in recovery, and after a pass no recovery is older than 5 s |
| `ReceiverTheorems.CleanupComposes` | src/connection/connection_registry.cpp:112-192 | in every reachable state a cleanup at t1 and one at t2 >= t1 + 3 leave the same groups, connections and counters as the one at t2 alone |
| `ReceiverTheorems.WeightAgreement` | src/receiver_main.cpp:225-230 | at the end of every iteration each weight is the table value of its points; a connection without extended keepalives has its legacy points and at most its legacy weight |
| `ReceiverTheorems.FirstVerdict` | src/quality/quality_evaluator.cpp:144-160 | in every reachable state a connection in grace was never evaluated, and the first evaluation out of grace leaves it a weight of at most 70, or 10 for a legacy sender |
| `ReceiverTheorems.VerdictsOnRun` | src/receiver_main.cpp:225-230 | at the end of every iteration of every run all connections that the reaper left are charged, or keep their points, and are weighed as `Verdicts.TendedVerdict` says |
| `ReceiverTheorems.NakVerdict` | src/protocol/srtla_handler.cpp:154-178 | an accepted NAK is counted, and causes an evaluation at once exactly if it is at least the sixth of its connection and the last evaluation was 5 s ago |
| `ReceiverTheorems.CleanupCounts` | src/connection/connection_registry.cpp:136-188 | what a reaper pass adds to the counters: recoveries older than 5 s in which something came, those in which nothing did, connections silent for 15 s, groups that are gone |
| `ReceiverTheorems.EvictionSafe` | src/connection/connection_registry.cpp:58-78 | in every reachable state eviction takes the oldest group without connection, data, SRT socket and session, and only from a full table |
| `ReceiverTheorems.Reg1AcceptedIff` | src/protocol/srtla_handler.cpp:206-277 | REG1 is accepted exactly if the source is not throttled, there is room or a ghost, nobody but that ghost claims the address, and the reply can be sent |
| `ReceiverTheorems.Reg1Answers` | src/protocol/srtla_handler.cpp:206-277 | REG_ERR exactly if the source is throttled, a full table has no ghost or somebody else claims the address; otherwise REG2 or, if it cannot be sent, nothing; a new group is empty, last, and knows only its id, age and address |
| `ReceiverTheorems.Reg2Answers` | src/protocol/srtla_handler.cpp:279-350 | REG_NGP exactly if no group has the id; REG_ERR exactly if one has, and another group claims the address or the group has 16 members without it; REG3 exactly otherwise and if it can be sent; only with REG3 does anything change, and the address is then a member and the last address |
| `ReceiverTheorems.RefusedReg1KeepsIff` | src/protocol/srtla_handler.cpp:206-253 | a REG1 that is not accepted changes nothing exactly if the source is throttled, the table has room or it has no ghost; otherwise just the oldest ghost is evicted |
| `Reg1Flood.RefusedReg1Evicts` | src/protocol/srtla_handler.cpp:226-253 | a reachable full table and a REG1 that is refused while another source's group is lost |
| `ReceiverTheorems.StepLeaves` | src/protocol/srt_handler.cpp:71-288 | an event removes a group only as a ghost or because the SRT side gives it up |
| `ReceiverTheorems.TailLeaves` | src/connection/connection_registry.cpp:176-181 | the end of an iteration removes only groups that are empty and past their timeout |
| `ReceiverTheorems.DataGroupsLeave` | src/connection/connection_registry.cpp:176-181 | in every reachable state a group that carried data leaves only by SRT teardown, or empty and older than 30 s |
| `Origins.OriginOf` | src/receiver_main.cpp:186-231 | every group after a turn is newly registered, or what the turn makes of one group before |
| `Origins.ConnTurn` | src/protocol/srtla_handler.cpp:107-188 | what a turn makes of one connection: its times, its recovery, its counters and its log, by the packet that came |
| `ConnRuns.HeardOnRun` | src/protocol/srtla_handler.cpp:127-152 | in every reachable state a connection's last reception is the last turn in which a packet came from it, or its joining; its packets, bytes and losses are those that came since |
| `ConnRuns.ErasedIffSilent` | src/connection/connection_registry.cpp:136-174 | on every run a cleanup at t erases a connection exactly if no packet came from it in the 15 s before t |
| `GroupRuns.SignsOnRun` | src/protocol/srt_handler.cpp:88-93 | in every reachable state data was seen exactly if a member streamed, the socket is open exactly if something was passed on, the session is established exactly if a server ACK was handled for the group, and the last address and the age are those of the run |
| `GroupRuns.RefusedSession` | src/protocol/srt_handler.cpp:95-181 | on every run a rejection, or a SHUTDOWN to a group without such an ACK, is relayed, removes just that group, adds one to the authentication failures and is one failure of the IP of its last address |
| `GroupRuns.OrdinaryPacket` | src/protocol/srt_handler.cpp:88-181 | on every run any other packet, a SHUTDOWN after an ACK included, is relayed and changes nothing but that an ACK establishes the session |
| `GroupRuns.BrokenServerLink` | src/protocol/srt_handler.cpp:76-86 | a failed read removes just that group as an SRT error, and nothing is relayed |
| `GroupRuns.TrafficVerdict` | src/protocol/srt_handler.cpp:186-283 | SRT traffic ends its group, as an SRT error, exactly if the socket cannot be opened or the send breaks |
| `GroupRuns.ExpiresIff` | src/connection/connection_registry.cpp:112-188 | on every run the end of an iteration removes a group exactly if there is a cleanup, no member was heard of in 15 s, and it is older than 30 s if a member ever streamed and 5 s if not |
| `Wire.ClassifyExact` | src/protocol/srtla_handler.cpp:107-152 | which bytes and lengths make a packet a registration, a keepalive, too short, or SRT traffic |
| `Wire.TypesExact` | src/common.c:106-126 | the first two bytes of an SRT ACK, NAK and SHUTDOWN |
| `Wire.RejectExact` | src/common.c:128-135 | a handshake is a rejection exactly if it has 64 bytes and its tenth word is from 1000 up to 2^31 |
| `Wire.NumberExact` | src/common.c:94-104 | a packet is data exactly if its first bit is 0, and its number is then its first word |
| `Wire.KeyExact` | src/utils/auth_rate_limiter.cpp:10-22 | addresses share a throttle exactly if they agree in family and IP |
| `Wire.HashDiffersIff` | src/utils/nak_dedup.cpp:5-23 | NAKs that differ in one byte have different hashes exactly if it is one of the 128 bytes after the header |
| `Wire.KeepaliveExact` | src/common.c:155-192 | a keepalive carries telemetry exactly if it has 38 bytes, the magic number and version 1, and the numbers read are those it was built from |
| `Wire.TrafficAnswers` | src/protocol/srtla_handler.cpp:120-188 | a packet that is no registration is answered and noticed only from a member: a keepalive by its echo, SRT traffic by at most one ACK packet of ten numbers, anything shorter not at all |
| `Wire.KeepaliveHeard` | src/protocol/srtla_handler.cpp:425-445 | a keepalive from a member is echoed and changes what is known of that member alone |
| `Wire.LatestTold` | src/protocol/srtla_handler.cpp:393-419 | after any sequence of extended keepalives round trip, window, packets in flight and NAKs are those of the last |
| `Wire.LastFive` | src/protocol/srtla_handler.cpp:393-419 | after any sequence of extended keepalives the history has the round trips of the last five, number j in slot j modulo 5 |
| `Confluence.JoinOnce` | src/protocol/srtla_handler.cpp:279-350 | an eligible REG2 is answered with REG3, adds the address to the members and leaves the other groups alone |
| `Confluence.JoinAllExact` | src/protocol/srtla_handler.cpp:279-350 | any list of eligible REG2s leaves as members the old ones and the addresses of the list |
| `Confluence.EveryJoinAnswered` | src/protocol/srtla_handler.cpp:325-350 | each of them is answered with REG3 |
| `Confluence.Reg2Confluence` | src/protocol/srtla_handler.cpp:279-350 | lists with the same addresses, in any order and with any repetition, end with the same members |
| `Handshake.RegistrationsRead` | src/sender.cpp:121-148 | the REG1 and REG2 bytes that a sender writes are the registrations that the receiver reads |
| `Handshake.Registrar.HandleNgp` | src/sender.cpp:343-356 | REG1 goes out on this link only without active links and without a registration under way |
| `Handshake.Registrar.HandleReg2` | src/sender.cpp:358-379 | an id with our half, on the link that asked, is adopted and sent on every link with a socket; any other changes nothing |
| `Handshake.Registrar.HandleReg3` | src/sender.cpp:424-429 | one more active link |
| `Handshake.Registrar.Housekeep` | src/sender.cpp:616-651 | a stale registration is forgotten and timed-out links are nudged with REG2, or REG1 on the pending link |
| `Handshake.MintedForReg1` | src/connection/connection_group.cpp:18-28 | only a REG1 makes the receiver send an id, to its source, beginning with its half |
| `Handshake.NextInv` | src/sender.cpp:329-433 | every step of senders, network and receiver keeps the system invariant |
| `Handshake.Isolation` | src/sender.cpp:358-379 | on every run, whatever the SRT server sends: no sender loses its half, every id a sender holds is its first, was minted for a REG1 of its own carrying that half, or came from the SRT server itself, and senders with different halves never share a group |
| `Handshake.JoinSoundIff` | src/protocol/srtla_handler.cpp:279-350 | a REG2 that joins a group keeps it to one half exactly if it comes from a link with that half |
| `Handshake.NewGroupSoundIff` | src/protocol/srtla_handler.cpp:255-276 | a new group listens to a link of its own half exactly if its REG1 carried the half of the link it came from |
| `HandshakeMoves.TickMoves` | src/sender.cpp:609-651 | on every run a tick forgets a pending registration exactly if its time is over, and sends REG2 on the dead links if none is pending, REG1 on the link of a pending one, and nothing else |
| `HandshakeMoves.NgpMoves` | src/sender.cpp:343-356 | on every run a REG_NGP makes the sender ask for a group exactly if it has no active link, nothing pending, its time is over and it can send |
| `HandshakeMoves.Reg2Moves` | src/sender.cpp:358-380 | on every run a REG2 is adopted, and sent on all links, exactly if one is awaited on its link and its first 128 bytes are the sender's |
| `HandshakeMoves.OpenAmongExact` | src/sender.cpp:371-374 | the links that it goes out on are those with a socket, each as often as it is listed |
| `HandshakeMoves.Reg3Moves` | src/sender.cpp:424-429 | on every run a REG3 is one more active link and nothing else |
| `Completion.HandshakeCompletes` | src/sender.cpp:343-429 | from the start, a tick of a sender and the delivery of its packets and of the replies, with sends that succeed, end with the sender holding the minted id and one active link, and the receiver with one group of that id whose one member is the link |
| `ConnectionObjects.Connection.Touch` | src/protocol/srtla_handler.cpp:127-137 | the last reception is now; a recovery starts, now, exactly if none was open and nothing came for 15 s |
| `ConnectionObjects.Connection.RegisterPacket` | src/protocol/srtla_handler.cpp:352-385 | the log array and index change as `Register` says and the batch returned is the completed one |
| `ConnectionObjects.Connection.UpdateTelemetry` | src/protocol/srtla_handler.cpp:393-419 | exactly the telemetry fields change, with the RTT history as a ring |
| `ConnectionObjects.Connection.Evaluate` | src/quality/quality_evaluator.cpp:156-265 | the accumulated error points and the period bookkeeping are those of `Judge` |
| `ConnectionObjects.Connection.AdjustWeight` | src/quality/load_balancer.cpp:45-66 | the weight becomes the table value of the error points |
| `ConnectionObjects.Connection.SettleRecovery` | src/connection/connection_registry.cpp:140-158 | a finished recovery is closed and counted as completed or failed |
| `ConnectionObjects.ConnectionGroup.constructor` | src/connection/connection_group.cpp:18-28 | a new group is empty, pending and knows its creator's address |
| `ConnectionObjects.ConnectionGroup.Join` | src/protocol/srtla_handler.cpp:338-342 | an unknown address becomes a member, a known one does not, and either becomes the last address |
| `ConnectionObjects.ConnectionGroup.NoteNak` | src/protocol/srtla_handler.cpp:154-178 | duplicates are reported and change nothing; others are counted and may cause an evaluation |
| `ConnectionObjects.ConnectionGroup.HandlePacket` | src/protocol/srtla_handler.cpp:127-183 | the whole effect of a packet on its group |
| `ConnectionObjects.ConnectionGroup.RelayToClients` | src/protocol/srt_handler.cpp:117-166 | where a packet from the SRT server is sent |
| `ConnectionObjects.ConnectionGroup.EvaluateGroup` | src/quality/quality_evaluator.cpp:41-285 | the loops over measurements and connections compute `Evaluated` |
| `ConnectionObjects.ComputeTypical` | src/quality/quality_evaluator.cpp:99-136 | the loops over the bandwidths compute the typical bandwidth that `TypicalBounds` is about |
| `ConnectionObjects.ConnectionGroup.AdjustWeights` | src/quality/load_balancer.cpp:17-72 | the gate and the loop compute `Balanced` |
| `ConnectionObjects.ConnectionGroup.ReapConnections` | src/connection/connection_registry.cpp:136-174 | erasing in place leaves the order-preserving filter of the connections and its tally |
| `ConnectionObjects.ConnectionGroup.Reap` | src/connection/connection_registry.cpp:131-187 | in addition, whether the group expires |
| `ReceiverObjects.ConnectionRegistry.FindGroup` | src/connection/connection_registry.cpp:89-110 | the nested loops find what `FindByAddress` finds |
| `ReceiverObjects.ConnectionRegistry.FindGroupById` | src/connection/connection_registry.cpp:80-87 | the loop finds the first group with the id |
| `ReceiverObjects.ConnectionRegistry.EvictOldestPending` | src/connection/connection_registry.cpp:58-78 | the loop evicts the group that `OldestGhost` names and counts it, or nothing |
| `ReceiverObjects.ConnectionRegistry.TearDown` | src/protocol/srt_handler.cpp:285-288 | the group is gone and counted under the reason, the others stay in order |
| `ReceiverObjects.ConnectionRegistry.ReapLoop` | src/connection/connection_registry.cpp:131-188 | erasing groups in place leaves the order-preserving filter of the table and its tally |
| `ReceiverObjects.ConnectionRegistry.CleanupInactive` | src/connection/connection_registry.cpp:112-192 | at most every 3 s, a reaper pass with all its counters |
| `ReceiverObjects.ConnectionRegistry.TendGroups` | src/receiver_main.cpp:227-230 | every group is evaluated and balanced |
| `ReceiverProgram.Program.RegisterGroup` | src/protocol/srtla_handler.cpp:206-277 | objects and reply after a REG1 are those of the value model |
| `ReceiverProgram.Program.RegisterConnection` | src/protocol/srtla_handler.cpp:279-350 | objects and reply after a REG2 are those of the value model |
| `ReceiverProgram.Program.HandleTraffic` | src/protocol/srtla_handler.cpp:120-188 | objects, echoes and ACK packets after any other client packet are those of the value model |
| `ReceiverProgram.Program.Forward` | src/protocol/srt_handler.cpp:186-283 | the socket is opened when needed; a failure to open or a broken send removes the group, a transient failure does not |
| `ReceiverProgram.Program.HandleServer` | src/protocol/srt_handler.cpp:71-181 | objects and relayed packets after a packet from the SRT server are those of the value model |
| `ReceiverProgram.Program.HandleDatagram` | src/protocol/srtla_handler.cpp:107-188 | the dispatch as a whole |
| `ReceiverProgram.Program.FinishIteration` | src/receiver_main.cpp:225-230 | cleanup, limiter cleanup, evaluation and balancing, in this order |
| `ReceiverProgram.Program.HandleEvents` | src/protocol/srtla_handler.cpp:95-102 | a batch of packets is handled one by one, in order |
| `ReceiverProgram.MainLoop.Iterate` | src/receiver_main.cpp:186-231 | one turn extends the run by one iteration, whose events are those of the wake-ups up to the first that shrinks the table, or of all |
| `ReceiverProgram.RunningGuarantees` | src/receiver_main.cpp:186-231 | after every run the objects of the main loop satisfy conservation, both capacities, unique ownership, and weight agreement with the legacy comparison |

## Left out

- Sockets, epoll, stale event references, batched system calls, name resolution, random bytes, info files and logging are inputs or absent.
- Group identity across a removal is a model-only serial number (`serial`), the count of registrations so far, in place of object identity.
- Metrics other than the counters in the conservation laws, and their rendering and serving (src/metrics/).
- The keepalives that the reaper and the sender send to idle links: they change no modelled state but `last_sent`.
- Bitrate validation (src/quality/quality_evaluator.cpp:381-400), the total target bandwidth of a group and the log-only comparison of algorithms.
- The weight changes are not followed into src/quality/load_balancer.cpp:74-113, which only logs.
- Failure of the clock functions, and floating-point rounding: evaluation is over reals.
- Overflow of 64-bit counters, of the in-flight counter and of time stamps; the 32-bit and 16-bit loss counters do wrap.
- `setup_conns` file parsing, `update_conns`, signals, and the sender's global timeout with `exit`: the set of links is fixed.
- Wraparound of sequence numbers in `conn_register_srt_ack`, as in the source's own note (src/sender.cpp:304-309).
- SenderObjects.Sender.RegisterLosses: takes well-formed loss lists, in which every range has its end, below 2^31 - 1; for others the source reads past the packet or overflows its loop counter.
- SenderObjects.Sender.HandleFeedback: takes SRT ACKs long enough to hold their number, and well-formed loss lists.
- SenderLinks.InFlightExact: for positive sequence and ACK numbers; `InFlightAccount` is the account for all numbers.
- SenderLinks.AckOnRun: for positive numbers; `AckLowersTotal` has the drop for all numbers.
- SenderLinks.WindowInRange: for clock readings above 4 when packets are sent and above 0 when they arrive, and positive SRT ACKs; `WindowKeptIff` says what can happen otherwise.
- AuthLimiter.SweepUnobservable: the clock is positive, because window start 0 means no window, and no operation reads it earlier than a cleanup before it.
- Handshake.Isolation: each link address belongs to one sender for the whole run; the SRT caller hands its sender no packet shaped like a registration with another sender's half, which `JoinSoundIff` and `NewGroupSoundIff` show to be needed; and a REG2 that the SRT server makes up is at least as long as a real one, since the source reads past a shorter one.
- LimiterRuns.ThrottledIff: clock readings are positive and do not run backwards; `LimiterOnRun` needs no such condition.
- ReceiverTheorems.Reg2Answers: takes states in which every address has one owner, as `AddressOwnership` proves of every reachable state.
- LossLists.NakPacketNaks: takes loss lists whose numbers have 31 bits and whose ranges end below 2^31 - 1, as the loop of the source needs.
- Completion.HandshakeCompletes: for one link of the sender, and a network that delivers each packet and reply of its registration.
- Verdicts.TendedVerdict: group balancing stays enabled and its timers in step, as `ReceiverInvariants.LoopTailInv` keeps them.
- Quality.EvaluatedInStep: group balancing stays enabled, as nothing in the receiver disables it.
- The Python scripts under tests, and the other programs under tests/compat.
