# A model of the TWAMP measurement suite

The repository measures networks with TWAMP (RFC 5357): a sender emits numbered test packets, a
reflector numbers and returns them, and the sender derives delays and losses. A control connection
can set the test up, and a small event loop drives all of it. This project models those parts and
proves what holds over all inputs and over every run.

| file | what it models |
|---|---|
| MachineInts.dfy, Wrappers.dfy, Sorting.dfy | wrapping integers, `Option`/`Result`, the library sorts |
| Time.dfy | `DateTime`, `Interval`, `NtpTimestamp` and their arithmetic |
| Floats.dfy, NtpFloats.dfy | rounding to binary64; the NTP conversions operation by operation in it |
| Packets.dfy, Sessions.dfy, Loss.dfy | packet records, the session object, loss analysis |
| Senders.dfy, SenderRuns.dfy | the sender's three callbacks; every interleaving of ticks, replies and corrections |
| CorrectionRuns.dfy, CorrectionLaws.dfy, CorrectionExamples.dfy | which kernel stamps the corrections put on which packets, and what these then show |
| Reflectors.dfy, ReflectorRuns.dfy | the reflector's session table; every sequence of arrivals and evictions |
| ReflectorService.dfy | the reflector in its event loop; how long it serves |
| Network.dfy, LossAttribution.dfy, LossExamples.dfy | sender, lossy network and reflector together; what the loss counts mean |
| Statistics.dfy, Summaries.dfy | the per-session figures and the laws between them |
| Control.dfy, ControlRuns.dfy | control client and control server; the two joined by FIFO channels |
| EventLoop.dfy, EventLoopRuns.dfy | the event loop; every run from construction to its end |
| WorkerRuns.dfy | a control client's test in its worker event loop |

The shape repeats: an object of the source is a class whose methods equate its new state with a
function of the old one; the run modules then reason about those functions. A run is a sequence of
steps chosen freely by the environment; a step that is not possible changes nothing, so a statement
about all sequences is one about all runs.

Integers have the source's width and wrap as in a release build (the repository's README runs it that
way; a debug build would stop at an overflow instead). Clocks, the network, the kernel's stamps,
socket and poll outcomes are parameters of the steps.

## What the code does not do

Where a promise fails, the model keeps the code and states exactly when the promise holds.

- A `DateTime` in the last nanoseconds of a second can come back from NTP one second late: the seconds
  are taken from one f64 sum of seconds and nanoseconds, which rounds up. Today that is so from
  999_999_881 ns on (`NtpRoundTripIff`; `RoundTripCarries`).
- Of the three NTP encoders only that one makes such a sum, so the other two part from it already now;
  from each other they part in 2036, where one wraps the seconds and the other saturates them
  (`EncodersAgreeIff`, `NowAgreesIff`, `NowAgreesWithTimespecIff`; `EncodersPart`). A test packet and the
  record kept of it are stamped by different ones (`DatagramAgreesIff`).
- Forward loss is the whole outward loss only if what was lost outward before the first and after the
  last answered packet past position 0 is as much as a restart of the numbering counts too often; the
  rest is reported as backward loss (`ForwardIsAllOutwardLossIff`). A single lost packet is the smallest
  example (`LeadingLossIsMissed`).
- An eviction restarts the numbering of a session at 0 (`NumberingContinuesIff`; `NumberingRestarts`).
  Between answered packets on both sides of it the forward loss then also counts packets that did
  arrive, and the backward loss can wrap below zero, even when no packet was lost (`LossAttributed`;
  `RestartOvercounts`).
- Kernel timestamps reach their own packets exactly while each drained one comes in turn: its place in
  its drain is that of its packet's session, and no earlier packet of that session went without a stamp
  (`CorrectionRightIff`). While no send fails, that is when every non-empty drain of the error queue begins
  on a round boundary (`NoSendFailedIff`; `HalfRoundFails`); while drains begin on boundaries, it is when
  nothing is drained past the first stamp that a failed send left out (`OnBoundariesIff`;
  `FailedSendFails`). Neither is needed (`InsideRoundCanBeRight`). The comment at
  twamp/src/twamp_light_sender/twamp_light.rs:413 says stamps are ordered by target and then by number;
  the code relies on the opposite nesting, which is modelled.
- The reflector stops serving all senders at the first datagram that does not parse, receive that fails
  or poll that fails, and panics at the first datagram with less than 27 octets of padding (`ServesIff`).
- Overtime is cut short when, after the deadline, any other token that is in neither map becomes readable,
  the send timer it has just removed included; the loop then returns Ok without waiting for late replies
  (`CutShortIff`, `SenderCutShortIff`; `SenderCutShort`).
- Subtracting a duration whose seconds exceed an i64 clamps only in part (`SubDurationExactIff`;
  `SubDurationPastI64Fails`).
- The control client writes IPv4 octets at the end of the address field, the server reads the start of
  it: it always registers the wildcard address (`AddressSurvivesIff`).
- With a cleanup set, the event loop ends with the token-not-found error and never with Ok
  (`LifecycleEvents`), and so does every test started over a control connection (`TestNeverEndsOk`). The
  doc comment at network_commons/src/epoll_loop.rs:53 says overtime removes all timed events; timers
  listed as exceptions stay.

## Model

| member | source | states |
|---|---|---|
| Time.AddIsModular | network_commons/src/time.rs:130-143 | Adding a duration is exact modulo 2^32 seconds and gives a normalized value |
| Time.AddExactIffNoOverflow | network_commons/src/time.rs:130-143 | The sum is the exact one if and only if its seconds fit 32 bits |
| Time.SubDurationExactIff | network_commons/src/time.rs:145-171 | The difference is normalized, and is max(0, t - d) if and only if the duration's seconds fit i64 or one of two stated coincidences past it holds |
| Time.DiffIsExact | network_commons/src/time.rs:173-192 | The interval between any two field values is the exact signed nanosecond difference; i64 never overflows |
| Time.SubDurationPastI64Fails | network_commons/src/time.rs:145-171 | Taking 2^63 + 1 s from 0 gives the last second of 32 bits instead of 0 |
| Time.AddThenDiff | network_commons/src/time.rs:130-192 | (a + d) - a is d with a positive sign while the sum fits |
| Time.AddThenSubDuration | network_commons/src/time.rs:130-171 | (a + d) - d is a while the sum fits |
| Time.FromNanosExactIff | network_commons/src/time.rs:115-120 | A nanosecond count survives the conversion if and only if it is below 2^32 seconds |
| Time.EpochIsSeventyYears | network_commons/src/time.rs:12 | The NTP era begins 70 years with 17 leap days before the Unix one |
| Time.YearTwoThousand | network_commons/src/time.rs:206-265 | All three encoders place half a second into 2000 at 100 years with 24 leap days and 2^31 units |
| Time.NtpRoundTrip | network_commons/src/time.rs:258-282 | A normalized DateTime comes back from NTP with its nanoseconds, era change included, and with its second or, when the f64 sum carries, the next one |
| Time.NtpRoundTripIff | network_commons/src/time.rs:258-282 | Any DateTime survives the trip if and only if it is normalized and the sum does not carry, or it is in the last second of 32 bits |
| Time.RoundTripCarries | network_commons/src/time.rs:91-93 | A time of November 2025 comes back one second late |
| NtpFloats.EncodesAsFloats | network_commons/src/time.rs:258-266 | The f64 operations of the encoder, each rounded to 53 bits, give the integer form for every pair of field values: the seconds carry exactly as Carries says, the fraction is exact |
| NtpFloats.DecodesAsFloats | network_commons/src/time.rs:270-281 | The f64 operations of the decoder are exact before the final rounding, for every timestamp |
| NtpFloats.TimespecAsFloats | network_commons/src/time.rs:227-242 | The f64 operations of the second encoder give the integer form for every pair of u64 values |
| Time.FractionStrictlyIncreasing | network_commons/src/time.rs:261 | Different nanosecond values get different, ordered fractions |
| Time.FractionRoundTripError | network_commons/src/time.rs:270-281 | A decoded fraction is normalized if and only if it is at most 2^32-3, and then comes back within 3 units |
| Time.EncodersAgreeIff | network_commons/src/time.rs:227-265 | The two encoders agree if and only if the NTP seconds fit 32 bits and the f64 sum does not carry |
| Time.NowAgreesIff | network_commons/src/time.rs:206-225 | NtpTimestamp::now agrees with the encoder of DateTime if and only if the reading survives the trip through that one |
| Time.NowAgreesWithTimespecIff | network_commons/src/time.rs:206-242 | It agrees with ntp_from_timespec if and only if the NTP seconds fit 32 bits or wrap to the saturated value |
| NtpFloats.NowAsFloats | network_commons/src/time.rs:206-225 | Its f64 operations give the integer form for every clock reading |
| Time.EncodersPart | network_commons/src/time.rs:227-265 | They part for a time of November 2025 and at the first second of the next NTP era |
| Sorting.SortUnstable | twamp/src/twamp_common/session.rs:120 | The library sort gives some ascending permutation, no more |
| Sorting.SortIsUnique | twamp/src/twamp_common/session.rs:120 | That permutation is unique when keys determine elements |
| Sessions.Session.constructor | twamp/src/twamp_common/session.rs:32-40 | A new session has number 0, no records and a cursor at 0 |
| Sessions.Session.AddToSent | twamp/src/twamp_common/session.rs:61-69 | Appends the record and advances the wrapping counter |
| Sessions.Session.AddToReceived | twamp/src/twamp_common/session.rs:44-58 | The search rewrites the first record with the reply's sender number, or nothing |
| Sessions.Session.UpdateTxTimestamps | twamp/src/twamp_common/session.rs:92-109 | Gives the stamps in order to the records from the cursor on and moves the cursor by the number applied |
| Sessions.Session.GetLatestResult | twamp/src/twamp_common/session.rs:72-89 | The last record, or none exactly when there is none |
| Sessions.Session.AnalyzePacketLoss | twamp/src/twamp_common/session.rs:113-158 | The 32-bit loop computes the triple of some sorted arrangement: total lost, sum of non-negative gaps, and their difference |
| Loss.LossesOrderIndependent | twamp/src/twamp_common/session.rs:117-157 | The triple is the same for every storage order of records with distinct numbers |
| Loss.ForwardLossBound | twamp/src/twamp_common/session.rs:134-153 | For any reflector numbering the forward loss is at least the end-to-end gap, with equality if and only if no step runs backwards |
| Senders.CountNthExact | twamp/src/twamp_light_sender/twamp_light.rs:416-420 | Element j exists in skip(i).step_by(n) exactly when index i + j*n exists |
| Senders.TxCallback | twamp/src/twamp_light_sender/twamp_light.rs:343-390 | One message and one record for each session, both with the session's counter; a message with configured padding p carries 27 + p octets of it |
| Senders.DatagramAgreesIff | twamp/src/twamp_light_sender/twamp_light.rs:347-387 | Stamped at one instant, a test packet and its record agree if and only if the instant survives the encoder of the record; the packet is always right |
| Senders.TxCorrectCallback | twamp/src/twamp_light_sender/twamp_light.rs:392-426 | However the drain was cut into batches, session i takes every n-th of the kernel's stamps between its two ends, from the i-th on, in order |
| Senders.TakeReply | twamp/src/twamp_light_sender/twamp_light.rs:438-457 | The first session that targets the source takes the reply; an unparsable or foreign one changes nothing |
| Senders.RxCallback | twamp/src/twamp_light_sender/twamp_light.rs:428-462 | The whole queue of datagrams is taken in order |
| SenderRuns.EveryRunHasShape | twamp/src/twamp_common/session.rs:44-109 | In every run record j is packet j, counters equal lengths, cursors are in bounds, sessions are equally long, no record is half answered |
| SenderRuns.RepliesAreMatched | twamp/src/twamp_common/session.rs:44-58 | Within the sequence space a reply rewrites exactly the record it answers and keeps its send stamp; any other changes nothing |
| SenderRuns.SessionsKeepTargets | twamp/src/twamp_light_sender/twamp_light.rs:72-77 | In every run session i is the one between the sender's address and target i |
| SenderRuns.CorrectionIsStep | twamp/src/twamp_light_sender/twamp_light.rs:403-423 | A correction callback on the next stamps of the kernel, however batched, is one correction of a run |
| SenderRuns.QueueIsSteps | twamp/src/twamp_light_sender/twamp_light.rs:433-457 | A receive callback is one reply of a run for each datagram of its queue, in order |
| SenderRuns.LastAnswerStands | twamp/src/twamp_light_sender/twamp_light.rs:433-457 | After it each packet carries the answer of the last datagram that names it, and is unchanged when none does |
| CorrectionRuns.EveryRunIsTraced | twamp/src/twamp_common/session.rs:92-109 | In every run each packet below its session's cursor carries the stamp the model says it was given, in the order of the stamps, and each one above it its stored send stamp |
| CorrectionRuns.InTurnDecides | twamp/src/twamp_light_sender/twamp_light.rs:410-423 | In every run, failed sends and drains of any size included, all drained stamps are with their own packets if and only if all came in turn |
| CorrectionLaws.CorrectionRightIff | twamp/src/twamp_light_sender/twamp_light.rs:410-423 | In every run all packets show the right stamps, whatever values the kernel gives, if and only if every drained stamp came in turn |
| CorrectionLaws.NoSendFailedIff | twamp/src/twamp_light_sender/twamp_light.rs:410-423 | If no send failed, that is so if and only if each non-empty drain began on a round boundary |
| CorrectionLaws.OnBoundariesIff | twamp/src/twamp_light_sender/twamp_light.rs:410-423 | If drains begin on boundaries, that is so if and only if nothing was drained past the first missing stamp |
| CorrectionLaws.EachStampGoesToOnePacket | twamp/src/twamp_light_sender/twamp_light.rs:413-420 | When all came in turn, each drained stamp was given to the packet it belongs to and to no other |
| CorrectionLaws.SendStampKeptIff | twamp/src/twamp_light_sender/twamp_light.rs:373-388 | In every run a packet above the cursor shows its send stamp if and only if that survives the trip through NTP |
| CorrectionExamples.HalfRoundFails | twamp/src/twamp_light_sender/twamp_light.rs:410-423 | With two targets one round drained in two halves is already wrong |
| CorrectionExamples.FailedSendFails | network_commons/src/udp_socket.rs:289-291 | With two targets and the first send failing, one drain from a boundary is wrong |
| CorrectionExamples.InsideRoundCanBeRight | twamp/src/twamp_light_sender/twamp_light.rs:410-423 | With the second target never stamped, a drain from inside a round is right |
| Reflectors.Reflector.RxCallback | twamp/src/twamp_light_reflector/reflector.rs:123-185 | Find or create the session, answer with its counter, append the record. The answer is stamped with the receive time and the clock at reflection, repeats the packet's number and timestamp and is as long as the packet. A malformed packet is an error, an underpadded one a panic, and neither changes anything |
| Reflectors.Reflector.CleanupStaleSessions | twamp/src/twamp_light_reflector/reflector.rs:99-118 | The sweep leaves the sessions the retain test keeps, as the same objects |
| ReflectorRuns.EveryTableIsNumbered | twamp/src/twamp_light_reflector/reflector.rs:135-182 | In every run: one session for an address pair, counter equal to record count, record i numbered i |
| ReflectorRuns.ArrivalIsLocal | twamp/src/twamp_light_reflector/reflector.rs:140-181 | An arrival advances its own counter by one and changes no other session |
| ReflectorRuns.ArrivalRecords | twamp/src/twamp_light_reflector/reflector.rs:140-181 | An arrival appends one record with the packet's number and send stamp, the session's counter and the two clock readings, and changes no other |
| ReflectorRuns.RetainedKeeps | twamp/src/twamp_light_reflector/reflector.rs:101-117 | Eviction keeps, in order, exactly the sessions that are not stale |
| ReflectorRuns.StaleIffFar | twamp/src/twamp_light_reflector/reflector.rs:105-112 | Stale means the newest receive stamp is more than ref_wait seconds from now, either way |
| ReflectorRuns.EvictionIsLocal | twamp/src/twamp_light_reflector/reflector.rs:101-117 | A session survives eviction unchanged or goes as a whole |
| ReflectorRuns.ArrivalSurvivesIff | twamp/src/twamp_light_reflector/reflector.rs:101-117 | A session survives the eviction after an arrival if and only if the clock is then within ref_wait of the arrival's stamp |
| ReflectorRuns.NumberingContinuesIff | twamp/src/twamp_light_reflector/reflector.rs:101-165 | Eviction restarts the numbering of a pair if and only if it removes its session |
| ReflectorRuns.NumberingRestarts | twamp/src/twamp_light_reflector/reflector.rs:101-165 | A packet before an eviction and one after it both get number 0 |
| ReflectorService.ServesIff | twamp/src/twamp_light_reflector/reflector.rs:123-175 | In every run the reflector serves if and only if so far every receive and every poll succeeded, every datagram parsed and carried its padding and the sweep timer could be set again; its table stays well numbered |
| ReflectorService.StoppedForGood | network_commons/src/epoll_loop.rs:174-192 | Once it has stopped serving it never serves again and its table never changes |
| ReflectorService.TableIsServed | twamp/src/twamp_light_reflector/reflector.rs:101-182 | While it serves, its table is that of the arrivals and evictions it has served, in order |
| Network.InvHolds | twamp/src/twamp_light_reflector/reflector.rs:140-157 | In every run of sender, lossy network and reflector, evictions included, each record, queued packet and reply agrees with the packet's fate and with its number since the last restart |
| Network.HomeIsStamped | twamp/src/twamp_light_reflector/reflector.rs:140-165 | In every run the record of each packet that came home holds the clock readings of its own arrival, reflection and return |
| LossAttribution.LossAttributed | twamp/src/twamp_common/session.rs:113-158 | Total loss is the unanswered packets; forward loss those lost outward between first and last answered packet past position 0, plus those that arrived up to a restart between the two; backward loss the wrapped rest, which without a restart is not negative |
| LossAttribution.ForwardIsAllOutwardLossIff | twamp/src/twamp_common/session.rs:122-157 | Forward loss is all outward loss if and only if what lies outside that range equals the overcount, which without a restart means that none lies outside; then backward loss is every other unanswered packet |
| LossExamples.LeadingLossIsMissed | twamp/src/twamp_common/session.rs:126-134 | One packet lost on the way out is reported as (0, 1, 1) |
| LossExamples.RestartOvercounts | twamp/src/twamp_common/session.rs:134-157 | Three answered packets with an eviction before the third are reported as (2, 2^32 - 2, 0) |
| Statistics.Accumulate | twamp/src/twamp_light_sender/twamp_light.rs:163-211 | The loop collects every defined sample, its sum and the jitters |
| Statistics.MeasuredExactly | twamp/src/twamp_light_sender/twamp_light.rs:170-172 | Exactly the packets with both remote stamps are counted, each as often as it occurs |
| Statistics.JitterAt | twamp/src/twamp_light_sender/twamp_light.rs:185-204 | Jitter i is the distance between samples i and i + 1 |
| Summaries.CalculateSessionResults | twamp/src/twamp_light_sender/twamp_light.rs:140-313 | Average, extremes, quartiles and median of each metric are the samples of those ranks in the collected delays, the squared deviation is their mean square less their squared mean, likewise for the jitters, and the losses are those of a sorted arrangement |
| Summaries.SummarizesFigures | twamp/src/twamp_light_sender/twamp_light.rs:222-333 | Every metric reported is what the sample alone determines: ranks 0, (n + 1) / 4, the middles, (3n - 1) / 4, n - 1, average and squared deviation |
| Summaries.SamplesAreDelays | twamp/src/twamp_light_sender/twamp_light.rs:163-211 | In every run a session is summarized over its answered packets, and sample k of each metric is that delay of the k-th |
| Summaries.SummaryIsUnique | twamp/src/twamp_light_sender/twamp_light.rs:214-219 | The figures do not depend on how the sort breaks ties |
| Summaries.SumOfSort | twamp/src/twamp_light_sender/twamp_light.rs:242-251 | Sums taken after sorting equal those before |
| Summaries.PercentileNearestAndMonotone | twamp/src/twamp_light_sender/twamp_light.rs:327-333 | The index is a nearest one to the exact position and grows with the percentile |
| Summaries.OrderStatistics | twamp/src/twamp_light_sender/twamp_light.rs:315-333 | min <= 25th percentile <= median <= 75th percentile <= max, and min and max are samples that bound all of them |
| Summaries.VarianceIsMeanSquareMinusSquaredMean | twamp/src/twamp_light_sender/twamp_light.rs:335-341 | Around the true mean the squared deviation is the mean square minus the squared mean, and not negative |
| Summaries.SampleValues | twamp/src/twamp_common/data_model.rs:58-77 | The four delays of an answered packet in terms of its instants: two signed, two absolute |
| Summaries.DelayDecomposesIff | twamp/src/twamp_light_sender/twamp_light.rs:222-241 | Average round trip is the sum of the other three averages if and only if both clocks ran backwards by the same total, in particular when neither did |
| Summaries.OffsetMovesAverages | twamp/src/twamp_light_sender/twamp_light.rs:163-241 | A clock offset leaves round trip and processing averages alone and moves the one-way averages oppositely by the offset |
| Summaries.ConservedInEveryRun | twamp/src/twamp_light_sender/twamp_light.rs:148-211 | In every run packets counted plus packets lost are the packets sent, and each metric has one sample for each packet counted |
| Summaries.ReportsAreConsistent | twamp/src/twamp_light_sender/twamp_light.rs:140-313 | In every run what is reported for a session adds up: packets counted and lost are the packets sent, and the reported average round trip is the sum of the other reported averages if and only if both clocks ran backwards by the same total |
| Control.ClientControlSession.Transition | twamp/src/twamp_control/control_client_session.rs:71-343 | The recursive call has the flattened effect, nests at most once, only after raising the rank of the state; a request it sends asks for a test from the client's own address and port to its first target's |
| Control.GoesOnFromGreetingIff | twamp/src/twamp_control/control_client_session.rs:73-115 | The client goes on from the greeting if and only if every offered mode is its own and its setup goes out |
| Control.GoesOnFromStartIff | twamp/src/twamp_control/control_client_session.rs:116-193 | From the server start if and only if that is Ok, there is a target of its address family and the request goes out |
| Control.GoesOnFromAcceptanceIff | twamp/src/twamp_control/control_client_session.rs:194-230 | From the acceptance if and only if that is Ok and the start goes out; it is refused if and only if that is anything else |
| Control.GoesOnFromAckIff | twamp/src/twamp_control/control_client_session.rs:231-250 | To the test if and only if the ack is 0; it gives up if and only if it cannot parse it |
| Control.ClientSays | twamp/src/twamp_control/control_client_session.rs:71-343 | Setup with its modes, its request, 2 to start and 3 to stop; a call that stops between states is an error |
| Control.ServerAnswers | twamp/src/twamp_control/control_session.rs:167-286 | What the server does with each first octet in Monitor |
| Control.ServerReadsFront | twamp/src/twamp_control/control_session.rs:194-216 | The server reads an IPv4 address from the first four octets of a field |
| Control.ControlSession.Transition | twamp/src/twamp_control/control_session.rs:85-323 | The recursive call has the flattened effect of one message |
| ControlRuns.InvHolds | twamp/src/twamp_control/control_session.rs:85-302 | The joint invariant of both machines and both channels holds in every run, closed ends included |
| ControlRuns.OneMessageInFlight | twamp/src/twamp_control/control_client_session.rs:71-343 | At most one message is in flight and its receiver's state expects its kind |
| ControlRuns.TestOnlyAfterHandshake | twamp/src/twamp_control/control_client_session.rs:231-250 | The client is in its test only after the whole handshake; the server has then enqueued the test socket if and only if its worker takes messages |
| ControlRuns.RequestAsks | twamp/src/twamp_control/control_client_session.rs:155-185 | In every run a request on its way asks for a test from the client's address and port to its first target's |
| ControlRuns.TestIsOnItsPorts | twamp/src/twamp_control/control_session.rs:194-255 | A client in its test was accepted on the port of its first target, and the socket registered for it is on that port and answers to the client's own, at the addresses the server reads |
| ControlRuns.TestSendsStop | twamp/src/twamp_control/control_client_session.rs:306-328 | A test that succeeds ends with the stop on its way |
| ControlRuns.StopCleansIff | twamp/src/twamp_control/control_session.rs:183-190 | A stop the server takes enqueues a cleanup if and only if its worker takes messages |
| ControlRuns.MonitorIffEqualModes | twamp/src/twamp_control/control_session.rs:126-139 | Some run brings the server to Monitor if and only if the supported modes are equal |
| ControlRuns.TestReachableIff | twamp/src/twamp_control/control_client_session.rs:71-250 | Some run brings the client to its test if and only if the modes are equal and its request builds |
| ControlRuns.ServerOkStates | twamp/src/twamp_control/control_session.rs:85-323 | A call on a reachable server that returns Ok leaves it in Negotiation or Monitor |
| ControlRuns.RankNeverFalls | twamp/src/twamp_control/control_client_session.rs:71-343 | The client's rank after any prefix of a run is at most its rank after the run |
| ControlRuns.AddressSurvivesIff | twamp/src/twamp_control/control_session.rs:194-216 | An address sent by the client is what the server reads if and only if it is the IPv4 wildcard |
| EventLoop.LinuxEventLoop.RegisterEventSource | network_commons/src/epoll_loop.rs:294-311 | Takes the next token and stores the source under it |
| EventLoop.LinuxEventLoop.RegisterTimer | network_commons/src/epoll_loop.rs:248-274 | Takes the next token; stores the timer only if the named source is present |
| EventLoop.LinuxEventLoop.AddDurationTimer | network_commons/src/epoll_loop.rs:276-292 | Takes a token that enters neither map |
| EventLoop.LinuxEventLoop.AddCleanup | network_commons/src/epoll_loop.rs:354-373 | Records the cleanup and its token |
| EventLoop.LinuxEventLoop.UnregisterEventSource | network_commons/src/epoll_loop.rs:313-331 | Removes the source, or reports a missing token |
| EventLoop.LinuxEventLoop.UnregisterTimedEventSource | network_commons/src/epoll_loop.rs:333-352 | Removes the timer, or reports a missing token |
| EventLoop.LinuxEventLoop.HandleMessage | network_commons/src/epoll_loop.rs:122-160 | The effect of each message, failures of its call and of the channel that publishes its token included |
| EventLoop.LinuxEventLoop.DispatchLifecycle | network_commons/src/epoll_loop.rs:193-223 | Ends the loop, fails on the cleanup token, or starts overtime with exactly the spared timers left |
| EventLoop.LinuxEventLoop.Dispatch | network_commons/src/epoll_loop.rs:166-227 | A readable token runs a source, a timer or the lifecycle arm |
| EventLoop.LinuxEventLoop.Run | network_commons/src/epoll_loop.rs:120-246 | The loop is the fold of its steps and stops at the first that does not leave it running |
| EventLoopRuns.RunIsRan | network_commons/src/epoll_loop.rs:120-246 | The loop and the result of every run are those of the method run; the history the other rows speak of adds nothing |
| EventLoopRuns.InvHolds | network_commons/src/epoll_loop.rs:111-352 | The invariant of tokens, maps, firings and phases holds in every run |
| EventLoopRuns.TokensAreNeverReused | network_commons/src/epoll_loop.rs:111-118 | The next token has no past; sources, timers and other tokens are disjoint; no token changes its source |
| EventLoopRuns.TimersRunOnTheirSource | network_commons/src/epoll_loop.rs:185-192 | Every firing of a timer ran on the source its registration named |
| EventLoopRuns.UnregisterRemoves | network_commons/src/epoll_loop.rs:128-131 | In every run an Unregister removes the source it names and nothing else, or ends the loop with token not found |
| EventLoopRuns.FailingSourceGoes | network_commons/src/epoll_loop.rs:172-184 | A readable source goes if and only if its callback fails, and the loop goes on |
| EventLoopRuns.TimerFires | network_commons/src/epoll_loop.rs:185-192 | A readable timer runs its callback once if its source is there; a failure of it ends the loop |
| EventLoopRuns.OvertimeIsFinal | network_commons/src/epoll_loop.rs:208-222 | Timers removed by overtime never fire again or come back; spared ones are still there |
| EventLoopRuns.OkOnlyAfterOvertime | network_commons/src/epoll_loop.rs:193-223 | run returns Ok only at the second lifecycle event, after overtime and without a cleanup; the expect is never reached with None |
| EventLoopRuns.LifecycleEvents | network_commons/src/epoll_loop.rs:193-223 | The first lifecycle event starts overtime, the second always ends the loop: Ok without a cleanup, token not found with one |
| EventLoopRuns.CutShortIff | network_commons/src/epoll_loop.rs:193-222 | In every run the second lifecycle event is another than the overtime's own timer if and only if, after the first, a token became readable that is in neither map and not that timer's |
| EventLoopRuns.StaleTokens | network_commons/src/epoll_loop.rs:193-222 | The tokens given out that can do so are timers overtime removed, sources no longer registered, and durations and cleanups |
| EventLoopRuns.SenderCutShortIff | twamp/src/twamp_light_sender/twamp_light.rs:83-127 | While its socket lasts, the light sender's overtime is cut short if and only if a token other than socket, correction timer and overtime becomes readable in it |
| EventLoopRuns.SenderCutShort | twamp/src/twamp_light_sender/twamp_light.rs:83-127 | The removed send timer, readable right after the deadline, makes run return Ok with no overtime |
| EventLoopRuns.SenderOvertime | twamp/src/twamp_light_sender/twamp_light.rs:83-127 | In every run of the light sender only the correction of timestamps fires in overtime, so no packet is sent then |
| WorkerRuns.TestEventsEnqueued | twamp/src/twamp_control/control_client_session.rs:250-326 | In every control run a client in its test has enqueued the three messages of the test before anything else |
| WorkerRuns.TestIsDelivered | twamp/src/twamp_control/control_client_session.rs:254-318 | The messages of a test are the socket, the send timer and the cleanup, in this order |
| WorkerRuns.TestTimerIsOnSocket | twamp/src/twamp_control/control_client_session.rs:254-306 | Whatever the loop meets in between, while the test socket is still registered the send timer is put on it, and it never runs on anything else |
| WorkerRuns.TestNeverEndsOk | network_commons/src/epoll_loop.rs:120-223 | Once the loop has taken the cleanup message, whatever it met before and meets after, it never returns Ok, and its second lifecycle event ends it with token not found |

## Left out

- Summaries.CalculateSessionResults: reports squared standard deviations, since the square root is not rational; f64 rounding of sums and averages is not modelled either.
- Network.InvHolds: the forward path does not reorder or repeat packets.
- Control.ClientControlSession.Transition: the wait for the worker's token is taken to end, and sleep and park take no time.
- ControlRuns.OneMessageInFlight: control messages keep their boundaries and a call is made only when a message waits or the peer has closed; byte streams that split or join messages are not modelled.
- EventLoop.LinuxEventLoop.Run: tokens are unbounded, the locks of the two maps are free between steps as they are on one thread, and the sweep for closed descriptors is not modelled.
- Error estimates and time-to-live fields of test messages: copied through, no result depends on them.
- SenderRuns.EveryRunHasShape: without a target the correction callback panics (network_commons/src/socket.rs:248); here it has nothing to do. The kernel queues its stamps in the order of sending.
- Sockets, control-message parsing, the poll and timer system calls: they appear as parameters of the steps.
- Byte encodings of the messages: the derive macro that produces them is not part of the repository.
- The offset estimator and calculate_gamlr_offset: floating point and a time-seeded generator.
- Reflection over a control session (twamp/src/twamp_control/control_session.rs:326-387): it differs from the reflector's callback in that the first answer to a sender carries no padding.
- Unimplemented branches: they appear as a panic result where a message can select them.
- Configuration, serialization, calendar printing and error display: presentation only.
