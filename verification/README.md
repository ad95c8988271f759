# Verified model of the Teleport WireGuard client

The client pairs with a Teleport console, is nominated a UDP path by it, brings up a WireGuard tunnel
over that path, watches the tunnel with UDP echoes that also search for the path MTU, and moves to
other endpoints when the tunnel dies. This project models the parts of it that hold the most state and
the most interplay, in Dafny, and proves what they are meant to guarantee.

Functions and predicates give the meaning; methods and classes follow the Go code and are proved against
them. Goroutines that meet on sockets, channels and contexts are interleaved atomic steps with an
inductive invariant and a measure that bounds the steps left. Time is a natural number of
milliseconds. Packets, timers, failing system calls and clock readings are parameters, so each
theorem covers every environment.

| file | what it models |
|---|---|
| `Nomination.dfy` | the nomination tracker: which tuple the master has nominated |
| `ReadStopper.dfy` | taking all readers off the shared sockets |
| `EchoWakeup.dfy`, `EchoWait.dfy` | waiting for an echo: cancellation races, and deadlines and resends |
| `PathMTU.dfy`, `TunnelMTU.dfy`, `Pinger.dfy`, `EchoVerdicts.dfy`, `PathFound.dfy` | the MTU search, its ceiling, the echo loop that drives it together with the health counter and the stack MTU, what the counter's events mean, when a probe is due and what the search finds |
| `Json.dfy`, `EchoPayload.dfy` | echo requests of an exact size, and reading replies |
| `Candidates.dfy`, `Sorting.dfy`, `RetryQueue.dfy`, `FallbackProbe.dfy` | filtering and ranking candidates, the retry queue, the fallback probe |
| `EndpointRetry.dfy`, `RetryAnswers.dfy`, `EndpointRecovery.dfy` | the timed retry loop, what each of its turns does, and the rounds of a recovery |
| `Supervisor.dfy`, `SupervisorAnswers.dfy`, `Totals.dfy` | the tunnel's supervisor with all its workers, up to shutdown, and how it answers them |
| `Session.dfy` | saving the session across a power failure |
| `Redaction.dfy`, `SecretLeaks.dfy`, `RedactionExactly.dfy` | keeping secrets out of the log, exactly which secrets that is sure of, and what else it leaves as it was |
| `DomainName.dfy`, `DialBudget.dfy` | the domain-name scanner and the dial-time budget |
| `Wrappers.dfy`, `Characters.dfy` | shared definitions |

Run `dafny verify dfyconfig.toml` to verify everything (Dafny 4.11).

## Where a natural claim is false

Each has a lemma with the exact condition.

- A tracker closes its channel at most once, and exactly when something is selected, if and only if no
  empty address is ever observed (`Nomination.ClosedWithSelectionIff`): `""` is the sentinel for "nothing
  selected".
- Checking the context before setting the read deadline would lose wake-ups; the order in the code is the one
  that does not (`EchoWakeup.NoLostWakeupIff`).
- A manual prober is changed by one operation: `Arm` sets its flag, which changes nothing it ever answers
  (`PathMTU.ManualProberStays`).
- After a reset a prober without milestones is searching with nothing to probe (`PathMTU.ResetHasTarget`).
- When `SetMTU` fails it has already stored the MTU, and the pinger does not restore it: the stack then differs
  from the confirmed MTU. Over a whole run it matches at the head of every round if and only if no round has a probe
  due whose raise fails without a reset (`Pinger.HeadsMatchIff`); `Pinger.FailedRaisesStrand` is a run that ends with
  the stack at 1360 and the search over at 1280.
- A secret is removed from every text if and only if it is clear of the mark "[REDACTED]": neither holds the other,
  it does not begin like an end of the mark, and does not end like a beginning of it
  (`SecretLeaks.RemovedIffClear`). Without brackets that is to be no part of "REDACTED" (`SecretLeaks.RemovedIff`).
- A save that syncs the directory is durable if and only if the directory was: one that the save itself made may be
  lost with all that is in it, because its parents are never synced (`Session.Disk.SaveSession`,
  `Session.FirstSaveCanVanish`).
- Every address of a dial is tried, whatever the others do, if and only if the slowest attempts leave time for the
  last (`DialBudget.AllTriedIff`). Without lag that is more than two seconds for each address but the last
  (`DialBudget.AllTriedWithoutLagIff`), a little weaker than two seconds for each.
- The second round of a recovery is sure to try everything again that the first did if and only if the endpoint in
  use at the start was a known one, or empty, or there is no other (`EndpointRecovery.NothingForgottenIff`, with the
  failing run of `EndpointRecovery.Forgetting`).

## Model

| member | source | states |
|---|---|---|
| Nomination.NominationTracker.Observe | nomination.go:143-168 | the new state for an observed (address, wait), including that a wrong wait changes nothing, and that it answers true exactly when it closes the channel; keeps the meaning of the whole history |
| Nomination.NominationTracker.ActivateTracker | nomination.go:171-188 | activation selects a tuple that is already complete, if there is one, and nothing otherwise; a second one does nothing |
| Nomination.GreedyExact | nomination.go:154-157 | greedy matching has passed k waits if and only if those k waits occur in order, with anything in between, among the values observed |
| Nomination.StepKeepsMeaning | nomination.go:143-188 | each step keeps the meaning: progress of every tuple is its longest embedded prefix, something is selected exactly if the tracker is active and some tuple has embedded the whole sequence, the channel is closed as often as something is selected; a selection never changes |
| Nomination.RunMeaning | nomination.go:116-188 | the same for every run over non-empty addresses |
| Nomination.ClosedWithSelectionIff | nomination.go:151-163 | in all runs over a set of addresses the channel is closed once if and only if something is selected, exactly when the set lacks the empty address |
| ReadStopper.StepKeepsInv | nomination.go:336-384 | the inductive invariant of `Stop` against any number of readers and callers |
| ReadStopper.StopIsSafe | nomination.go:377-384 | in every interleaving each reader takes and hands on at most one packet after `done` is closed, and a `Stop` that has returned leaves no live reader and no read deadline |
| ReadStopper.RepeatedStopChangesNothing | nomination.go:377-384 | once the body has run, no step touches sockets, readers or `done` |
| ReadStopper.ReaderExitsSoon | nomination.go:336-347 | after `done` is closed a reader has at most three moves left, however interleaved |
| ReadStopper.NeverStuck | nomination.go:570-587 | until `Stop` has returned to its callers some step is enabled that needs neither a datagram nor anyone to empty the channel |
| ReadStopper.StopEnds | nomination.go:377-384 | a run after `done` is closed has a bounded length, and where it can go no further every reader has exited and every caller that called has returned |
| EchoWakeup.NoLostWakeupIff | udpecho.go:266-288 | no reachable state is cancelled, past its `AfterFunc`, and blocked in a read with a future deadline, if and only if the deadline is set before the context is checked |
| EchoWakeup.CancelledNeverBlocks | udpecho.go:266-293 | a cancelled wait always has a step that needs neither time to pass nor a packet |
| EchoWakeup.CancelledWaitEnds | udpecho.go:266-293 | a cancelled wait leaves within six steps of work, however much time passes in between |
| EchoWait.WaitForEchoResponse | udpecho.go:266-331 | every deadline armed is one retry interval away or the ceiling, whichever comes first; true exactly if some read begun before the ceiling brought the wanted id and every earlier one was passed over; where it gave up; the exact number of resends, and its bound |
| EchoWait.StartupAnsweredExactly | udpecho.go:289-329 | in start-up mode a read is the answer exactly if it is begun before the ceiling, brings the wanted id, and every earlier one was a packet with another id or none, or a time-out with a resend that worked |
| EchoWait.SteadyAnsweredExactly | udpecho.go:289-329 | in the steady state no time-out may come before it |
| EchoWait.SilenceTakesAllResends | udpecho.go:302-314 | against a silent server start-up gives up at its ceiling after exactly ceil(timeout / interval) resends |
| EchoWait.WaitForSteadyStateResponse | udpecho.go:335-337 | true exactly if the wanted reply comes in a read begun within the deadline and only other packets before it; never resends |
| EchoWait.WaitForStartupResponse | udpecho.go:342-348 | true exactly if the wanted reply comes in a read begun within what is left of the startup ceiling, after packets and time-outs with resends that worked; false at once if nothing is left |
| EchoWait.ResendsCostTime | udpecho.go:280-314 | each resend has cost one retry interval |
| EchoWait.ResendBudget | udpecho.go:280-314 | hence one more resend still fits into ceil(timeout / interval) |
| EchoWait.PacketsResendNothing | udpecho.go:316-327 | a stretch of packets, whatever they hold, resends nothing |
| EchoWait.StalePacketsDoNotExtend | udpecho.go:272-280 | once the clock is at the ceiling nothing is accepted any more, whatever has arrived |
| PathMTU.PeerMTUProber.constructor | peermtu.go:70-117 | the prober for given initial, ceiling and manual MTU, with the meaning of an empty search |
| PathMTU.PeerMTUProber.NextProbeMTU | peermtu.go:128-136 | offers a target exactly when armed, searching and below the end of the ladder; the target is above what is confirmed, and is the one a result will be accepted for |
| PathMTU.PeerMTUProber.RecordProbeResult | peermtu.go:143-176 | the new state; it reports a change exactly when the confirmed MTU rises and the end exactly when no longer searching; the recorded outcomes still explain the state |
| PathMTU.PeerMTUProber.ArmProber | peermtu.go:120-124 | only the flag changes and the search goes on |
| PathMTU.PeerMTUProber.ResetProber | peermtu.go:193-205 | an automatic prober begins a new search from 1280; a manual one stays |
| PathMTU.MilestonesUpTo | peermtu.go:84-89 | the milestones up to the ceiling, in order |
| PathMTU.UpToMeaning | peermtu.go:84-89 | these are a prefix of the ladder, holding exactly the milestones within the limit |
| PathMTU.StartIndexMeaning | peermtu.go:96-102 | the index splits the ladder into what is confirmed already and what is not |
| PathMTU.NewProberInv | peermtu.go:70-117 | a new prober meets the invariant and its ladder stays within the ceiling |
| PathMTU.NewProberExactly | peermtu.go:80-116 | an automatic prober has every default milestone within the ceiling, starts at the first above its initial MTU, and searches if there is one |
| PathMTU.ManualProberExactly | peermtu.go:71-78 | a configured MTU is kept and nothing is searched |
| PathMTU.OperationsKeepInv | peermtu.go:120-205 | every operation keeps the invariant |
| PathMTU.ResultKeepsMeaning | peermtu.go:143-176 | the confirmed MTU is the start or the top of the milestones that each answered before a second failure, and the failure count is that of the current milestone |
| PathMTU.ResultMakesProgress | peermtu.go:143-176 | an accepted result strictly lowers 2*(milestones left) - failures, an accepted success strictly raises the confirmed MTU, a failure keeps it, and a stale target changes nothing |
| PathMTU.SearchEnds | peermtu.go:143-176 | for any results, the confirmed MTU never falls and at most two results per milestone are accepted |
| PathMTU.ManualProberStays | peermtu.go:120-205 | no sequence of operations changes a manual prober but for its armed flag, changed exactly if `Arm` is called; it never offers a target |
| PathMTU.ResetHasTarget | peermtu.go:193-205 | after a reset nothing is probed before `Arm`, and then something exactly if there are milestones |
| PathMTU.SearchesInVain | peermtu.go:193-205 | a prober without milestones that is reset searches for good: no sequence of operations ends that or finds a target |
| TunnelMTU.WithinCeilingFits | wireguard.go:390-399 | an MTU within the discovered ceiling fits, with its overhead, into min(wire MTU, 1500), unless it is at or below the IPv6 minimum |
| TunnelMTU.CeilingExactly | wireguard.go:291-399 | above 1280 the ceiling lets through exactly what fits min(wire MTU, 1500) with 60 or 80 bytes more, or 1420 where discovery failed |
| Pinger.EchoHealth.Observe | udpecho.go:53-69 | the new counter and its event |
| Pinger.EchoPinger.BeginProbe | udpecho.go:130-149 | a due probe raises the stack MTU to its target; if that fails the new MTU is stored all the same (internal/tunnet/tun.go:213-216), the probe counts as failed and an ordinary request goes out |
| Pinger.EchoPinger.RunRound | udpecho.go:119-258 | one round of the echo loop over prober, health counter and stack MTU, for given outcomes of its calls, and whether the loop goes on |
| Pinger.EchoPinger.RunUDPEchoPinger | udpecho.go:119-258 | the loop is the rounds one after the other, up to the first that leaves |
| Pinger.RoundKeepsInv | udpecho.go:119-241 | every round keeps the invariant that ties the three objects together |
| Pinger.ProbingIsHarmless | udpecho.go:201-241 | in every run, behind each unhealthy event lie twelve misses in a row of which at most two were padded probes, and no probe is sent after it until an unpadded echo was matched |
| PathFound.ProbeDueExactly | udpecho.go:130-131 | in every run a probe is due at a head exactly if some echo was matched, the search is on with a milestone left, and every unhealthy event has been followed by a plain match |
| PathFound.PathIsFound | udpecho.go:119-226 | on a path that carries packets up to some size the search ends within two rounds a milestone, with the stack at the largest milestone that fits |
| PathFound.StartLadder | tunnel.go:113-128 | automatic mode starts at 1280 and searches every default milestone within the discovered ceiling |
| PathFound.ProbeNotSent | udpecho.go:139-177 | a probe that cannot be raised or written counts as failed, without a verdict |
| PathFound.LoopEnds | udpecho.go:164-199 | a failed ordinary write, or a context that is done, ends the loop and leaves prober and counter as they were |
| PathFound.RoundsAreNumbered | udpecho.go:119-119 | requests are numbered on from round to round |
| Pinger.StackFollowsProberIff | udpecho.go:137-199 | after a round that goes on the stack MTU is the confirmed MTU exactly if no probe was due, raising the MTU worked, or the path was reset |
| Pinger.HeadsMatchIff | udpecho.go:119-226 | over a whole run the stack MTU is the confirmed MTU at the head of every round exactly if no round has a due probe whose raise fails without a reset |
| Pinger.FailedRaisesStrand | udpecho.go:137-147 | a run from the start whose two failed raises end the search at 1280 and leave the stack at 1360 |
| Pinger.StackFollowsProber | udpecho.go:119-226 | in every run in which raising the MTU works, the stack MTU is the confirmed MTU at the head of each round |
| Pinger.StackNeverExceedsPath | tunnel.go:113-128 | in automatic mode every MTU put on the stack is 1280 or, with its overhead, within min(wire MTU, 1500); each probe is recorded with the stack MTU of the moment it is handed out, which is its target; in manual mode none is ever set |
| EchoVerdicts.CountedMeaning | udpecho.go:53-69 | the counter is ready once any echo was matched, and holds the misses since the last match modulo twelve |
| EchoVerdicts.EventMeaning | udpecho.go:53-69 | a match is always reported, a miss before any match as a failed start, and a miss after one as unhealthy exactly when it completes another twelve in a row |
| EchoVerdicts.UnhealthyExactlyWhen | udpecho.go:221-241 | in every run of the echo loop the unhealthy events are exactly those due: none is early and no loss goes unreported |
| EchoPayload.BuildPaddedEchoPayload | peermtu.go:216-255 | the encoding has exactly the size asked for if the unpadded one and ten more characters fit, and otherwise is the unpadded one; both loops end |
| EchoPayload.PaddedLength | peermtu.go:207-213 | padding of n > 0 characters costs n + 9, padding of none costs nothing because the member is dropped |
| EchoPayload.ProbeFillsPacket | udpecho.go:132-136 | for both IP versions and every request id a probe fills its target packet exactly |
| EchoPayload.EveryProbeFillsItsPacket | udpecho.go:130-149 | every probe the pinger hands out, in any run and with any request id, fills its target packet |
| EchoPayload.RequestIdRoundTrip | udpecho.go:351-370 | reading the id of an encoded request, or of a reply that names it as string or number, gives the id that was sent |
| EchoPayload.RequestMembers | peermtu.go:207-213 | an encoded request gives its hash, id and timeout back, and its padding exactly if there is some |
| EchoPayload.NoIdIsNoAnswer | udpecho.go:351-360 | a reply is refused exactly if it does not read, or names no id or null |
| EchoPayload.StaleReplyIsNotMatched | udpecho.go:316-327 | a reply to one request reads as the id of another exactly if they are the same request |
| Json.LaidRoundTrip | session.go:44-44 | a flat object is read back as it was written, whatever bytes its strings hold and whatever white space it is laid out with |
| Json.ObjectRoundTrip | peermtu.go:221-239 | in particular in the compact form, which is the form without white space |
| Json.FieldIsLast | udpecho.go:351-357 | of members with one name the last counts |
| Candidates.LocalCandidateFamilies | nomination.go:696-716 | a family is had exactly if some local candidate is of it |
| Candidates.CompatibleCandidates | nomination.go:674-694 | exactly the candidates an open socket and a local address can reach, ranked; none without sockets |
| Candidates.RankedMeaning | nomination.go:509-529 | the ranked list holds exactly the reachable candidates, in score order, and is the stable sort of them |
| Candidates.ScoreOrder | nomination.go:511-526 | interface addresses come before reflexive ones, these before relays, these before others, whatever the family; within a kind IPv6 comes first |
| Candidates.FamiliesKeptApart | nomination.go:679-693 | a family without socket or local address loses all its candidates, one with both keeps all that parse |
| Candidates.GuessMeaning | nomination.go:644-657 | the guess is the first publicly routable candidate, failing that the first of all, and empty where there is none |
| Sorting.StableSortUnique | nomination.go:527-527 | sortedness and the order among equal keys determine the list: there is one stable sort |
| RetryQueue.ResolveObserved | main.go:605-630 | the senders of inbound binding requests, each once and in the order of first appearance, and which endpoint and mode follow |
| RetryQueue.SendersAppend | main.go:618-629 | the senders of a log are those of its lines one after another |
| RetryQueue.SenderOfOne | main.go:619-619 | a line gives its sender exactly if it is an inbound binding request |
| RetryQueue.BuildCandidateRetryQueue | main.go:658-682 | the first occurrences in observed ++ public advertised ++ other advertised, without the chosen endpoint and the empty string |
| RetryQueue.BuildEndpointRecoveryOrder | tunnel.go:315-330 | the first occurrences in the current endpoint and the known ones |
| RetryQueue.FirstOccurrencesUnique | main.go:658-682 | there is only one such queue, and it has no duplicates |
| RetryQueue.QueueOrder | main.go:668-680 | the queue goes by tier (observed, public, other), and within the advertised tiers keeps the rank order |
| RetryQueue.QueueFromPeer | main.go:584-584 | from the peer's list to the queue: nothing invented, nothing lost, only reachable candidates, the better score first within a tier |
| FallbackProbe.BuildTargets | nomination.go:543-560 | the targets, and a map giving each remote the last rank it has |
| FallbackProbe.TargetsMeaning | nomination.go:543-560 | the targets are the candidates that parse and have a socket of their family, in rank order |
| FallbackProbe.AwaitAnswers | nomination.go:598-641 | for any events: an answer of rank 0, the end of the grace period after an answer, or the timeout decides, whichever is first; then the best-ranked target that answered wins, and the guess only after a timeout without an answer |
| FallbackProbe.ProbeCandidates | nomination.go:531-641 | the whole probe: the guess if there is nothing to probe, else the outcome above |
| EndpointRetry.NextEndpointCandidate | tunnel.go:450-460 | the first position from `start` on that is neither empty nor current, and the position after it |
| EndpointRetry.RetryLoop.RetryEndpointOnHandshakeTimeout | tunnel.go:351-417 | the loop is its turns one after the other |
| EndpointRetry.RetryLoop.Turn | tunnel.go:364-416 | one turn, for given outcomes of its calls |
| EndpointRetry.PassAdvances | tunnel.go:364-416 | every turn keeps the invariant and moves forwards in queue and time; nothing happens after the loop has ended |
| RetryAnswers.TickSwitches | tunnel.go:400-409 | when there are statistics without a handshake, before sixty seconds and after the dwell, a tick goes to the first other endpoint left in the queue; a failed switch uses up that position and moves nothing else |
| RetryAnswers.TickStays | tunnel.go:381-415 | any other tick leaves the endpoint in use, and the queue unless it was time and nothing is left |
| RetryAnswers.TickSwitchesExactly | tunnel.go:381-415 | a tick switches exactly if it is time, an endpoint is left and the switch succeeds |
| RetryAnswers.TickConnectsExactly | tunnel.go:365-392 | a tick ends the loop as connected exactly on a handshake; only a done context stops it |
| RetryAnswers.NominationSwitchesExactly | tunnel.go:367-378 | a late nomination is taken up exactly if it is the first, names another endpoint and the switch succeeds, and is spent in any case |
| RetryAnswers.NonePassedOver | tunnel.go:400-415 | in every run whose queue switches succeed, each endpoint in the used part of the queue has been in use |
| RetryAnswers.EveryEndpointHasItsTurn | tunnel.go:394-415 | so a loop that gives up before sixty seconds has had every endpoint of its queue in use |
| RetryAnswers.DwellMeaning | tunnel.go:337-345 | twenty-five seconds for a relay, six for any other public address, three for a private one |
| EndpointRetry.RunKeepsInv | tunnel.go:351-417 | in every run: at most one signal of exhaustion; each queue position is switched to at most once and in order, and only after the dwell of the endpoint left, counted from the last switch; a late nomination is adopted at most once; each switch leaves the endpoint the last one came to |
| EndpointRetry.ExhaustsExactlyWhen | tunnel.go:381-415 | a tick gives up exactly if there is no handshake and sixty seconds have passed or the dwell has with nothing usable left |
| EndpointRetry.EndsBySixtySeconds | tunnel.go:364-398 | the first check at or after sixty seconds, on a tick or after a late nomination, ends the loop; without handshake or cancellation it has then signalled exactly once |
| EndpointRetry.TicksRunOut | tunnel.go:353-398 | a ticker that keeps to the second ends the loop by the tick that completes the sixty seconds, whatever else wakes it |
| EndpointRetry.IdleChecksAreFew | tunnel.go:353-398 | with a ticker started at most a second before the loop's own clock, at most sixty-one checks leave the loop running; the supervisor's model counts on that |
| EndpointRecovery.RecoverWireGuardEndpoints | tunnel.go:280-313 | two rounds over the recovery order, the second from the endpoint left in use by the first; left alone every endpoint is tried, the waits add up exactly, and then it signals; cancelled, it has made a prefix of these tries and does not signal |
| EndpointRecovery.RoundsHold | tunnel.go:282-300 | each round tries exactly the known endpoints and the one in use when it begins |
| EndpointRecovery.LastTakenMeaning | tunnel.go:289-295 | the endpoint left in use is the last that a switch went to |
| EndpointRecovery.ForgottenByTaking | tunnel.go:282-300 | in one recovery the second round repeats all of the first exactly if the endpoint in use was known, or empty, or no other has been taken |
| EndpointRecovery.NothingForgottenIff | tunnel.go:282-300 | it does so whatever the switches do exactly if the endpoint in use at the start is known, or empty, or there is no other |
| EndpointRecovery.Forgetting | tunnel.go:282-300 | otherwise it is tried in the first round and not in the second when every switch succeeds |
| EndpointRecovery.NothingNewInRoundTwo | tunnel.go:282-300 | the second round tries nothing the first did not |
| EndpointRecovery.PausesFit | tunnel.go:280-313 | the waits of a recovery lie within the bounds that the supervisor's model uses |
| Supervisor.StepKeepsInv | tunnel.go:73-221 | the inductive invariant of supervisor, retry loop, pinger and recoveries, and that a cancelled context stays cancelled |
| Supervisor.AtMostOneRecovery | tunnel.go:196-216 | in every reachable state at most one recovery is not cancelled, each was started on statistics without progress since its baseline, and a tunnel that has returned has left no worker behind |
| Supervisor.RecoveryHasCause | tunnel.go:174-216 | every recovery of a run was started at an unhealthy event whose statistics show no progress since the last good ones: the initial reading, or those of the last healthy or path-active event |
| SupervisorAnswers.HealthyEndsRecovery | tunnel.go:198-204 | a healthy event makes its statistics the baseline and leaves every recovery cancelled |
| SupervisorAnswers.StartupFailedLeaves | tunnel.go:205-207 | a failed start makes the supervisor leave and changes nothing else |
| SupervisorAnswers.UnhealthyButActive | tunnel.go:208-213 | sustained loss with progress gives a new baseline and no recovery |
| SupervisorAnswers.UnhealthyStartsRecovery | tunnel.go:214-217 | sustained loss without progress begins a recovery exactly if all others are cancelled |
| SupervisorAnswers.RecoveryLife | tunnel.go:181-220 | in every run a recovery is cancelled exactly if a healthy event has been handled since it was started, or the supervisor has left |
| SupervisorAnswers.LeavesExactly | tunnel.go:167-207 | the steps in which the supervisor begins to leave: proxy failure, done context, echo error, renegotiation, failed start, and no others |
| SupervisorAnswers.CanLeave | tunnel.go:182-194 | it can leave whenever one of the three it selects on is there |
| SupervisorAnswers.CanTell | tunnel.go:443-448 | a worker can tell it whenever the channel has room, or the supervisor is selecting |
| SupervisorAnswers.SignalsWait | tunnel.go:185-194 | a signal or error waits until the supervisor leaves over it |
| SupervisorAnswers.SignalsHaveCause | tunnel.go:308-312 | each is raised by a loop that has run out, or a pinger that has failed, and by nothing else |
| SupervisorAnswers.RecoveryWaitsItOut | tunnel.go:297-312 | a recovery asks for a new negotiation only after all its waits |
| SupervisorAnswers.ProgressMeaning | tunnel.go:270-278 | what counts as progress: more bytes or a later handshake than the baseline's, or without one a handshake of the last three minutes |
| Supervisor.WorkersNeverStuck | tunnel.go:443-448 | once the context is cancelled each live worker can leave by itself, whether it is blocked on the health channel, the exhaustion channel, a read or a timer |
| Supervisor.NeverStuck | tunnel.go:136-221 | a tunnel that is ending always has a step that waits for neither a timer nor an answer, until it has returned |
| Supervisor.StepUsesUp | tunnel.go:136-221 | once the context is cancelled every step of the tunnel uses up a measure, to which nothing from outside adds |
| Supervisor.ShutdownEnds | tunnel.go:136-221 | hence the goroutines make only boundedly many steps after a cancellation in any run, however many ticks still come in, and a run that can go no further has returned with every worker joined |
| Session.Disk.SaveSession | session.go:43-92 | after a power failure at any step `path` holds what it might have held before or the whole new session; the new file is private throughout; an error leaves `path` as it was and, if removal works, no temporary file; a success that syncs the directory is durable exactly if the directory itself was |
| Session.FirstSaveCanVanish | session.go:48-51 | a first save that makes the directory, with every call succeeding, can still be lost |
| Session.LoadRoundTrip | session.go:24-47 | loading the indented form that is saved gives the session back, if its time is written so that it parses |
| Session.LoadedIsComplete | session.go:24-37 | what loads has both credentials; a missing file is told from a malformed one |
| Session.LoadAfterCrash | session.go:24-37 | loading after a crash in any state `SaveSession` passes through gives the new session or what an earlier crash could have left |
| Session.SaveIsCrashSafe | session.go:24-92 | saving a session: at whatever moment the power fails, and however the calls turn out, the next start loads that session or what it could have found before; success loads it at once |
| Session.OldOrNew | session.go:24-92 | with a durable old session, that is the old session or the new one |
| Redaction.RedactKnownSecrets | api.go:394-405 | the loop replaces the secrets, longest first, each together with its query form, and skips empty ones |
| Redaction.NothingNew | api.go:401-402 | a string clear of the mark that is found after a replacement was there before and is not what was replaced |
| Redaction.RedactedRemoves | api.go:394-405 | no secret, nor its query form, that is clear of the mark is left, whatever the order and overlap of the replacements |
| RedactionExactly.MarkedWhole | api.go:394-405 | a secret of the list is marked whole, whatever shorter secrets it holds and whatever stands around it, where nothing else matches and all are clear of the mark |
| RedactionExactly.SecretBecomesMark | api.go:394-405 | a text that is a secret of such a list leaves nothing but the mark |
| RedactionExactly.NothingToRedact | api.go:394-405 | a text that holds no secret stays as it is |
| RedactionExactly.EscapeRoundTrip | api.go:402-402 | the query form, with capital hexadecimal digits, gives the text back |
| SecretLeaks.FirstMatch | api.go:401-402 | the mark takes the place of the first match, and the replacement goes on behind it |
| SecretLeaks.NoMatchNoChange | api.go:401-402 | a text without a match is left alone, and one with a match gets a mark |
| SecretLeaks.RemovedIffClear | api.go:394-405 | a secret is removed from every text, by itself or in any list, exactly if it is clear of the mark |
| SecretLeaks.UnclearLeaks | api.go:401-402 | for any other secret there is a text that holds it after redaction |
| SecretLeaks.RemovedIff | api.go:394-405 | a bracket-free secret is removed from every text, by whatever list it is in, exactly if it is no part of "REDACTED" |
| Redaction.NoSecretIsLeft | api.go:369-392 | no string leaf of a redacted value holds a secret that is clear of the mark, nor its query form |
| Redaction.SensitiveSubtreesCollapse | api.go:369-379 | a member with a sensitive key becomes the mark and nothing below it is left |
| Redaction.RedactValueLeaves | api.go:369-392 | what a redacted value holds at each path: the mark, the redacted string, the unchanged leaf, or nothing |
| RedactionExactly.LeavesOutside | api.go:369-392 | outside sensitive keys strings are redacted as texts, all other leaves stay, and objects and arrays keep their keys and length |
| RedactionExactly.SensitiveExactly | logging.go:36-44 | a key is sensitive exactly if it holds one of the five words, in whatever case and with hyphens or underscores |
| RedactionExactly.CaseAndHyphens | logging.go:37-37 | case and hyphens make no difference |
| Redaction.WalkSensitiveValue | api.go:351-364 | the walk adds exactly the sensitive strings to what was collected before |
| Redaction.CollectSensitiveStrings | api.go:407-436 | the strings collected from a decoded value; none if it could not be decoded |
| Redaction.SensitiveStringsMeaning | api.go:429-435 | these are exactly the non-empty string leaves with a sensitive key above them |
| Redaction.SentCredentialsAreNotLogged | api.go:369-436 | a credential collected from a request, clear of the mark, is in no string of the redacted response |
| DomainName.IsDomainName | internal/tunnet/tun.go:539-578 | accepts exactly the names within the length limit that split at dots, up to a trailing one, into labels of 1 to 63 letters, digits, hyphens and underscores without a hyphen at either end, with a non-digit somewhere (a variant of sections 2.3.1 and 2.3.4 of RFC 1035) |
| DomainName.SplitJoins | internal/tunnet/tun.go:563-570 | the parts have no dots, and joined by dots give the name back |
| DomainName.SplitOfJoin | internal/tunnet/tun.go:563-570 | and they are the only such parts |
| DialBudget.DialContext | internal/tunnet/tun.go:1044-1093 | for attempts that heed their partial deadline or not, and any lag of the loop: connects to the first address that answers in time; otherwise the first failure, or what the context says, and exactly where it stopped |
| DialBudget.WinsMeaning | internal/tunnet/tun.go:1058-1087 | an address connects exactly if its turn comes in time and uncancelled and the attempt succeeds, within its slice if it heeds that |
| DialBudget.FailureMeaning | internal/tunnet/tun.go:1044-1093 | which error is reported, in each case exactly |
| DialBudget.SliceIsSane | internal/tunnet/tun.go:976-994 | a partial deadline lies after now and not after the deadline, grants at least min(2 s, what is left) and at least an equal share; there is none exactly when nothing is left |
| DialBudget.EveryAddressGetsItsShare | internal/tunnet/tun.go:1058-1074 | with two seconds for each address, besides the loop's own lag, every address is tried and its equal share is at least the first one's less the lag so far |
| DialBudget.AllTriedIff | internal/tunnet/tun.go:1058-1066 | for lags up to any bound every address is tried, whatever the attempts do, exactly if the slowest attempts leave time for the last |
| DialBudget.AllTriedWithoutLagIff | internal/tunnet/tun.go:1058-1066 | without lag that is exactly if two seconds for each but the last end before the deadline |

## Left out

- WalkSensitiveValue: says which strings are collected, not in what order or how often, because the walk goes over a Go map.
- RedactValueLeaves: map keys and numbers are left as they are, in the code as in the model; no claim is made that these hold no secret.
- StackFollowsProber: holds of runs in which raising the MTU works; `HeadsMatchIff` says what happens in all others.
- LoadRoundTrip: stated for sessions with a token and a secret, as loading rejects others in the code too. A time is a text, and which texts parse as one is a parameter.
- ShutdownEnds: the retry loop's limit of sixty seconds is a count of checks there; `IdleChecksAreFew` bounds it.
- LaidRoundTrip: strings are byte sequences, as for `ObjectRoundTrip`.
- SensitiveSubtreesCollapse: keys are lowered as ASCII. Go also lowers the Kelvin sign U+212A to "k" and U+0130 to "i", so a key spelt with these is sensitive in the code and not in the model.
- DialContext: takes a deadline; without one on the context there is no budget to model.
- EveryAddressGetsItsShare: for attempts that heed their deadline, as TCP dials do; UDP and ping dials return at once.
- StackNeverExceedsPath: that nothing else moves the stack MTU between a probe's write and its answer is how the loop is built, and not proved further.
- ObjectRoundTrip: strings are byte sequences; Go's encoder besides replaces invalid UTF-8 and escapes U+2028 and U+2029, and its decoder ignores the case of member names.
- AllTriedIff: the bound on the lag is one for all addresses.
- Observe: addresses are names; parsing them is a lookup function given as a parameter (also in ranking and filtering).
- Nil probers and nil sockets beyond the cases named; `maxTargetMTU` after construction, which nothing reads.
- JSON beyond flat objects of strings, numbers and null.
- The error values and log lines; only the kind of a failure is modelled.
- The list of candidates the early listener accepts, the 500-entry packet log and the sending of binding probes: easy members.
- The real durations of the fallback probe's timers: they are events, and the theorem covers every order of them.
- A recovery's endpoints in `Supervisor`: there it is a bounded number of waits, justified by `EndpointRecovery.PausesFit`.
- Endpoint resolution, device creation and the early error returns of `runTunnel` before its workers start.
- The 30-second echo statistics, STUN encoding, WireGuard, gVisor, SOCKS, DNS messages, cryptography, HTTP, CLI and URL parsing: library wrappers or plumbing without a deep invariant.
- Documentation and code: a comment says probing fills a packet with a 20-byte IPv4 header, while the code also pads for the 40-byte IPv6 header; the model follows the code.
