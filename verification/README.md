# A verified model of the discussion platform's core

This project models, in Dafny, the parts of the platform that keep real state, and proves what they promise over every
input, every run or every serial history. Five components are covered.

**Events.** One global sequence number, a bounded replay ring per topic, a bounded queue per subscriber with an overrun
flag (`EventBus.dfy`), the server's frame generator and the client's cursor (`EventStream.dfy`), the whole protocol as
interleaved steps with the log of everything published as history (`Delivery.dfy`), that it gets everything across when it
is left to run (`DeliveryProgress.dfy`), and what a reconnection costs the client (`Reconnection.dfy`). Together they implement resumable Server-Sent Events (section 9.2 of the WHATWG HTML Living
Standard).

**Voice.** The mixer's shared byte buffers, per-peer cursors and compaction, refining an unbounded log (`Mixer.dfy`), the
saturating 16-bit sum (`Pcm.dfy`), and floor routing (`VoicePlane.dfy`).

**Language-model fallback.** The quota ledger with its days, benches and doubling cooldowns (`Quota.dfy`), the chain router
with its streaming failover rule (`Router.dfy`), and what every rung's status is, read off the history of calls alone
(`QuotaHistory.dfy`).

**The discussion.** The speaking-time ledger and speaker selection (`Ledger.dfy`), the turn policy (`TurnPolicy.dfy`), the
session aggregate (`Session.dfy`), the session runner (`Runner.dfy`) with what it keeps (`RunnerSafety.dfy`), what every
command does to the tallies (`RunnerAccounts.dfy`) and to everything else (`RunnerEffects.dfy`), why it never stalls
(`RunnerProgress.dfy`) and which commands take it out of closing (`RunnerClosing.dfy`), the sentence chunker (`Chunker.dfy`)
and the privacy span merge (`Privacy.dfy`).

**Enrollment.** Rows and the transaction (`Records.dfy`), invitations, seats and discussions (`Invitations.dfy`,
`Rooms.dfy`, `Discussions.dfy`), the requests that span them (`Enrollment.dfy`), when each succeeds and which rows it then
changes (`EnrollmentEffects.dfy`), what every serial history keeps (`EnrollmentSafety.dfy`), and exactly which requests
exceed what it should keep (`EnrollmentLimits.dfy`).

`Common.dfy` and `Text.dfy` hold shared values and the string handling the rest depends on. Objects that the program
updates in place are classes whose methods update the same fields and are proved against functions from the old state to
the new; the lemmas then speak about those functions, over one step and over whole runs, and where a result is called
`...Exactly` it says in the terms of the input what they compute, without their definitions. `dafny verify dfyconfig.toml`
checks everything.

## What the code does where its comments say more

The model follows the code in each of these places. For each, a lemma over every input says exactly when the stronger
claim fails, and a concrete state or run shows it failing.

- Clearing the moderator on barge-in deletes what everyone has already heard, keeps the unplayed backlog, and rewinds every
  peer to the slowest one (`Mixer.BacklogSurvivesBargeIn`, `Mixer.BargeInExactly`). Over whole runs nothing is skipped, and
  what is sent again is what lies between the slowest peer and this one (`Mixer.EachByteSentExactly`); so a peer that has
  just joined can be sent what was said before it came (`Mixer.OldAudioOnlyByBargeIn`, `Mixer.JoinerIsSentOldAudio`).
- The overlap merge covers every match's start but not always its end (`Privacy.TailsCanSurvive`,
  `Privacy.CoversAllExactly`).
- The resync check looks at the topic that reaches furthest back, so with two topics a client can handle an event without
  ever having had the one before it, and is not told (`Reconnection.TwoTopicsCanHideAGap`). What a reconnection loses is
  exactly what no longer fits in its topic's ring (`Reconnection.HandledExactly`); with one topic nothing is
  (`Reconnection.OneTopicMissesNothing`).
- Closing is not irrevocable. Whoever was about to be called on can talk over the closing words, and the runner can then
  end with the mixer still routing to them (`RunnerSafety.ClosingCanBeTalkedOver`, `RunnerSafety.TeardownForgetsTheFloor`).
  Late reports that an utterance is over and a last word on behalf of nobody leave closing too; the list is exact
  (`RunnerClosing.ClosingStandsExactly`), and a run of the runner with its queue and timers shows the introduction's report
  undoing a host's request to end (`RunnerClosing.EndIsOverriddenByTheIntroduction`).
- A request to end a discussion that is still waiting for people is forgotten when the last of them arrives, and also when
  the join window runs out with two present (`RunnerClosing.EarlyEndStandsExactly`,
  `RunnerClosing.EndIsOverriddenByTheJoinWindow`).
- Re-sending an invitation that timed out does not look for a free seat, so five people can hold a seat in a classroom for
  four (`EnrollmentLimits.HeldSeatsFitExactly`, `EnrollmentLimits.FiveSeatsHeld`).
- Starting does not look at the classroom's own status, so a cancelled classroom can be given a session
  (`EnrollmentLimits.ClosedStaysClosedExactly`, `EnrollmentLimits.CancelledIsStarted`); and the runner's report that a
  session was aborted reopens a classroom that was cancelled or expired (`EnrollmentLimits.FinalIsLeftExactly`).
- The header of the enrollment module says that a classroom is ready only when all four have accepted. The code opens it
  when two have and nobody else is deciding (`EnrollmentSafety.AcceptanceOpensExactly`).

## Model

| member | source | states |
|---|---|---|
| `EventBus.Bus.Publish` | backend/app/modules/notification/event_bus.py:64-70 | the event gets the next global number, enters its topic's ring, and is offered to exactly that topic's subscribers |
| `EventBus.Bus.Subscribe` | backend/app/modules/notification/event_bus.py:77-81 | a fresh subscriber with an empty queue is added to each of its topics and to no other |
| `EventBus.Bus.Unsubscribe` | backend/app/modules/notification/event_bus.py:83-87 | exactly that subscriber disappears from exactly its topics |
| `EventBus.Bus.DropTopic` | backend/app/modules/notification/event_bus.py:106-113 | ring and subscriptions of the topic go, and each of its subscribers is offered one made-up last notice |
| `EventBus.Bus.ReplaySince` | backend/app/modules/notification/event_bus.py:89-98 | the nested loops and the sort give every event of the topics' rings beyond the cursor and nothing else, in the order of publication, and strictly so when no topic is named twice |
| `EventBus.Bus.OldestAvailable` | backend/app/modules/notification/event_bus.py:100-103 | zero exactly when every ring is empty; otherwise at most every ring's first number, and the first number of one of them |
| `EventBus.Subscriber.Offer` | backend/app/modules/notification/event_bus.py:39-45 | a full queue refuses the event, keeps what it holds and raises the overrun flag |
| `EventBus.Subscriber.FinishNext` | backend/app/modules/notification/event_bus.py:50-53 | gives out the head of the queue, or nothing when the wait ran out |
| `EventBus.ReplayIsExact` | backend/app/modules/notification/event_bus.py:89-98 | replay is strictly ascending and is exactly what the topics' rings hold beyond the cursor |
| `EventBus.OldestIsLeast` | backend/app/modules/notification/event_bus.py:100-103 | the oldest available number is at most every topic's first ring number |
| `EventBus.OldestIsSomeones` | backend/app/modules/notification/event_bus.py:100-103 | and is the first ring number of one of them |
| `EventBus.RingsHoldTheLatest` | backend/app/modules/notification/event_bus.py:57-67 | a ring is exactly the last events of its topic, up to its capacity |
| `EventBus.RingReach` | backend/app/modules/notification/event_bus.py:57-67 | a ring still holds everything after a cursor if and only if no more than its capacity was published on the topic since |
| `EventBus.HeldAbove` | backend/app/modules/notification/event_bus.py:57-67 | from the first number it holds on, a ring holds everything published on its topic |
| `EventBus.AppendedExactly` | backend/app/modules/notification/event_bus.py:64-67 | a publication goes to the end of its own topic's ring, which keeps its latest events up to its capacity; no other ring changes |
| `EventStream.Stream.constructor` | backend/app/modules/notification/sse.py:58-75 | subscribes first, then decides between resync and replay from the cursor it was given |
| `EventStream.Stream.Resume` | backend/app/modules/notification/sse.py:67-74 | after a resync the replay is taken only when the generator is resumed, from cursor 0, and only on streams that replay |
| `EventStream.Stream.Replay` | backend/app/modules/notification/sse.py:73-77 | yields the replay frame by frame, then the open frame, then goes live |
| `EventStream.Stream.BeginNext` | backend/app/modules/notification/sse.py:79-94 | an overrun subscriber gets the error frame and the stream ends; otherwise the wait begins |
| `EventStream.Stream.FinishNext` | backend/app/modules/notification/sse.py:80-98 | the wait ends with the head of the queue as a frame, or with nothing |
| `EventStream.Client.Dispatch` | frontend/src/hooks/useEventStream.ts:100-123 | resync clears the cursor, unlistened types never arrive, numbered duplicates are dropped, and everything else moves the cursor and reaches the handler |
| `EventStream.OpensExactly` | backend/app/modules/notification/sse.py:58-75 | a stream begins with a resync if and only if the client returns with a cursor, something is held, and everything held begins beyond the event it expects next; otherwise it replays exactly what is held after the cursor, and a first connection replays only if it asked to |
| `Delivery.HandledInOrder` | frontend/src/hooks/useEventStream.ts:57-123 | over every interleaving of publishes, drops, connects, suspensions, replay, live reads, overruns and lost connections, and across every resync, all that the client handles in its whole life is strictly increasing, without repeats, and only listened types of its topics |
| `Delivery.HandledCompletely` | backend/app/modules/notification/sse.py:58-97 | and on every topic it is exactly the wanted events published there from the topic's base to where the client has got, live events after a resync or a late join included |
| `Delivery.EveryTopicHasABase` | backend/app/modules/notification/sse.py:58-97 | through every run, each of the stream's topics that is not dropped has such a base, so the completeness result always speaks about it |
| `Delivery.TheBaseMovesOverAGap` | backend/app/modules/notification/sse.py:61-73 | a base moves only when a replay finds that the ring has lost an event the client had not reached; it then lies beyond that event and just before the first one still held |
| `Delivery.ResyncMeansPast` | backend/app/modules/notification/sse.py:61-67 | a resync replays only numbers beyond the cursor it takes back, so nothing is handled twice |
| `Delivery.ConnectingGivesBases` | backend/app/modules/notification/sse.py:58-75 | a connection that is not told to resync has a base for every topic, dropped before or not |
| `Delivery.NothingSkipped` | backend/app/modules/notification/sse.py:70-97 | when an event is handled, no wanted event beyond its topic's base lies between where the client had got and it |
| `Delivery.OnlyAPrefixIsGiven` | backend/app/modules/notification/event_bus.py:39-53 | overrun or not, what a subscriber was given is a gap-free prefix of what it was offered |
| `DeliveryProgress.OverrunsExactly` | backend/app/modules/notification/event_bus.py:39-53 | while a connection lives its queue overruns exactly when one more event is offered on a topic of its own with a hundred waiting, nothing takes that back, and the stream ends exactly when it asks for more after that |
| `DeliveryProgress.CatchesUp` | backend/app/modules/notification/sse.py:58-97 | from every reachable state without an overrun, finitely many steps of the generator and the client alone bring the client up to date: it has then handled, on every topic, exactly what was published after the base, to the last event |
| `Reconnection.HeldExactly` | backend/app/modules/notification/event_bus.py:57-67 | an event is still in its ring if and only if it and what followed on its topic fit in the ring |
| `Reconnection.ReplayedExactly` | backend/app/modules/notification/sse.py:61-75 | a reconnection without resync replays a missed event if and only if it and what followed on its topic fit in the ring |
| `Reconnection.ReconnectingMissesNothingExactly` | backend/app/modules/notification/sse.py:61-75 | such a reconnection replays everything wanted on a topic if and only if the first wanted event and what followed it fit in the ring |
| `Reconnection.HandledExactly` | backend/app/modules/notification/sse.py:58-97 | however the run goes on, what did not fit is never handled; and once the client has got past it, what did fit has been |
| `Reconnection.GoneForGood` | backend/app/modules/notification/sse.py:58-97 | what the ring has lost, and the wire does not carry, is lost to the client in every continuation of the run |
| `Reconnection.OneTopicMissesNothing` | backend/app/modules/notification/sse.py:61-68 | on a single topic, a reconnection without resync replays everything published since the cursor |
| `Reconnection.TwoTopicsCanHideAGap` | backend/app/modules/notification/event_bus.py:100-103 | on two topics it does not: a run in which the client, never told to resync, handles the third event without the second |
| `Mixer.EachByteHeardOnce` | backend/app/modules/voice/mixer.py:89-162 | between barge-ins, with peers coming and going and the floor changing hands, the moderator bytes a peer is sent are its slice of the log, each byte once and in order |
| `Mixer.EachByteSentExactly` | backend/app/modules/voice/mixer.py:75-162 | over any run with barge-ins, a byte is sent once if the peer has moved past it and once more for each barge-in that took the peer back over it: none is skipped, and only bytes between the slowest peer and this one are sent again |
| `Mixer.HeardAtPlaces` | backend/app/modules/voice/mixer.py:89-143 | what is sent is the log, byte for byte, at those places |
| `Mixer.SentInOrder` | backend/app/modules/voice/mixer.py:112-143 | each byte sent is the next one, or lies further back because of a barge-in; there is no jump forward |
| `Mixer.OldAudioOnlyByBargeIn` | backend/app/modules/voice/mixer.py:58-80 | a joiner is sent something from before it attached only if a barge-in took it back over it |
| `Mixer.JoinerIsSentOldAudio` | backend/app/modules/voice/mixer.py:58-80 | a concrete run in which it is |
| `Mixer.JoinerHearsOnlyWhatFollows` | backend/app/modules/voice/mixer.py:58-67 | until the first barge-in, a joiner hears exactly what was pushed after it attached |
| `Mixer.LiveEdge` | backend/app/modules/voice/mixer.py:112-143 | a peer's place in the human source never moves back, and no read leaves it further behind than the allowed lag |
| `Mixer.FrameIsTheMix` | backend/app/modules/voice/mixer.py:89-143 | the log's frame in those terms: the two slices are named by the peer's places and the lag limit alone |
| `Mixer.ListenersHearTheFloor` | backend/app/modules/voice/mixer.py:89-143 | over any run in which a listener keeps within the lag, with barge-ins and others coming and going, the floor's bytes it is sent are the slice of the floor's log between its two places |
| `Mixer.HeardAtLivePlaces` | backend/app/modules/voice/mixer.py:89-143 | and over any run at all, lagging or not, they are the floor's log at the listed places |
| `Mixer.LiveAscends` | backend/app/modules/voice/mixer.py:112-143 | which only ascend: nothing of the floor is sent twice, and what is skipped is skipped for good |
| `Mixer.JoinerHearsNoOldFloor` | backend/app/modules/voice/mixer.py:58-67 | a joiner is sent nothing of the floor from before it attached, barge-ins or not |
| `Mixer.LogsAreWhatWasPushed` | backend/app/modules/voice/mixer.py:69-73 | the two logs are what was pushed, in order |
| `Mixer.NobodyHearsThemselves` | backend/app/modules/voice/mixer.py:89-110 | the floor holder's frame is the moderator alone; when one source is silent, however that came about, a listener's frame is the other unchanged |
| `Mixer.BacklogSurvivesBargeIn` | backend/app/modules/voice/mixer.py:75-80 | a concrete state in which clearing leaves unplayed bytes and sends a peer bytes it already had |
| `Mixer.BargeInExactly` | backend/app/modules/voice/mixer.py:75-80 | clearing leaves nothing unplayed if and only if nothing was, and rewinds nobody if and only if all were level |
| `Mixer.SessionMixer.ReadFrame` | backend/app/modules/voice/mixer.py:89-110 | the frame is, sample by sample, the clamped sum of the next moderator bytes and, for a listener, of the next live bytes of the floor, each padded with silence; silence for a stranger; the peer moves past exactly those bytes, and compaction is unobservable |
| `Mixer.SessionMixer.Trim` | backend/app/modules/voice/mixer.py:145-162 | drops only what every peer has heard, leaves at most fifty frames of it, and changes nothing in the log view |
| `Mixer.SessionMixer.ClearModerator` | backend/app/modules/voice/mixer.py:75-80 | the log view is levelled to the slowest peer, and untouched when nobody is attached |
| `Mixer.SessionMixer.Attach` | backend/app/modules/voice/mixer.py:58-62 | the peer is placed at the end of both sources |
| `Mixer.SessionMixer.Detach` | backend/app/modules/voice/mixer.py:64-67 | the peer is forgotten and the log view is otherwise unchanged |
| `Mixer.SessionMixer.PushModerator` | backend/app/modules/voice/mixer.py:69-70 | appends to the moderator's log |
| `Mixer.SessionMixer.PushHuman` | backend/app/modules/voice/mixer.py:72-73 | appends to the floor's log |
| `Pcm.Add` | backend/app/modules/voice/_audioop_shim.py:30-40 | the samplewise sum, clamped to 16 bits, over little-endian bytes |
| `Pcm.DecodedExactly` | backend/app/modules/voice/_audioop_shim.py:30-40 | what two bytes are worth: the low byte plus 256 times the high one, as a signed 16-bit number |
| `Pcm.BytesOfSamples` | backend/app/modules/voice/_audioop_shim.py:30-40 | decoding bytes to samples and encoding again gives the bytes back |
| `Pcm.SamplesOfBytes` | backend/app/modules/voice/_audioop_shim.py:30-40 | encoding samples and decoding again gives the samples back |
| `Pcm.SilenceIsNeutral` | backend/app/modules/voice/_audioop_shim.py:30-40 | adding silence changes nothing, on either side |
| `VoicePlane.Plane.GrantFloor` | backend/app/modules/voice/plane.py:193-211 | the mixer routes to the new holder and the one transcription stream, if it opens, is theirs |
| `VoicePlane.Plane.ReleaseFloor` | backend/app/modules/voice/plane.py:197-217 | nobody is routed and no stream is open |
| `VoicePlane.Plane.RemovePeer` | backend/app/modules/voice/plane.py:131-146 | the peer, its mixer place and its transcription stream go, and nothing else |
| `VoicePlane.Plane.Receive` | backend/app/modules/voice/plane.py:169-183 | only what the floor holder says is passed on, and it is transcribed only while the open stream is theirs |
| `VoicePlane.Plane.Close` | backend/app/modules/voice/plane.py:308-319 | every peer and the stream go, both buffers are emptied whether or not anybody was attached, and the mixer's floor stays as it was |
| `Quota.RolloverIsTheNextBoundary` | backend/app/infrastructure/llm/quota.py:121-137 | the rollover is ahead, at most a day away, and is the first instant of another quota day, for every offset |
| `Quota.QuotaBenchEndsWithTheDay` | backend/app/infrastructure/llm/quota.py:212-267 | a rung whose quota is spent is out until its rollover and back at exactly that instant with counters at zero |
| `Quota.CooldownClosedForm` | backend/app/infrastructure/llm/quota.py:318-370 | after any history, the n-th transient failure in a row benches for the base doubled once per failure past the threshold, capped; fewer never bench |
| `Quota.StreakIsHistory` | backend/app/infrastructure/llm/quota.py:300-390 | the streak is the number of transient failures since the last success or manual clear |
| `Quota.TransientFailure` | backend/app/infrastructure/llm/quota.py:338-370 | one transient failure lengthens the streak by one and keeps the cooldown law |
| `Quota.ThrottlesNeverBench` | backend/app/infrastructure/llm/quota.py:318-337 | at no moment from then on, on that quota day or a later one, does a throttle change whether the rung may serve; it promises no time to wait for and leaves the streak alone |
| `Quota.PastIsHonest` | backend/app/infrastructure/llm/quota.py:212-238 | after any history in the past, a row's quota day is today or earlier, which is all that result asks |
| `Quota.QuotaLedger.GetStatus` | backend/app/infrastructure/llm/quota.py:240-267 | the status by availability, bench, budget, throttle and activity, after the lazy day reset; the results under QuotaHistory say what it comes to |
| `Quota.QuotaLedger.RecordAttempt` | backend/app/infrastructure/llm/quota.py:277-282 | one more request on the rung's own quota day |
| `Quota.QuotaLedger.RecordSuccess` | backend/app/infrastructure/llm/quota.py:300-316 | clears bench, streak and throttle and makes the rung the active one |
| `Quota.QuotaLedger.RecordFailure` | backend/app/infrastructure/llm/quota.py:318-370 | the bench by kind of failure, and when it clears |
| `Quota.QuotaLedger.ClearBenchOf` | backend/app/infrastructure/llm/quota.py:373-390 | a known rung is unbenched with its streak gone; an unknown one is reported |
| `QuotaHistory.StatusIsHistory` | backend/app/infrastructure/llm/quota.py:212-400 | after any history in the order of the clock, the status of a rung is read off that history alone: which failures are still benching it, what was attempted and billed that day since the last reset, whether it throttled lately, and who served last |
| `QuotaHistory.BenchHoldsExactly` | backend/app/infrastructure/llm/quota.py:240-370 | whenever a failure benches a rung, of whatever kind, the rung may not serve at any moment before the one it names; from then on, nothing else being done to it, it may exactly when no budget is spent |
| `QuotaHistory.BenchedExactly` | backend/app/infrastructure/llm/quota.py:318-370 | a failure names a moment if and only if it is no throttle and, when transient, completes the streak; and which moment it is, by kind |
| `QuotaHistory.FreedAtOnce` | backend/app/infrastructure/llm/quota.py:300-390 | a manual clear, and a success after a transient bench, let the rung serve at once if no budget is spent |
| `QuotaHistory.TriedByHistory` | backend/app/infrastructure/llm/router.py:80-134 | over any history, the rungs a call tries are exactly those whose history lets them serve |
| `QuotaHistory.OutIsNotDialled` | backend/app/infrastructure/llm/router.py:80-178 | so a rung that a failure has benched is dialled by no call that asks for it before the moment the failure named |
| `QuotaHistory.CallsAreHistory` | backend/app/infrastructure/llm/router.py:80-178 | what a call leaves in the ledger is what a longer history of single notes leaves, so the results above apply after any calls |
| `QuotaHistory.StreamsCostExactly` | backend/app/infrastructure/llm/router.py:288-348 | a rung dialled in a streaming call spends one request, and the tokens it used unless the listener walked away; each on the quota day it falls on, whatever the stream came to |
| `Router.EligibleExactly` | backend/app/infrastructure/llm/router.py:80-94 | a rung is eligible if and only if its status at the start of the call lets it serve, whatever rungs were asked before it |
| `Router.WalkOutcome` | backend/app/infrastructure/llm/router.py:136-178 | the first eligible rung is always dialled, local rungs are never skipped, at most one dialled rung did not lose, and the chain is exhausted if and only if every dialled rung lost, which includes every eligible local one |
| `Router.WalkEnds` | backend/app/infrastructure/llm/router.py:136-178 | a walk ends with the answer of the first dialled rung that did not lose |
| `Router.WalkTells` | backend/app/infrastructure/llm/router.py:136-213 | the ledger hears one attempt per dialled rung in order, one failure per loser and one success for the winner |
| `Router.DialledInOrder` | backend/app/infrastructure/llm/router.py:136-178 | the rungs dialled in a call are all those the rule says and no others, in chain order |
| `Router.DialledOnce` | backend/app/infrastructure/llm/router.py:136-178 | with distinct names, no rung is dialled twice in a call |
| `Router.LimitsHold` | backend/app/infrastructure/llm/router.py:80-178 | over any sequence of non-overlapping calls sharing a ledger, no rung is attempted more often in one of its quota days than its limit |
| `Router.OneSuccessAtTheEnd` | backend/app/infrastructure/llm/router.py:288-348 | a call that is served records exactly one success, and it is the last verdict |
| `Router.NoSuccessOtherwise` | backend/app/infrastructure/llm/router.py:288-348 | a call in which every dialled rung lost records none |
| `Router.StopIsLast` | backend/app/infrastructure/llm/router.py:288-348 | after the rung that stopped the walk no later rung is dialled |
| `Router.FailoverEndsAtTheFirstChunk` | backend/app/infrastructure/llm/router.py:288-348 | a stream is passed over if and only if it ended without a chunk; one that broke off after a chunk fails the call, and one that ended well after a chunk has answered |
| `Router.ChainRouter.EligibleRungs` | backend/app/infrastructure/llm/router.py:80-94 | the loop computes the eligible rungs in chain order and the ledger after asking |
| `Router.ChainRouter.NextUp` | backend/app/infrastructure/llm/router.py:123-134 | names the first rung that would be dialled |
| `Router.ChainRouter.HandleFailure` | backend/app/infrastructure/llm/router.py:180-213 | records the failure once and otherwise only looks |
| `Router.ChainRouter.Walk` | backend/app/infrastructure/llm/router.py:136-178 | the loop refines the walk that the lemmas describe |
| `Router.ChainRouter.StreamRung` | backend/app/infrastructure/llm/router.py:288-348 | one rung's chunks, all under its name, and its settlement with the ledger |
| `Router.ChainRouter.StreamCall` | backend/app/infrastructure/llm/router.py:288-348 | no splice: what is yielded is, chunk by chunk, what the one rung that stopped the walk produced, under its name; a normal end means at least one chunk, and exhaustion yields nothing |
| `Ledger.SelectionIsFair` | backend/app/domain/ledger.py:91-108 | selection fails only when nobody is connected, repeats the last speaker only when nobody else is, and otherwise names somebody who has had the least |
| `Ledger.SelectionIsFirst` | backend/app/domain/ledger.py:91-108 | among those equally little heard, down to the name, the one registered first is selected |
| `Ledger.NameLeqExactly` | backend/app/domain/ledger.py:91-108 | names are compared character by character, a prefix first |
| `Ledger.NoStarvation` | backend/app/domain/ledger.py:91-108 | with everyone adding at least a millisecond a turn, a connected participant is called within two turns more than the others' total head start |
| `Ledger.EqualSharesStayEqual` | backend/app/domain/ledger.py:37-42 | with equal turns from a clean start, turn counts never differ by more than one |
| `Ledger.MinTurnsIsLeast` | backend/app/domain/ledger.py:61-63 | the least turn count is at most that of anyone connected |
| `Ledger.SpeakingTimeLedger.AddSpeech` | backend/app/domain/ledger.py:37-42 | time, never negative, and one turn for a known speaker; nothing for an unknown one |
| `Ledger.SpeakingTimeLedger.Register` | backend/app/domain/ledger.py:34-35 | a new tally at zero, and a known one untouched |
| `TurnPolicy.NoVerdictOverrulesTheRules` | backend/app/domain/turn_policy.py:82-103 | whatever the judge says, a follow-up is asked only of a known speaker with quota left inside the time budget |
| `TurnPolicy.FollowsUpExactly` | backend/app/domain/turn_policy.py:62-115 | a follow-up is asked if and only if the speaker is known, has quota and time left and said something, and the judge says so, or without a verdict the answer has fewer than 25 words, or at most 110 and one of the listed markers somewhere in its lower-cased text |
| `TurnPolicy.ClosesExactly` | backend/app/domain/turn_policy.py:118-143 | for which reason, if any, the discussion closes, from the clock, the connected tallies and the silent turns, in that order of precedence |
| `TurnPolicy.EligibleCounts` | backend/app/domain/ledger.py:54-76 | what the ledger counts: fewer than two connected, and everybody connected having had so many turns |
| `Text.WordsAddUp` | backend/app/domain/turn_policy.py:58-59 | the word count adds up over a space; with a single word counting one this fixes it |
| `Session.DiscussionSession.AddParticipant` | backend/app/domain/session.py:95-106 | seated as invited and not eligible |
| `Session.DiscussionSession.NoteConnected` | backend/app/domain/session.py:108-116 | exactly that person's seat and eligibility move, together, and a removed participant does not come back |
| `Session.DiscussionSession.NoteDisconnected` | backend/app/domain/session.py:118-124 | the same, the other way |
| `Session.DiscussionSession.NoteRemoved` | backend/app/domain/session.py:126-131 | removed and not eligible |
| `Session.DiscussionSession.Record` | backend/app/domain/session.py:164-192 | the turn gets the next number, joins the transcript and enters the recent window |
| `Session.RecordTurnKeepsBooks` | backend/app/domain/session.py:160-192 | numbers stay gapless and the window stays the latest turns |
| `Session.RecordingExactly` | backend/app/domain/session.py:141-192 | which number, name and text the turn gets, and that the window of four shows it last, marked as the moderator's exactly when it has no speaker |
| `Session.AddingExactly` | backend/app/domain/session.py:95-106 | a newcomer is on the roster as invited and in the ledger at zero, not eligible; somebody known keeps their tally; nobody else is touched |
| `Session.ElapsedExactly` | backend/app/domain/session.py:148-152 | whole seconds since the start, against any limit |
| `Session.ConnectedCounts` | backend/app/domain/session.py:133-139 | when the count says everybody, nobody, or fewer than two |
| `Session.DiscussionSession.Wipe` | backend/app/domain/session.py:201-209 | everything said and everyone present is forgotten |
| `Runner.SessionRunner.Handle` | backend/app/modules/moderation/runner.py:177-206 | dispatch to the handler of each command, refining the step function over session, ledger, plane and the runner's own fields |
| `Runner.SessionRunner.OnConnected` | backend/app/modules/moderation/runner.py:209-222 | the discussion begins when everyone expected is there |
| `Runner.SessionRunner.OnDisconnected` | backend/app/modules/moderation/runner.py:224-242 | fewer than two closes; the floor holder leaving ends the turn |
| `Runner.SessionRunner.OnJoinExpired` | backend/app/modules/moderation/runner.py:244-253 | two are enough to begin, fewer abort |
| `Runner.SessionRunner.BeginDiscussion` | backend/app/modules/moderation/runner.py:256-265 | active, introducing, join timer gone |
| `Runner.SessionRunner.OnSpoke` | backend/app/modules/moderation/runner.py:267-303 | what each kind of finished utterance leads to |
| `Runner.SessionRunner.NextTurn` | backend/app/modules/moderation/runner.py:305-335 | close by policy, or call on the selected speaker |
| `Runner.SessionRunner.GrantFloor` | backend/app/modules/moderation/runner.py:337-366 | floor, stream and both timers for the current turn |
| `Runner.SessionRunner.OnSpeechStarted` | backend/app/modules/moderation/runner.py:369-378 | the holder's silence timer stops; only the person addressed may barge in |
| `Runner.SessionRunner.OnSilence` | backend/app/modules/moderation/runner.py:394-429 | check once, then spend the turn |
| `Runner.SessionRunner.OnHardCap` | backend/app/modules/moderation/runner.py:431-443 | the grace timer for the floor holder of this very turn |
| `Runner.SessionRunner.OnRelease` | backend/app/modules/moderation/runner.py:445-449 | the same grace timer, on request |
| `Runner.SessionRunner.OnAnswer` | backend/app/modules/moderation/runner.py:451-508 | late answers ignored, blanks keep the floor, personal details remove, and otherwise the turn closes and is followed up, which counts, or passed on; the results under RunnerAccounts and RunnerEffects say what it comes to |
| `Runner.SessionRunner.RemoveForPrivacy` | backend/app/modules/moderation/runner.py:510-563 | floor taken, seat closed, room told |
| `Runner.SessionRunner.CloseTurn` | backend/app/modules/moderation/runner.py:583-624 | timers gone, time banked, words recorded, floor free |
| `Runner.SessionRunner.BeginClosing` | backend/app/modules/moderation/runner.py:635-651 | no-op when closing; otherwise timers gone, floor free, closing words |
| `Runner.SessionRunner.MaybeFoldSummary` | backend/app/modules/moderation/runner.py:842-850 | folds the oldest three once more than six are unfolded |
| `Runner.SessionRunner.Fire` | backend/app/modules/moderation/runner.py:867-878 | a timer disarms itself and hands over its command |
| `Runner.SessionRunner.FinishSpeaking` | backend/app/modules/moderation/runner.py:734-781 | the utterance being spoken ends and reports its own kind |
| `Runner.SessionRunner.Teardown` | backend/app/modules/moderation/runner.py:894-933 | timers, connections and everything said are gone |
| `RunnerSafety.EveryRunIsSound` | backend/app/modules/moderation/runner.py:148-563 | after any commands in any order: roster and ledger agree and exactly the connected are eligible; session, mixer and stream agree on the floor; follow-ups stay within quota; transcript, window and folded batches are gapless and in step; nobody removed is in play |
| `RunnerSafety.CommandKeeps` | backend/app/modules/moderation/runner.py:177-206 | each single command keeps all of that, and freezes whoever has been removed |
| `RunnerSafety.RemovedForGood` | backend/app/modules/moderation/runner.py:510-563 | through any further run a removed person stays removed, never holds the floor, is never next, is never selected, speaks in no later turn, and their tally does not move |
| `RunnerSafety.RemovedIsNeverSelected` | backend/app/domain/ledger.py:54-108 | selection never names a removed participant |
| `RunnerSafety.WordsAreDropped` | backend/app/modules/moderation/runner.py:472-474 | reading out contact details leaves transcript and tallies as they were, apart from eligibility, with the speaker removed, disconnected and off the floor |
| `RunnerSafety.OneWholeTurn` | backend/app/modules/moderation/runner.py:287-508 | a question, a floor and an answer move exactly the speaker's tally by the time held and one turn, and record exactly the stripped words with that duration |
| `RunnerSafety.TwoSilencesSpendATurn` | backend/app/modules/moderation/runner.py:394-429 | the first silence gives the floor back after a check, the second costs an empty turn, and the next called on is somebody else; the nudge's own reference to the person is what the second silence compares |
| `RunnerSafety.FollowUpKeeps` | backend/app/modules/moderation/runner.py:479-505 | asking a follow-up keeps everyone within the quota, whatever the verdict; that asking is counted is RunnerAccounts.CommandIsAccounted |
| `RunnerAccounts.CommandIsAccounted` | backend/app/modules/moderation/runner.py:177-563 | for every command and person: follow-ups go up by one exactly if the person has just answered with the floor in hand and is asked again, turns by one exactly if their turn ends, time by what they held the floor for; nothing else moves a tally |
| `RunnerAccounts.TalliesAreHistory` | backend/app/modules/moderation/runner.py:148-563 | so in every run a person's follow-ups are the number of times they were asked again, which is at most the quota, their turns the number of their turns that ended, and their time the sum of those |
| `RunnerAccounts.AskedAgainExactly` | backend/app/modules/moderation/runner.py:479-505 | somebody who answers is asked again if and only if they have quota and time left, said something, and the judge or the answer invites more |
| `RunnerAccounts.OnlyTheKnownAreAsked` | backend/app/modules/moderation/runner.py:479-505 | nobody without a tally is ever asked again |
| `RunnerEffects.FloorExactly` | backend/app/modules/moderation/runner.py:177-633 | for every command: who has the floor afterwards and since when; it goes only to whoever was addressed, and is lost only by answer, departure, silence, removal or closing |
| `RunnerEffects.NextSpeakerExactly` | backend/app/modules/moderation/runner.py:305-335 | whenever the discussion looks for its next speaker, it ends for the first reason that applies, or asks somebody connected, heard least, and not the last to speak unless nobody else is there |
| `RunnerEffects.RecordsExactly` | backend/app/modules/moderation/runner.py:267-624 | for every command: what the transcript gains, under which name and duration, how the run of silent turns goes on, and who counts as the last speaker |
| `RunnerEffects.TimersExactly` | backend/app/modules/moderation/runner.py:209-651 | for every command: which timers run afterwards, and with which command |
| `RunnerEffects.RemembersExactly` | backend/app/modules/moderation/runner.py:209-624 | for every command: how everybody is connected, who is being transcribed, who has been checked on, and which turns have been folded |
| `RunnerEffects.ConductExactly` | backend/app/modules/moderation/runner.py:177-651 | for every command: status, start, end and its reason, what the moderator says next, and to whom |
| `RunnerEffects.ReferencesExactly` | backend/app/modules/moderation/runner.py:337-429 | for every command: which object each kept reference is, which decides whether the next silence is somebody's second |
| `RunnerSafety.NotClosingMeansSomebody` | backend/app/modules/moderation/runner.py:309-322 | when the policy does not close, somebody can be selected, so the fallback after selection is never needed |
| `RunnerSafety.FoldedKeeps` | backend/app/modules/moderation/runner.py:842-850 | folding keeps the batches equal to the first turns and clear of the verbatim window |
| `RunnerSafety.TeardownForgetsTheFloor` | backend/app/modules/moderation/runner.py:894-933 | teardown leaves session and mixer agreeing on the floor if and only if it was free |
| `RunnerSafety.ClosingCanBeTalkedOver` | backend/app/modules/moderation/runner.py:375-378 | of barge-ins, exactly the one by whoever was to be called on leaves closing, and then the floor can outlive the runner |
| `RunnerSafety.EndRequestSurvivesArrival` | backend/app/modules/moderation/runner.py:209-222 | of arrivals, an end request made while waiting survives exactly those that leave somebody missing |
| `RunnerClosing.ClosingStandsExactly` | backend/app/modules/moderation/runner.py:177-563 | from closing, whatever the next command, the session is still closing or has finished if and only if the command is not on an explicit list: the last arrival or the join window while waiting, a barge-in by the pending person, a last word for nobody, and late reports |
| `RunnerClosing.RunsFreeTheFloor` | backend/app/modules/moderation/runner.py:148-563 | in every run nobody holds the floor while closing, so that result always applies |
| `RunnerClosing.EarlyEndStandsExactly` | backend/app/modules/moderation/runner.py:177-265 | an end request made while waiting stands through the next command, whatever it is, if and only if the command is not on the list |
| `RunnerClosing.EndIsOverriddenByTheIntroduction` | backend/app/modules/moderation/runner.py:267-287 | a run from the start, through the queue, in which the report of the introduction undoes a host's request to end |
| `RunnerClosing.EndIsOverriddenByTheJoinWindow` | backend/app/modules/moderation/runner.py:244-265 | and one in which the join window, with a person still missing, begins the discussion over the host's request to end |
| `RunnerProgress.NeverStalls` | backend/app/modules/moderation/runner.py:126-206 | from the start and through every run, an unfinished discussion has a command on its way - queued, armed or about to be reported - that moves it on |
| `RunnerProgress.StepIsLively` | backend/app/modules/moderation/runner.py:337-449 | each delivery, timer, finished utterance or arrival keeps the watchdogs of the present state in place |
| `RunnerProgress.SomethingIsComing` | backend/app/modules/moderation/runner.py:267-449 | and names the command that finishes the session or changes what the moderator is doing |
| `Chunker.SentencesConserveText` | backend/app/modules/moderation/runner.py:937-974 | however a reply is cut into deltas, the sentences together hold the whole reply, label-stripped once, leaving aside whitespace |
| `Chunker.DeltaBoundariesDoNotMatter` | backend/app/modules/moderation/runner.py:937-961 | two ways of cutting one reply give sentences with the same content |
| `Chunker.SentencesComeOneAtATime` | backend/app/modules/moderation/runner.py:937-961 | no yielded piece holds more than one sentence |
| `Chunker.CutsAreRight` | backend/app/modules/moderation/runner.py:937-961 | the reply falls into pieces and a rest, in order and without loss; each piece is one sentence, cut after a terminator that a space or the end of what had come in follows, or after a comma beyond the fortieth character of a clause of more than 140; and what is said is the pieces stripped, the first without its label, blank ones left out |
| `Chunker.FlushedExactly` | backend/app/modules/moderation/runner.py:952-959 | a clause is flushed if and only if more than 140 characters wait with a comma beyond the fortieth, and then up to the last such comma |
| `Chunker.NothingLongWaits` | backend/app/modules/moderation/runner.py:952-959 | after every delta, nothing that could have been flushed is waiting |
| `Chunker.LabelExactly` | backend/app/modules/moderation/runner.py:964-974 | a label is found if and only if the text starts with spaces, the nine letters in either case, spaces, and one of four dashes; it reaches over the spaces that follow |
| `Text.StripExactly` | backend/app/modules/moderation/runner.py:937-989 | stripping takes exactly the spaces at the two ends |
| `Chunker.ChunkSentences` | backend/app/modules/moderation/runner.py:937-961 | the loops over the growing buffer yield exactly those sentences, and end |
| `Chunker.SentencesOf` | backend/app/modules/moderation/runner.py:981-989 | fixed text is cut into the pieces described next, and the pieces are stripped, blank ones left out |
| `Chunker.PiecesAreRight` | backend/app/modules/moderation/runner.py:981-989 | nothing is lost; every piece is one sentence; all but the last end with a terminator followed by a space or the end, and the last does not |
| `Chunker.LabelAgrees` | backend/app/modules/moderation/runner.py:970-974 | whether a speaker label is present is decided by the text up to the first stop |
| `Privacy.FindPersonalInformation` | backend/app/domain/privacy.py:141-160 | the loop keeps exactly the spans of the sorted matches that start beyond the last kept one |
| `Privacy.KeptAreMatches` | backend/app/domain/privacy.py:141-160 | kept spans are sorted, apart, in bounds, and each is an actual match |
| `Privacy.KeptIsLongest` | backend/app/domain/privacy.py:154-160 | a kept span is the longest match at its start |
| `Privacy.MatchStartsInKept` | backend/app/domain/privacy.py:154-160 | every match starts inside a kept span |
| `Privacy.TailsCanSurvive` | backend/app/domain/privacy.py:154-160 | a concrete pair of overlapping matches whose tail stays readable |
| `Privacy.CoversAllExactly` | backend/app/domain/privacy.py:154-160 | every match is covered to its end if and only if every overlapping pair that sticks out is held inside a single match |
| `Privacy.Redact` | backend/app/domain/privacy.py:167-185 | the text outside the kept spans, each stretch at its place, with the marker where each span was, and of exactly that length |
| `Privacy.RedactedIsRedaction` | backend/app/domain/privacy.py:167-185 | where each plain stretch and each marker stands: the offsets are the text's, less the spans before, plus nine for each |
| `Privacy.NothingRemovedIsLeft` | backend/app/domain/privacy.py:167-185 | two texts of one length that agree outside the kept spans are redacted to one string |
| `Privacy.RestoringGivesBack` | backend/app/domain/privacy.py:167-185 | putting the originals back gives the input |
| `Privacy.KindsIn` | backend/app/domain/privacy.py:188-195 | the kinds of the kept spans, once each, every one before those that first appear after it |
| `Invitations.InvitationService.Issue` | backend/app/modules/invitation/service.py:71-133 | one pending invitation, with the next attempt number, for each person without one open, in order |
| `Invitations.InvitationService.LoadOpen` | backend/app/modules/invitation/service.py:143-174 | only the invitee may answer, only while pending, only in time |
| `Invitations.InvitationService.RevokeAll` | backend/app/modules/invitation/repository.py:94-104 | the loop leaves no pending row in the classroom, marks exactly those that were revoked, changes no other row, and returns how many there were |
| `Invitations.InvitationService.Mark` | backend/app/modules/invitation/service.py:176-183 | one row's status changes |
| `Rooms.FreeSeatFrom` | backend/app/modules/classroom/repository.py:97-109 | a free number up to four if there is one, and none only when all are taken |
| `Rooms.ClassroomService.TakeSeat` | backend/app/modules/classroom/service.py:155-176 | seating is idempotent, takes a free number, and fails only when all four are taken |
| `Rooms.ClassroomService.Transition` | backend/app/modules/classroom/service.py:152-153 | the status moves as the whole table says or the request raises |
| `Rooms.FinalIsForGood` | backend/app/domain/state_machines.py:60-88 | no run of events leaves a completed, cancelled or expired status, and every other status can be left |
| `Rooms.WaysInto` | backend/app/domain/state_machines.py:60-88 | each status is entered in the listed ways and in no other |
| `Discussions.SessionService.Provision` | backend/app/modules/session/service.py:46-111 | one session per classroom with a place for everyone seated, refused when finished or when somebody is busy |
| `Discussions.SessionService.Abort` | backend/app/modules/session/service.py:160-178 | a session not yet over is aborted and the loop frees everyone in it |
| `Discussions.SessionService.MarkStatus` | backend/app/application/session_gateway.py:105-144 | the status is written unconditionally, and a terminal one frees everyone |
| `Discussions.SessionService.FlushTranscript` | backend/app/application/session_gateway.py:176-188 | everyone the ledger knows gives their place back |
| `Discussions.SessionService.CompleteClassroom` | backend/app/application/session_gateway.py:221-229 | the classroom's status is set without asking the table |
| `Enrollment.EnrollmentService.CreateClassroom` | backend/app/application/enrollment.py:65-98 | two to four distinct people who are not the host are invited in one transaction, or nothing happens |
| `Enrollment.EnrollmentService.InviteMore` | backend/app/application/enrollment.py:100-122 | only while open and only into free seats, or nothing happens |
| `Enrollment.EnrollmentService.Resend` | backend/app/application/enrollment.py:124-146 | the old invitation is closed and one to the same address issued, or nothing happens |
| `Enrollment.EnrollmentService.CleanEmails` | backend/app/application/enrollment.py:197-210 | refused exactly when the host is named; otherwise tidied addresses without blanks and repeats, and everybody else who was named |
| `Enrollment.CleaningAddsToTheEnd` | backend/app/application/enrollment.py:197-210 | in the order in which they were first named |
| `Enrollment.EnrollmentService.Respond` | backend/app/application/enrollment.py:217-275 | accept or decline as a whole, or nothing happens, even when the invitation has just run out |
| `Enrollment.EnrollmentService.MaybeReachQuorum` | backend/app/application/enrollment.py:277-307 | waits, or moves the classroom on, closes what is open and provisions |
| `Enrollment.EnrollmentService.Start` | backend/app/application/enrollment.py:351-381 | starts with whoever accepted, or nothing happens |
| `Enrollment.EnrollmentService.Cancel` | backend/app/application/enrollment.py:383-389 | closes the classroom, its invitations and its session, or nothing happens |
| `EnrollmentEffects.DecliningExactly` | backend/app/application/enrollment.py:244-263 | declining succeeds if and only if it is the invitee's, pending, in time and the classroom is open; then exactly that row is rejected, one person fewer is deciding, one seat fewer is held, and every later answer to it is refused |
| `EnrollmentEffects.RefusalsExactly` | backend/app/application/enrollment.py:217-275 | why an answer is refused, the first reason that applies |
| `EnrollmentEffects.AcceptingExactly` | backend/app/application/enrollment.py:244-307 | what accepting does to every table: the row, the seat, and, when that completes the room, its status, the other invitations and the session with its places; or which error it raises |
| `EnrollmentEffects.SeatingExactly` | backend/app/modules/classroom/service.py:155-176 | whoever is not yet seated gets the lowest free number of the four, and is refused only when there is none |
| `EnrollmentEffects.IssuingExactly` | backend/app/modules/invitation/service.py:71-133 | each person without an open invitation gets exactly one, pending, with the attempt after their last; no row that was there changes |
| `EnrollmentEffects.ProvisioningExactly` | backend/app/modules/session/service.py:46-111 | provisioning succeeds if and only if the session there is is not over, or there is none and everybody seated is free; a new session has each of their seats as a place |
| `EnrollmentEffects.CreatingExactly` | backend/app/application/enrollment.py:65-98 | a classroom is made if and only if the host does not name themselves, names two to four different known people, and may host; what the new rows are |
| `EnrollmentEffects.InvitingMoreExactly` | backend/app/application/enrollment.py:100-122 | when more people are invited, and which rows that adds |
| `EnrollmentEffects.ResendingExactly` | backend/app/application/enrollment.py:124-146 | the one row is revoked and one more is issued to whoever has its address now |
| `EnrollmentEffects.StartingExactly` | backend/app/application/enrollment.py:351-381 | when starting succeeds, what becomes of the classroom's status, of open invitations, and of the session |
| `EnrollmentEffects.CancellingExactly` | backend/app/application/enrollment.py:383-389 | the host may cancel exactly before the discussion is live; nobody is asked any more, and a waiting session is aborted with everybody free |
| `EnrollmentEffects.InvitingRefusals` | backend/app/application/enrollment.py:65-122 | which error a refused creation or further invitation raises, the first reason that applies |
| `EnrollmentEffects.HostsRefusals` | backend/app/application/enrollment.py:124-389 | and which a refused re-send, start or cancellation does |
| `EnrollmentEffects.SweepingInvitationsExactly` | backend/app/workers/janitor.py:90-105 | of the batch, exactly the pending invitations past their time are marked |
| `EnrollmentEffects.SweepingClassroomsExactly` | backend/app/workers/janitor.py:107-112 | of the batch, exactly the classrooms the table lets time out are |
| `EnrollmentEffects.AbortingExactly` | backend/app/modules/session/service.py:160-178 | a session that is not over is aborted and everybody in it is free; anything else is left alone |
| `EnrollmentEffects.MarkingExactly` | backend/app/application/session_gateway.py:105-144 | one session's status is written, and a terminal one frees everybody in it |
| `EnrollmentEffects.FlushingExactly` | backend/app/application/session_gateway.py:176-188 | exactly the listed people's places in the session are given back |
| `EnrollmentEffects.CompletingExactly` | backend/app/application/session_gateway.py:221-229 | exactly one classroom's status is written |
| `EnrollmentSafety.EveryHistoryIsSound` | backend/app/application/enrollment.py:65-389 | after any serial history of requests, sweeps and late writes: seats and acceptances pair off, at most one invitation per person is open or accepted, seat numbers are distinct and 1 to 4, nobody holds two places, finished discussions hold nobody, and places come from seats |
| `EnrollmentSafety.CommittingKeeps` | backend/app/application/enrollment.py:65-389 | each single request keeps all of that, raising or not |
| `EnrollmentSafety.AcceptingKeeps` | backend/app/application/enrollment.py:265-267 | an open invitation becomes one acceptance and one seat together |
| `EnrollmentSafety.NewSession` | backend/app/modules/session/service.py:57-86 | provisioning gives nobody a second place and nobody unseated a first one |
| `EnrollmentSafety.LeavingKeeps` | backend/app/application/session_gateway.py:113-188 | giving places back, in any order and more than once, breaks nothing |
| `EnrollmentSafety.NeverMoreThanFour` | backend/app/modules/classroom/repository.py:97-120 | a classroom never seats more than four |
| `EnrollmentSafety.ResendingHolds` | backend/app/application/enrollment.py:124-146 | re-sending a pending invitation holds as many seats as before, re-sending an expired one holds one more, unchecked |
| `EnrollmentSafety.InvitingMoreFits` | backend/app/application/enrollment.py:100-122 | inviting more never holds more seats than there are |
| `EnrollmentSafety.AcceptanceOpensExactly` | backend/app/application/enrollment.py:277-307 | an acceptance opens the room if and only if two are seated and nobody else is deciding, or the last seat is taken; the open room's session has a place for exactly everyone seated |
| `EnrollmentSafety.StartSucceedsExactly` | backend/app/application/enrollment.py:351-381 | starting succeeds if and only if the host asks, two are seated, and a session exists or everyone seated is free; the classroom's status is not asked |
| `EnrollmentLimits.HeldSeatsFitExactly` | backend/app/application/enrollment.py:65-389 | for every request, sweep and late write: with at most four seats held before, at most four are held after, if and only if it is not a successful re-send of a timed-out invitation with all four held |
| `EnrollmentLimits.EveryHistoryFitsExactly` | backend/app/application/enrollment.py:65-389 | so over whole histories at most four are held throughout if and only if none of the requests is such a re-send |
| `EnrollmentLimits.ResendSucceedsExactly` | backend/app/application/enrollment.py:124-146 | a re-send succeeds if and only if the host asks, the invitation is this classroom's and unanswered, and its address belongs to somebody who holds no other |
| `EnrollmentLimits.FiveSeatsHeld` | backend/app/application/enrollment.py:124-146 | a history of four requests after which five seats of four are held |
| `EnrollmentLimits.ClosedStaysClosedExactly` | backend/app/application/enrollment.py:351-381 | for every request, sweep and late write: somebody is given a place in a cancelled, expired or completed classroom if and only if its host starts it with two people seated, all free, and no session yet |
| `EnrollmentLimits.CancelledIsStarted` | backend/app/application/enrollment.py:351-389 | a history in which the host cancels and then starts, and both seated people have a place in a new session |
| `EnrollmentLimits.FinalIsLeftExactly` | backend/app/application/session_gateway.py:221-229 | for every request, sweep and late write: a classroom leaves a final status if and only if the runner reports that its session was aborted |

## Left out

- Event payloads, heartbeats, tickets and back-off delays: they carry no state of the protocol.
- Events of a topic that is dropped in mid-connection: until the next connection only order and uniqueness are claimed for
  it.
- The numberless notice made up when a topic is dropped: it passes the client's cursor by, and is not counted among what was handled.
- `Reconnection.HandledExactly`: assumes no topic was dropped, because a dropped ring forgets how far it reached.
- Resampling, synthesis, transcription, WebRTC and the clip cache: input and output.
- `VoicePlane.Plane.GrantFloor`: whether the provider opens a stream is a parameter.
- The ledger's file, its display strings and its report, and the split of tokens into prompt and completion.
- `Router.LimitsHold`: leaves out the manual reset of counters, which lets a rung serve again on the same day by design.
- `Router.ChainRouter.Walk`: the answer's text and the parsing of structured replies are not modelled, only which rung answers.
- Speaking deadlines and timer lengths: timers are armed, cancelled and fired, in any order of firing.
- Prompts, assessments as text, the wording of the rolling summary and everything the runner publishes.
- `RunnerProgress.NeverStalls`: assumes commands are not dropped from a full queue and that handlers do not raise.
- Patterns for contact details: the matches are arbitrary spans, and the question whether an answer holds any is an arbitrary predicate on text.
- `Chunker.SentencesConserveText`: whitespace is left aside, because stripping is what the chunker does.
- Accounts, roles, topics, tokens and mail: who an address belongs to, and whether somebody may host, are parameters.
- `Invitations.InvitationService.Issue`: reads rows added earlier in the same loop, which the program may not yet see; the people are distinct, so nothing depends on it.
- Concurrent transactions, database constraints and retention sweeps: requests are serial, and nothing relies on a constraint to refuse a row.
- Queue order between commands: the progress result lets the queue hand over commands in any order, which includes the order of arrival.
