# DanceSync, modelled and verified in Dafny

This project models the decisions of DanceSync's battle-service and the match
history of users-service, and proves what they promise. To verify it:

    dafny verify dfyconfig.toml

## What is modelled

**A room** goes from the lobby through a battle to its result and back
(`Domain`, `Text`, `RoomService`, `SongSelecting`, `BattleStart`). Inside the lobby runs
the song selection: a phrase is typed, somebody wins the right to choose, a
song is chosen. Every decision is a function from a room to an outcome: the
same room, a new room, no room, or an error. `RoomEvents` lists the sixteen
kinds of update the use cases hand to the store, and `RoomInvariant` proves one
invariant over all of them, for every run from a newly created room: seats,
names, the battle with its redundant lists, and the selection. On it rest
`BattleRun` (ends are reported exactly once, no vote is lost, tables agree),
`VoteRecord` (every vote ever stored was accepted inside the song), `BattleNames` (tables
bear the names of the start), `Departures` (what a departure touches and what not) and
`SelectionProgress` (a challenge ends). `UseCaseRules` says who may do what and which rule
a refusal names. `SampleRun` leads, update by update, from
any new room to a running and a finished battle, to the next one, and to the rooms in which a
promise of the documentation fails.

**Scoring** (`Scoring`) is declared by what it means, and the loops of the
service are proved to compute it.

**The store** (`RoomStore`, `OptimisticUpdates`, `StoredRuns`, `RoomUseCases`) exists in two
forms. The in-memory store does an update in one step. The remote store reads,
decides, compares versions, sets, and retries, each attempt with its own clock
and draws. Any number of its clients in any interleaving are proved to be served
as if one at a time, in the order in which they took effect, exactly as long as every
write is honest, with bounded retries; the room it holds is a run of the domain, and
the end of a battle is reported by one caller.

**The word race** (`WordPlan`, `PlanMargins`, `WordRounds`, `WordSubmission`, `WordBonuses`,
`WordAnnouncements`, `WordUseCases`) is planned from random draws, moves by
compare-and-set, and is answered by submissions that read first and claim later and pay
their bonus into the room. Each race is followed among everything else that can happen
meanwhile: the room goes on living and may start other battles, be deleted and made
again, other races may be stored in place of this one, and their bonuses are paid into
the same room. Outcomes, wins, payments, the words in the battle's table and
announcements are counted against each other over every interleaving.

**The match document** (`MatchDocument`, `MatchHistory`, `ResultsTable`, `MatchStorage`)
leaves a finished room, is made canonical by users-service, winner first, stored as a row with an
unordered collection of participants, and read back equal.

**Deadlines** (`Deadlines`, `DeadlineMeaning`, `EarlyLife`, `TimerSafety`) are re-armed whenever a room is
published; what is pending follows the newest version, whatever the order of
publishing. Over every interleaving of updates, publications (late ones, those of a
rejoin and of the sweep too), timers and deletions, with rooms created one after
another under the same code, it is proved exactly when a deadline of the stored
room can be left without a timer.

`Sequences` holds the facts about filtering, permuting and sorting that these
share.

## Conventions

Moments are whole milliseconds. `random(k)` is a draw modulo k, for a draw that
is any natural number; ids that the service generates are parameters, and taken to be
different from each other where a result says so. Text is
a sequence of UTF-16 code units; lower-casing is any character-wise map that
leaves digits and the space alone, upper-casing is that of ASCII letters. A
`Record` or `Map` is a finite map. An error a caller sees is a value.

## What the code does differently from its documentation

- The repository's `README.md:294` says every room timer re-checks its deadline on the stored
  state. The timer of the phrase does not: `PhraseCanTimeOutEarly` gives the runs
  and `TimersLookAgain` the exact difference to the other two timers;
  `EarlyTimeoutIsReachable` leads there from any new room.
- `battle-service/src/infrastructure/scheduling/WordRaceScheduler.ts:10` says the
  end of a round is announced exactly once. It is not announced when no race is stored
  at the second read of the expiry that ended it, that is, when the race was deleted after
  the expiry and no other race stored between the last deletion and that read, and in no
  other case: `AnnouncedUnlessDeleted` says this of the actions of every run. When another race
  is stored by then, the round is announced with the tally of that race.
  `ExpiryCanGoUnannounced` gives a run of each kind.
- The repository's `README.md:279` says a win that arrives after the battle finished is ignored. A bonus
  names a room and no battle (`battle-service/src/application/usecases/AwardWordBonus.ts:20-22`),
  so one that is paid after a rematch counts in the battle that runs then.
  `BonusCountsInItsBattle` is an if-and-only-if over every run: an accepted bonus counts in
  the battle its round belongs to exactly when no rematch was accepted before it is paid,
  and the room not deleted and made again. `LateBonusCountsInTheNextBattle` gives the run,
  from any new room. What a table holds in the end is said by `WordsAreThisBattlesBonuses`:
  the bonuses accepted since that battle began, those of a given race and those of other
  races; the former are never more than the rounds of that race won.
- `battle-service/src/application/usecases/SubmitWord.ts:16` says a winner is
  shown the updated race. It is the race stored at the read after the claim: when the race
  was replaced since, that of the other battle, and when there is none, the one read
  before the claim. The contract of `SubmitWord.Claim` says exactly when.
- A race plan with neither a window nor a distance, on a song whose usable part is
  a single moment, plans nothing although a round would fit:
  `PlanUsesTheWholeSong` is an if-and-only-if. The deployed service always has a window:
  `battle-service/src/config/env.ts:58` refuses any other.
- `battle-service/src/infrastructure/ws/socketHandlers.ts:154-156` says a deadline can
  never be left without a timer. Versions armed for a code are not forgotten for good:
  a publication that comes after the deletion arms them again, and a later room under
  the code starts below them and is ignored. `NothingMissedExactlyWhenClean` is an
  if-and-only-if over everything that can happen to a room: no deadline of it is
  missed exactly when, at its creation, no version above the sixth is armed under its
  code, no publication of an earlier room's sixth or later version is outstanding, and
  no deletion still has timers to forget. (No room has a deadline before its sixth
  version: `EarlyStep`.) `ReusedCodeCanMissADeadline` gives a run of the service,
  from nothing, that misses one. Automatic picks are taken to have sound battle
  timing, which the configuration the service loads always gives
  (`battle-service/src/config/env.ts:54-69`).
- After a departure nobody may be left who can type the phrase:
  `DepartureCanStrandTheChallenge` says exactly when, and
  `StrandedChallengeIsReachable` leads there from any new room.
- A room code used again while an update of the deleted room is under way
  defeats the version check: `ReusedCodeBringsARoomBack` gives a run with rooms as
  the service creates them and two of its updates. `SerializableExactlyWhenHonest` is an
  if-and-only-if over every run, rooms deleted and inserted again included: the store
  serves its clients as if one at a time, in the order in which they took effect, exactly when every write that the version
  check lets through meets a row on which its decision comes to the same.
  Without codes reused under way every write does (`OrderlyIsHonest`).

## Main results

- Every update by every caller keeps one invariant: `RoomInvariant.MutateKeeps`, `ReachableInv`.
- A stored vote is the last accepted choice of a voter still in, and was accepted inside
  the song: `BattleRun.VoteIsLastChoice`, `VoteRecord.EveryStoredVoteWasInTime`.
- Every end of a battle is reported by exactly one update, also among callers that race:
  `BattleRun.EndsAreConserved`, `StoredRuns.CallersReportEachEndOnce`.
- The scoring loops compute the ranking as declared, under the names of the start:
  `Scoring.RankDancers`, `TopRank`, `WinnerBeatsAll`, `BattleNames.TablesBearTheNamesOfTheStart`.
- A challenge ends, and whoever gets the turn is entitled to it and has the full time; a
  departure touches the selection only if the chooser leaves:
  `SelectionProgress.ChallengeTerminates`, `ChooserIsEntitled`, `ChooserGetsFullTime`,
  `Departures.DepartureAndTheSelection`.
- The remote store serves as if one at a time, in the order of the effects, if and only if every write is honest, with
  bounded retries: `OptimisticUpdates.SerializableExactlyWhenHonest`, `RetriesAreBounded`.
- Timers go off at the moment from which their use cases act, and no deadline of a room is
  missed if and only if it is created clean: `DeadlineMeaning.EndTimerMeaning`,
  `ChooseTimerMeaning`, `TimerSafety.NothingMissedExactlyWhenClean`.
- Word rounds end once and outcomes are true; in which battle a bonus counts, what a table
  holds, and who hears of an end is known exactly: `WordRounds.EndsOnce`,
  `WordSubmission.OutcomesAreTruthful`, `WordBonuses.BonusCountsInItsBattle`,
  `WordsAreThisBattlesBonuses`, `WordAnnouncements.AnnouncedUnlessDeleted`.
- The rounds of a race lie between the margins of the song, as many as that part holds, and
  every such plan is drawn: `PlanMargins.RoundsLieBetweenTheMargins`, `PlanUsesTheWholeSong`,
  `EveryPlanIsDrawn`.
- A finished battle reaches the match table, in the order of results with the winner first,
  and comes back the same: `ResultsTable.AcceptedIsInOrder`, `WinnerComesFirst`,
  `MatchDocument.ReachableBattleIsRecorded`.

## Model

| member | source | states |
|---|---|---|
| Text.UniqueName | battle-service/src/domain/services/RoomService.ts:79-88 | the name differs, ignoring case, from every name taken, and is the one asked for when that is free |
| Text.TakenNamesAreNumbered | battle-service/src/domain/services/RoomService.ts:80-87 | a taken name becomes as much of it as fits, a space, and the numeral of the smallest number from 2 on that makes a name nobody uses |
| Text.DigitsAreTheNumeral | battle-service/src/domain/services/RoomService.ts:83 | the digits written for a number read back as that number, without leading zeros |
| Text.TrimCutsSpace | battle-service/src/domain/services/RoomService.ts:66 | trimming cuts white space off both ends and nothing else |
| Text.TrimOfPadded | battle-service/src/domain/services/RoomService.ts:66 | whatever white space is put around a trimmed text comes off again |
| Text.UniqueDisplayName | battle-service/src/domain/services/RoomService.ts:79-88 | the loop returns the unique name after at most the number of names + 1 candidates |
| RoomService.Create | battle-service/src/domain/services/RoomService.ts:101-117 | a room is made exactly for a valid id and name: an empty lobby at version 0 whose only seat, undecided and not ready, is the host under the trimmed name |
| RoomService.Join | battle-service/src/domain/services/RoomService.ts:119-137 | joining succeeds exactly in the lobby, for a new valid player, below seven players, and appends one seat |
| RoomService.JoinSeatsLast | battle-service/src/domain/services/RoomService.ts:129-136 | the new player sits last, undecided and not ready, under a name nobody uses in any case: their own if free, else numbered with the smallest number that is |
| RoomService.SelectRole | battle-service/src/domain/services/RoomService.ts:140-157 | accepted exactly in the lobby from a seated player; only that player's role moves and the spectators follow |
| RoomService.SetReady | battle-service/src/domain/services/RoomService.ts:164-181 | accepted exactly in the lobby from a seated player; only that player's flag moves |
| RoomService.Leave | battle-service/src/domain/services/RoomService.ts:192-210 | exactly a seated player can leave, exactly they are taken out of every list, a leaving host hands over to the first player left, and nothing else moves outside a battle and the leaver's own turn |
| Departures.DepartureAndTheSelection | battle-service/src/domain/services/SongSelectionService.ts:210-219 | over every departure and kick: unless the chooser of a song leaves, the selection stays as it is; if they do, it is cancelled exactly when no other participant is in the room, and else only chooser, reason and deadline move |
| Departures.AnyOtherCanBeNext | battle-service/src/domain/services/SongSelectionService.ts:240-255 | every other participant in the room who did not fail, or any when all failed, is the next chooser for some draw |
| Departures.DepartureAndTheBattle | battle-service/src/domain/services/RoomService.ts:451-463 | a dancer, the votes of and for the leaver go, and the battle ends at once exactly when fewer than two dancers are left; nothing else of it moves |
| RoomService.Kick | battle-service/src/domain/services/RoomService.ts:218-232 | accepted exactly from the host, in the lobby, for another seated player; it is then a departure |
| RoomService.StartBattle | battle-service/src/domain/services/RoomService.ts:241-322 | a battle starts exactly when all rules allow it, with exactly the selected dancers |
| BattleStart.BattleStartsExactly | battle-service/src/domain/services/RoomService.ts:241-291 | a battle starts exactly in the lobby with a chosen song, everyone ready, and at least two different selected players of the room |
| BattleStart.StartCastsEveryone | battle-service/src/domain/services/RoomService.ts:269-321 | the start casts every player exactly once under their name, freezes points and song, lasts exactly the song, and keeps host, selection and everything else of the room |
| RoomService.AwardWordBonus | battle-service/src/domain/services/RoomService.ts:329-341 | accepted exactly for a dancer of the running battle; exactly that dancer has one word more |
| RoomService.CastVote | battle-service/src/domain/services/RoomService.ts:352-383 | accepted exactly from a spectator, in time, for a dancer still in; the vote becomes the choice and no other vote moves; the same room when nothing changes |
| RoomService.Rematch | battle-service/src/domain/services/RoomService.ts:424-443 | accepted exactly from the host of a finished room; back to the lobby with the result kept |
| SongSelecting.Start | battle-service/src/domain/services/SongSelectionService.ts:47-99 | a challenge starts exactly when allowed, for every dancer, nobody failed, with a phrase of the list other than the last one shown when there is a choice |
| SongSelecting.ChallengeStartsExactly | battle-service/src/domain/services/SongSelectionService.ts:47-99 | a challenge starts exactly in an idle lobby with everyone ready, two dancers, and a phrase that may be shown |
| SongSelecting.EveryPhraseCanBeShown | battle-service/src/domain/services/SongSelectionService.ts:70-90 | each phrase of the list but the last one shown, if there are others, is shown for some draw |
| SongSelecting.Submit | battle-service/src/domain/services/SongSelectionService.ts:106-151 | who may type, and what each attempt leads to: timeout, choice, one failure, or the fallback when everyone present failed |
| SongSelecting.Choose | battle-service/src/domain/services/SongSelectionService.ts:168-181 | exactly the chooser picks one of the options, and it becomes the selected song |
| SongSelecting.AutoPick | battle-service/src/domain/services/SongSelectionService.ts:191-204 | picks one of the options exactly when due, or cancels when there are none |
| SongSelecting.EveryOptionCanBePicked | battle-service/src/domain/services/SongSelectionService.ts:191-204 | every song on offer is picked for some draw |
| SongSelecting.FallbackChooser | battle-service/src/domain/services/SongSelectionService.ts:240-255 | the turn passes to a present participant, to one who failed only if every present one did; cancelled exactly when nobody is left |
| SongSelecting.EveryoneEntitledCanBeChosen | battle-service/src/domain/services/SongSelectionService.ts:240-255 | every participant entitled to the turn gets it for some draw |
| SelectionProgress.StepAdvances | battle-service/src/domain/services/SongSelectionService.ts:106-219 | every change of a running selection uses up a measure that no update increases |
| SelectionProgress.ChallengeTerminates | battle-service/src/domain/services/SongSelectionService.ts:106-255 | a challenge with n participants changes at most 2n times before it is done or cancelled, if nobody who left rejoins |
| SelectionProgress.ChooserIsEntitled | battle-service/src/domain/services/SongSelectionService.ts:240-255 | whoever any update makes the chooser is a present participant, and failed only if every present participant did |
| SelectionProgress.ChooserGetsFullTime | battle-service/src/domain/services/SongSelectionService.ts:257-266 | whoever a phrase, an expiry or a departure hands the turn to has the whole choosing time from that update on; no other update moves the deadline of a turn |
| SelectionProgress.TimersLookAgain | battle-service/src/domain/services/SongSelectionService.ts:157-195 | the chooser and battle timers change nothing before their deadline; the phrase timer does not look at it |
| SelectionProgress.PhraseCanTimeOutEarly | battle-service/src/domain/services/SongSelectionService.ts:157-166 | an expiry before the deadline names a chooser for a timeout |
| SampleRun.EarlyTimeoutIsReachable | battle-service/src/domain/services/SongSelectionService.ts:157-166 | from every new room, updates lead to a phrase whose expiry is accepted before its deadline |
| SelectionProgress.DepartureCanStrandTheChallenge | battle-service/src/domain/services/SongSelectionService.ts:210-219 | after a departure while typing somebody can still type exactly if another present participant has not failed |
| SampleRun.StrandedChallengeIsReachable | battle-service/src/domain/services/SongSelectionService.ts:210-219 | from every new room, updates lead to a phrase that nobody present can type any more |
| RoomEvents.StartIfPossible | battle-service/src/application/usecases/ChooseSong.ts:86-94 | the chosen song starts the battle in the same change exactly if a start is allowed, else the choice is kept; only a range error escapes |
| UseCaseRules.OnlyTheHost | battle-service/src/application/usecases/StartBattle.ts:24-31 | starting a battle or a challenge, kicking and a rematch are refused as not the host exactly for anybody else, before any other rule |
| UseCaseRules.JoiningRules | battle-service/src/application/usecases/JoinRoom.ts:36-46 | a valid stranger joins a lobby with a seat left; a valid seated player stays seated whatever the room is doing |
| UseCaseRules.DeletedWhenEmpty | battle-service/src/application/usecases/JoinRoom.ts:48-65 | a room is deleted exactly by its last player leaving or when found empty |
| UseCaseRules.StartRefusals | battle-service/src/domain/services/RoomService.ts:246-291 | which rule of a start a refusal names, over all rooms |
| UseCaseRules.BattleRefusals | battle-service/src/domain/services/RoomService.ts:329-383 | which rule a refused word bonus, vote or rematch names |
| UseCaseRules.ChallengeRefusals | battle-service/src/domain/services/SongSelectionService.ts:47-75 | which rule a refused challenge names |
| UseCaseRules.PhraseRefusals | battle-service/src/domain/services/SongSelectionService.ts:106-181 | which rule a refused phrase or song choice names |
| RoomInvariant.CreateEstablishes | battle-service/src/domain/services/RoomService.ts:101-117 | a new room satisfies the invariant at version 0 |
| RoomInvariant.MutateKeeps | battle-service/src/domain/services/RoomService.ts:119-443 | each of the sixteen kinds of update keeps the invariant over seats, names, battle and song selection |
| RoomInvariant.ReachableInv | battle-service/src/domain/services/RoomService.ts:101-443 | the invariant holds of every room that can be reached from a new one |
| SampleRun.BattlesAreReachable | battle-service/src/domain/services/RoomService.ts:101-416 | rooms with a running and with a finished battle are reachable, so what is proved of them is proved of something |
| RoomInvariant.BattlePartitionsPlayers | battle-service/src/domain/services/RoomService.ts:289-294 | while a battle runs, dancers and spectators split the players, and all dancer lists agree |
| BattleRun.RunningStep | battle-service/src/domain/services/RoomService.ts:192-416 | an update of a running battle leads to the same battle, running or finished, and moves people and votes only by an accepted departure or vote |
| BattleRun.ReportedExactlyWhenFinished | battle-service/src/application/usecases/JoinRoom.ts:48-65 | an end is reported exactly when the stored status moves from battling to finished |
| BattleRun.ReportedEndIsRecorded | battle-service/src/domain/services/RoomService.ts:394-416 | a reported end records its moment and reason: the song over, never early, or too few dancers left |
| BattleRun.DeletionEndsNoBattle | battle-service/src/infrastructure/ws/socketHandlers.ts:264-279 | the departure that deletes a room never ends a battle, so announcing a deleted room drops no finish |
| BattleRun.EndsAreConserved | battle-service/src/application/usecases/FinishBattleAtDeadline.ts:28-44 | over any run the reported ends of a battle plus its running now equal its starts plus its running before |
| BattleRun.LastDancerStanding | battle-service/src/domain/services/RoomService.ts:460-462 | an end for lack of dancers leaves exactly one dancer, who wins |
| BattleRun.VoteIsLastChoice | battle-service/src/domain/services/RoomService.ts:352-383 | in every interleaving a running battle holds, for each voter, the last accepted choice if voter and dancer are still in, else nothing |
| BattleRun.MergeOrderIsIrrelevant | battle-service/src/application/usecases/CastVote.ts:34-44 | merges with the same choices of each voter and the same people left hold the same votes and totals |
| VoteRecord.EveryStoredVoteWasInTime | battle-service/src/domain/services/RoomService.ts:352-383 | in every room made of a new one by any updates, each vote stored, running or frozen, was accepted from that voter for that dancer of that battle inside its song |
| BattleRun.FinishedStep | battle-service/src/domain/services/RoomService.ts:329-443 | nothing but a rematch by the host touches a finished battle |
| BattleRun.LastResultPersists | battle-service/src/domain/services/RoomService.ts:390-443 | the last result changes only by a reported finish |
| BattleRun.FinalTableIsFinal | battle-service/src/domain/services/RoomService.ts:394-416 | until a rematch the stored result equals scoring the frozen battle and the last result, whatever happens |
| BattleRun.SentTableIsFresh | battle-service/src/infrastructure/serialization/roomDto.ts:68-79 | the table sent equals fresh scoring in every state, its totals are the stored votes and count each vote once, and no vote is disclosed |
| Scoring.StandingsDescribeDancers | battle-service/src/domain/services/ScoringService.ts:28-53 | the table lists exactly the dancers still in, with their votes, words, score and rank, never rising in score |
| Scoring.StandingsNameDancers | battle-service/src/domain/services/ScoringService.ts:30-38 | each line bears the name its dancer has in the roster |
| BattleNames.TablesBearTheNamesOfTheStart | battle-service/src/domain/services/RoomService.ts:289-300 | in every room updates make of a new one, each line of the table, live or frozen, bears the name its dancer had in the room when that battle started |
| Scoring.StandingsPermuteDancers | battle-service/src/domain/services/ScoringService.ts:46-53 | a permutation of the dancers with ties in dancer order |
| Scoring.TopRank | battle-service/src/domain/services/ScoringService.ts:47-52 | rank 1 is exactly "nobody scores more" |
| Scoring.WinnerBeatsAll | battle-service/src/domain/services/ScoringService.ts:56-60 | the winner is exactly the dancer strictly above all others; none otherwise |
| Scoring.EveryVoteCounted | battle-service/src/domain/services/ScoringService.ts:15-21 | when all votes are for dancers still in, the table counts every vote once |
| Scoring.VoteCounts | battle-service/src/domain/services/ScoringService.ts:15-21 | the counting loop gives each dancer the number of their votes |
| Scoring.RankDancers | battle-service/src/domain/services/ScoringService.ts:28-53 | the loop that looks only at the row above computes the ranking by strictly higher scores |
| Scoring.Result | battle-service/src/domain/services/ScoringService.ts:56-60 | the result computed is the declared one |
| RoomStore.InMemoryRoomRepository.Insert | battle-service/src/infrastructure/persistence/InMemoryRoomRepository.ts:29-33 | stored exactly when the code is free, otherwise nothing changes |
| RoomStore.InMemoryRoomRepository.Update | battle-service/src/infrastructure/persistence/InMemoryRoomRepository.ts:35-57 | one atomic update of one room; a mutation that answers with another version is refused and writes nothing |
| RoomStore.RemoteRoomStore.CompareAndSet | battle-service/test/room.concurrency.test.ts:101-108 | writes exactly when the row has the expected version |
| RoomStore.RemoteRoomStore.Attempt | battle-service/test/room.concurrency.test.ts:87-95 | one attempt under interference is one atomic update, or leaves the row to the others |
| RoomStore.RemoteRoomStore.Update | battle-service/test/room.concurrency.test.ts:86-98 | the retried update takes effect exactly as one atomic update after what rivals did before it, or not at all when it gives up; conflicts count the lost attempts |
| OptimisticUpdates.UpdatesAreSerializable | battle-service/src/domain/ports/RoomRepository.ts:45-62 | for any interleaving of any number of clients the row and all replies are those of the atomic store serving them one at a time, in the order in which they took effect |
| OptimisticUpdates.WriteSerializableExactlyWhenHonest | battle-service/src/infrastructure/persistence/InMemoryRoomRepository.ts:35-57 | in any state, codes used again included, a write keeps the store serializable if and only if its decision does the same on the stored row as on the row it read, or the version check stops it |
| OptimisticUpdates.SerializableExactlyWhenHonest | battle-service/src/infrastructure/persistence/InMemoryRoomRepository.ts:29-57 | over every run with deletions and insertions at any time, the store stays serializable in the order of its effects if and only if every write is honest in that sense |
| OptimisticUpdates.OrderlyIsHonest | battle-service/src/infrastructure/persistence/InMemoryRoomRepository.ts:29-57 | without a code used again while an update is under way every write is honest |
| OptimisticUpdates.ReinsertionBreaksTheCheck | battle-service/src/infrastructure/persistence/InMemoryRoomRepository.ts:29-57 | for two decisions and a reused code: row and replies are not those of a service one at a time in the order in which the clients took effect exactly when the first decision comes to something else on the new room |
| StoredRuns.ReusedCodeBringsARoomBack | battle-service/src/infrastructure/persistence/InMemoryRoomRepository.ts:29-57 | with two created rooms, a join and a departure, the deleted room comes back in place of the new one |
| OptimisticUpdates.RetriesAreBounded | battle-service/test/room.concurrency.test.ts:61-66 | n clients with a bound of at least n never give up, start at most n attempts each, and conflict at most n(n-1)/2 times |
| OptimisticUpdates.VersionCountsCommits | battle-service/src/domain/ports/RoomRepository.ts:49-50 | during one lifetime the version is the first one plus the number of stored updates |
| StoredRuns.StoreRunsTheDomain | battle-service/src/domain/ports/RoomRepository.ts:45-62 | under the optimistic store the stored room is the domain's run of the decisions that took effect, each once |
| StoredRuns.StoredRoomKeepsInvariant | battle-service/src/domain/ports/RoomRepository.ts:45-62 | so every room stored by interleaved callers satisfies the invariant |
| StoredRuns.CallersReportEachEndOnce | battle-service/src/application/usecases/FinishBattleAtDeadline.ts:28-44 | over every interleaving of callers of the optimistic store, the callers reporting an end of a battle plus its running now equal its starts plus its running before |
| RoomUseCases.DiscardedForTheLeaver | battle-service/src/application/usecases/JoinRoom.ts:58-61 | a vote is discarded exactly when a battle runs and its dancer is the one who left |
| RoomUseCases.JoinRoom.Leave | battle-service/src/application/usecases/JoinRoom.ts:48-65 | one atomic departure; its flags name exactly the ended battle and the voters of the leaver |
| RoomUseCases.FinishBattleAtDeadline.Execute | battle-service/src/application/usecases/FinishBattleAtDeadline.ts:28-44 | reported as finished exactly when this call moved the battle it was set for to finished |
| RoomUseCases.CastVote.Execute | battle-service/src/application/usecases/CastVote.ts:34-44 | an accepted vote is stored as asked, and "changed" says whether it was not stored already |
| RoomUseCases.ChooseSong.Execute | battle-service/src/application/usecases/ChooseSong.ts:49-61 | the song is chosen and "battleStarted" says exactly whether this change started the battle |
| RoomUseCases.ChooseSong.AutoPick | battle-service/src/application/usecases/ChooseSong.ts:68-83 | picks or leaves the room alone, and says which |
| WordRounds.InMemoryWordRaceRepository.OpenRound | battle-service/src/infrastructure/persistence/InMemoryWordRaceRepository.ts:29-37 | opens exactly a scheduled round of a stored race |
| WordRounds.InMemoryWordRaceRepository.ClaimRound | battle-service/src/infrastructure/persistence/InMemoryWordRaceRepository.ts:39-52 | claims exactly an open unwon round before it closes and answers the round as stored |
| WordRounds.InMemoryWordRaceRepository.ExpireRound | battle-service/src/infrastructure/persistence/InMemoryWordRaceRepository.ts:54-66 | expires exactly an open unwon round once it closed |
| WordRounds.ApplyKeeps | battle-service/src/infrastructure/persistence/InMemoryWordRaceRepository.ts:39-52 | the winner is set exactly on won rounds and every player's wins are the rounds they won |
| WordRounds.EndsOnce | battle-service/src/infrastructure/persistence/InMemoryWordRaceRepository.ts:29-66 | in any run the successful claims and expiries of a round are as many as the round has ended: none or one |
| WordRounds.WinnersClaimedInTime | battle-service/src/infrastructure/persistence/InMemoryWordRaceRepository.ts:44-60 | a won round was claimed by its winner before it closed, an expired one expired at or after |
| WordSubmission.Judge | battle-service/src/domain/services/WordRaceService.ts:95-106 | when an attempt is correct, wrong, too late or refused |
| WordSubmission.ClaimsAreAnswered | battle-service/src/application/usecases/SubmitWord.ts:39-48 | in every state of a run a claim wins exactly while the round is open, is late for a round won, and expired for one that expired |
| WordSubmission.WordAsTyped | battle-service/src/domain/services/WordRaceService.ts:105 | white space around the word and the case of its letters do not matter, everything else does |
| WordSubmission.OutcomesAreTruthful | battle-service/src/application/usecases/SubmitWord.ts:26-49 | in every interleaving outcomes are true of the stored round, winners are participants who typed the word, as many submissions win as rounds are won, each round won is paid at most once, and the room credits a player with nothing but these and bonuses of other races |
| WordBonuses.WordsAreThisBattlesBonuses | battle-service/src/application/usecases/AwardWordBonus.ts:20-22 | in every run the table of the stored battle credits a player with exactly the bonuses accepted for them since that battle began, those of the race and those of others; of the race at most the rounds they won |
| WordBonuses.WordsAreBoundedByRounds | battle-service/src/domain/services/RoomService.ts:329-341 | all words of a table together are at most the rounds of the race that were won and the bonuses of other races paid since that battle began |
| WordBonuses.BonusCountsInItsBattle | battle-service/src/infrastructure/ws/socketHandlers.ts:515-532 | a bonus the room accepts counts in the battle of its race if and only if no rematch was accepted, and the room not made anew, before it is paid; otherwise it counts in another running battle |
| WordBonuses.LateBonusCountsInTheNextBattle | battle-service/src/infrastructure/ws/socketHandlers.ts:515-532 | from any new room a run in which a word is claimed, the song ends, a rematch leads to the next battle, and the word counts there |
| WordAnnouncements.AnnouncedAtMostOnce | battle-service/src/infrastructure/ws/socketHandlers.ts:515-532 | no round is announced as over twice or before it is over |
| WordAnnouncements.WonRoundsAreAnnounced | battle-service/src/infrastructure/ws/socketHandlers.ts:521-528 | a round that was won is announced once its bonus was tried, whether the room took it or not |
| WordAnnouncements.AnnouncedUnlessDeleted | battle-service/src/application/usecases/ExpireWordRound.ts:23-29 | once all is through, an ended round was announced exactly once, or not at all if and only if between the expiry that ended it and its next second read the race is deleted and no other race stored after the deletion |
| WordAnnouncements.ExpiryCanGoUnannounced | battle-service/src/application/usecases/ExpireWordRound.ts:25-28 | a run in which an expired round is announced to nobody, and one in which it is announced although its race was deleted, another being stored |
| WordAnnouncements.EarlyExpiryIsTriedAgain | battle-service/src/infrastructure/scheduling/WordRaceScheduler.ts:74-84 | an expiry that came too early is tried again exactly while its round is open in the stored race |
| WordUseCases.SubmitWord.Execute | battle-service/src/application/usecases/SubmitWord.ts:26-49 | under interference, other races stored included, a submission wins exactly when its own claim takes effect on the race it meets; late and expired are true of the round; the race left stored is given |
| WordUseCases.SubmitWord.Claim | battle-service/src/application/usecases/SubmitWord.ts:39-48 | the claim, its classification, the race a winner is shown (the one stored by then, else the one read before), and the race left stored |
| WordUseCases.ExpireWordRound.Execute | battle-service/src/application/usecases/ExpireWordRound.ts:23-29 | answers an expiry, with the race then stored, exactly when this call expired the round and some race is stored on the second read |
| WordPlan.PickDistinct | battle-service/src/domain/services/WordRaceService.ts:139-147 | the loop picks as drawn, and picks and leftovers make up the pool |
| WordPlan.PicksAreDistinct | battle-service/src/domain/services/WordRaceService.ts:139-147 | from a pool without duplicates the picks are distinct and disjoint from the leftovers |
| WordPlan.EveryPickIsDrawn | battle-service/src/domain/services/WordRaceService.ts:139-147 | any entries of the pool in any order can be picked |
| WordPlan.Plan | battle-service/src/domain/services/WordRaceService.ts:43-87 | the planned race, or a refusal outside a battle |
| WordPlan.PlannedRaceIsFresh | battle-service/src/domain/services/WordRaceService.ts:68-76 | nobody has played a planned race and its rounds have different ids |
| WordPlan.DancersTakePart | battle-service/src/domain/services/WordRaceService.ts:78-86 | exactly the dancers of the battle take part, under their names in the room, with no win yet |
| WordPlan.PlannedRaceFits | battle-service/src/domain/services/WordRaceService.ts:61-86 | with margins in [0, 1] every round opens and closes within the battle and windows do not overlap |
| PlanMargins.RoundsLieBetweenTheMargins | battle-service/src/domain/services/WordRaceService.ts:61-86 | every round opens and closes between the margins of the song, at the required distance, for the whole window, numbered, with a word of the list |
| PlanMargins.PlanUsesTheWholeSong | battle-service/src/domain/services/WordRaceService.ts:115-136 | that part of the song holds no more rounds than are planned, of those wanted and words there are, except exactly when no distance is required and one moment is usable |
| PlanMargins.EveryPlanIsDrawn | battle-service/src/domain/services/WordRaceService.ts:131-147 | any such placement of as many rounds, with any words of a longer list, is planned for some draws |
| WordPlan.ActiveRound | battle-service/src/application/usecases/GetActiveWordRound.ts:15-20 | the round shown is the first that is open and not closed yet, and there is one whenever there is such a round |
| WordPlan.OneRoundAtATime | battle-service/src/application/usecases/GetActiveWordRound.ts:15-20 | after any run, if no round was opened early, at most one can be answered, and it is the one shown |
| MatchDocument.DocumentOfFinished | battle-service/src/domain/services/MatchRecordService.ts:11-14 | exactly a finished room has a document, carrying the frozen result |
| MatchDocument.DocumentListsEveryoneOnce | battle-service/src/domain/services/MatchRecordService.ts:17-50 | each dancer of the roster and each spectator of the start is listed exactly once |
| MatchDocument.DocumentIsAccepted | users-service/src/main/java/com/dancesync/users/domain/model/Match.java:31-41 | the uniqueness check of users-service never fails on it and nobody is lost |
| MatchDocument.UnrankedExactlyWhenLeft | battle-service/src/domain/services/MatchRecordService.ts:17-29 | a dancer is unranked exactly when they left early, keeping the words they won; a ranked one carries votes, words, score and rank |
| MatchDocument.SpectatorsCarryNothing | battle-service/src/domain/services/MatchRecordService.ts:30-39 | a spectator carries no statistics and is marked as gone exactly when absent |
| MatchDocument.WinnerIsListed | battle-service/src/domain/services/MatchRecordService.ts:48 | a winner is a listed dancer who stayed and the only participant of rank 1 |
| MatchDocument.ReachableBattleIsRecorded | users-service/src/main/java/com/dancesync/users/infrastructure/adapter/out/persistence/MatchEntity.java:83-102 | from any reachable finished room to the stored match and back, in whatever order participants are read |
| MatchHistory.ResultsOrderIsTotal | users-service/src/main/java/com/dancesync/users/domain/model/MatchParticipant.java:25-39 | the results order compares any two participants and is transitive |
| MatchHistory.FindRepeatedPlayer | users-service/src/main/java/com/dancesync/users/domain/model/Match.java:48-56 | the duplicate check finds the first player that occurred before |
| MatchHistory.NewMatch | users-service/src/main/java/com/dancesync/users/domain/model/Match.java:31-41 | the constructor computes the canonical match or the refusal |
| MatchHistory.AcceptedExactly | users-service/src/main/java/com/dancesync/users/domain/model/Match.java:31-41 | accepted exactly without a repeated player, and then the match submitted but for the form of its code and the order of its participants; a refusal names a player listed twice |
| ResultsTable.AcceptedIsInOrder | users-service/src/main/java/com/dancesync/users/domain/model/MatchParticipant.java:25-39 | dancers before spectators, by smaller rank with the unranked last, then by name, then by player, in code-unit order |
| ResultsTable.WinnerComesFirst | users-service/src/main/java/com/dancesync/users/domain/model/MatchParticipant.java:25-39 | a winner of a reachable finished battle is the first participant stored |
| MatchHistory.NormalizedCode | users-service/src/main/java/com/dancesync/users/domain/model/Match.java:43-46 | the canonical code is the given one in upper case without what is cut off its ends |
| MatchHistory.MatchIsCanonical | users-service/src/main/java/com/dancesync/users/domain/model/Match.java:16-18 | any permutation of the participants gives the same match or the same refusal |
| MatchStorage.MatchEntity.ReplaceWith | users-service/src/main/java/com/dancesync/users/infrastructure/adapter/out/persistence/MatchEntity.java:83-93 | overwrites every column and participant exactly with a match of the same id |
| MatchStorage.ColumnsHoldTheMatch | users-service/src/main/java/com/dancesync/users/infrastructure/adapter/out/persistence/MatchEntity.java:83-93 | each column holds the match's own value, roles and reason in their wire words |
| MatchStorage.MatchEntity.ToDomain | users-service/src/main/java/com/dancesync/users/infrastructure/adapter/out/persistence/MatchEntity.java:95-100 | reads the row back through the constructor |
| MatchStorage.StoredMatchComesBack | users-service/src/main/java/com/dancesync/users/infrastructure/adapter/out/persistence/MatchEntity.java:83-100 | a stored match is read back equal from any order of its participants |
| Deadlines.EveryDeadlineHasItsTimer | battle-service/src/infrastructure/ws/socketHandlers.ts:164-195 | in a reachable room every pending deadline has its timer, and there is at most one |
| DeadlineMeaning.EndTimerMeaning | battle-service/src/infrastructure/ws/socketHandlers.ts:186-195 | the end timer goes off at the end of the battle: its use case finishes that battle, and no other, from that moment on and not before |
| DeadlineMeaning.ChooseTimerMeaning | battle-service/src/infrastructure/ws/socketHandlers.ts:178-185 | the timer of a turn goes off at its deadline: its use case picks for that challenge, and no other, from that moment on and not before |
| DeadlineMeaning.ChallengeTimerMeaning | battle-service/src/infrastructure/ws/socketHandlers.ts:168-177 | the timer of a phrase goes off when typing comes too late; its use case resolves that challenge, and no other, whenever it runs |
| Deadlines.TimersFollowTheNewest | battle-service/src/infrastructure/ws/socketHandlers.ts:164-195 | for any order of publishing and firing, the pending timers are those of the highest version published, less the ones fired since |
| Deadlines.OrderOfPublishingIsIrrelevant | battle-service/src/infrastructure/ws/socketHandlers.ts:164-167 | two publishing orders with the same highest version leave the same timers |
| Deadlines.RoomTimers.ClearRoom | battle-service/src/infrastructure/scheduling/RoomTimers.ts:38-45 | every timer of the room and, for codes without the separator, of no other room is cleared |
| Deadlines.RoomPublisher.ArmRoomTimers | battle-service/src/infrastructure/ws/socketHandlers.ts:164-195 | publishing is one step for that room and none for any other |
| Deadlines.RoomPublisher.AnnounceLeave | battle-service/src/infrastructure/ws/socketHandlers.ts:264-284 | a departure forgets the timers of a deleted room and publishes any other; the voters who lost their vote are told while the room exists, an ended battle is announced, and the word race stops unless the battle goes on |
| EarlyLife.EarlyStep | battle-service/src/domain/services/RoomService.ts:119-181 | a room that never had a challenge stays without one until its version counts a second seat, two roles, two readies and the start: no state before the sixth version has a deadline |
| TimerSafety.EveryMoveIsSafe | battle-service/src/infrastructure/ws/socketHandlers.ts:153-225 | over any rooms living one after another under a code, each created clean, every deadline of the stored room is pending, being handled, or about to be published, in every interleaving |
| TimerSafety.PendingAreTheDeadlines | battle-service/src/infrastructure/ws/socketHandlers.ts:164-203 | whenever nothing is being published or handled, the timers pending are exactly the deadlines of the stored room |
| TimerSafety.NothingMissedExactlyWhenClean | battle-service/src/infrastructure/ws/socketHandlers.ts:153-225 | whatever happens to a room, no deadline is missed, if and only if it is created with nothing of the sixth or a later version of earlier rooms in the way |
| TimerSafety.ReusedCodeCanMissADeadline | battle-service/src/infrastructure/ws/socketHandlers.ts:164-167 | a run of the service from nothing: a late publication of a deleted room, a new room under its code, a deadline without a timer |
| TimerSafety.HandlersCover | battle-service/src/infrastructure/ws/socketHandlers.ts:197-225 | a timer whose use case finds nothing to do is either set again or no longer needed |
| TimerSafety.EndTimerIsHandled | battle-service/src/infrastructure/ws/socketHandlers.ts:197-225 | an end timer handled in time finishes the battle, and handled early leaves the room as it is and publishes it again |
| Deadlines.RoomPublisher.ForgetRoomTimers | battle-service/src/infrastructure/ws/socketHandlers.ts:281-284 | nothing of a deleted room stays behind |

## Left out

- Socket.IO, Express, HTTP publishing, acks, chat, WebRTC relay, CORS, the gateway, configuration: input and output around the decisions.
- Seat binding, grace periods and the sweep of abandoned seats: they depend on the connections of the socket library.
- JPA, Postgres locks and the retry of the upsert: only the mapping between a match and its row is modelled; columns that are null before the first replacement hold arbitrary values here.
- Unicode: normalisation of typed phrases and words, locale rules of lower- and upper-casing beyond single characters, surrogate pairs.
- Runtime type checks of payloads from the wire (text that is not text, a flag that is not a boolean, a code that is not a string); their error cases do not occur in a typed model.
- Floating point: ratios are real numbers and durations whole, so rounding of products such as song length times ratio is not captured; the width of Java's integers is not either.
- Negative durations: `windowMs` and the fallback duration are natural numbers, song durations too.
- `offsetsMs` of the race plan, a test override of the random timeline.
- Object identity: structured clones, and a mutation that edits the draft it is given; "the very same room" is the outcome Unchanged.
- Prototype keys of JavaScript records.
- Generation of ids and room codes, and the loop of CreateRoom around it, which has no argument for ending.
- The texts of errors, and the order of the voters a departure reports (a set here).
- Several races of a room followed at once: `WordSubmission` follows one race, any one; of other races it knows that they are stored, deleted and paid, and that their rounds have other ids, so that no read or claim by the id of a round of this race meets one of theirs.
- Which tally an announced winner's message carries over whole runs: `SubmitWord.Execute` says it for one call.
- The scheduler of the word race and OpenWordRound's look at the room: a round may be opened at any time in the model, and `OneRoundAtATime` states what opening on time is needed for.
- Rooms under different codes in one timer run: `RoomTimers` and `RoomPublisher` are proved to keep codes apart, `TimerSafety` follows the rooms of one code; the process does not restart.
- The production bound of five attempts with backoff: giving up is modelled for every bound, progress is proved for bounds of at least the number of clients.
- SendChatMessage, ReapRooms.list, RecordMatchResult and the other use cases that only call one of the modelled functions.
- EveryPlanIsDrawn: stated for a list of words longer than the race; with fewer words than openings the rounds are the first of a placement, and only those that such a placement continues are drawn.
