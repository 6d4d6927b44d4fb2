/** The use cases of the word race as sequences of store calls. Between two calls other
    callers may move rounds, delete the race or store another one under the code, and each
    contract says what the caller may still conclude. */
module WordUseCases {
  import opened Sequences
  import opened Text
  import opened Domain
  import opened WordRounds
  import WordSubmission

  /** What others do to the race of the room between two calls. */
  datatype Interference = Does(op: Op) | Deletes | Saves(race: WordRace)

  function After(race: Option<WordRace>, act: Interference): Option<WordRace> {
    match act
    case Does(op) => if race.Some? then Some(Apply(race.value, op)) else None
    case Deletes => None
    case Saves(another) => Some(another)
  }

  function Interfered(race: Option<WordRace>, acts: seq<Interference>): Option<WordRace>
    decreases |acts|
  {
    if acts == [] then race else Interfered(After(race, acts[0]), acts[1..])
  }

  ghost predicate OtherRoomsStay(before: map<string, WordRace>, after: map<string, WordRace>, roomCode: string) {
    && (forall key :: key != Upper(roomCode) ==> (key in after <==> key in before))
    && (forall key :: key != Upper(roomCode) && key in before ==> after[key] == before[key])
  }

  method OthersAct(races: InMemoryWordRaceRepository, roomCode: string, acts: seq<Interference>)
    modifies races
    ensures RaceOf(races.races, roomCode) == Interfered(RaceOf(old(races.races), roomCode), acts)
    ensures OtherRoomsStay(old(races.races), races.races, roomCode)
  {
    var key := Upper(roomCode);
    var race, k := RaceOf(races.races, roomCode), 0;
    while k < |acts|
      invariant 0 <= k <= |acts|
      invariant Interfered(race, acts[k..]) == Interfered(RaceOf(races.races, roomCode), acts)
    {
      assert acts[k..][1..] == acts[k + 1..];
      race := After(race, acts[k]);
      k := k + 1;
    }
    races.races := if race.Some? then races.races[key := race.value] else races.races - {key};
  }

  /** The same round later on: it went on along its direction or stood still. */
  ghost predicate Reaches(before: WordRound, after: WordRound) {
    && after == before.(status := after.status, winnerId := after.winnerId)
    && (before.status != Scheduled ==> after.status != Scheduled)
    && (Ended(before.status) ==> after == before)
  }

  /** A stored race that has the round has it as it was, at most further on. */
  ghost predicate Holds(round: WordRound, race: Option<WordRace>) {
    race.Some? && round.id in RoundIds(race.value.rounds) ==>
      RaceInv(race.value) && Reaches(round, FindRound(race.value.rounds, round.id).value)
  }

  /** The rounds of a race stored later have generated ids, other than this one. */
  predicate OtherIds(roundId: Id, acts: seq<Interference>) {
    forall k :: 0 <= k < |acts| && acts[k].Saves? ==> roundId !in RoundIds(acts[k].race.rounds)
  }

  lemma HoldsAfter(round: WordRound, race: WordRace, op: Op)
    requires Holds(round, Some(race))
    ensures Holds(round, Some(Apply(race, op)))
  {
    assert RoundIds(Apply(race, op).rounds) == RoundIds(race.rounds);
    if round.id in RoundIds(race.rounds) {
      ApplyKeeps(race, op);
      WordSubmission.FoundAdvances(race, op, round.id);
    }
  }

  lemma {:induction false} InterferedHolds(round: WordRound, race: Option<WordRace>, acts: seq<Interference>)
    requires Holds(round, race) && OtherIds(round.id, acts)
    ensures Holds(round, Interfered(race, acts))
    decreases |acts|
  {
    if acts != [] {
      if acts[0].Does? && race.Some? { HoldsAfter(round, race.value, acts[0].op); }
      InterferedHolds(round, After(race, acts[0]), acts[1..]);
    }
  }

  datatype SubmitOutcome = Winning | Late | Incorrect | Expiring

  datatype SubmitReply =
    | Replied(outcome: SubmitOutcome, round: WordRound, race: WordRace)
    | Failure(error: ErrorCode)

  /** What a claim answers: a win exactly when it takes effect on the race it meets, and
      otherwise that the round had expired, or else that it was already won. A winner is
      shown the race stored after the claim, whichever it is by then, and the race read
      before the claim only when none is. */
  ghost predicate ClaimReply(read: WordRace, met: Option<WordRace>, op: Op, after: seq<Interference>, reply: SubmitReply)
    requires op.ClaimRound?
  {
    if met.None? || FindRound(met.value.rounds, op.roundId).None? then reply == Failure(WORD_RACE_NOT_ACTIVE)
    else
      && reply.Replied? && (reply.outcome == Winning <==> Succeeds(met.value, op))
      && Some(reply.round) == FindRound(Apply(met.value, op).rounds, op.roundId)
      && (if reply.outcome == Winning then
            && reply.round.status == Won && reply.round.winnerId == Some(op.playerId)
            && var later := Interfered(Some(Apply(met.value, op)), after);
               reply.race == if later.Some? then later.value else read
          else
            && reply.race == read && reply.outcome != SubmitOutcome.Incorrect
            && (reply.outcome == Expiring <==> WordSubmission.ExpiredMeanwhile(reply.round, op.now)))
  }

  /** "Late" and "expired" are true of the round. */
  ghost predicate TrueOfRound(reply: SubmitReply) {
    reply.Replied? ==>
      && (reply.outcome == Late ==> reply.round.winnerId.Some?)
      && (reply.outcome == Expiring ==> reply.round.status == Expired)
  }

  /** The race left by a claim: a claim that takes effect is stored and then met by what
      others do, and any other leaves the race as it found it. */
  function Claimed(met: Option<WordRace>, op: Op, after: seq<Interference>): Option<WordRace> {
    if met.Some? && Succeeds(met.value, op) then Interfered(Some(Apply(met.value, op)), after) else met
  }

  /** A claim that loses a round which was on screen and in time when read lost it to a
      winner or to its expiry. */
  lemma LostClaimsAreTrue(round: WordRound, met: Option<WordRace>, playerId: Id, now: int)
    requires Holds(round, met) && round.status != Scheduled && now < round.closesAt
    ensures var op := Op.ClaimRound(round.id, playerId, now);
            met.Some? && FindRound(met.value.rounds, round.id).Some? && !Succeeds(met.value, op) ==>
              var found := FindRound(met.value.rounds, round.id).value;
              if WordSubmission.ExpiredMeanwhile(found, now) then found.status == Expired else found.winnerId.Some?
  {
    if met.Some? && FindRound(met.value.rounds, round.id).Some? {
      var found := FindRound(met.value.rounds, round.id).value;
      var k :| 0 <= k < |met.value.rounds| && met.value.rounds[k] == found;
      assert RoundInv(met.value.rounds[k]);
    }
  }

  class SubmitWord {
    const fold: Fold
    const races: InMemoryWordRaceRepository

    constructor (fold: Fold, races: InMemoryWordRaceRepository)
      ensures this.fold == fold && this.races == races
    {
      this.fold, this.races := fold, races;
    }

    /** The claim of a correct submission on the race it meets, after which others may act. */
    method Claim(roomCode: string, playerId: Id, roundId: Id, now: int, read: WordRace, after: seq<Interference>)
      returns (reply: SubmitReply)
      modifies races
      ensures var op := Op.ClaimRound(roundId, playerId, now);
              && ClaimReply(read, RaceOf(old(races.races), roomCode), op, after, reply)
              && RaceOf(races.races, roomCode) == Claimed(RaceOf(old(races.races), roomCode), op, after)
              && OtherRoomsStay(old(races.races), races.races, roomCode)
    {
      var met := races.Find(roomCode);
      var claimed, round := races.ClaimRound(roomCode, roundId, playerId, now);
      if round.None? {
        assert met.Some? ==> RoundIds(Apply(met.value, Op.ClaimRound(roundId, playerId, now)).rounds) == RoundIds(met.value.rounds);
        return Failure(WORD_RACE_NOT_ACTIVE);
      }
      if claimed {
        ClaimTakesEffect(met.value, FindRound(met.value.rounds, roundId).value, playerId, now);
        OthersAct(races, roomCode, after);
        var updated := races.Find(roomCode);
        return Replied(Winning, round.value, if updated.Some? then updated.value else read);
      }
      reply := Replied(if WordSubmission.ExpiredMeanwhile(round.value, now) then Expiring else Late, round.value, read);
    }

    /** Read, judge, claim. `between` is what others do after the read and `after` what
        they do after the claim. The submission wins exactly when its own claim takes
        effect on the race it then meets; "late" and "expired" are true of that race, the
        ids of rounds being generated. A winner is shown the race stored after the claim:
        the one claimed in, the one of another battle when that was stored meanwhile, and
        the one read before the claim when there is none. */
    method Execute(roomCode: string, playerId: Id, roundId: Id, text: string, now: int,
                   between: seq<Interference>, after: seq<Interference>)
      returns (reply: SubmitReply)
      requires forall key :: key in races.races ==> RaceInv(races.races[key])
      modifies races
      ensures var read := RaceOf(old(races.races), roomCode);
              var round := if read.Some? then FindRound(read.value.rounds, roundId) else None;
              var op := Op.ClaimRound(roundId, playerId, now);
              var met := Interfered(read, between);
              if read.None? then reply == Failure(WORD_RACE_NOT_ACTIVE) && races.races == old(races.races)
              else if round.None? then reply == Failure(WORD_ROUND_NOT_OPEN) && races.races == old(races.races)
              else
                match WordSubmission.Judge(fold, round.value, read.value.participantIds, playerId, text, now)
                case Rejected(error) => reply == Failure(error) && races.races == old(races.races)
                case Incorrect => reply == Replied(SubmitOutcome.Incorrect, round.value, read.value) && races.races == old(races.races)
                case TooLate => reply == Replied(Expiring, round.value, read.value) && races.races == old(races.races)
                case Correct =>
                  && ClaimReply(read.value, met, op, after, reply) && (OtherIds(roundId, between) ==> TrueOfRound(reply))
                  && RaceOf(races.races, roomCode) == Claimed(met, op, after)
                  && OtherRoomsStay(old(races.races), races.races, roomCode)
    {
      var race := races.Find(roomCode);
      if race.None? {
        return Failure(WORD_RACE_NOT_ACTIVE);
      }
      var round := FindRound(race.value.rounds, roundId);
      if round.None? {
        return Failure(WORD_ROUND_NOT_OPEN);
      }
      match WordSubmission.Judge(fold, round.value, race.value.participantIds, playerId, text, now) {
        case Rejected(error) => return Failure(error);
        case Incorrect => return Replied(SubmitOutcome.Incorrect, round.value, race.value);
        case TooLate => return Replied(Expiring, round.value, race.value);
        case Correct =>
      }
      OthersAct(races, roomCode, between);
      if OtherIds(roundId, between) {
        InterferedHolds(round.value, race, between);
        LostClaimsAreTrue(round.value, Interfered(race, between), playerId, now);
      }
      reply := Claim(roomCode, playerId, roundId, now, race.value, after);
    }
  }

  class ExpireWordRound {
    const races: InMemoryWordRaceRepository

    constructor (races: InMemoryWordRaceRepository)
      ensures this.races == races
    {
      this.races := races;
    }

    /** Compare and set, then read again. The caller learns that the round expired, and
        can tell the room, exactly when this call expired it and a race, whichever it is by
        then, is stored at the second read; it is shown that race. */
    method Execute(roomCode: string, roundId: Id, now: int, between: seq<Interference>)
      returns (expired: Option<WordRace>, round: Option<WordRound>)
      modifies races
      ensures var op := Op.ExpireRound(roundId, now);
              var moved := RaceOf(ApplyIn(old(races.races), roomCode, op), roomCode);
              var reread := Interfered(moved, between);
              && RaceOf(races.races, roomCode) == reread && OtherRoomsStay(old(races.races), races.races, roomCode)
              && (expired.Some? <==> SucceedsIn(old(races.races), roomCode, op) && reread.Some?)
              && (expired.Some? ==> expired == reread && round == FindRound(moved.value.rounds, roundId)
                                    && round.Some? && round.value.status == Expired)
              && (expired.None? && reread.None? ==> round.None?)
              && (expired.None? && reread.Some? ==> round == FindRound(reread.value.rounds, roundId))
    {
      var over := races.ExpireRound(roomCode, roundId, now);
      OthersAct(races, roomCode, between);
      var race := races.Find(roomCode);
      if over.Some? && race.Some? {
        return race, over;
      }
      return None, if race.Some? then FindRound(race.value.rounds, roundId) else None;
    }
  }
}
