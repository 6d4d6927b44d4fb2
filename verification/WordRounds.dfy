/** The word race of a battle: rounds that a store moves by compare and set. */
module WordRounds {
  import opened Sequences
  import opened Text
  import opened Domain

  datatype RoundStatus = Scheduled | Open | Won | Expired

  datatype WordRound = WordRound(id: Id, number: nat, word: string, opensAt: int, closesAt: int,
                                 winnerId: Option<Id>, status: RoundStatus)

  datatype WordRace = WordRace(roomCode: string, battleId: Id, participantIds: seq<Id>, participantNames: map<Id, string>,
                               rounds: seq<WordRound>, wins: map<Id, nat>)

  // ----- one atomic operation on the race of a room -----

  function RoundIds(rounds: seq<WordRound>): (r: seq<Id>)
    ensures |r| == |rounds| && forall k :: 0 <= k < |r| ==> r[k] == rounds[k].id
  {
    if rounds == [] then [] else [rounds[0].id] + RoundIds(rounds[1..])
  }

  /** `race.rounds.find(r => r.id === roundId)` */
  function FindRound(rounds: seq<WordRound>, roundId: Id): (r: Option<WordRound>)
    ensures r.Some? <==> roundId in RoundIds(rounds)
    ensures r.Some? ==> r.value.id == roundId && r.value in rounds
  {
    if rounds == [] then None
    else if rounds[0].id == roundId then Some(rounds[0])
    else FindRound(rounds[1..], roundId)
  }

  function Replaced(rounds: seq<WordRound>, round: WordRound): (r: seq<WordRound>)
    ensures |r| == |rounds|
    ensures forall k :: 0 <= k < |r| ==> r[k] == if rounds[k].id == round.id then round else rounds[k]
    ensures RoundIds(r) == RoundIds(rounds)
  {
    if rounds == [] then []
    else [if rounds[0].id == round.id then round else rounds[0]] + Replaced(rounds[1..], round)
  }

  function WithRound(race: WordRace, round: WordRound): WordRace {
    race.(rounds := Replaced(race.rounds, round))
  }

  datatype Op =
    | OpenRound(roundId: Id)
    | ClaimRound(roundId: Id, playerId: Id, now: int)
    | ExpireRound(roundId: Id, now: int)

  /** Whether the compare of a compare-and-set holds. */
  predicate Applies(round: WordRound, op: Op) {
    match op
    case OpenRound(_) => round.status == Scheduled
    case ClaimRound(_, _, now) => round.status == Open && round.winnerId.None? && now < round.closesAt
    case ExpireRound(_, now) => round.status == Open && round.winnerId.None? && now >= round.closesAt
  }

  /** What the set writes. */
  function Moved(round: WordRound, op: Op): WordRound {
    match op
    case OpenRound(_) => round.(status := Open)
    case ClaimRound(_, playerId, _) => round.(status := Won, winnerId := Some(playerId))
    case ExpireRound(_, _) => round.(status := Expired)
  }

  function WinsOf(wins: map<Id, nat>, playerId: Id): nat {
    if playerId in wins then wins[playerId] else 0
  }

  function OneMoreWin(wins: map<Id, nat>, playerId: Id): (r: map<Id, nat>)
    ensures forall p :: WinsOf(r, p) == WinsOf(wins, p) + (if p == playerId then 1 else 0)
  {
    wins[playerId := WinsOf(wins, playerId) + 1]
  }

  predicate Succeeds(race: WordRace, op: Op) {
    var round := FindRound(race.rounds, op.roundId);
    round.Some? && Applies(round.value, op)
  }

  function Apply(race: WordRace, op: Op): WordRace {
    if !Succeeds(race, op) then race
    else
      var next := WithRound(race, Moved(FindRound(race.rounds, op.roundId).value, op));
      if op.ClaimRound? then next.(wins := OneMoreWin(race.wins, op.playerId)) else next
  }

  function Play(race: WordRace, ops: seq<Op>): WordRace
    decreases |ops|
  {
    if ops == [] then race else Play(Apply(race, ops[0]), ops[1..])
  }

  // ----- the store -----

  function RaceOf(races: map<string, WordRace>, roomCode: string): Option<WordRace> {
    if Upper(roomCode) in races then Some(races[Upper(roomCode)]) else None
  }

  /** The races after one operation on one of them. */
  function ApplyIn(races: map<string, WordRace>, roomCode: string, op: Op): map<string, WordRace> {
    if Upper(roomCode) in races then races[Upper(roomCode) := Apply(races[Upper(roomCode)], op)] else races
  }

  predicate SucceedsIn(races: map<string, WordRace>, roomCode: string, op: Op) {
    Upper(roomCode) in races && Succeeds(races[Upper(roomCode)], op)
  }

  function RoundIn(races: map<string, WordRace>, roomCode: string, roundId: Id): Option<WordRound> {
    match RaceOf(races, roomCode)
    case None => None
    case Some(race) => FindRound(race.rounds, roundId)
  }

  class InMemoryWordRaceRepository {
    var races: map<string, WordRace>

    constructor ()
      ensures races == map[]
    {
      races := map[];
    }

    /** Stores a race, in place of any earlier one of the same room. */
    method Save(race: WordRace)
      modifies this
      ensures races == old(races)[Upper(race.roomCode) := race]
    {
      races := races[Upper(race.roomCode) := race];
    }

    method Find(roomCode: string) returns (race: Option<WordRace>)
      ensures race == RaceOf(races, roomCode)
    {
      race := if Upper(roomCode) in races then Some(races[Upper(roomCode)]) else None;
    }

    method Delete(roomCode: string)
      modifies this
      ensures races == old(races) - {Upper(roomCode)}
    {
      races := races - {Upper(roomCode)};
    }

    /** Answers the round it opened, or nothing when it opened none. */
    method OpenRound(roomCode: string, roundId: Id) returns (shown: Option<WordRound>)
      modifies this
      ensures var op := Op.OpenRound(roundId);
              && races == ApplyIn(old(races), roomCode, op)
              && (shown.Some? <==> SucceedsIn(old(races), roomCode, op))
              && (shown.Some? ==> shown == RoundIn(races, roomCode, roundId))
    {
      var key := Upper(roomCode);
      if key !in races {
        return None;
      }
      var round := FindRound(races[key].rounds, roundId);
      if round.None? || round.value.status != Scheduled {
        SameRace(races, roomCode);
        return None;
      }
      var next := round.value.(status := Open);
      FoundAfter(races[key].rounds, next);
      races := races[key := WithRound(races[key], next)];
      return Some(next);
    }

    /** Answers whether the claim took effect, and the round as stored afterwards. */
    method ClaimRound(roomCode: string, roundId: Id, playerId: Id, now: int) returns (claimed: bool, round: Option<WordRound>)
      modifies this
      ensures var op := Op.ClaimRound(roundId, playerId, now);
              && races == ApplyIn(old(races), roomCode, op)
              && (claimed <==> SucceedsIn(old(races), roomCode, op))
              && round == RoundIn(races, roomCode, roundId)
    {
      var key := Upper(roomCode);
      if key !in races {
        return false, None;
      }
      var race := races[key];
      round := FindRound(race.rounds, roundId);
      if round.None? || !(round.value.status == Open && round.value.winnerId.None? && now < round.value.closesAt) {
        SameRace(races, roomCode);
        return false, round;
      }
      var won := round.value.(status := Won, winnerId := Some(playerId));
      ClaimTakesEffect(race, round.value, playerId, now);
      races := races[key := WithRound(race, won).(wins := OneMoreWin(race.wins, playerId))];
      return true, Some(won);
    }

    /** Answers the round it expired, or nothing when it expired none. */
    method ExpireRound(roomCode: string, roundId: Id, now: int) returns (expired: Option<WordRound>)
      modifies this
      ensures var op := Op.ExpireRound(roundId, now);
              && races == ApplyIn(old(races), roomCode, op)
              && (expired.Some? <==> SucceedsIn(old(races), roomCode, op))
              && (expired.Some? ==> expired == RoundIn(races, roomCode, roundId))
    {
      var key := Upper(roomCode);
      if key !in races {
        return None;
      }
      var round := FindRound(races[key].rounds, roundId);
      if round.None? || !(round.value.status == Open && round.value.winnerId.None? && now >= round.value.closesAt) {
        SameRace(races, roomCode);
        return None;
      }
      var over := round.value.(status := Expired);
      FoundAfter(races[key].rounds, over);
      races := races[key := WithRound(races[key], over)];
      return Some(over);
    }
  }

  lemma SameRace(races: map<string, WordRace>, roomCode: string)
    requires Upper(roomCode) in races
    ensures races[Upper(roomCode) := races[Upper(roomCode)]] == races
  {
  }

  lemma {:induction false} FoundAfter(rounds: seq<WordRound>, round: WordRound)
    requires round.id in RoundIds(rounds)
    ensures FindRound(Replaced(rounds, round), round.id) == Some(round)
  {
    if rounds[0].id != round.id {
      FoundAfter(rounds[1..], round);
    }
  }

  /** A claim that takes effect leaves the round found as won by the claimant. */
  lemma ClaimTakesEffect(race: WordRace, round: WordRound, playerId: Id, now: int)
    requires FindRound(race.rounds, round.id) == Some(round) && Applies(round, Op.ClaimRound(round.id, playerId, now))
    ensures var won := round.(status := Won, winnerId := Some(playerId));
            var n := WithRound(race, won).(wins := OneMoreWin(race.wins, playerId));
            n == Apply(race, Op.ClaimRound(round.id, playerId, now)) && FindRound(n.rounds, round.id) == Some(won)
  {
    FoundAfter(race.rounds, round.(status := Won, winnerId := Some(playerId)));
  }

  // ----- what every run of opens, claims and expiries keeps -----

  /** How often a player won among the rounds. */
  function RoundsWonBy(rounds: seq<WordRound>, playerId: Id): nat {
    if rounds == [] then 0
    else (if rounds[0].winnerId == Some(playerId) then 1 else 0) + RoundsWonBy(rounds[1..], playerId)
  }

  ghost predicate RoundInv(round: WordRound) {
    round.winnerId.Some? <==> round.status == Won
  }

  ghost predicate RaceInv(race: WordRace) {
    && Distinct(RoundIds(race.rounds))
    && (forall k :: 0 <= k < |race.rounds| ==> RoundInv(race.rounds[k]))
    && (forall p :: WinsOf(race.wins, p) == RoundsWonBy(race.rounds, p))
  }

  predicate Ended(status: RoundStatus) { status == Won || status == Expired }

  /** The one direction a round can go. */
  predicate Follows(before: RoundStatus, after: RoundStatus) {
    match before
    case Scheduled => after == Open
    case Open => after == Won || after == Expired
    case Won => false
    case Expired => false
  }

  /** Nothing of a round moves but its status and, on a win, its winner. */
  ghost predicate Advances(before: WordRound, after: WordRound) {
    && after == before.(status := after.status, winnerId := after.winnerId)
    && (after == before || Follows(before.status, after.status))
    && (Ended(before.status) ==> after == before)
  }

  lemma RoundIndex(rounds: seq<WordRound>, roundId: Id) returns (k: nat)
    requires FindRound(rounds, roundId).Some?
    ensures k < |rounds| && rounds[k].id == roundId && rounds[k] == FindRound(rounds, roundId).value
  {
    k :| 0 <= k < |rounds| && rounds[k] == FindRound(rounds, roundId).value;
  }

  lemma ReplacesOne(rounds: seq<WordRound>, round: WordRound, k: nat)
    requires Distinct(RoundIds(rounds)) && k < |rounds| && rounds[k].id == round.id
    ensures Replaced(rounds, round) == rounds[k := round]
  {
    forall j | 0 <= j < |rounds| && j != k ensures rounds[j].id != round.id {
      assert RoundIds(rounds)[j] != RoundIds(rounds)[k];
    }
  }

  lemma {:induction false} WonAfterReplacement(rounds: seq<WordRound>, k: nat, round: WordRound, playerId: Id)
    requires k < |rounds|
    ensures RoundsWonBy(rounds[k := round], playerId)
         == RoundsWonBy(rounds, playerId)
          - (if rounds[k].winnerId == Some(playerId) then 1 else 0)
          + (if round.winnerId == Some(playerId) then 1 else 0)
  {
    if k > 0 {
      WonAfterReplacement(rounds[1..], k - 1, round, playerId);
      assert rounds[k := round][1..] == rounds[1..][k - 1 := round];
    } else {
      assert rounds[k := round][1..] == rounds[1..];
    }
  }

  /** One successful operation replaces one round and, when it is a claim, counts one win. */
  lemma SuccessReplacesOne(race: WordRace, op: Op) returns (k: nat)
    requires RaceInv(race) && Succeeds(race, op)
    ensures k < |race.rounds| && race.rounds[k].id == op.roundId
    ensures Apply(race, op).rounds == race.rounds[k := Moved(race.rounds[k], op)]
    ensures Applies(race.rounds[k], op)
  {
    k := RoundIndex(race.rounds, op.roundId);
    ReplacesOne(race.rounds, Moved(race.rounds[k], op), k);
  }

  /** The winner of a round is counted exactly once, and nobody else is. */
  lemma ApplyKeeps(race: WordRace, op: Op)
    requires RaceInv(race)
    ensures RaceInv(Apply(race, op))
  {
    if Succeeds(race, op) {
      var k := SuccessReplacesOne(race, op);
      var n := Apply(race, op);
      assert RoundIds(n.rounds) == RoundIds(race.rounds);
      forall p ensures WinsOf(n.wins, p) == RoundsWonBy(n.rounds, p) {
        WonAfterReplacement(race.rounds, k, Moved(race.rounds[k], op), p);
      }
    }
  }

  /** One operation moves at most one round, along its one direction, and exactly when it succeeds. */
  lemma OneRoundMoves(race: WordRace, op: Op)
    requires RaceInv(race)
    ensures var n := Apply(race, op);
            && |n.rounds| == |race.rounds|
            && n == race.(rounds := n.rounds, wins := n.wins)
            && (forall k :: 0 <= k < |race.rounds| ==> Advances(race.rounds[k], n.rounds[k]))
            && (forall k :: 0 <= k < |race.rounds| ==>
                  (n.rounds[k] != race.rounds[k] <==> Succeeds(race, op) && race.rounds[k].id == op.roundId))
  {
    if Succeeds(race, op) {
      var k := SuccessReplacesOne(race, op);
      forall j | 0 <= j < |race.rounds| && j != k ensures race.rounds[j].id != op.roundId {
        assert RoundIds(race.rounds)[j] != RoundIds(race.rounds)[k];
      }
    }
  }

  lemma {:induction false} PlayKeeps(race: WordRace, ops: seq<Op>)
    requires RaceInv(race)
    ensures RaceInv(Play(race, ops)) && RoundIds(Play(race, ops).rounds) == RoundIds(race.rounds)
    decreases |ops|
  {
    if ops != [] {
      ApplyKeeps(race, ops[0]);
      PlayKeeps(Apply(race, ops[0]), ops[1..]);
    }
  }

  function Count(b: bool): nat { if b then 1 else 0 }

  /** How many operations succeed in opening, or in ending, a round. */
  function Successes(race: WordRace, ops: seq<Op>, roundId: Id, opening: bool): nat
    decreases |ops|
  {
    if ops == [] then 0
    else
      Count(ops[0].roundId == roundId && ops[0].OpenRound? == opening && Succeeds(race, ops[0]))
      + Successes(Apply(race, ops[0]), ops[1..], roundId, opening)
  }

  lemma StatusAfter(race: WordRace, op: Op, k: nat)
    requires RaceInv(race) && k < |race.rounds|
    ensures var n := Apply(race, op);
            && k < |n.rounds|
            && Count(Ended(n.rounds[k].status)) == Count(Ended(race.rounds[k].status))
               + Count(op.roundId == race.rounds[k].id && !op.OpenRound? && Succeeds(race, op))
            && Count(n.rounds[k].status != Scheduled) == Count(race.rounds[k].status != Scheduled)
               + Count(op.roundId == race.rounds[k].id && op.OpenRound? && Succeeds(race, op))
  {
    OneRoundMoves(race, op);
    if Succeeds(race, op) {
      var j := SuccessReplacesOne(race, op);
      assert RoundIds(race.rounds)[j] == RoundIds(race.rounds)[k] ==> j == k;
    }
  }

  /** In every run, the claims and expiries that succeed on a round are as many as the
      round has ended: none or one. The openings that succeed are as many as it has opened. */
  lemma {:induction false} EndsOnce(race: WordRace, ops: seq<Op>, k: nat)
    requires RaceInv(race) && k < |race.rounds|
    ensures var n, id := Play(race, ops), race.rounds[k].id;
            && |n.rounds| == |race.rounds|
            && Count(Ended(n.rounds[k].status)) == Count(Ended(race.rounds[k].status)) + Successes(race, ops, id, false)
            && Count(n.rounds[k].status != Scheduled) == Count(race.rounds[k].status != Scheduled) + Successes(race, ops, id, true)
    decreases |ops|
  {
    if ops != [] {
      ApplyKeeps(race, ops[0]);
      OneRoundMoves(race, ops[0]);
      StatusAfter(race, ops[0], k);
      EndsOnce(Apply(race, ops[0]), ops[1..], k);
    }
  }

  /** A race nobody has played. */
  predicate Fresh(race: WordRace) {
    && (forall k :: 0 <= k < |race.rounds| ==> race.rounds[k].status == Scheduled && race.rounds[k].winnerId.None?)
    && (forall p :: p in race.wins ==> race.wins[p] == 0)
  }

  lemma {:induction false} NothingWon(rounds: seq<WordRound>, playerId: Id)
    requires forall k :: 0 <= k < |rounds| ==> rounds[k].winnerId.None?
    ensures RoundsWonBy(rounds, playerId) == 0
  {
    if rounds != [] {
      NothingWon(rounds[1..], playerId);
    }
  }

  lemma FreshRaceInv(race: WordRace)
    requires Fresh(race) && Distinct(RoundIds(race.rounds))
    ensures RaceInv(race)
  {
    forall p ensures WinsOf(race.wins, p) == RoundsWonBy(race.rounds, p) {
      NothingWon(race.rounds, p);
    }
  }

  /** Any run of a fresh race: the winner is set exactly on won rounds, every player's
      wins are the rounds they won, and at most one claim or expiry ended each round. */
  lemma FreshRaceRuns(race: WordRace, ops: seq<Op>, k: nat)
    requires Fresh(race) && Distinct(RoundIds(race.rounds)) && k < |race.rounds|
    ensures var n := Play(race, ops);
            && k < |n.rounds| && (n.rounds[k].winnerId.Some? <==> n.rounds[k].status == Won)
            && (forall p :: WinsOf(n.wins, p) == RoundsWonBy(n.rounds, p))
            && Successes(race, ops, race.rounds[k].id, false) == Count(Ended(n.rounds[k].status))
            && Successes(race, ops, race.rounds[k].id, false) <= Successes(race, ops, race.rounds[k].id, true) <= 1
  {
    FreshRaceInv(race);
    PlayKeeps(race, ops);
    EndsOnce(race, ops, k);
  }

  /** The claims that decided anything name the player and came before the round closed. */
  lemma {:induction false} WinnersClaimedInTime(race: WordRace, ops: seq<Op>, k: nat)
    requires RaceInv(race) && k < |race.rounds| && !Ended(race.rounds[k].status)
    ensures var n := Play(race, ops);
            && k < |n.rounds|
            && (n.rounds[k].status == Won ==>
                  exists i :: 0 <= i < |ops| && ops[i].ClaimRound? && ops[i].roundId == race.rounds[k].id
                           && n.rounds[k].winnerId == Some(ops[i].playerId) && ops[i].now < race.rounds[k].closesAt)
            && (n.rounds[k].status == Expired ==>
                  exists i :: 0 <= i < |ops| && ops[i].ExpireRound? && ops[i].roundId == race.rounds[k].id
                           && ops[i].now >= race.rounds[k].closesAt)
    decreases |ops|
  {
    if ops != [] {
      var n := Apply(race, ops[0]);
      ApplyKeeps(race, ops[0]);
      OneRoundMoves(race, ops[0]);
      if Ended(n.rounds[k].status) {
        EndedStays(n, ops[1..], k);
      } else {
        WinnersClaimedInTime(n, ops[1..], k);
        assert forall i :: 0 <= i < |ops| - 1 ==> ops[1..][i] == ops[i + 1];
      }
    }
  }

  lemma {:induction false} EndedStays(race: WordRace, ops: seq<Op>, k: nat)
    requires RaceInv(race) && k < |race.rounds| && Ended(race.rounds[k].status)
    ensures var n := Play(race, ops); k < |n.rounds| && n.rounds[k] == race.rounds[k]
    decreases |ops|
  {
    if ops != [] {
      ApplyKeeps(race, ops[0]);
      OneRoundMoves(race, ops[0]);
      EndedStays(Apply(race, ops[0]), ops[1..], k);
    }
  }
}
