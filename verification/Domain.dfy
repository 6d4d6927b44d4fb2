/** The values battle-service works on. Moments are milliseconds since the epoch. */
module Domain {
  import opened Sequences

  type Id = string

  const MAX_PLAYERS := 7
  const MIN_DANCERS_PER_BATTLE := 2

  datatype Role = Undecided | Dancer | Spectator

  datatype Player = Player(id: Id, displayName: string, role: Role, ready: bool)

  datatype Song = Song(id: Id, title: string, artist: string, durationSeconds: nat, youtubeId: string)

  datatype ScoringPoints = ScoringPoints(votePoints: int, wordBonusPoints: int)

  datatype EndReason = SongEnd | NotEnoughDancers

  datatype Standing = Standing(dancerId: Id, displayName: string, votes: nat, wordsWon: nat, score: int, rank: nat)

  datatype BattleResult = BattleResult(standings: seq<Standing>, winnerId: Option<Id>)

  datatype RosterEntry = RosterEntry(id: Id, displayName: string)

  datatype Battle = Battle(
    id: Id,
    roomCode: string,
    dancerIds: seq<Id>,
    roster: seq<RosterEntry>,
    audience: seq<RosterEntry>,
    song: Option<Song>,
    votes: map<Id, Id>,
    wordsWon: map<Id, nat>,
    scoring: ScoringPoints,
    startedAt: int,
    endsAt: int,
    finishedAt: Option<int>,
    endReason: Option<EndReason>,
    result: Option<BattleResult>)

  datatype Phase = Typing | Choosing | Done

  datatype ChooserReason = Typed | Timeout | AllFailed | ChooserLeft

  datatype Challenge = Challenge(id: Id, phrase: string, startedAt: int, expiresAt: int)

  datatype SongSelection = SongSelection(
    phase: Phase,
    challenge: Challenge,
    participantIds: seq<Id>,
    failedIds: seq<Id>,
    chooserId: Option<Id>,
    chooserReason: Option<ChooserReason>,
    songOptions: seq<Song>,
    chooseMs: int,
    chooseDeadline: Option<int>,
    autoPicked: bool)

  datatype Status = Waiting | Battling | Finished

  datatype Room = Room(
    code: string,
    hostId: Id,
    players: seq<Player>,
    dancers: Option<seq<Player>>,
    spectators: seq<Player>,
    status: Status,
    battle: Option<Battle>,
    songSelection: Option<SongSelection>,
    selectedSong: Option<Song>,
    lastResult: Option<BattleResult>,
    createdAt: int,
    version: nat)

  datatype ErrorCode =
    | ROOM_NOT_FOUND | ROOM_FULL | ROOM_NOT_WAITING | ROOM_NOT_BATTLING | BATTLE_NOT_STARTED
    | PLAYER_ALREADY_IN_ROOM | PLAYER_NOT_IN_ROOM | INVALID_PLAYER | NOT_ENOUGH_DANCERS | INVALID_DANCER
    | PLAYERS_NOT_READY | SONG_NOT_SELECTED | INVALID_VOTER | BATTLE_FINISHED | ROOM_NOT_FINISHED | NOT_HOST
    | INVALID_MESSAGE | SONG_SELECTION_IN_PROGRESS | SONG_SELECTION_NOT_ACTIVE | NOT_CHALLENGE_PARTICIPANT
    | ATTEMPT_ALREADY_USED | NOT_SONG_CHOOSER | INVALID_SONG | WORD_RACE_NOT_ACTIVE | WORD_ROUND_NOT_OPEN
    | RANGE_ERROR  // a RangeError, the one error that is not a domain error

  /** What a decision on a room comes to: the very same room, a new one, no room, or an error. */
  datatype Outcome = Unchanged | Changed(room: Room) | Removed | Refused(error: ErrorCode)

  type RoomMutation = Room -> Outcome

  // ----- seats -----

  function Ids(players: seq<Player>): (r: seq<Id>)
    ensures |r| == |players| && forall k :: 0 <= k < |r| ==> r[k] == players[k].id
  {
    seq(|players|, k requires 0 <= k < |players| => players[k].id)
  }

  function EntryIds(entries: seq<RosterEntry>): (r: seq<Id>)
    ensures |r| == |entries| && forall k :: 0 <= k < |r| ==> r[k] == entries[k].id
  {
    seq(|entries|, k requires 0 <= k < |entries| => entries[k].id)
  }

  predicate Seated(players: seq<Player>, id: Id) {
    id in Ids(players)
  }

  /** `players.filter(p => p.id !== gone)` */
  function Without(players: seq<Player>, gone: Id): seq<Player> {
    if players == [] then []
    else if players[0].id != gone then [players[0]] + Without(players[1..], gone)
    else Without(players[1..], gone)
  }

  /** `players.filter(p => p.role === role)` */
  function InRole(players: seq<Player>, role: Role): seq<Player> {
    if players == [] then []
    else if players[0].role == role then [players[0]] + InRole(players[1..], role)
    else InRole(players[1..], role)
  }

  /** `players.find(p => p.id === id)` */
  function Find(players: seq<Player>, id: Id): (r: Option<Player>)
    ensures r.Some? <==> Seated(players, id)
    ensures r.Some? ==> r.value in players && r.value.id == id
  {
    if players == [] then None
    else if players[0].id == id then
      assert Ids(players)[0] == id;
      Some(players[0])
    else
      assert Ids(players) == [players[0].id] + Ids(players[1..]);
      Find(players[1..], id)
  }

  lemma {:induction false} WithoutMembers(players: seq<Player>, gone: Id)
    ensures forall p :: p in Without(players, gone) <==> p in players && p.id != gone
    ensures |Without(players, gone)| <= |players|
  {
    if players != [] {
      WithoutMembers(players[1..], gone);
    }
  }

  lemma {:induction false} WithoutDropsId(players: seq<Player>, gone: Id)
    ensures Ids(Without(players, gone)) == Drop(Ids(players), gone)
  {
    if players != [] {
      WithoutDropsId(players[1..], gone);
      assert Ids(players) == [players[0].id] + Ids(players[1..]);
      if players[0].id != gone {
        assert Ids(Without(players, gone)) == [players[0].id] + Ids(Without(players[1..], gone));
      }
    }
  }

  lemma WithoutIds(players: seq<Player>, gone: Id)
    ensures Ids(Without(players, gone)) == Drop(Ids(players), gone)
    ensures forall p :: p in Without(players, gone) <==> p in players && p.id != gone
    ensures |Without(players, gone)| <= |players|
  {
    WithoutMembers(players, gone);
    WithoutDropsId(players, gone);
  }

  lemma {:induction false} InRoleMembers(players: seq<Player>, role: Role)
    ensures forall p :: p in InRole(players, role) <==> p in players && p.role == role
  {
    if players != [] {
      InRoleMembers(players[1..], role);
    }
  }

  lemma {:induction false} IdInRole(players: seq<Player>, role: Role, id: Id)
    ensures id in Ids(InRole(players, role)) <==> exists k :: 0 <= k < |players| && players[k].id == id && players[k].role == role
  {
    if players != [] {
      var rest := players[1..];
      IdInRole(rest, role, id);
      assert forall k :: 0 <= k < |rest| ==> rest[k] == players[k + 1];
      if players[0].role == role {
        assert InRole(players, role) == [players[0]] + InRole(rest, role);
        assert Ids(InRole(players, role)) == [players[0].id] + Ids(InRole(rest, role));
      }
      if k :| 0 <= k < |players| && players[k].id == id && players[k].role == role {
        assert k > 0 ==> rest[k - 1].id == id && rest[k - 1].role == role;
      }
    }
  }

  /** Taking a player out commutes with selecting a role. */
  lemma {:induction false} WithoutInRole(players: seq<Player>, gone: Id, role: Role)
    ensures InRole(Without(players, gone), role) == Without(InRole(players, role), gone)
  {
    if players != [] {
      WithoutInRole(players[1..], gone, role);
    }
  }

  lemma {:induction false} InRoleDistinct(players: seq<Player>, role: Role)
    requires Distinct(Ids(players))
    ensures Distinct(Ids(InRole(players, role)))
    ensures forall id :: id in Ids(InRole(players, role)) ==> id in Ids(players)
  {
    if players != [] {
      var first, others := players[0].id, InRole(players[1..], role);
      assert Ids(players) == [first] + Ids(players[1..]);
      assert forall i :: 0 <= i < |players| - 1 ==> Ids(players)[i + 1] == Ids(players[1..])[i];
      InRoleDistinct(players[1..], role);
      assert first !in Ids(others);
      assert Distinct([first] + Ids(others));
      if players[0].role == role {
        assert Ids(InRole(players, role)) == [first] + Ids(others);
      }
    }
  }

  /** In a room without duplicate ids a player is the one found under their id. */
  lemma {:induction false} FindsThatPlayer(players: seq<Player>, p: Player)
    requires Distinct(Ids(players)) && p in players
    ensures Find(players, p.id) == Some(p)
  {
    if players[0] != p {
      var k :| 0 <= k < |players| && players[k] == p;
      assert Ids(players)[0] != Ids(players)[k];
      assert forall i :: 0 <= i < |players| - 1 ==> Ids(players)[i + 1] == Ids(players[1..])[i];
      assert players[1..][k - 1] == p;
      FindsThatPlayer(players[1..], p);
    }
  }
}
