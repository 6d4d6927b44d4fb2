/** The order in which users-service keeps the participants of a match, told without the
    comparison it sorts by. */
module ResultsTable {
  import opened Sequences
  import opened Text
  import opened Domain
  import opened MatchHistory
  import MatchDocument
  import RoomInvariant
  import Scoring

  /** Strictly before in code-unit order: the texts agree up to a place where the first ends
      and the second goes on, or has the smaller code unit. */
  ghost predicate Precedes(a: string, b: string) {
    exists k :: AgreeUpTo(a, b, k) && k < |b| && (k == |a| || a[k] < b[k])
  }

  predicate AgreeUpTo(a: string, b: string, k: int) {
    0 <= k <= |a| && k <= |b| && a[..k] == b[..k]
  }

  lemma {:induction false} TextLeqPrecedes(a: string, b: string)
    requires TextLeq(a, b) && a != b
    ensures Precedes(a, b)
  {
    if a == [] || a[0] < b[0] {
      assert AgreeUpTo(a, b, 0);
    } else {
      assert a == [a[0]] + a[1..] && b == [b[0]] + b[1..];
      TextLeqPrecedes(a[1..], b[1..]);
      var k :| AgreeUpTo(a[1..], b[1..], k) && k < |b[1..]| && (k == |a[1..]| || a[1..][k] < b[1..][k]);
      assert a[..k + 1] == [a[0]] + a[1..][..k] && b[..k + 1] == [b[0]] + b[1..][..k];
      assert AgreeUpTo(a, b, k + 1);
    }
  }

  /** Equal, or strictly before. */
  ghost predicate NotAfter(a: string, b: string) { a == b || Precedes(a, b) }

  /** What the order of two lines promises: dancers before spectators; of two dancers the one
      of the smaller rank first and one without a rank last; then by name, then by player. */
  ghost predicate InOrder(a: MatchParticipant, b: MatchParticipant) {
    && !(a.role == SPECTATOR && b.role == DANCER)
    && (a.role == DANCER && b.role == DANCER ==>
          && !(a.rank.None? && b.rank.Some?)
          && (a.rank.Some? && b.rank.Some? ==> a.rank.value <= b.rank.value))
    && (a.role == b.role && (a.role == SPECTATOR || a.rank == b.rank) ==>
          && NotAfter(a.displayName, b.displayName)
          && (a.displayName == b.displayName ==> NotAfter(a.playerId, b.playerId)))
  }

  lemma SortedIsInOrder(a: MatchParticipant, b: MatchParticipant)
    requires ResultsOrder(a, b)
    ensures InOrder(a, b)
  {
    if TextLeq(a.displayName, b.displayName) && a.displayName != b.displayName { TextLeqPrecedes(a.displayName, b.displayName); }
    if TextLeq(a.playerId, b.playerId) && a.playerId != b.playerId { TextLeqPrecedes(a.playerId, b.playerId); }
  }

  /** The participants of an accepted match stand in the order of a results table. */
  lemma AcceptedIsInOrder(m: Match, i: nat, j: nat)
    requires MakeMatch(m).Accepted? && i < j < |MakeMatch(m).match_.participants|
    ensures InOrder(MakeMatch(m).match_.participants[i], MakeMatch(m).match_.participants[j])
  {
    AcceptedExactly(m);
    SortedIsInOrder(MakeMatch(m).match_.participants[i], MakeMatch(m).match_.participants[j]);
  }

  ghost predicate RanksFromOne(participants: seq<MatchParticipant>) {
    forall p :: p in participants && p.rank.Some? ==> p.rank.value >= 1
  }

  lemma DocumentRanksFromOne(fold: Fold, room: Room)
    requires RoomInvariant.Inv(fold, room) && room.status == Finished
    ensures MatchDocument.FromFinishedRoom(room).Some? && RanksFromOne(MatchDocument.FromFinishedRoom(room).value.participants)
  {
    MatchDocument.DocumentOfFinished(fold, room);
    var b := room.battle.value;
    var listed := MatchDocument.Listed(room, b);
    forall p | p in listed && p.rank.Some? ensures p.rank.value >= 1 {
      var k :| 0 <= k < |listed| && listed[k] == p;
      MatchDocument.ListedAt(room, b, k);
      if k < |b.roster| { MatchDocument.RecordDescribes(b, b.roster[k]); }
    }
  }

  /** Of a room whose finished battle has a winner, the winner is the first participant stored. */
  lemma WinnerComesFirst(fold: Fold, room: Room)
    requires RoomInvariant.Reachable(fold, room) && room.status == Finished
    ensures MatchDocument.FromFinishedRoom(room).Some?
    ensures var m := MatchDocument.FromFinishedRoom(room).value;
            && MakeMatch(m).Accepted?
            && var stored := MakeMatch(m).match_;
               && stored.winnerPlayerId == m.winnerPlayerId
               && (m.winnerPlayerId.Some? ==> stored.participants != [] && stored.participants[0].playerId == m.winnerPlayerId.value)
  {
    RoomInvariant.ReachableInv(fold, room);
    MatchDocument.DocumentIsAccepted(fold, room);
    MatchDocument.WinnerIsListed(fold, room);
    DocumentRanksFromOne(fold, room);
    var m := MatchDocument.FromFinishedRoom(room).value;
    AcceptedExactly(m);
    if m.winnerPlayerId.Some? { TopOfTheList(m, m.winnerPlayerId.value); }
  }

  lemma StoredIsListed(m: Match, i: nat) returns (k: nat)
    requires MakeMatch(m).Accepted? && i < |MakeMatch(m).match_.participants|
    ensures k < |m.participants| && m.participants[k] == MakeMatch(m).match_.participants[i]
  {
    AcceptedExactly(m);
    assert MakeMatch(m).match_.participants[i] in multiset(m.participants);
    k :| 0 <= k < |m.participants| && m.participants[k] == MakeMatch(m).match_.participants[i];
  }

  lemma ListedIsStored(m: Match, k: nat) returns (i: nat)
    requires MakeMatch(m).Accepted? && k < |m.participants|
    ensures i < |MakeMatch(m).match_.participants| && MakeMatch(m).match_.participants[i] == m.participants[k]
  {
    AcceptedExactly(m);
    var stored := MakeMatch(m).match_.participants;
    assert m.participants[k] in multiset(stored);
    i :| 0 <= i < |stored| && stored[i] == m.participants[k];
  }

  lemma TopOfTheList(m: Match, winner: Id)
    requires MakeMatch(m).Accepted? && MatchDocument.TopsTheList(m.participants, winner) && RanksFromOne(m.participants)
    ensures var stored := MakeMatch(m).match_.participants; stored != [] && stored[0].playerId == winner
  {
    var stored := MakeMatch(m).match_.participants;
    var k :| 0 <= k < |m.participants| && m.participants[k].playerId == winner && m.participants[k].role == DANCER
             && forall j :: 0 <= j < |m.participants| ==> (m.participants[j].rank == Some(1) <==> j == k);
    var i := ListedIsStored(m, k);
    var first := StoredIsListed(m, 0);
    assert m.participants[first] in m.participants;
    if i > 0 {
      AcceptedIsInOrder(m, 0, i);
      assert stored[0].rank == Some(1);
    }
  }
}
