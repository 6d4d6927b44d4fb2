/** The votes a battle holds, running or finished, against the votes that were accepted. */
module VoteRecord {
  import opened Sequences
  import opened Text
  import opened Domain
  import opened RoomEvents
  import opened RoomInvariant
  import opened BattleRun
  import RoomService

  /** A vote accepted for a dancer of a battle. */
  datatype Receipt = Receipt(battleId: Id, voter: Id, dancer: Id, at: int)

  function ReceiptsFor(r: Room, e: Event): seq<Receipt> {
    if e.CastVote? && RoomService.CanVote(r, e.id, e.choice, e.now) && e.choice.Some?
    then [Receipt(r.battle.value.id, e.id, e.choice.value, e.now)]
    else []
  }

  /** Every vote a run accepts, in order. */
  function Receipts(fold: Fold, r: Room, events: seq<Event>): seq<Receipt>
    decreases |events|
  {
    if events == [] then []
    else
      var n := Next(fold, r, events[0]);
      ReceiptsFor(r, events[0]) + (if n.Some? then Receipts(fold, n.value, events[1..]) else [])
  }

  /** A vote for this dancer was accepted from this voter while the song of the battle played. */
  ghost predicate Receipted(b: Battle, receipts: seq<Receipt>, voter: Id, dancer: Id) {
    exists k :: 0 <= k < |receipts| && receipts[k] == Receipt(b.id, voter, dancer, receipts[k].at)
             && b.startedAt <= receipts[k].at < b.endsAt
  }

  ghost predicate AllReceipted(r: Room, receipts: seq<Receipt>) {
    r.battle.Some? ==> forall v :: v in r.battle.value.votes ==> Receipted(r.battle.value, receipts, v, r.battle.value.votes[v])
  }

  lemma MoreReceipts(b: Battle, c: Battle, past: seq<Receipt>, more: seq<Receipt>, voter: Id, dancer: Id)
    requires Receipted(b, past, voter, dancer) && SameContest(b, c)
    ensures Receipted(c, past + more, voter, dancer)
  {
    var k :| 0 <= k < |past| && past[k] == Receipt(b.id, voter, dancer, past[k].at) && b.startedAt <= past[k].at < b.endsAt;
    assert (past + more)[k] == past[k];
  }

  lemma FewerVotes(r: Room, n: Room, past: seq<Receipt>, more: seq<Receipt>)
    requires r.battle.Some? && n.battle.Some? && SameContest(r.battle.value, n.battle.value) && AllReceipted(r, past)
    requires forall v :: v in n.battle.value.votes ==> v in r.battle.value.votes && n.battle.value.votes[v] == r.battle.value.votes[v]
    ensures AllReceipted(n, past + more)
  {
    forall v | v in n.battle.value.votes ensures Receipted(n.battle.value, past + more, v, n.battle.value.votes[v]) {
      MoreReceipts(r.battle.value, n.battle.value, past, more, v, n.battle.value.votes[v]);
    }
  }

  lemma NewVote(fold: Fold, r: Room, e: Event, past: seq<Receipt>)
    requires Inv(fold, r) && r.status == Battling && e.CastVote? && RoomService.CanVote(r, e.id, e.choice, e.now)
    requires AllReceipted(r, past)
    ensures var o := RoomService.CastVote(r, e.id, e.choice, e.now); o.Changed? ==> AllReceipted(o.room, past + ReceiptsFor(r, e))
  {
    var o := RoomService.CastVote(r, e.id, e.choice, e.now);
    if o.Changed? {
      var b, c := r.battle.value, o.room.battle.value;
      forall v | v in c.votes ensures Receipted(c, past + ReceiptsFor(r, e), v, c.votes[v]) {
        assert RoomService.VoteOf(o.room, v) == Some(c.votes[v]);
        if v == e.id {
          assert (past + ReceiptsFor(r, e))[|past|] == Receipt(b.id, v, c.votes[v], e.now);
        } else {
          assert RoomService.VoteOf(r, v) == Some(c.votes[v]);
          MoreReceipts(b, c, past, ReceiptsFor(r, e), v, c.votes[v]);
        }
      }
    }
  }

  lemma ReceiptedWhileRunning(fold: Fold, r: Room, e: Event, past: seq<Receipt>)
    requires Inv(fold, r) && r.status == Battling && AllReceipted(r, past)
    ensures var n := Next(fold, r, e); n.Some? ==> AllReceipted(n.value, past + ReceiptsFor(r, e))
  {
    if e.CastVote? {
      NextOfVote(fold, r, e);
      if RoomService.CanVote(r, e.id, e.choice, e.now) {
        NewVote(fold, r, e, past);
        FewerVotes(r, r, past, ReceiptsFor(r, e));
      } else {
        FewerVotes(r, r, past, []);
      }
    } else {
      RunningStep(fold, r, e);
      FewerVotes(r, Next(fold, r, e).value, past, []);
    }
  }

  lemma ReceiptedStep(fold: Fold, r: Room, e: Event, past: seq<Receipt>)
    requires Inv(fold, r) && AllReceipted(r, past)
    ensures var n := Next(fold, r, e); n.Some? ==> AllReceipted(n.value, past + ReceiptsFor(r, e))
  {
    var n := Next(fold, r, e);
    if n.Some? {
      match r.status
      case Battling => ReceiptedWhileRunning(fold, r, e, past);
      case Waiting => LobbyStep(fold, r, e);
      case Finished =>
        FinishedStep(fold, r, e);
        NextKeeps(fold, r, e);
        if n.value.status == Finished { FewerVotes(r, n.value, past, ReceiptsFor(r, e)); }
    }
  }

  lemma ReceiptsOfFirst(fold: Fold, r: Room, events: seq<Event>)
    requires events != [] && Next(fold, r, events[0]).Some?
    ensures Receipts(fold, r, events) == ReceiptsFor(r, events[0]) + Receipts(fold, Next(fold, r, events[0]).value, events[1..])
  {
  }

  lemma Regrouped(a: seq<Receipt>, b: seq<Receipt>, c: seq<Receipt>)
    ensures a + b + c == a + (b + c)
  {
  }

  lemma {:induction false} RunIsReceipted(fold: Fold, r: Room, events: seq<Event>, past: seq<Receipt>)
    requires Inv(fold, r) && AllReceipted(r, past)
    ensures var n := Run(fold, r, events); n.Some? ==> AllReceipted(n.value, past + Receipts(fold, r, events))
    decreases |events|
  {
    if events == [] {
      assert past + [] == past;
    } else {
      var e, n := events[0], Next(fold, r, events[0]);
      ReceiptedStep(fold, r, e, past);
      NextKeeps(fold, r, e);
      if n.Some? {
        RunIsReceipted(fold, n.value, events[1..], past + ReceiptsFor(r, e));
        ReceiptsOfFirst(fold, r, events);
        Regrouped(past, ReceiptsFor(r, e), Receipts(fold, n.value, events[1..]));
      }
    }
  }

  /** In every room that any updates make of a new one, each vote the battle holds, whether
      the battle still runs or its votes are frozen, was accepted from that voter for that
      dancer in that battle, between the start and the end of its song. */
  lemma EveryStoredVoteWasInTime(fold: Fold, id: Id, displayName: string, code: string, createdAt: int, events: seq<Event>)
    requires RoomService.Create(id, displayName, code, createdAt).Changed?
    ensures var created := RoomService.Create(id, displayName, code, createdAt).room;
            var n := Run(fold, created, events);
            n.Some? ==> AllReceipted(n.value, Receipts(fold, created, events))
  {
    var created := RoomService.Create(id, displayName, code, createdAt).room;
    CreateEstablishes(fold, id, displayName, code, createdAt);
    RunIsReceipted(fold, created, events, []);
    assert [] + Receipts(fold, created, events) == Receipts(fold, created, events);
  }
}
