/** Where in the song the rounds of a planned race lie, told by the margins of the song: in
    the part between them, as many as that part holds, at any places and with any words. */
module PlanMargins {
  import opened Sequences
  import opened Text
  import opened Domain
  import opened WordRounds
  import opened WordPlan
  import RoomInvariant

  /** A window that opens then lies between the margins of the song. */
  predicate Usable(songMs: int, options: PlanOptions, offset: int) {
    && songMs as real * options.startMarginRatio <= offset as real
    && (offset + options.windowMs) as real <= songMs as real * options.endMarginRatio
  }

  /** Openings between the margins, one after another, at least the required distance and a
      whole window apart. */
  ghost predicate Placed(songMs: int, options: PlanOptions, offsets: seq<int>) {
    && (forall i :: 0 <= i < |offsets| ==> Usable(songMs, options, offsets[i]))
    && (forall i :: 0 < i < |offsets| ==> offsets[i] - offsets[i - 1] >= options.minGapMs && offsets[i] - offsets[i - 1] >= options.windowMs)
  }

  lemma AtLeastCeil(n: int, x: real)
    ensures x <= n as real <==> Ceil(x) <= n
  {
    var y := -x;
    assert y.Floor as real <= y < y.Floor as real + 1.0;
    if Ceil(x) <= n {
      assert n as real >= (-y.Floor) as real;
    } else {
      assert n + 1 <= -y.Floor;
      assert (n + 1) as real <= (-y.Floor) as real;
    }
  }

  lemma AtMostFloor(n: int, x: real)
    ensures n as real <= x <==> n <= x.Floor
  {
    assert x.Floor as real <= x < x.Floor as real + 1.0;
    if n > x.Floor { assert n as real >= (x.Floor + 1) as real; }
  }

  lemma UsableIsInSlots(songMs: nat, options: PlanOptions, offset: int)
    ensures Usable(songMs, options, offset) <==> SlotsOf(songMs, options).first <= offset <= SlotsOf(songMs, options).lastOpen
  {
    AtLeastCeil(offset, songMs as real * options.startMarginRatio);
    AtMostFloor(offset + options.windowMs, songMs as real * options.endMarginRatio);
  }

  lemma PlacedIsLegal(songMs: nat, options: PlanOptions, offsets: seq<int>)
    ensures Placed(songMs, options, offsets) <==> Legal(SlotsOf(songMs, options), offsets)
  {
    forall i | 0 <= i < |offsets|
      ensures Usable(songMs, options, offsets[i]) <==> SlotsOf(songMs, options).first <= offsets[i] <= SlotsOf(songMs, options).lastOpen
    {
      UsableIsInSlots(songMs, options, offsets[i]);
    }
  }

  /** The song of a running battle is what lies between its start and its end. */
  lemma SongIsTheBattle(fold: Fold, room: Room, options: PlanOptions)
    requires RoomInvariant.Inv(fold, room) && room.status == Battling
    ensures room.battle.Some? && SongMs(room.battle.value, options) == room.battle.value.endsAt - room.battle.value.startedAt
  {
    assert RoomInvariant.BattleInv(room);
  }

  function Openings(battle: Battle, rounds: seq<WordRound>): (r: seq<int>)
    ensures |r| == |rounds| && forall k :: 0 <= k < |r| ==> r[k] == rounds[k].opensAt - battle.startedAt
  {
    seq(|rounds|, k requires 0 <= k < |rounds| => rounds[k].opensAt - battle.startedAt)
  }

  /** What every round says of itself. */
  ghost predicate Described(battle: Battle, options: PlanOptions, words: seq<string>, round: WordRound, k: nat) {
    && round.number == k + 1 && round.closesAt - round.opensAt == options.windowMs && round.word in words
    && exists d :: round.id == battle.id + ":" + d && IsNumeral(d, k + 1)
  }

  lemma PickedFromPool(words: seq<string>, count: nat, wordDraws: nat -> nat, k: nat)
    requires k < |Picks(words, count, wordDraws, 0)|
    ensures Picks(words, count, wordDraws, 0)[k] in words
  {
    var left := PicksPartition(words, count, wordDraws, 0);
    var picked := Picks(words, count, wordDraws, 0);
    assert picked[k] in multiset(picked);
    assert picked[k] in multiset(words);
  }

  lemma RoundIsDescribed(battle: Battle, options: PlanOptions, words: seq<string>, picked: seq<string>, offsets: seq<int>, k: nat)
    requires |picked| <= |offsets| && k < |picked| && picked[k] in words
    ensures Described(battle, options, words, PlannedRounds(battle, options.windowMs, picked, offsets)[k], k)
  {
    DigitsAreTheNumeral(k + 1);
    assert RoundId(battle.id, k + 1) == battle.id + ":" + Digits(k + 1);
  }

  lemma PrefixIsPlaced(songMs: int, options: PlanOptions, offsets: seq<int>, n: nat)
    requires Placed(songMs, options, offsets) && n <= |offsets|
    ensures Placed(songMs, options, offsets[..n])
  {
  }

  lemma OpeningsAre(battle: Battle, windowMs: nat, picked: seq<string>, offsets: seq<int>)
    requires |picked| <= |offsets|
    ensures Openings(battle, PlannedRounds(battle, windowMs, picked, offsets)) == offsets[..|picked|]
  {
  }

  /** The rounds planned for a song of that length. */
  function RoundsFor(battle: Battle, songMs: nat, options: PlanOptions, words: seq<string>, draws: nat -> nat, wordDraws: nat -> nat): seq<WordRound> {
    var offsets := RandomOffsets(SlotsOf(songMs, options), options.rounds, draws);
    PlannedRounds(battle, options.windowMs, Picks(words, |offsets|, wordDraws, 0), offsets)
  }

  lemma RoundsForTheBattle(fold: Fold, room: Room, options: PlanOptions, words: seq<string>, draws: nat -> nat, wordDraws: nat -> nat)
    returns (songMs: nat)
    requires RoomInvariant.Inv(fold, room) && room.status == Battling
    ensures room.battle.Some? && songMs == room.battle.value.endsAt - room.battle.value.startedAt == SongMs(room.battle.value, options)
    ensures PlannedRace(room, options, words, draws, wordDraws).rounds == RoundsFor(room.battle.value, songMs, options, words, draws, wordDraws)
  {
    SongIsTheBattle(fold, room, options);
    songMs := SongMs(room.battle.value, options);
  }

  lemma RoundsArePlaced(battle: Battle, songMs: nat, options: PlanOptions, words: seq<string>, draws: nat -> nat, wordDraws: nat -> nat)
    ensures Placed(songMs, options, Openings(battle, RoundsFor(battle, songMs, options, words, draws, wordDraws)))
  {
    var offsets := RandomOffsets(SlotsOf(songMs, options), options.rounds, draws);
    var picked := Picks(words, |offsets|, wordDraws, 0);
    OffsetsAreLegal(SlotsOf(songMs, options), options.rounds, draws);
    PlacedIsLegal(songMs, options, offsets);
    PrefixIsPlaced(songMs, options, offsets, |picked|);
    OpeningsAre(battle, options.windowMs, picked, offsets);
  }

  lemma RoundsAreDescribed(battle: Battle, songMs: nat, options: PlanOptions, words: seq<string>, draws: nat -> nat, wordDraws: nat -> nat)
    ensures var rounds := RoundsFor(battle, songMs, options, words, draws, wordDraws);
            forall k :: 0 <= k < |rounds| ==> Described(battle, options, words, rounds[k], k)
  {
    var offsets := RandomOffsets(SlotsOf(songMs, options), options.rounds, draws);
    var picked := Picks(words, |offsets|, wordDraws, 0);
    var rounds := PlannedRounds(battle, options.windowMs, picked, offsets);
    forall k | 0 <= k < |rounds| ensures Described(battle, options, words, rounds[k], k) {
      PickedFromPool(words, |offsets|, wordDraws, k);
      RoundIsDescribed(battle, options, words, picked, offsets, k);
    }
  }

  /** Every round of a planned race opens and closes between the margins of the song, at the
      required distance from the one before; it shows a word of the list for the whole window,
      and is numbered. */
  lemma RoundsLieBetweenTheMargins(fold: Fold, room: Room, options: PlanOptions, words: seq<string>, draws: nat -> nat, wordDraws: nat -> nat)
    returns (songMs: nat)
    requires RoomInvariant.Inv(fold, room) && room.status == Battling
    ensures room.battle.Some? && songMs == room.battle.value.endsAt - room.battle.value.startedAt
    ensures var battle, race := room.battle.value, PlannedRace(room, options, words, draws, wordDraws);
            && race.battleId == battle.id && race.roomCode == room.code && (race.rounds != [] ==> |race.rounds| <= options.rounds)
            && Placed(songMs, options, Openings(battle, race.rounds))
            && (forall k :: 0 <= k < |race.rounds| ==> Described(battle, options, words, race.rounds[k], k))
  {
    songMs := RoundsForTheBattle(fold, room, options, words, draws, wordDraws);
    PlannedCount(room.battle.value, songMs, options, words, draws, wordDraws);
    RoundsArePlaced(room.battle.value, songMs, options, words, draws, wordDraws);
    RoundsAreDescribed(room.battle.value, songMs, options, words, draws, wordDraws);
  }

  /** No distance is required and there is one moment only at which a round could open. */
  ghost predicate OneMoment(songMs: int, options: PlanOptions) {
    && options.windowMs == 0 && options.minGapMs <= 0
    && exists x :: Usable(songMs, options, x) && forall y :: Usable(songMs, options, y) ==> y == x
  }

  ghost predicate HoldsNoMore(songMs: int, options: PlanOptions, words: seq<string>, planned: nat) {
    forall offsets: seq<int> :: Placed(songMs, options, offsets) && |offsets| <= options.rounds ==> Min(|offsets|, |words|) <= planned
  }

  lemma OneMomentIsOneSlot(songMs: nat, options: PlanOptions)
    ensures OneMoment(songMs, options) <==> SlotsOf(songMs, options).step == 0 && SlotsOf(songMs, options).first == SlotsOf(songMs, options).lastOpen
  {
    var slots := SlotsOf(songMs, options);
    forall x ensures Usable(songMs, options, x) <==> slots.first <= x <= slots.lastOpen { UsableIsInSlots(songMs, options, x); }
    if slots.step == 0 && slots.first == slots.lastOpen {
      assert Usable(songMs, options, slots.first);
    }
    if OneMoment(songMs, options) {
      var x :| Usable(songMs, options, x) && forall y :: Usable(songMs, options, y) ==> y == x;
      assert Usable(songMs, options, slots.first) && Usable(songMs, options, slots.lastOpen);
    }
  }

  lemma NothingMoreIsHeld(songMs: nat, options: PlanOptions, words: seq<string>)
    requires Largest(SlotsOf(songMs, options), options.rounds)
    ensures HoldsNoMore(songMs, options, words, Min(RoundCount(SlotsOf(songMs, options), options.rounds), |words|))
  {
    forall offsets: seq<int> | Placed(songMs, options, offsets) && |offsets| <= options.rounds
      ensures Min(|offsets|, |words|) <= Min(RoundCount(SlotsOf(songMs, options), options.rounds), |words|)
    {
      PlacedIsLegal(songMs, options, offsets);
    }
  }

  lemma UsesTheWholeSong(songMs: nat, options: PlanOptions, words: seq<string>)
    ensures HoldsNoMore(songMs, options, words, Min(RoundCount(SlotsOf(songMs, options), options.rounds), |words|))
       <==> !(options.rounds > 0 && words != [] && OneMoment(songMs, options))
  {
    var slots := SlotsOf(songMs, options);
    OneMomentIsOneSlot(songMs, options);
    PlansAsManyAsFit(slots, options.rounds);
    if !(options.rounds > 0 && OneMoment(songMs, options)) {
      NothingMoreIsHeld(songMs, options, words);
    } else if words != [] {
      PlacedIsLegal(songMs, options, [slots.first]);
      assert Legal(slots, [slots.first]);
      assert |[slots.first]| <= options.rounds && Min(|[slots.first]|, |words|) == 1;
    }
  }

  lemma PlannedCount(battle: Battle, songMs: nat, options: PlanOptions, words: seq<string>, draws: nat -> nat, wordDraws: nat -> nat)
    ensures |RoundsFor(battle, songMs, options, words, draws, wordDraws)| == Min(RoundCount(SlotsOf(songMs, options), options.rounds), |words|)
  {
  }

  /** The part of the song between the margins holds no more rounds than are planned, of those
      wanted and of the words there are; except exactly when no distance is required and there
      is one moment only: then none is planned although one would fit. */
  lemma PlanUsesTheWholeSong(fold: Fold, room: Room, options: PlanOptions, words: seq<string>, draws: nat -> nat, wordDraws: nat -> nat)
    returns (songMs: nat)
    requires RoomInvariant.Inv(fold, room) && room.status == Battling
    ensures room.battle.Some? && songMs == room.battle.value.endsAt - room.battle.value.startedAt
    ensures var planned := |PlannedRace(room, options, words, draws, wordDraws).rounds|;
            HoldsNoMore(songMs, options, words, planned) <==> !(options.rounds > 0 && words != [] && OneMoment(songMs, options))
  {
    songMs := RoundsForTheBattle(fold, room, options, words, draws, wordDraws);
    UsesTheWholeSong(songMs, options, words);
    PlannedCount(room.battle.value, songMs, options, words, draws, wordDraws);
  }

  lemma RoundsForThatLong(fold: Fold, room: Room, songMs: nat, options: PlanOptions, words: seq<string>, draws: nat -> nat, wordDraws: nat -> nat)
    requires RoomInvariant.Inv(fold, room) && room.status == Battling && room.battle.Some?
    requires songMs == room.battle.value.endsAt - room.battle.value.startedAt
    ensures PlannedRace(room, options, words, draws, wordDraws).rounds == RoundsFor(room.battle.value, songMs, options, words, draws, wordDraws)
  {
    var length := RoundsForTheBattle(fold, room, options, words, draws, wordDraws);
    SameLength(room.battle.value, length, songMs, options, words, draws, wordDraws);
  }

  lemma SameLength(battle: Battle, a: nat, b: nat, options: PlanOptions, words: seq<string>, draws: nat -> nat, wordDraws: nat -> nat)
    requires a == b
    ensures RoundsFor(battle, a, options, words, draws, wordDraws) == RoundsFor(battle, b, options, words, draws, wordDraws)
  {
  }

  lemma PlacementIsDrawn(battle: Battle, songMs: nat, options: PlanOptions, words: seq<string>, offsets: seq<int>, wanted: seq<string>)
    returns (draws: nat -> nat, wordDraws: nat -> nat)
    requires Placed(songMs, options, offsets) && |offsets| == RoundCount(SlotsOf(songMs, options), options.rounds)
    requires |wanted| == |offsets| && multiset(wanted) <= multiset(words)
    ensures var rounds := RoundsFor(battle, songMs, options, words, draws, wordDraws);
            Openings(battle, rounds) == offsets && forall k :: 0 <= k < |offsets| ==> rounds[k].word == wanted[k]
  {
    PlacedIsLegal(songMs, options, offsets);
    draws := DrawsFor(SlotsOf(songMs, options), offsets);
    EveryPlacementIsDrawn(SlotsOf(songMs, options), options.rounds, offsets);
    wordDraws := EveryPickIsDrawn(words, wanted, 0);
    OpeningsAre(battle, options.windowMs, wanted, offsets);
  }

  /** With a list longer than the race, any placement of as many rounds as some draws plan, with
      any words of the list, is planned for some draws. */
  lemma EveryPlanIsDrawn(fold: Fold, room: Room, songMs: nat, options: PlanOptions, words: seq<string>, offsets: seq<int>,
                         wanted: seq<string>, otherDraws: nat -> nat, otherWords: nat -> nat)
    returns (draws: nat -> nat, wordDraws: nat -> nat)
    requires RoomInvariant.Inv(fold, room) && room.status == Battling && room.battle.Some?
    requires songMs == room.battle.value.endsAt - room.battle.value.startedAt && Placed(songMs, options, offsets)
    requires |offsets| == |PlannedRace(room, options, words, otherDraws, otherWords).rounds|
    requires |wanted| == |offsets| && |words| > |offsets| && multiset(wanted) <= multiset(words)
    ensures var race := PlannedRace(room, options, words, draws, wordDraws);
            && Openings(room.battle.value, race.rounds) == offsets
            && (forall k :: 0 <= k < |offsets| ==> race.rounds[k].word == wanted[k])
  {
    RoundsForThatLong(fold, room, songMs, options, words, otherDraws, otherWords);
    PlannedCount(room.battle.value, songMs, options, words, otherDraws, otherWords);
    draws, wordDraws := PlacementIsDrawn(room.battle.value, songMs, options, words, offsets, wanted);
    RoundsForThatLong(fold, room, songMs, options, words, draws, wordDraws);
  }
}
