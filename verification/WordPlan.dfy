/** The timeline of a word race: how many rounds fit into a song, when they open, and
    which words they show. Ratios are real numbers, moments whole milliseconds. */
module WordPlan {
  import opened Sequences
  import opened Text
  import opened Domain
  import opened WordRounds
  import RoomInvariant

  // ----- where rounds may open -----

  function Max(a: int, b: int): int { if a >= b then a else b }

  function Min(a: int, b: int): int { if a <= b then a else b }

  function Ceil(x: real): int { -((-x).Floor) }

  /** The first and the last moment, after the start of the song, at which a round may
      open, and the least distance between two openings. */
  datatype Slots = Slots(first: int, lastOpen: int, step: nat)

  datatype PlanOptions = PlanOptions(rounds: int, windowMs: nat, minGapMs: int, fallbackDurationMs: nat,
                                     startMarginRatio: real, endMarginRatio: real)

  function Share(songMs: nat, ratio: real): real { songMs as real * ratio }

  function SlotsOf(songMs: nat, options: PlanOptions): Slots {
    Slots(Ceil(Share(songMs, options.startMarginRatio)),
          Share(songMs, options.endMarginRatio).Floor - options.windowMs,
          Max(options.minGapMs, options.windowMs))
  }

  /** Offsets in range, each at least a step after the one before. */
  ghost predicate Legal(slots: Slots, offsets: seq<int>) {
    && (forall i :: 0 <= i < |offsets| ==> slots.first <= offsets[i] <= slots.lastOpen)
    && (forall i :: 0 < i < |offsets| ==> offsets[i - 1] + slots.step <= offsets[i])
  }

  /** How many rounds are planned. A step of zero divides by zero: with no room at all
      that is not a number and no round is planned, otherwise it is infinite. */
  function RoundCount(slots: Slots, rounds: int): (n: nat)
    ensures n <= Max(rounds, 0)
  {
    if rounds <= 0 || slots.lastOpen < slots.first then 0
    else
      var span := slots.lastOpen - slots.first;
      if slots.step == 0 then (if span == 0 then 0 else rounds)
      else Min(rounds, span / slots.step + 1)
  }

  /** The room left for chance once the gaps are reserved. */
  function Slack(slots: Slots, rounds: int): int {
    slots.lastOpen - slots.first - (RoundCount(slots, rounds) - 1) * slots.step
  }

  /** The bound handed to the random source is always positive. */
  lemma SlackIsThere(slots: Slots, rounds: int)
    requires RoundCount(slots, rounds) > 0
    ensures Slack(slots, rounds) >= 0
  {
    var span, n := slots.lastOpen - slots.first, RoundCount(slots, rounds);
    if slots.step > 0 {
      var most := span / slots.step;
      assert span == most * slots.step + span % slots.step;
      TimesOrder(n - 1, most, slots.step);
    }
  }

  lemma TimesOrder(a: int, b: int, step: nat)
    requires a <= b
    ensures a * step <= b * step
  {
  }

  function Leq(a: int, b: int): bool { a <= b }

  /** `random(n)`, the draw being whatever the random source came up with. */
  function Index(draw: nat, n: nat): (i: nat)
    requires n > 0
    ensures i < n
    ensures draw < n ==> i == draw
  {
    draw % n
  }

  /** The draws, as points in the slack. */
  function Drawn(slack: nat, n: nat, draws: nat -> nat): (r: seq<int>)
    ensures |r| == n && forall i :: 0 <= i < n ==> r[i] == Index(draws(i), slack + 1)
  {
    seq(n, i requires 0 <= i < n => Index(draws(i), slack + 1))
  }

  function Points(slack: nat, n: nat, draws: nat -> nat): seq<int> {
    Sort(Drawn(slack, n, draws), Leq)
  }

  /** Random openings: points in the slack with the gaps added back. */
  function RandomOffsets(slots: Slots, rounds: int, draws: nat -> nat): (r: seq<int>)
    ensures |r| == RoundCount(slots, rounds)
  {
    var n := RoundCount(slots, rounds);
    if n == 0 then []
    else
      SlackIsThere(slots, rounds);
      var points := Points(Slack(slots, rounds), n, draws);
      SortPermutes(Drawn(Slack(slots, rounds), n, draws), Leq);
      seq(n, i requires 0 <= i < n => slots.first + points[i] + i * slots.step)
  }

  lemma PointsInSlack(slack: nat, n: nat, draws: nat -> nat)
    ensures var p := Points(slack, n, draws);
            && |p| == n && SortedBy(p, Leq)
            && (forall i :: 0 <= i < n ==> 0 <= p[i] <= slack)
  {
    var raw := Drawn(slack, n, draws);
    SortPermutes(raw, Leq);
    SortSorts(raw, Leq);
    var p := Points(slack, n, draws);
    forall i | 0 <= i < n ensures 0 <= p[i] <= slack {
      assert p[i] in multiset(raw);
      assert p[i] in raw;
    }
  }

  /** Whatever is drawn, the openings are legal. */
  lemma OffsetsAreLegal(slots: Slots, rounds: int, draws: nat -> nat)
    ensures Legal(slots, RandomOffsets(slots, rounds, draws))
  {
    var n, offsets := RoundCount(slots, rounds), RandomOffsets(slots, rounds, draws);
    if n > 0 {
      SlackIsThere(slots, rounds);
      var slack := Slack(slots, rounds);
      PointsInSlack(slack, n, draws);
      var p := Points(slack, n, draws);
      forall i | 0 <= i < n ensures slots.first <= offsets[i] <= slots.lastOpen {
        TimesOrder(0, i, slots.step);
        TimesOrder(i, n - 1, slots.step);
      }
      forall i | 0 < i < n ensures offsets[i - 1] + slots.step <= offsets[i] {
        assert Leq(p[i - 1], p[i]);
        OneStepMore(i - 1, slots.step);
      }
    }
  }

  lemma OneStepMore(i: nat, step: nat)
    ensures (i + 1) * step == i * step + step
  {
  }

  /** The gaps before and after an offset of a legal placement. */
  lemma {:induction false} RoomBefore(slots: Slots, offsets: seq<int>, i: nat)
    requires Legal(slots, offsets) && i < |offsets|
    ensures slots.first + i * slots.step <= offsets[i]
  {
    if i > 0 {
      RoomBefore(slots, offsets, i - 1);
      OneStepMore(i - 1, slots.step);
    }
  }

  lemma {:induction false} RoomAfter(slots: Slots, offsets: seq<int>, i: nat)
    requires Legal(slots, offsets) && i < |offsets|
    ensures offsets[i] + (|offsets| - 1 - i) * slots.step <= slots.lastOpen
    decreases |offsets| - i
  {
    if i + 1 < |offsets| {
      RoomAfter(slots, offsets, i + 1);
      assert offsets[i + 1 - 1] + slots.step <= offsets[i + 1];
      OneStepMore(|offsets| - 2 - i, slots.step);
    }
  }

  ghost predicate Largest(slots: Slots, rounds: int) {
    forall offsets: seq<int> :: Legal(slots, offsets) && |offsets| <= rounds ==> |offsets| <= RoundCount(slots, rounds)
  }

  lemma NoMoreFit(slots: Slots, rounds: int, offsets: seq<int>)
    requires Legal(slots, offsets) && |offsets| <= rounds && (slots.step > 0 || slots.first != slots.lastOpen)
    ensures |offsets| <= RoundCount(slots, rounds)
  {
    if offsets != [] {
      RoomAfter(slots, offsets, 0);
      assert slots.first <= offsets[0];
      if slots.step > 0 {
        var span := slots.lastOpen - slots.first;
        assert (|offsets| - 1) * slots.step <= span;
        assert span == span / slots.step * slots.step + span % slots.step;
        FitsInQuotient(|offsets| - 1, span / slots.step, slots.step);
      } else {
        assert slots.first <= offsets[0] <= slots.lastOpen;
      }
    }
  }

  lemma FitsInQuotient(a: int, q: int, step: nat)
    requires step > 0 && a * step < (q + 1) * step
    ensures a <= q
  {
    if a > q { TimesOrder(q + 1, a, step); }
  }

  /** As many rounds are planned as can be placed at all, up to the number wanted. The one
      exception: no distance is required and there is just one moment to open at; then
      none is planned. */
  lemma PlansAsManyAsFit(slots: Slots, rounds: int)
    ensures Largest(slots, rounds) <==> !(rounds > 0 && slots.step == 0 && slots.first == slots.lastOpen)
  {
    if rounds > 0 && slots.step == 0 && slots.first == slots.lastOpen {
      assert Legal(slots, [slots.first]) && |[slots.first]| > RoundCount(slots, rounds);
    } else {
      forall offsets: seq<int> | Legal(slots, offsets) && |offsets| <= rounds ensures |offsets| <= RoundCount(slots, rounds) {
        if slots.step == 0 && slots.first == slots.lastOpen {
          assert offsets == [];
        } else {
          NoMoreFit(slots, rounds, offsets);
        }
      }
    }
  }

  /** The draws that lead to a given placement. */
  function DrawsFor(slots: Slots, offsets: seq<int>): nat -> nat {
    (i: nat) => if i < |offsets| then Max(offsets[i] - slots.first - i * slots.step, 0) else 0
  }

  lemma StepsSplit(i: int, last: int, step: nat)
    ensures i * step + (last - i) * step == last * step
  {
  }

  lemma PointFor(slots: Slots, rounds: int, offsets: seq<int>, i: nat)
    requires Legal(slots, offsets) && i < |offsets| == RoundCount(slots, rounds) && Slack(slots, rounds) >= 0
    ensures Index(DrawsFor(slots, offsets)(i), Slack(slots, rounds) + 1) == offsets[i] - slots.first - i * slots.step
  {
    RoomBefore(slots, offsets, i);
    RoomAfter(slots, offsets, i);
    StepsSplit(i, |offsets| - 1, slots.step);
  }

  lemma PointsFor(slots: Slots, rounds: int, offsets: seq<int>)
    requires Legal(slots, offsets) && |offsets| == RoundCount(slots, rounds) > 0
    requires Slack(slots, rounds) >= 0
    ensures var n := |offsets|;
            var raw := Drawn(Slack(slots, rounds), n, DrawsFor(slots, offsets));
            (forall i :: 0 <= i < n ==> raw[i] == offsets[i] - slots.first - i * slots.step) && SortedBy(raw, Leq)
  {
    var n := |offsets|;
    var raw := Drawn(Slack(slots, rounds), n, DrawsFor(slots, offsets));
    forall i | 0 <= i < n ensures raw[i] == offsets[i] - slots.first - i * slots.step {
      PointFor(slots, rounds, offsets, i);
    }
    forall i, j | 0 <= i < j < n ensures Leq(raw[i], raw[j]) {
      GapsAddUp(slots, offsets, i, j);
    }
  }

  lemma {:induction false} GapsAddUp(slots: Slots, offsets: seq<int>, i: nat, j: nat)
    requires Legal(slots, offsets) && i <= j < |offsets|
    ensures offsets[i] - i * slots.step <= offsets[j] - j * slots.step
    decreases j
  {
    if i < j {
      GapsAddUp(slots, offsets, i, j - 1);
      OneStepMore(j - 1, slots.step);
    }
  }

  lemma SortingSorted(s: seq<int>)
    requires SortedBy(s, Leq)
    ensures Sort(s, Leq) == s
  {
    SortPermutes(s, Leq);
    SortSorts(s, Leq);
    SortedUnique(s, Sort(s, Leq), Leq);
  }

  /** Every legal placement of that many rounds can be drawn. */
  lemma EveryPlacementIsDrawn(slots: Slots, rounds: int, offsets: seq<int>)
    requires Legal(slots, offsets) && |offsets| == RoundCount(slots, rounds)
    ensures RandomOffsets(slots, rounds, DrawsFor(slots, offsets)) == offsets
  {
    var n, draws := |offsets|, DrawsFor(slots, offsets);
    if n > 0 {
      SlackIsThere(slots, rounds);
      PointsFor(slots, rounds, offsets);
      SortingSorted(Drawn(Slack(slots, rounds), n, draws));
      var drawn := RandomOffsets(slots, rounds, draws);
      forall i | 0 <= i < n ensures drawn[i] == offsets[i] {
        assert drawn[i] == slots.first + Points(Slack(slots, rounds), n, draws)[i] + i * slots.step;
      }
    }
  }

  // ----- which words are shown -----

  function RemoveAt<T>(s: seq<T>, i: nat): (r: seq<T>)
    requires i < |s|
    ensures |r| == |s| - 1
  {
    s[..i] + s[i + 1..]
  }

  lemma RemovedOne<T>(s: seq<T>, i: nat)
    requires i < |s|
    ensures multiset(s) == multiset{s[i]} + multiset(RemoveAt(s, i))
  {
    assert s == s[..i] + [s[i]] + s[i + 1..];
  }

  /** Entries drawn one by one, each taken out of the pool; `at` is the number of the first draw. */
  function Picks<T>(pool: seq<T>, count: nat, draws: nat -> nat, at: nat): (r: seq<T>)
    ensures |r| == Min(count, |pool|)
    decreases |pool|
  {
    if count == 0 || pool == [] then []
    else
      var i := Index(draws(at), |pool|);
      [pool[i]] + Picks(RemoveAt(pool, i), count - 1, draws, at + 1)
  }

  ghost predicate Partition<T>(pool: seq<T>, picked: seq<T>, left: seq<T>) {
    multiset(picked) + multiset(left) == multiset(pool)
  }

  /** Between two picks: what is picked, followed by what would be picked from the rest, is the whole pick. */
  ghost predicate OnTrack<T>(pool: seq<T>, count: nat, draws: nat -> nat, picked: seq<T>, remaining: seq<T>) {
    && |picked| <= count && Partition(pool, picked, remaining)
    && picked + Picks(remaining, count - |picked|, draws, |picked|) == Picks(pool, count, draws, 0)
  }

  /** The partial shuffle: what was picked and what is left make up the pool. */
  method PickDistinct<T>(pool: seq<T>, count: nat, draws: nat -> nat) returns (picked: seq<T>, ghost left: seq<T>)
    ensures picked == Picks(pool, count, draws, 0) && Partition(pool, picked, left)
  {
    var remaining := pool;
    picked := [];
    while |picked| < count && |remaining| > 0
      invariant OnTrack(pool, count, draws, picked, remaining)
      decreases |remaining|
    {
      PickOne(pool, count, draws, picked, remaining);
      var i := Index(draws(|picked|), |remaining|);
      picked, remaining := picked + [remaining[i]], RemoveAt(remaining, i);
    }
    left := remaining;
  }

  lemma PickOne<T>(pool: seq<T>, count: nat, draws: nat -> nat, picked: seq<T>, remaining: seq<T>)
    requires OnTrack(pool, count, draws, picked, remaining) && |picked| < count && remaining != []
    ensures var i := Index(draws(|picked|), |remaining|);
            OnTrack(pool, count, draws, picked + [remaining[i]], RemoveAt(remaining, i))
  {
    var i := Index(draws(|picked|), |remaining|);
    var rest := Picks(RemoveAt(remaining, i), count - |picked| - 1, draws, |picked| + 1);
    RemovedOne(remaining, i);
    assert picked + ([remaining[i]] + rest) == (picked + [remaining[i]]) + rest;
  }

  lemma OnePicked<T>(x: T, picked: seq<T>, left: seq<T>, rest: seq<T>, pool: seq<T>)
    requires Partition(rest, picked, left) && multiset(pool) == multiset{x} + multiset(rest)
    ensures Partition(pool, [x] + picked, left)
  {
  }

  lemma {:induction false} PicksPartition<T>(pool: seq<T>, count: nat, draws: nat -> nat, at: nat) returns (left: seq<T>)
    ensures Partition(pool, Picks(pool, count, draws, at), left)
    decreases |pool|
  {
    if count == 0 || pool == [] {
      left := pool;
    } else {
      var i := Index(draws(at), |pool|);
      left := PicksPartition(RemoveAt(pool, i), count - 1, draws, at + 1);
      RemovedOne(pool, i);
      OnePicked(pool[i], Picks(RemoveAt(pool, i), count - 1, draws, at + 1), left, RemoveAt(pool, i), pool);
    }
  }

  lemma HalfIsDistinct<T>(whole: seq<T>, a: seq<T>, b: seq<T>)
    requires Distinct(whole) && Partition(whole, a, b)
    ensures Distinct(a) && forall x :: x in a ==> x !in b
  {
    assert multiset(a + b) == multiset(whole);
    PermutationDistinct(whole, a + b);
    forall i, j | 0 <= i < j < |a| ensures a[i] != a[j] {
      assert (a + b)[i] == a[i] && (a + b)[j] == a[j];
    }
    forall i, j | 0 <= i < |a| && 0 <= j < |b| ensures a[i] != b[j] {
      assert (a + b)[i] == a[i] && (a + b)[|a| + j] == b[j];
    }
  }

  /** From a pool without duplicates the picks are distinct, and none of them is left over. */
  lemma PicksAreDistinct<T>(pool: seq<T>, count: nat, draws: nat -> nat)
    requires Distinct(pool)
    ensures Distinct(Picks(pool, count, draws, 0))
    ensures exists left: seq<T> :: Partition(pool, Picks(pool, count, draws, 0), left)
                           && forall word :: word in Picks(pool, count, draws, 0) ==> word !in left
  {
    var left := PicksPartition(pool, count, draws, 0);
    HalfIsDistinct(pool, Picks(pool, count, draws, 0), left);
  }

  lemma {:induction false} SameDrawsSamePicks<T>(pool: seq<T>, count: nat, a: nat -> nat, b: nat -> nat, at: nat)
    requires forall k :: k >= at ==> a(k) == b(k)
    ensures Picks(pool, count, a, at) == Picks(pool, count, b, at)
    decreases |pool|
  {
    if count > 0 && pool != [] {
      SameDrawsSamePicks(RemoveAt(pool, Index(a(at), |pool|)), count - 1, a, b, at + 1);
    }
  }

  lemma WantedIsThere<T>(pool: seq<T>, wanted: seq<T>) returns (i: nat)
    requires wanted != [] && multiset(wanted) <= multiset(pool)
    ensures i < |pool| && pool[i] == wanted[0] && multiset(wanted[1..]) <= multiset(RemoveAt(pool, i))
  {
    HeadAndTail(wanted);
    assert wanted[0] in multiset(pool);
    i :| i < |pool| && pool[i] == wanted[0];
    RemovedOne(pool, i);
  }

  /** Any entries of the pool, in any order, can be what is picked. */
  lemma {:induction false} EveryPickIsDrawn<T>(pool: seq<T>, wanted: seq<T>, at: nat) returns (draws: nat -> nat)
    requires multiset(wanted) <= multiset(pool)
    ensures Picks(pool, |wanted|, draws, at) == wanted
    decreases |wanted|
  {
    draws := (k: nat) => 0;
    if wanted != [] {
      var i := WantedIsThere(pool, wanted);
      var later := EveryPickIsDrawn(RemoveAt(pool, i), wanted[1..], at + 1);
      draws := (k: nat) => if k == at then i else later(k);
      SameDrawsSamePicks(RemoveAt(pool, i), |wanted| - 1, draws, later, at + 1);
      FirstPick(pool, |wanted|, draws, at, i);
    }
  }

  lemma FirstPick<T>(pool: seq<T>, count: nat, draws: nat -> nat, at: nat, i: nat)
    requires count > 0 && draws(at) == i < |pool|
    ensures Picks(pool, count, draws, at) == [pool[i]] + Picks(RemoveAt(pool, i), count - 1, draws, at + 1)
  {
  }

  // ----- the planned race -----

  function RoundId(battleId: Id, number: nat): Id { battleId + ":" + Digits(number) }

  function PlannedRound(battle: Battle, windowMs: nat, k: nat, word: string, offset: int): WordRound {
    WordRound(RoundId(battle.id, k + 1), k + 1, word, battle.startedAt + offset, battle.startedAt + offset + windowMs, None, Scheduled)
  }

  function PlannedRounds(battle: Battle, windowMs: nat, words: seq<string>, offsets: seq<int>): (r: seq<WordRound>)
    requires |words| <= |offsets|
    ensures |r| == |words| && forall k :: 0 <= k < |r| ==> r[k] == PlannedRound(battle, windowMs, k, words[k], offsets[k])
  {
    seq(|words|, k requires 0 <= k < |words| => PlannedRound(battle, windowMs, k, words[k], offsets[k]))
  }

  function NameOf(players: seq<Player>, id: Id): string {
    match Find(players, id)
    case Some(p) => p.displayName
    case None => id
  }

  function SongMs(battle: Battle, options: PlanOptions): nat {
    if battle.song.Some? then battle.song.value.durationSeconds * 1000 else options.fallbackDurationMs
  }

  function PlannedOffsets(battle: Battle, options: PlanOptions, draws: nat -> nat): seq<int> {
    RandomOffsets(SlotsOf(SongMs(battle, options), options), options.rounds, draws)
  }

  /** The race of a running battle, as planned from two series of draws. */
  function PlannedRace(room: Room, options: PlanOptions, words: seq<string>, draws: nat -> nat, wordDraws: nat -> nat): WordRace
    requires room.battle.Some?
  {
    var battle := room.battle.value;
    var offsets := PlannedOffsets(battle, options, draws);
    var picked := Picks(words, |offsets|, wordDraws, 0);
    WordRace(room.code, battle.id, battle.dancerIds, map id | id in battle.dancerIds :: NameOf(room.players, id),
             PlannedRounds(battle, options.windowMs, picked, offsets), map id | id in battle.dancerIds :: 0)
  }

  datatype PlanReply = Planned(race: WordRace) | NoBattle(error: ErrorCode)

  method Plan(room: Room, options: PlanOptions, words: seq<string>, draws: nat -> nat, wordDraws: nat -> nat) returns (reply: PlanReply)
    ensures reply == if room.status == Battling && room.battle.Some? then Planned(PlannedRace(room, options, words, draws, wordDraws))
                     else NoBattle(ROOM_NOT_BATTLING)
  {
    if room.status != Battling || room.battle.None? {
      return NoBattle(ROOM_NOT_BATTLING);
    }
    var battle := room.battle.value;
    var planned := PlannedOffsets(battle, options, draws);
    var picked, left := PickDistinct(words, |planned|, wordDraws);
    var rounds := PlannedRounds(battle, options.windowMs, picked, planned);
    var names: map<Id, string>, wins: map<Id, nat> := map[], map[];
    for i := 0 to |battle.dancerIds|
      invariant names.Keys == wins.Keys == ToSet(battle.dancerIds[..i])
      invariant forall id :: id in names ==> names[id] == NameOf(room.players, id) && wins[id] == 0
    {
      var id := battle.dancerIds[i];
      assert ToSet(battle.dancerIds[..i + 1]) == ToSet(battle.dancerIds[..i]) + {id};
      names, wins := names[id := NameOf(room.players, id)], wins[id := 0];
    }
    assert battle.dancerIds[..|battle.dancerIds|] == battle.dancerIds;
    assert names == map id | id in battle.dancerIds :: NameOf(room.players, id);
    assert wins == map id | id in battle.dancerIds :: 0;
    reply := Planned(WordRace(room.code, battle.id, battle.dancerIds, names, rounds, wins));
  }

  lemma RoundIdsDiffer(battle: Battle, windowMs: nat, words: seq<string>, offsets: seq<int>)
    requires |words| <= |offsets|
    ensures Distinct(RoundIds(PlannedRounds(battle, windowMs, words, offsets)))
  {
    var ids := RoundIds(PlannedRounds(battle, windowMs, words, offsets));
    forall i, j | 0 <= i < j < |ids| ensures ids[i] != ids[j] {
      if ids[i] == ids[j] {
        var head := battle.id + ":";
        assert ids[i][|head|..] == Digits(i + 1) && ids[j][|head|..] == Digits(j + 1);
        DigitsInjective(i + 1, j + 1);
      }
    }
  }

  /** Nobody has played a planned race, and its rounds have different ids. */
  lemma PlannedRaceIsFresh(room: Room, options: PlanOptions, words: seq<string>, draws: nat -> nat, wordDraws: nat -> nat)
    requires room.battle.Some?
    ensures var race := PlannedRace(room, options, words, draws, wordDraws); Fresh(race) && Distinct(RoundIds(race.rounds))
  {
    var offsets := PlannedOffsets(room.battle.value, options, draws);
    RoundIdsDiffer(room.battle.value, options.windowMs, Picks(words, |offsets|, wordDraws, 0), offsets);
  }

  /** Exactly the dancers of the battle take part, under their names in the room, with no win yet. */
  lemma DancersTakePart(fold: Fold, room: Room, options: PlanOptions, words: seq<string>, draws: nat -> nat, wordDraws: nat -> nat)
    requires RoomInvariant.Inv(fold, room) && room.status == Battling && room.battle.Some?
    ensures var race := PlannedRace(room, options, words, draws, wordDraws);
            && race.participantIds == room.battle.value.dancerIds && Distinct(race.participantIds)
            && race.participantNames.Keys == race.wins.Keys == ToSet(race.participantIds)
            && (forall id :: id in race.participantIds ==>
                  race.wins[id] == 0 && exists p :: p in room.players && p.id == id && p.displayName == race.participantNames[id])
  {
    var race := PlannedRace(room, options, words, draws, wordDraws);
    RoomInvariant.DancersDistinct(room.code, room.battle.value);
    forall id | id in race.participantIds
      ensures exists p :: p in room.players && p.id == id && p.displayName == race.participantNames[id]
    {
      assert id in RoomInvariant.IdSet(room.players);
      var p := Find(room.players, id).value;
      assert p in room.players && p.id == id && p.displayName == race.participantNames[id];
    }
  }

  ghost predicate InSong(songMs: int, windowMs: nat, offsets: seq<int>) {
    && (forall k :: 0 <= k < |offsets| ==> 0 <= offsets[k] && offsets[k] + windowMs <= songMs)
    && (forall j, k :: 0 <= j < k < |offsets| ==> offsets[j] + windowMs <= offsets[k])
  }

  lemma PartOfWhole(whole: real, ratio: real)
    requires 0.0 <= whole && 0.0 <= ratio <= 1.0
    ensures 0.0 <= whole * ratio <= whole
  {
    assert whole * (1.0 - ratio) >= 0.0;
    assert whole * (1.0 - ratio) == whole - whole * ratio;
  }

  lemma Shares(songMs: nat, ratio: real)
    requires 0.0 <= ratio <= 1.0
    ensures 0.0 <= Share(songMs, ratio) <= songMs as real
  {
    PartOfWhole(songMs as real, ratio);
  }

  lemma {:induction false} WindowsApart(slots: Slots, offsets: seq<int>, j: nat, k: nat)
    requires Legal(slots, offsets) && j < k < |offsets|
    ensures offsets[j] + slots.step <= offsets[k]
    decreases k
  {
    assert offsets[k - 1] + slots.step <= offsets[k];
    if j < k - 1 { WindowsApart(slots, offsets, j, k - 1); }
  }

  lemma FloorBelow(x: real, n: int)
    requires x <= n as real
    ensures x.Floor <= n
  {
    assert x.Floor as real <= x;
  }

  lemma SlotsInSong(songMs: nat, options: PlanOptions)
    requires 0.0 <= options.startMarginRatio <= 1.0 && 0.0 <= options.endMarginRatio <= 1.0
    ensures var slots := SlotsOf(songMs, options);
            slots.first >= 0 && slots.lastOpen + options.windowMs <= songMs && slots.step >= options.windowMs
  {
    Shares(songMs, options.startMarginRatio);
    Shares(songMs, options.endMarginRatio);
    FloorBelow(-Share(songMs, options.startMarginRatio), 0);
    FloorBelow(Share(songMs, options.endMarginRatio), songMs);
  }

  /** With a start margin of at least 0 and an end margin of at most 1 every window lies in the song. */
  lemma OffsetsInSong(songMs: nat, options: PlanOptions, draws: nat -> nat)
    requires 0.0 <= options.startMarginRatio <= 1.0 && 0.0 <= options.endMarginRatio <= 1.0
    ensures InSong(songMs, options.windowMs, RandomOffsets(SlotsOf(songMs, options), options.rounds, draws))
  {
    var slots := SlotsOf(songMs, options);
    SlotsInSong(songMs, options);
    OffsetsAreLegal(slots, options.rounds, draws);
    LegalInSong(songMs, options.windowMs, slots, RandomOffsets(slots, options.rounds, draws));
  }

  lemma LegalInSong(songMs: int, windowMs: nat, slots: Slots, offsets: seq<int>)
    requires Legal(slots, offsets) && slots.first >= 0 && slots.lastOpen + windowMs <= songMs && slots.step >= windowMs
    ensures InSong(songMs, windowMs, offsets)
  {
    forall j, k | 0 <= j < k < |offsets| ensures offsets[j] + windowMs <= offsets[k] {
      WindowsApart(slots, offsets, j, k);
    }
  }

  /** Windows that lie in the battle and do not overlap. */
  ghost predicate Fits(battle: Battle, rounds: seq<WordRound>) {
    && (forall k :: 0 <= k < |rounds| ==> battle.startedAt <= rounds[k].opensAt <= rounds[k].closesAt <= battle.endsAt)
    && (forall j, k :: 0 <= j < k < |rounds| ==> rounds[j].closesAt <= rounds[k].opensAt)
  }

  /** A race planned for a reachable running battle fits it. */
  lemma PlannedRaceFits(fold: Fold, room: Room, options: PlanOptions, words: seq<string>, draws: nat -> nat, wordDraws: nat -> nat)
    requires RoomInvariant.Inv(fold, room) && room.status == Battling && room.battle.Some?
    requires 0.0 <= options.startMarginRatio <= 1.0 && 0.0 <= options.endMarginRatio <= 1.0
    ensures Fits(room.battle.value, PlannedRace(room, options, words, draws, wordDraws).rounds)
  {
    OffsetsInSong(SongMs(room.battle.value, options), options, draws);
  }

  // ----- the round on screen -----

  predicate Answerable(round: WordRound, now: int): (answerable: bool)
    ensures answerable <==> round.status == Open && round.closesAt > now
  {
    round.status == Open && now < round.closesAt
  }

  /** The round a client that joins is shown: the first that can be answered. */
  function ActiveRound(rounds: seq<WordRound>, now: int): (r: Option<WordRound>)
    ensures r.Some? <==> exists k :: 0 <= k < |rounds| && Answerable(rounds[k], now)
    ensures r.Some? ==> r.value.status == Open && now < r.value.closesAt
    ensures r.Some? ==> exists k ::
              && 0 <= k < |rounds| && rounds[k] == r.value && Answerable(rounds[k], now)
              && forall j :: 0 <= j < k ==> !Answerable(rounds[j], now)
  {
    if rounds == [] then None
    else if Answerable(rounds[0], now) then Some(rounds[0])
    else
      assert forall k :: 0 < k < |rounds| ==> rounds[k] == rounds[1..][k - 1];
      ActiveRound(rounds[1..], now)
  }

  lemma {:induction false} TimesStay(battle: Battle, race: WordRace, ops: seq<Op>)
    requires RaceInv(race) && Fits(battle, race.rounds)
    ensures Fits(battle, Play(race, ops).rounds)
    decreases |ops|
  {
    if ops != [] {
      ApplyKeeps(race, ops[0]);
      OneRoundMoves(race, ops[0]);
      TimesStay(battle, Apply(race, ops[0]), ops[1..]);
    }
  }

  /** Whatever was opened, claimed and expired so far: if no round was opened before its
      time, at most one can be answered at any moment, and it is the one shown. */
  lemma OneRoundAtATime(battle: Battle, race: WordRace, ops: seq<Op>, now: int, k: nat)
    requires Fresh(race) && Distinct(RoundIds(race.rounds)) && Fits(battle, race.rounds)
    requires var rounds := Play(race, ops).rounds;
             && k < |rounds| && Answerable(rounds[k], now)
             && (forall j :: 0 <= j < |rounds| && rounds[j].status != Scheduled ==> rounds[j].opensAt <= now)
    ensures var rounds := Play(race, ops).rounds;
            && (forall j :: 0 <= j < |rounds| && Answerable(rounds[j], now) ==> j == k)
            && ActiveRound(rounds, now) == Some(rounds[k])
  {
    FreshRaceInv(race);
    TimesStay(battle, race, ops);
  }
}
