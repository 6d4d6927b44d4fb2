/** Who hears that a word round is over: each ended round is announced at most once, and
    goes unannounced exactly when no race is stored at the second read of the expiry that
    ended it: the race was deleted after the expiry and no other was stored since. */
module WordAnnouncements {
  import opened Sequences
  import opened Text
  import opened Domain
  import opened WordRounds
  import opened WordSubmission

  /** No round is announced as over twice, none before it is over, and one that is over is
      announced, or about to be, unless its expiry found no race stored on its second read. */
  lemma AnnouncedAtMostOnce(fold: Fold, start: State, actions: seq<Action>, k: nat)
    requires Begins(fold, start) && k < |Perform(fold, start, actions).race.rounds|
    ensures var s := Perform(fold, start, actions);
            var round := s.race.rounds[k];
            && multiset(s.announced)[round.id] <= 1
            && Count(WordRounds.Ended(round.status)) == multiset(s.announced)[round.id]
               + CountIf(s.tasks, DueBy(round.id)) + CountIf(s.tasks, SilentBy(round.id))
  {
    BeginsHolds(fold, start);
    PerformKeeps(fold, start, actions);
    var s := Perform(fold, start, actions);
    TellsBalance(s.race.rounds, s.announced, s.tasks, k);
  }

  lemma TellsBalance(rounds: seq<WordRound>, announced: seq<Id>, tasks: seq<Task>, k: nat)
    requires k < |rounds| && EndsCounted(rounds, tasks) && TellsCounted(announced, tasks)
    ensures var round := rounds[k];
            && multiset(announced)[round.id] <= 1
            && Count(WordRounds.Ended(round.status)) == multiset(announced)[round.id]
               + CountIf(tasks, DueBy(round.id)) + CountIf(tasks, SilentBy(round.id))
  {
    var id := rounds[k].id;
    CountSplits(tasks, EndedBy(id), ToldBy(id), DueBy(id), SilentBy(id));
  }

  lemma PaidIsAnnounced(fold: Fold, s: State, i: nat)
    requires i < |s.tasks| && s.tasks[i].Submission? && s.tasks[i].stage.Paid?
    ensures var n := Step(fold, s, Announce(i)); n.announced == s.announced + [s.tasks[i].roundId] && n.tasks[i].stage.Announced?
  {
    assert Step(fold, s, Announce(i)) == TaskStep(fold, s, Announce(i));
  }

  lemma EndedIsPaid(fold: Fold, s: State, i: nat)
    requires i < |s.tasks| && s.tasks[i].Submission? && s.tasks[i].stage.Ended?
    ensures Step(fold, s, Pay(i)) == PaymentStep(s, i)
  {
    assert Step(fold, s, Pay(i)) == TaskStep(fold, s, Pay(i));
  }

  /** A round that was won is announced once its bonus was tried, whether the room took it or not. */
  lemma WonRoundsAreAnnounced(fold: Fold, s: State, i: nat)
    requires i < |s.tasks| && s.tasks[i].Submission? && s.tasks[i].stage.Ended?
    ensures var n := Perform(fold, s, [Pay(i), Announce(i)]);
            n.announced == s.announced + [s.tasks[i].roundId] && i < |n.tasks| && n.tasks[i].stage.Announced?
  {
    var paid := PaymentStep(s, i);
    EndedIsPaid(fold, s, i);
    PaidIsAnnounced(fold, paid, i);
    PerformTwo(fold, s, Pay(i), paid, Announce(i), Step(fold, paid, Announce(i)));
  }

  // ----- the expiries that nobody hears of -----

  /** The compare-and-set of an expiry task takes effect. */
  predicate Expires(s: State, a: Action, t: nat) {
    && a.Expire? && a.task == t && t < |s.tasks| && s.tasks[t].Expiry? && s.tasks[t].stage.Ready?
    && s.stored.Own? && Succeeds(s.race, ExpireRound(s.tasks[t].roundId, a.now))
  }

  /** The i-th action is the expiry by task t that ended its round, and t has not read again before the n-th. */
  predicate EndedSince(fold: Fold, start: State, actions: seq<Action>, n: nat, t: nat, i: nat)
    requires n <= |actions|
  {
    && i < n && Expires(StateAt(fold, start, actions, i), actions[i], t)
    && (forall m :: i < m < n ==> actions[m] != Reread(t))
  }

  ghost predicate AwaitsReread(fold: Fold, start: State, actions: seq<Action>, n: nat, t: nat)
    requires n <= |actions|
  {
    exists i: nat :: EndedSince(fold, start, actions, n, t, i)
  }

  /** The d-th action deletes the race, and up to the n-th no other is stored. */
  predicate DeletedFor(actions: seq<Action>, d: int, n: nat)
    requires 0 <= d < n <= |actions|
  {
    actions[d] == Delete && forall m :: d < m < n ==> actions[m] != SaveAnother
  }

  /** The i-th action is an expiry that took effect, the q-th the next second read of that
      task, and an action in between deletes the race, with no other stored up to the read. */
  ghost predicate DeletedBetween(fold: Fold, start: State, actions: seq<Action>, t: nat, i: nat, q: nat)
    requires q < |actions|
  {
    && EndedSince(fold, start, actions, q, t, i) && actions[q] == Reread(t)
    && exists d :: i < d < q && DeletedFor(actions, d, q)
  }

  ghost predicate MissedBy(fold: Fold, start: State, actions: seq<Action>, n: nat, t: nat)
    requires n <= |actions|
  {
    exists i: nat, q: nat | q < n :: DeletedBetween(fold, start, actions, t, i, q)
  }

  predicate IsExpiry(s: State, t: nat, roundId: Id) {
    t < |s.tasks| && s.tasks[t].Expiry? && s.tasks[t].roundId == roundId
  }

  /** An expiry that ended its round and has not read again. */
  predicate Waits(s: State, t: nat) { t < |s.tasks| && s.tasks[t].stage.Ended? }

  /** An expiry that ended its round and read again too late. */
  predicate Silent(s: State, t: nat) { t < |s.tasks| && s.tasks[t].stage.Unannounced? }

  /** An expiry that came too early is tried again exactly as long as its round is open in the
      stored race; otherwise nothing is left to do for it. */
  lemma EarlyExpiryIsTriedAgain(fold: Fold, s: State, i: nat)
    requires RaceInv(s.race) && i < |s.tasks| && s.tasks[i].Expiry? && s.tasks[i].stage.Missed?
    ensures var n, id := Step(fold, s, Reread(i)), s.tasks[i].roundId;
            var open := s.stored.Own? && exists round :: round in s.race.rounds && round.id == id && round.status == WordRounds.Open;
            n == At(s, i, if open then Ready else Settled)
  {
    assert Step(fold, s, Reread(i)) == TaskStep(fold, s, Reread(i)) == RereadStep(s, i);
    if round :| round in s.race.rounds && round.id == s.tasks[i].roundId && round.status == WordRounds.Open {
      RoundIsFound(s.race.rounds, round);
    }
  }

  lemma {:induction false} RoundIsFound(rounds: seq<WordRound>, round: WordRound)
    requires Distinct(RoundIds(rounds)) && round in rounds
    ensures FindRound(rounds, round.id) == Some(round)
  {
    if rounds[0] != round {
      var k :| 0 <= k < |rounds| && rounds[k] == round;
      assert RoundIds(rounds)[0] != RoundIds(rounds)[k];
      assert rounds[1..][k - 1] == round;
      assert RoundIds(rounds)[1..] == RoundIds(rounds[1..]);
      RoundIsFound(rounds[1..], round);
    }
  }

  /** A step touches no task but its own. */
  lemma OthersStay(fold: Fold, s: State, a: Action, t: nat)
    requires t < |s.tasks| && (!OfTask(a) || a.task != t)
    ensures Step(fold, s, a).tasks[t] == s.tasks[t]
  {
  }

  ghost predicate GoesOn(s: State, n: State, a: Action, t: nat, roundId: Id) {
    && IsExpiry(n, t, roundId)
    && (Waits(n, t) <==> (Waits(s, t) && a != Reread(t)) || Expires(s, a, t))
    && (Silent(n, t) <==> Silent(s, t) || (Waits(s, t) && a == Reread(t) && s.stored.Nothing?))
  }

  lemma ExpireGoesOn(s: State, t: nat, now: int, roundId: Id)
    requires IsExpiry(s, t, roundId) && s.tasks[t].stage.Ready?
    ensures GoesOn(s, ExpireStep(s, t, now), Expire(t, now), t, roundId)
  {
  }

  lemma RereadGoesOn(s: State, t: nat, roundId: Id)
    requires IsExpiry(s, t, roundId) && (s.tasks[t].stage.Ended? || s.tasks[t].stage.Missed?)
    ensures GoesOn(s, RereadStep(s, t), Reread(t), t, roundId)
  {
  }

  lemma ExpiryTakesItsStep(fold: Fold, s: State, a: Action, t: nat, roundId: Id)
    requires IsExpiry(s, t, roundId) && OfTask(a) && a.task == t
    ensures GoesOn(s, TaskStep(fold, s, a), a, t, roundId)
  {
    if a.Expire? && s.tasks[t].stage.Ready? {
      ExpireGoesOn(s, t, a.now, roundId);
    } else if a.Reread? && (s.tasks[t].stage.Ended? || s.tasks[t].stage.Missed?) {
      RereadGoesOn(s, t, roundId);
    } else {
      assert TaskStep(fold, s, a) == s;
    }
  }

  /** What one step does to an expiry task. */
  lemma ExpiryAfter(fold: Fold, s: State, a: Action, t: nat, roundId: Id)
    requires IsExpiry(s, t, roundId)
    ensures GoesOn(s, Step(fold, s, a), a, t, roundId)
  {
    if !OfTask(a) || a.task != t {
      OthersStay(fold, s, a, t);
    } else {
      ExpiryTakesItsStep(fold, s, a, t, roundId);
    }
  }

  lemma StoredAfter(fold: Fold, s: State, a: Action)
    requires s.saved
    ensures var n := Step(fold, s, a);
            n.saved && n.stored == if a == Delete then Nothing else if a == SaveAnother then Another else s.stored
  {
  }

  lemma SavedAfter(fold: Fold, s: State, a: Action)
    requires s.stored.Own? ==> s.saved
    ensures var n := Step(fold, s, a); n.stored.Own? ==> n.saved
  {
  }

  lemma {:induction false} OwnIsSaved(fold: Fold, start: State, actions: seq<Action>, n: nat)
    requires n <= |actions| && !start.stored.Own?
    ensures var s := StateAt(fold, start, actions, n); s.stored.Own? ==> s.saved
  {
    if n == 0 {
      StateFirst(fold, start, actions);
    } else {
      OwnIsSaved(fold, start, actions, n - 1);
      StateAfter(fold, start, actions, n - 1);
      SavedAfter(fold, StateAt(fold, start, actions, n - 1), actions[n - 1]);
    }
  }

  ghost predicate GoneSince(actions: seq<Action>, i: nat, n: nat)
    requires n <= |actions|
  {
    exists d :: i <= d < n && DeletedFor(actions, d, n)
  }

  lemma GoneAfter(actions: seq<Action>, i: nat, n: nat)
    requires i <= n < |actions|
    ensures GoneSince(actions, i, n + 1) <==> actions[n] == Delete || (GoneSince(actions, i, n) && actions[n] != SaveAnother)
  {
    if actions[n] == Delete {
      assert DeletedFor(actions, n, n + 1);
    } else if GoneSince(actions, i, n + 1) {
      GoneBefore(actions, i, n);
    }
    if GoneSince(actions, i, n) && actions[n] != SaveAnother {
      var d :| i <= d < n && DeletedFor(actions, d, n);
      assert DeletedFor(actions, d, n + 1);
    }
  }

  lemma GoneBefore(actions: seq<Action>, i: nat, n: nat)
    requires i <= n < |actions| && GoneSince(actions, i, n + 1) && actions[n] != Delete
    ensures GoneSince(actions, i, n) && actions[n] != SaveAnother
  {
    var d :| i <= d < n + 1 && DeletedFor(actions, d, n + 1);
    assert DeletedFor(actions, d, n);
  }

  /** From a race that was stored on, nothing is stored exactly when it was deleted since and
      no other was stored after that. */
  lemma {:induction false} GoneMeanwhile(fold: Fold, start: State, actions: seq<Action>, i: nat, n: nat)
    requires i <= n <= |actions| && StateAt(fold, start, actions, i).stored.Own? && StateAt(fold, start, actions, i).saved
    ensures var s := StateAt(fold, start, actions, n); s.saved && (s.stored.Nothing? <==> GoneSince(actions, i, n))
    decreases n - i
  {
    if i < n {
      GoneMeanwhile(fold, start, actions, i, n - 1);
      StateAfter(fold, start, actions, n - 1);
      StoredAfter(fold, StateAt(fold, start, actions, n - 1), actions[n - 1]);
      GoneAfter(actions, i, n - 1);
    }
  }

  lemma SameTasks(fold: Fold, start: State, actions: seq<Action>, n: nat)
    requires n <= |actions|
    ensures |StateAt(fold, start, actions, n).tasks| == |start.tasks|
  {
    if n > 0 {
      SameTasks(fold, start, actions, n - 1);
      StateAfter(fold, start, actions, n - 1);
    } else {
      StateFirst(fold, start, actions);
    }
  }

  lemma AwaitedBefore(fold: Fold, start: State, actions: seq<Action>, n: nat, t: nat)
    requires n < |actions| && AwaitsReread(fold, start, actions, n + 1, t) && !AwaitsReread(fold, start, actions, n, t)
    ensures Expires(StateAt(fold, start, actions, n), actions[n], t)
  {
    var i: nat :| EndedSince(fold, start, actions, n + 1, t, i);
    if i < n { assert EndedSince(fold, start, actions, n, t, i); }
  }

  lemma EndedStill(fold: Fold, start: State, actions: seq<Action>, n: nat, t: nat, i: nat)
    requires n < |actions| && EndedSince(fold, start, actions, n, t, i) && actions[n] != Reread(t)
    ensures EndedSince(fold, start, actions, n + 1, t, i)
  {
  }

  lemma AwaitsStill(fold: Fold, start: State, actions: seq<Action>, n: nat, t: nat)
    requires n < |actions| && AwaitsReread(fold, start, actions, n, t) && actions[n] != Reread(t)
    ensures AwaitsReread(fold, start, actions, n + 1, t)
  {
    var i: nat :| EndedSince(fold, start, actions, n, t, i);
    EndedStill(fold, start, actions, n, t, i);
  }

  lemma AwaitsNow(fold: Fold, start: State, actions: seq<Action>, n: nat, t: nat)
    requires n < |actions| && Expires(StateAt(fold, start, actions, n), actions[n], t)
    ensures AwaitsReread(fold, start, actions, n + 1, t)
  {
    assert EndedSince(fold, start, actions, n + 1, t, n);
  }

  lemma RereadIsTheEnd(fold: Fold, start: State, actions: seq<Action>, n: nat, t: nat)
    requires n < |actions| && actions[n] == Reread(t)
    ensures !AwaitsReread(fold, start, actions, n + 1, t)
  {
  }

  lemma AwaitsAfter(fold: Fold, start: State, actions: seq<Action>, n: nat, t: nat)
    requires n < |actions|
    ensures AwaitsReread(fold, start, actions, n + 1, t)
       <==> (AwaitsReread(fold, start, actions, n, t) && actions[n] != Reread(t)) || Expires(StateAt(fold, start, actions, n), actions[n], t)
  {
    if Expires(StateAt(fold, start, actions, n), actions[n], t) {
      AwaitsNow(fold, start, actions, n, t);
    } else if actions[n] == Reread(t) {
      RereadIsTheEnd(fold, start, actions, n, t);
    } else if AwaitsReread(fold, start, actions, n, t) {
      AwaitsStill(fold, start, actions, n, t);
    } else if AwaitsReread(fold, start, actions, n + 1, t) {
      AwaitedBefore(fold, start, actions, n, t);
    }
  }

  lemma MissedAfter(fold: Fold, start: State, actions: seq<Action>, n: nat, t: nat)
    requires n < |actions| && !start.stored.Own?
    ensures MissedBy(fold, start, actions, n + 1, t)
       <==> MissedBy(fold, start, actions, n, t)
            || (AwaitsReread(fold, start, actions, n, t) && actions[n] == Reread(t) && StateAt(fold, start, actions, n).stored.Nothing?)
  {
    if MissedBy(fold, start, actions, n + 1, t) {
      var i: nat, q: nat :| q < n + 1 && DeletedBetween(fold, start, actions, t, i, q);
      if q == n { DeletedSinceExpiry(fold, start, actions, n, t, i); }
    }
    if AwaitsReread(fold, start, actions, n, t) && actions[n] == Reread(t) && StateAt(fold, start, actions, n).stored.Nothing? {
      var i: nat :| EndedSince(fold, start, actions, n, t, i);
      DeletedSinceExpiry(fold, start, actions, n, t, i);
      assert DeletedBetween(fold, start, actions, t, i, n);
    }
  }

  lemma DeletedSinceExpiry(fold: Fold, start: State, actions: seq<Action>, n: nat, t: nat, i: nat)
    requires n <= |actions| && !start.stored.Own? && EndedSince(fold, start, actions, n, t, i)
    ensures StateAt(fold, start, actions, n).stored.Nothing? <==> exists d :: i < d < n && DeletedFor(actions, d, n)
  {
    OwnIsSaved(fold, start, actions, i);
    GoneMeanwhile(fold, start, actions, i, n);
    if GoneSince(actions, i, n) {
      var d :| i <= d < n && DeletedFor(actions, d, n);
      assert d != i;
    }
  }

  lemma WaitingNext(fold: Fold, start: State, actions: seq<Action>, n: nat, t: nat, roundId: Id)
    requires n < |actions| && IsExpiry(StateAt(fold, start, actions, n), t, roundId)
    ensures var s, next := StateAt(fold, start, actions, n), StateAt(fold, start, actions, n + 1);
            IsExpiry(next, t, roundId) && (Waits(next, t) <==> (Waits(s, t) && actions[n] != Reread(t)) || Expires(s, actions[n], t))
  {
    StateAfter(fold, start, actions, n);
    ExpiryAfter(fold, StateAt(fold, start, actions, n), actions[n], t, roundId);
  }

  /** The actions performed tell whether an expiry waits to read again. */
  lemma {:induction false} WaitingIsTold(fold: Fold, start: State, actions: seq<Action>, n: nat, t: nat)
    requires n <= |actions| && t < |start.tasks| && start.tasks[t] == Expiry(start.tasks[t].roundId, Ready)
    ensures IsExpiry(StateAt(fold, start, actions, n), t, start.tasks[t].roundId)
    ensures Waits(StateAt(fold, start, actions, n), t) <==> AwaitsReread(fold, start, actions, n, t)
  {
    if n == 0 {
      StateFirst(fold, start, actions);
    } else {
      WaitingIsTold(fold, start, actions, n - 1, t);
      WaitingNext(fold, start, actions, n - 1, t, start.tasks[t].roundId);
      AwaitsAfter(fold, start, actions, n - 1, t);
    }
  }

  lemma SilentNext(fold: Fold, start: State, actions: seq<Action>, n: nat, t: nat, roundId: Id)
    requires n < |actions| && IsExpiry(StateAt(fold, start, actions, n), t, roundId)
    ensures var s := StateAt(fold, start, actions, n);
            Silent(StateAt(fold, start, actions, n + 1), t) <==> Silent(s, t) || (Waits(s, t) && actions[n] == Reread(t) && s.stored.Nothing?)
  {
    StateAfter(fold, start, actions, n);
    ExpiryAfter(fold, StateAt(fold, start, actions, n), actions[n], t, roundId);
  }

  lemma SilenceGoesOn(fold: Fold, start: State, actions: seq<Action>, n: nat, t: nat)
    requires n < |actions| && !start.stored.Own? && t < |start.tasks| && start.tasks[t] == Expiry(start.tasks[t].roundId, Ready)
    requires Silent(StateAt(fold, start, actions, n), t) <==> MissedBy(fold, start, actions, n, t)
    ensures Silent(StateAt(fold, start, actions, n + 1), t) <==> MissedBy(fold, start, actions, n + 1, t)
  {
    WaitingIsTold(fold, start, actions, n, t);
    SilentNext(fold, start, actions, n, t, start.tasks[t].roundId);
    MissedAfter(fold, start, actions, n, t);
  }

  /** They tell whether it read again when no race was stored. */
  lemma {:induction false} SilenceIsTold(fold: Fold, start: State, actions: seq<Action>, n: nat, t: nat)
    requires n <= |actions| && !start.stored.Own? && t < |start.tasks| && start.tasks[t] == Expiry(start.tasks[t].roundId, Ready)
    ensures Silent(StateAt(fold, start, actions, n), t) <==> MissedBy(fold, start, actions, n, t)
  {
    if n == 0 {
      StateFirst(fold, start, actions);
    } else {
      SilenceIsTold(fold, start, actions, n - 1, t);
      SilenceGoesOn(fold, start, actions, n - 1, t);
    }
  }

  lemma SubmissionAfter(fold: Fold, s: State, a: Action, t: nat)
    requires t < |s.tasks| && s.tasks[t].Submission?
    ensures var n := Step(fold, s, a).tasks[t]; n.Submission? && n.roundId == s.tasks[t].roundId
  {
    if !OfTask(a) || a.task != t { OthersStay(fold, s, a, t); }
  }

  lemma {:induction false} SubmissionsStay(fold: Fold, start: State, actions: seq<Action>, n: nat, t: nat)
    requires n <= |actions| && t < |start.tasks| && start.tasks[t].Submission?
    ensures var s := StateAt(fold, start, actions, n);
            t < |s.tasks| && s.tasks[t].Submission? && s.tasks[t].roundId == start.tasks[t].roundId
  {
    if n == 0 {
      StateFirst(fold, start, actions);
    } else {
      SubmissionsStay(fold, start, actions, n - 1, t);
      StateAfter(fold, start, actions, n - 1);
      SubmissionAfter(fold, StateAt(fold, start, actions, n - 1), actions[n - 1], t);
    }
  }

  /** An expiry of this round took effect, and when that task read again the race was deleted
      and no other stored. */
  ghost predicate Unheard(fold: Fold, start: State, actions: seq<Action>, roundId: Id) {
    exists t: nat | t < |start.tasks| :: UnheardBy(fold, start, actions, roundId, t)
  }

  ghost predicate UnheardBy(fold: Fold, start: State, actions: seq<Action>, roundId: Id, t: nat)
    requires t < |start.tasks|
  {
    start.tasks[t].Expiry? && start.tasks[t].roundId == roundId && MissedBy(fold, start, actions, |actions|, t)
  }

  lemma SilentIsUnheard(fold: Fold, start: State, actions: seq<Action>, roundId: Id, t: nat)
    requires Begins(fold, start) && t < |start.tasks|
    ensures var tasks := Perform(fold, start, actions).tasks;
            t < |tasks| && (SilentBy(roundId)(tasks[t]) <==> UnheardBy(fold, start, actions, roundId, t))
  {
    var s := Perform(fold, start, actions);
    StateLast(fold, start, actions);
    if start.tasks[t].Expiry? {
      WaitingIsTold(fold, start, actions, |actions|, t);
      SilenceIsTold(fold, start, actions, |actions|, t);
    } else {
      SubmissionsStay(fold, start, actions, |actions|, t);
      BeginsHolds(fold, start);
      PerformKeeps(fold, start, actions);
      assert Truthful(fold, s.race, s.tasks[t]);
    }
  }

  /** The silent tasks at the end are the ones the actions tell. */
  lemma SilentAreUnheard(fold: Fold, start: State, actions: seq<Action>, roundId: Id)
    requires Begins(fold, start)
    ensures var tasks := Perform(fold, start, actions).tasks;
            (exists i :: 0 <= i < |tasks| && SilentBy(roundId)(tasks[i])) <==> Unheard(fold, start, actions, roundId)
  {
    var tasks := Perform(fold, start, actions).tasks;
    StateLast(fold, start, actions);
    SameTasks(fold, start, actions, |actions|);
    if i :| 0 <= i < |tasks| && SilentBy(roundId)(tasks[i]) {
      SilentIsUnheard(fold, start, actions, roundId, i);
    }
    if Unheard(fold, start, actions, roundId) {
      var t: nat :| t < |start.tasks| && UnheardBy(fold, start, actions, roundId, t);
      SilentIsUnheard(fold, start, actions, roundId, t);
    }
  }

  /** Once every task is through, a round that is over was announced exactly once, or not at
      all, and the latter if and only if between an expiry that ended it and the next second
      read of that expiry the race is deleted and no other race stored after the deletion. */
  lemma AnnouncedUnlessDeleted(fold: Fold, start: State, actions: seq<Action>, k: nat)
    requires Begins(fold, start) && k < |Perform(fold, start, actions).race.rounds|
    requires var s := Perform(fold, start, actions);
             && WordRounds.Ended(s.race.rounds[k].status)
             && (forall i :: 0 <= i < |s.tasks| ==> !s.tasks[i].stage.Ended? && !s.tasks[i].stage.Paid?)
    ensures var s := Perform(fold, start, actions);
            var id := s.race.rounds[k].id;
            multiset(s.announced)[id] == (if Unheard(fold, start, actions, id) then 0 else 1)
  {
    var s := Perform(fold, start, actions);
    var id := s.race.rounds[k].id;
    AnnouncedAtMostOnce(fold, start, actions, k);
    SilentAreUnheard(fold, start, actions, id);
    CountNone(s.tasks, DueBy(id));
    if Unheard(fold, start, actions, id) {
      var i :| 0 <= i < |s.tasks| && SilentBy(id)(s.tasks[i]);
      CountSome(s.tasks, SilentBy(id), i);
    } else {
      CountNone(s.tasks, SilentBy(id));
    }
  }

  lemma {:induction false} CountSome(tasks: seq<Task>, f: Task -> bool, i: nat)
    requires i < |tasks| && f(tasks[i])
    ensures CountIf(tasks, f) >= 1
  {
    if i > 0 { CountSome(tasks[1..], f, i - 1); }
  }

  lemma ShownThenExpired(race: WordRace, now: int)
    requires Fresh(race) && Distinct(RoundIds(race.rounds)) && race.rounds != [] && now >= race.rounds[0].closesAt
    ensures var id := race.rounds[0].id;
            var shown := Apply(race, OpenRound(id));
            && Succeeds(shown, ExpireRound(id, now))
            && var n := Apply(shown, ExpireRound(id, now)); n.rounds != [] && WordRounds.Ended(n.rounds[0].status)
  {
    var id := race.rounds[0].id;
    assert RoundIds(race.rounds)[0] == id;
    assert FindRound(race.rounds, id) == Some(race.rounds[0]);
    FreshRaceInv(race);
    ApplyKeeps(race, OpenRound(id));
    FoundAdvances(race, OpenRound(id), id);
    OneRoundMoves(race, OpenRound(id));
    OneRoundMoves(Apply(race, OpenRound(id)), ExpireRound(id, now));
    StatusAfter(Apply(race, OpenRound(id)), ExpireRound(id, now), 0);
  }

  lemma ExpireIsTaken(fold: Fold, s: State, i: nat, now: int)
    requires i < |s.tasks| && s.tasks[i].Expiry? && s.tasks[i].stage.Ready?
    ensures Step(fold, s, Expire(i, now)) == ExpireStep(s, i, now)
  {
    assert Step(fold, s, Expire(i, now)) == TaskStep(fold, s, Expire(i, now));
  }

  lemma ExpiryEnds(s: State, now: int)
    requires s.stored.Own? && |s.tasks| == 1 && s.tasks[0] == Expiry(s.tasks[0].roundId, Ready)
    requires Succeeds(s.race, ExpireRound(s.tasks[0].roundId, now))
    ensures var id := s.tasks[0].roundId;
            ExpireStep(s, 0, now) == s.(race := Apply(s.race, ExpireRound(id, now)), tasks := [Expiry(id, WordSubmission.Ended)])
  {
    var id := s.tasks[0].roundId;
    assert s.tasks[0 := Expiry(id, WordSubmission.Ended)] == [Expiry(id, WordSubmission.Ended)];
  }

  /** The race is saved, its first round shown and expired. */
  lemma FirstRoundExpires(fold: Fold, start: State, now: int)
    requires Begins(fold, start) && start.race.rounds != [] && now >= start.race.rounds[0].closesAt
    requires start.tasks == [Expiry(start.race.rounds[0].id, Ready)]
    ensures var id := start.race.rounds[0].id;
            Perform(fold, start, [Save, Show(id), Expire(0, now)])
            == start.(saved := true, stored := Own, tasks := [Expiry(id, WordSubmission.Ended)],
                      race := Apply(Apply(start.race, OpenRound(id)), ExpireRound(id, now)))
  {
    var id := start.race.rounds[0].id;
    ShownThenExpired(start.race, now);
    var s1 := start.(saved := true, stored := Own);
    var s2 := s1.(race := Apply(start.race, OpenRound(id)));
    SaveIsTaken(fold, start);
    ShowIsTaken(fold, s1, id);
    ExpiryEnds(s2, now);
    ExpireIsTaken(fold, s2, 0, now);
    PerformThree(fold, start, Save, s1, Show(id), s2, Expire(0, now), ExpireStep(s2, 0, now));
  }

  lemma RereadAnswers(fold: Fold, s: State, id: Id)
    requires s.tasks == [Expiry(id, WordSubmission.Ended)]
    ensures Step(fold, s, Reread(0))
         == if s.stored.Nothing? then s.(tasks := [Expiry(id, Unannounced)])
            else s.(tasks := [Expiry(id, Announced(false))], announced := s.announced + [id])
  {
    assert s.tasks[0 := Expiry(id, Unannounced)] == [Expiry(id, Unannounced)];
    assert s.tasks[0 := Expiry(id, Announced(false))] == [Expiry(id, Announced(false))];
  }

  lemma DeletedThenReread(fold: Fold, s: State, id: Id)
    requires s.tasks == [Expiry(id, WordSubmission.Ended)]
    ensures Perform(fold, s, [Delete, Reread(0)]) == s.(stored := Nothing, tasks := [Expiry(id, Unannounced)])
  {
    var gone := s.(stored := Nothing);
    RereadAnswers(fold, gone, id);
    DeleteIsTaken(fold, s);
    PerformTwo(fold, s, Delete, gone, Reread(0), gone.(tasks := [Expiry(id, Unannounced)]));
  }

  lemma ReplacedThenReread(fold: Fold, s: State, id: Id)
    requires s.tasks == [Expiry(id, WordSubmission.Ended)]
    ensures Perform(fold, s, [Delete, SaveAnother, Reread(0)])
         == s.(stored := Another, tasks := [Expiry(id, Announced(false))], announced := s.announced + [id])
  {
    var gone, other := s.(stored := Nothing), s.(stored := Another);
    RereadAnswers(fold, other, id);
    DeleteIsTaken(fold, s);
    SaveAnotherIsTaken(fold, gone);
    PerformThree(fold, s, Delete, gone, SaveAnother, other, Reread(0),
                 other.(tasks := [Expiry(id, Announced(false))], announced := s.announced + [id]));
  }

  /** An expiry whose race is deleted before the second read: the round is over and nobody is
      told. When another race is stored in its place by then, the room is told, and the
      tally it is shown is that of the other race. */
  lemma ExpiryCanGoUnannounced(fold: Fold, start: State, now: int)
    requires Begins(fold, start) && start.race.rounds != [] && now >= start.race.rounds[0].closesAt
    requires start.tasks == [Expiry(start.race.rounds[0].id, Ready)]
    ensures var id := start.race.rounds[0].id;
            var expired := [Save, Show(id), Expire(0, now)];
            && (var s := Perform(fold, start, expired + [Delete, Reread(0)]);
                && s.race.rounds != [] && WordRounds.Ended(s.race.rounds[0].status)
                && s.tasks == [Expiry(id, Unannounced)] && s.announced == [])
            && (var s := Perform(fold, start, expired + [Delete, SaveAnother, Reread(0)]);
                && s.race.rounds != [] && WordRounds.Ended(s.race.rounds[0].status)
                && s.stored.Another? && s.announced == [id])
  {
    var id := start.race.rounds[0].id;
    var expired := [Save, Show(id), Expire(0, now)];
    ShownThenExpired(start.race, now);
    FirstRoundExpires(fold, start, now);
    var s := Perform(fold, start, expired);
    DeletedThenReread(fold, s, id);
    ReplacedThenReread(fold, s, id);
    PerformConcat(fold, start, expired, [Delete, Reread(0)]);
    PerformConcat(fold, start, expired, [Delete, SaveAnother, Reread(0)]);
  }
}
