/**
  The frozen scoreboard: what the "as it was at time t" queries answer, and why the answer is that of
  a server that never got anything newer than t.
 */
module Freeze {
  import opened Basics
  import opened ScoreSpec
  import opened ScoreLaws

  function EntryTime(e: Entry): int { e.time }
  function ChangeTime(c: Subchange): int { c.time }

  /** The elements before the first one that is later than t: a loop that breaks there. */
  function Leading<T>(s: seq<T>, time: T -> int, t: int): seq<T> {
    if s == [] || t < time(s[0]) then [] else [s[0]] + Leading(s[1..], time, t)
  }

  /** The score that `score_at` finds in a history. */
  function ScoreAt(h: seq<Entry>, t: int): real {
    CurrentScore(Leading(h, EntryTime, t))
  }

  ghost function MadeBy(t: Table, at: int): Table {
    map k | k in t && t[k].time <= at :: t[k]
  }

  /** The changes applied to the submissions they belong to, skipping those of unknown submissions. */
  function ApplyAll(t: Table, changes: seq<Subchange>): Table {
    if changes == [] then t else
      var n := |changes| - 1;
      var r := ApplyAll(t, changes[..n]);
      var c := changes[n];
      if c.submission in r then r[c.submission := c.Apply(r[c.submission])] else r
  }

  ghost function SubmissionsAt(t: Table, changes: seq<Subchange>, at: int): Table {
    ApplyAll(Reset(MadeBy(t, at)), Leading(changes, ChangeTime, at))
  }

  /** No change takes effect before its submission was made. */
  ghost predicate Causal(t: Table, changes: seq<Subchange>)
    requires Known(t, changes)
  {
    forall i | 0 <= i < |changes| :: t[changes[i].submission].time <= changes[i].time
  }

  // ---- Leading parts -----------------------------------------------------------------------------

  lemma {:induction false} LeadingOfEarly<T>(s: seq<T>, time: T -> int, t: int)
    requires forall i | 0 <= i < |s| :: time(s[i]) <= t
    ensures Leading(s, time, t) == s
  {
    if s != [] { LeadingOfEarly(s[1..], time, t); }
  }

  lemma {:induction false} LeadingDropsLate<T>(s: seq<T>, x: T, time: T -> int, t: int)
    requires t < time(x)
    ensures Leading(s + [x], time, t) == Leading(s, time, t)
  {
    if s != [] {
      assert (s + [x])[1..] == s[1..] + [x];
      LeadingDropsLate(s[1..], x, time, t);
    }
  }

  lemma {:induction false} LeadingIsPrefix<T>(s: seq<T>, time: T -> int, t: int)
    ensures Leading(s, time, t) <= s
    ensures forall i | 0 <= i < |Leading(s, time, t)| :: time(s[i]) <= t
  {
    if s != [] && time(s[0]) <= t {
      var rest := Leading(s[1..], time, t);
      LeadingIsPrefix(s[1..], time, t);
      assert s == [s[0]] + s[1..];
      forall i | 0 <= i < |Leading(s, time, t)| ensures time(s[i]) <= t {
        if i != 0 { assert s[i] == s[1..][i - 1]; }
      }
    }
  }

  /** In a list in time order, the leading part has all the elements up to t and no other. */
  lemma {:induction false} LeadingKeepsAllUpTo<T>(s: seq<T>, time: T -> int, t: int)
    requires forall i, j | 0 <= i < j < |s| :: time(s[i]) <= time(s[j])
    ensures |Leading(s, time, t)| <= |s| && Leading(s, time, t) == s[..|Leading(s, time, t)|]
    ensures forall i | 0 <= i < |s| :: time(s[i]) <= t <==> i < |Leading(s, time, t)|
  {
    if s != [] && time(s[0]) <= t {
      LeadingKeepsAllUpTo(s[1..], time, t);
      forall i | 0 <= i < |s| ensures time(s[i]) <= t <==> i < |Leading(s, time, t)| {
        if i != 0 { assert s[i] == s[1..][i - 1]; }
      }
    } else if s != [] {
      assert forall i | 0 < i < |s| :: time(s[0]) <= time(s[i]);
    }
  }

  // ---- A frozen query is a replay of the old data ------------------------------------------------

  lemma EarlyHistoryIsWhole(mode: Mode, t: Table, changes: seq<Subchange>, at: int)
    requires Known(t, changes) && Sorted(changes)
    requires changes != [] ==> changes[|changes| - 1].time <= at
    ensures Leading(changes, ChangeTime, at) == changes
    ensures Leading(Replay(mode, t, changes).history, EntryTime, at) == Replay(mode, t, changes).history
  {
    assert forall i | 0 <= i < |changes| - 1 :: Before(changes[i], changes[|changes| - 1]);
    LeadingOfEarly(changes, ChangeTime, at);
    ReplayHistoryIsGood(mode, t, changes);
    LeadingOfEarly(Replay(mode, t, changes).history, EntryTime, at);
  }

  lemma LateChangeIsInvisible(mode: Mode, c: Core, ch: Subchange, at: int)
    requires CanAppend(c, ch) && at < ch.time
    ensures Leading(Append(mode, c, ch).history, EntryTime, at) == Leading(c.history, EntryTime, at)
  {
    var h, all := c.history, Append(mode, c, ch).history;
    if all != h { LeadingDropsLate(h, all[|h|], EntryTime, at); }
  }

  lemma LastLateIsDropped(changes: seq<Subchange>, at: int)
    requires changes != [] && at < changes[|changes| - 1].time
    ensures Leading(changes, ChangeTime, at) == Leading(changes[..|changes| - 1], ChangeTime, at)
  {
    var n := |changes| - 1;
    assert changes == changes[..n] + [changes[n]];
    LeadingDropsLate(changes[..n], changes[n], ChangeTime, at);
  }

  /** The history up to t is the history that the changes up to t make. */
  lemma {:induction false} HistoryUpTo(mode: Mode, t: Table, changes: seq<Subchange>, at: int)
    requires Known(t, changes) && Sorted(changes)
    ensures Known(t, Leading(changes, ChangeTime, at))
    ensures Leading(Replay(mode, t, changes).history, EntryTime, at)
         == Replay(mode, t, Leading(changes, ChangeTime, at)).history
  {
    if changes == [] || changes[|changes| - 1].time <= at {
      EarlyHistoryIsWhole(mode, t, changes, at);
    } else {
      var n := |changes| - 1;
      HistoryUpTo(mode, t, changes[..n], at);
      LastLateIsDropped(changes, at);
      LateChangeIsInvisible(mode, Replay(mode, t, changes[..n]), changes[n], at);
    }
  }

  lemma {:induction false} ReplayTable(mode: Mode, t: Table, changes: seq<Subchange>)
    requires Known(t, changes)
    ensures Replay(mode, t, changes).table == ApplyAll(Reset(t), changes)
  {
    if changes != [] { ReplayTable(mode, t, changes[..|changes| - 1]); }
  }

  /** A server that got only the submissions and the changes with a time up to `at`. */
  ghost function AsOf(mode: Mode, t: Table, changes: seq<Subchange>, at: int): Core
    requires Known(t, changes) && Causal(t, changes)
  {
    OldDataIsKnown(t, changes, at);
    Replay(mode, MadeBy(t, at), Leading(changes, ChangeTime, at))
  }

  lemma OldDataIsKnown(t: Table, changes: seq<Subchange>, at: int)
    requires Known(t, changes) && Causal(t, changes)
    ensures Known(MadeBy(t, at), Leading(changes, ChangeTime, at))
  {
    LeadingIsPrefix(changes, ChangeTime, at);
  }

  /** Every frozen answer is the live answer of a server without the newer data. */
  lemma {:induction false} FreezeIsReplayOfOldData(mode: Mode, t: Table, changes: seq<Subchange>, at: int)
    requires Known(t, changes) && Sorted(changes) && Causal(t, changes) && NonNegativeChanges(changes)
    ensures Leading(Replay(mode, t, changes).history, EntryTime, at) == AsOf(mode, t, changes, at).history
    ensures ScoreAt(Replay(mode, t, changes).history, at) == CurrentScore(AsOf(mode, t, changes, at).history)
    ensures SubmissionsAt(t, changes, at) == AsOf(mode, t, changes, at).table
  {
    var old_ := Leading(changes, ChangeTime, at);
    HistoryUpTo(mode, t, changes, at);
    LeadingIsPrefix(changes, ChangeTime, at);
    OldDataIsKnown(t, changes, at);
    NonNegativeThroughout(mode, MadeBy(t, at), old_);
    ReplayIgnoresUntouched(mode, MadeBy(t, at), t, old_);
    ReplayTable(mode, MadeBy(t, at), old_);
  }

  /** What happens after t cannot be told from any answer as of t. */
  lemma {:induction false} FreezeHidesTheFuture(mode: Mode, t: Table, changes: seq<Subchange>,
                             t': Table, changes': seq<Subchange>, at: int)
    requires Known(t, changes) && Sorted(changes) && Causal(t, changes) && NonNegativeChanges(changes)
    requires Known(t', changes') && Sorted(changes') && Causal(t', changes') && NonNegativeChanges(changes')
    requires Reset(MadeBy(t, at)) == Reset(MadeBy(t', at))
    requires Leading(changes, ChangeTime, at) == Leading(changes', ChangeTime, at)
    ensures ScoreAt(Replay(mode, t, changes).history, at) == ScoreAt(Replay(mode, t', changes').history, at)
    ensures SubmissionsAt(t, changes, at) == SubmissionsAt(t', changes', at)
    ensures Leading(Replay(mode, t, changes).history, EntryTime, at)
         == Leading(Replay(mode, t', changes').history, EntryTime, at)
  {
    FreezeIsReplayOfOldData(mode, t, changes, at);
    FreezeIsReplayOfOldData(mode, t', changes', at);
    OldDataIsKnown(t, changes, at);
    ReplayOfSameIdentity(mode, MadeBy(t, at), MadeBy(t', at), Leading(changes, ChangeTime, at));
  }

  /** In the two modes without tokens, the frozen score is the rule applied to the frozen submissions. */
  lemma {:induction false} FrozenViewsAgree(mode: Mode, t: Table, changes: seq<Subchange>, at: int)
    requires Known(t, changes) && Sorted(changes) && Causal(t, changes) && NonNegativeChanges(changes)
    requires mode != MaxTokenedLast
    ensures ScoreAt(Replay(mode, t, changes).history, at) == Rule(mode, SubmissionsAt(t, changes, at), None)
  {
    FreezeIsReplayOfOldData(mode, t, changes, at);
    OldDataIsKnown(t, changes, at);
    ReplayIsGood(mode, MadeBy(t, at), Leading(changes, ChangeTime, at));
  }

  /** Past every event, the frozen answers are the live ones. */
  lemma {:induction false} FreezeAfterTheEnd(mode: Mode, t: Table, changes: seq<Subchange>, at: int)
    requires Known(t, changes) && Sorted(changes)
    requires forall k | k in t :: t[k].time <= at
    requires forall i | 0 <= i < |changes| :: changes[i].time <= at
    ensures ScoreAt(Replay(mode, t, changes).history, at) == CurrentScore(Replay(mode, t, changes).history)
    ensures SubmissionsAt(t, changes, at) == Replay(mode, t, changes).table
  {
    LeadingOfEarly(changes, ChangeTime, at);
    HistoryUpTo(mode, t, changes, at);
    assert MadeBy(t, at) == t;
    ReplayTable(mode, t, changes);
  }

  // ---- When the two frozen answers agree ---------------------------------------------------------

  lemma {:induction false} FrozenTable(t: Table, changes: seq<Subchange>, at: int)
    ensures ApplyAll(Reset(MadeBy(t, at)), changes) == MadeBy(ApplyAll(Reset(t), changes), at)
  {
    if changes != [] { FrozenTable(t, changes[..|changes| - 1], at); }
  }

  /** All submissions, with the results that the changes up to `at` gave them, whenever they were made. */
  ghost function WithOldChanges(mode: Mode, t: Table, changes: seq<Subchange>, at: int): Table
    requires Known(t, changes)
  {
    LeadingIsPrefix(changes, ChangeTime, at);
    Replay(mode, t, Leading(changes, ChangeTime, at)).table
  }

  /** The frozen submissions are those among them that were made by `at`. */
  lemma FrozenSubmissionsAre(mode: Mode, t: Table, changes: seq<Subchange>, at: int)
    requires Known(t, changes)
    ensures SubmissionsAt(t, changes, at) == MadeBy(WithOldChanges(mode, t, changes, at), at)
  {
    LeadingIsPrefix(changes, ChangeTime, at);
    FrozenTable(t, Leading(changes, ChangeTime, at), at);
    ReplayTable(mode, t, Leading(changes, ChangeTime, at));
  }

  lemma FrozenScoreIs(mode: Mode, t: Table, changes: seq<Subchange>, at: int)
    requires Known(t, changes) && Sorted(changes) && mode != MaxTokenedLast
    ensures ScoreAt(Replay(mode, t, changes).history, at) == Rule(mode, WithOldChanges(mode, t, changes, at), None)
  {
    HistoryUpTo(mode, t, changes, at);
    ReplayIsGood(mode, t, Leading(changes, ChangeTime, at));
  }

  lemma FrozenIsSmaller(mode: Mode, t: Table, changes: seq<Subchange>, at: int)
    requires Known(t, changes) && (NonNegativeChanges(changes) || exists k | k in t :: t[k].time <= at)
    ensures var all := WithOldChanges(mode, t, changes, at); Larger(MadeBy(all, at), all)
  {
    var all, old_ := WithOldChanges(mode, t, changes, at), Leading(changes, ChangeTime, at);
    LeadingIsPrefix(changes, ChangeTime, at);
    if NonNegativeChanges(changes) {
      ReplayIsNonNegative(mode, t, old_);
    } else {
      var k :| k in t && t[k].time <= at;
      ReplayKeepsIdentity(mode, t, old_);
      assert Reset(all)[k] == Reset(t)[k];
      assert k in MadeBy(all, at);
    }
  }

  /**
    With changes of any time and any score: the frozen score is the rule applied to the frozen submissions
    if and only if no submission made after `at` has a better result, on any subtask, from changes up to
    `at`. (If no submission was made by `at`, for scores that are not negative.)
   */
  lemma {:induction false} FrozenViewsAgreeIff(mode: Mode, t: Table, changes: seq<Subchange>, at: int)
    requires Known(t, changes) && Sorted(changes) && mode != MaxTokenedLast
    requires NonNegativeChanges(changes) || exists k | k in t :: t[k].time <= at
    ensures ScoreAt(Replay(mode, t, changes).history, at) == Rule(mode, SubmissionsAt(t, changes, at), None) <==>
            NoBetter(mode, SubmissionsAt(t, changes, at), WithOldChanges(mode, t, changes, at))
  {
    var all := WithOldChanges(mode, t, changes, at);
    FrozenScoreIs(mode, t, changes, at);
    FrozenSubmissionsAre(mode, t, changes, at);
    FrozenIsSmaller(mode, t, changes, at);
    RuleWithMore(mode, MadeBy(all, at), all, [], None);
  }

  /** A change older than its submission shows in the frozen score but not in the frozen submissions. */
  lemma EarlyChangeBreaksAgreement()
    ensures exists t: Table, changes, at ::
      && Known(t, changes) && Sorted(changes) && NonNegativeChanges(changes) && !Causal(t, changes)
      && ScoreAt(Replay(Max, t, changes).history, at) != Rule(Max, SubmissionsAt(t, changes, at), None)
  {
    var t: Table := map["s" := Submission("u", "t", 9, 0.0, false, [])];
    var c := Subchange("c", "s", 1, Some(5.0), None, None);
    var changes := [c];
    assert changes[..0] == [];
    var r := Append(Max, Replay(Max, t, []), c);
    assert r == Replay(Max, t, changes);
    assert r.table["s"].score == 5.0 && r.table.Keys == {"s"};
    assert 5.0 in Scores(r.table);
    assert forall x | x in Scores(r.table) :: x == 5.0;
    LargestIs(Scores(r.table), 5.0);
    assert MaxScore(r.table) == 5.0;
    assert r.history == [Entry(1, 5.0)];
    LeadingOfEarly(r.history, EntryTime, 4);
    assert MadeBy(t, 4) == map[];
    LeadingOfEarly(changes, ChangeTime, 4);
    assert ApplyAll(Reset(MadeBy(t, 4)), []) == map[];
    assert SubmissionsAt(t, changes, 4) == map[];
    assert Scores(SubmissionsAt(t, changes, 4)) == {};
    assert !Causal(t, changes);
  }

  /** A later submission that is better than all the early ones, if only for having no result. */
  lemma LaterIsBetter(t: Table, changes: seq<Subchange>, at: int, a: string, b: string)
    requires Known(t, changes) && Sorted(changes) && a in t && b in t && t[a].time <= at < t[b].time
    requires forall k | k in t :: k == a || k == b
    requires var all := WithOldChanges(Max, t, changes, at); all[a].score < all[b].score
    ensures ScoreAt(Replay(Max, t, changes).history, at) != Rule(Max, SubmissionsAt(t, changes, at), None)
  {
    var all := WithOldChanges(Max, t, changes, at);
    LeadingIsPrefix(changes, ChangeTime, at);
    ReplayKeepsIdentity(Max, t, Leading(changes, ChangeTime, at));
    assert Reset(all)[a] == Reset(t)[a] && Reset(all)[b] == Reset(t)[b];
    FrozenSubmissionsAre(Max, t, changes, at);
    OnlyEarlyOne(all, a, b, at);
    FrozenViewsAgreeIff(Max, t, changes, at);
  }

  lemma OnlyEarlyOne(all: Table, a: string, b: string, at: int)
    requires a in all && b in all && all[a].time <= at < all[b].time && all[a].score < all[b].score
    requires forall k | k in all :: k == a || k == b
    ensures !NoBetter(Max, MadeBy(all, at), all)
  {
    var now := MadeBy(all, at);
    assert now[a].score in Scores(now) && forall k | k in now :: k == a;
    LargestIs(Scores(now), all[a].score);
    assert b !in now;
  }

  /** Below zero, a submission that was made later raises the frozen score of before. */
  lemma NegativeScoreBreaksAgreement() returns (t: Table, changes: seq<Subchange>, at: int)
    ensures Known(t, changes) && Sorted(changes) && Causal(t, changes) && !NonNegativeChanges(changes)
    ensures ScoreAt(Replay(Max, t, changes).history, at) != Rule(Max, SubmissionsAt(t, changes, at), None)
  {
    var early, late := Submission("u", "t", 0, 0.0, false, []), Submission("u", "t", 9, 0.0, false, []);
    t, at := map["a" := early, "b" := late], 4;
    var c := Subchange("c", "a", 1, Some(-5.0), None, None);
    changes := [c];
    assert changes[..0] == [] && !changes[0].NonNegative();
    LeadingOfEarly(changes, ChangeTime, at);
    assert Append(Max, Replay(Max, t, []), c).table == WithOldChanges(Max, t, changes, at);
    LaterIsBetter(t, changes, at, "a", "b");
  }
}
