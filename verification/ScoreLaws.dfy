/** What the replay of `ScoreSpec` guarantees, for every table and every list of changes. */
module ScoreLaws {
  import opened Basics
  import opened ScoreSpec

  ghost predicate NonNegative(t: Table) {
    forall k | k in t :: t[k].NonNegative()
  }

  ghost predicate NonNegativeChanges(changes: seq<Subchange>) {
    forall i | 0 <= i < |changes| :: changes[i].NonNegative()
  }

  // ---- The replay looks only at who submitted what and when --------------------------------------

  lemma AppendKeepsIdentity(mode: Mode, c: Core, ch: Subchange)
    requires CanAppend(c, ch)
    ensures Reset(Append(mode, c, ch).table) == Reset(c.table)
  {
  }

  lemma {:induction false} ReplayKeepsIdentity(mode: Mode, t: Table, changes: seq<Subchange>)
    requires Known(t, changes)
    ensures Reset(Replay(mode, t, changes).table) == Reset(t)
  {
    if changes != [] {
      var n := |changes| - 1;
      ReplayKeepsIdentity(mode, t, changes[..n]);
      AppendKeepsIdentity(mode, Replay(mode, t, changes[..n]), changes[n]);
    }
  }

  lemma {:induction false} ReplayOfSameIdentity(mode: Mode, t: Table, u: Table, changes: seq<Subchange>)
    requires Known(t, changes) && Reset(t) == Reset(u)
    ensures Known(u, changes) && Replay(mode, t, changes) == Replay(mode, u, changes)
  {
    assert u.Keys == Reset(u).Keys == t.Keys;
    if changes != [] { ReplayOfSameIdentity(mode, t, u, changes[..|changes| - 1]); }
  }

  lemma {:induction false} ReplayIsNonNegative(mode: Mode, t: Table, changes: seq<Subchange>)
    requires Known(t, changes) && NonNegativeChanges(changes)
    ensures NonNegative(Replay(mode, t, changes).table)
  {
    if changes != [] { ReplayIsNonNegative(mode, t, changes[..|changes| - 1]); }
  }

  // ---- More submissions --------------------------------------------------------------------------

  /** A table with more submissions; results below zero have to have something to be compared with. */
  ghost predicate Larger(small: Table, big: Table) { Included(small, big) && (small.Keys != {} || NonNegative(big)) }

  /** The submissions that only `big` has are no better than those of `small`, on any subtask. */
  ghost predicate NoBetter(mode: Mode, small: Table, big: Table) {
    match mode
    case Max => forall k | k in big && k !in small :: big[k].score <= MaxScore(small)
    case MaxSubtask => NoBetterUpTo(small, big, Width(big))
    case MaxTokenedLast => true
  }

  ghost predicate NoBetterAt(small: Table, big: Table, j: nat) {
    forall k | k in big && k !in small :: big[k].Cell(j) <= Column(small, j)
  }

  /** A larger table has at least the maxima of a smaller one, and the same exactly if nothing better came. */
  lemma LargestWithMore(s: set<real>, b: set<real>)
    requires s <= b && (s != {} || forall x | x in b :: 0.0 <= x)
    ensures LargestOrZero(s) <= LargestOrZero(b)
    ensures LargestOrZero(s) == LargestOrZero(b) <==> forall x | x in b :: x <= LargestOrZero(s)
  {
  }

  lemma MaxWithMore(small: Table, big: Table)
    requires Larger(small, big)
    ensures MaxScore(small) == MaxScore(big) <==> NoBetter(Max, small, big)
  {
    var s, b := Scores(small), Scores(big);
    assert small.Keys != {} ==> small[Pick(small.Keys)].score in s;
    forall k | k in small ensures small[k].score in b { assert big[k].score in b; }
    LargestWithMore(s, b);
    assert NoBetter(Max, small, big) <==> forall x | x in b :: x <= MaxScore(small) by {
      forall k | k in big ensures big[k].score in b && (k in small ==> big[k].score in s && big[k].score <= MaxScore(small)) {}
    }
  }

  lemma ColumnWithMore(small: Table, big: Table, j: nat)
    requires Larger(small, big)
    ensures Column(small, j) <= Column(big, j)
    ensures Column(small, j) == Column(big, j) <==> NoBetterAt(small, big, j)
  {
    var s, b := Cells(small, j), Cells(big, j);
    assert small.Keys != {} ==> small[Pick(small.Keys)].Cell(j) in s;
    forall k | k in small ensures small[k].Cell(j) in b { assert big[k].Cell(j) in b; }
    LargestWithMore(s, b);
    assert NoBetterAt(small, big, j) <==> forall x | x in b :: x <= Column(small, j) by {
      forall k | k in big ensures big[k].Cell(j) in b && (k in small ==> big[k].Cell(j) in s && big[k].Cell(j) <= Column(small, j)) {}
    }
  }

  ghost predicate NoBetterUpTo(small: Table, big: Table, n: nat) {
    n == 0 || (NoBetterUpTo(small, big, n - 1) && NoBetterAt(small, big, n - 1))
  }

  lemma {:induction false} NoBetterOnAll(small: Table, big: Table, n: nat)
    ensures NoBetterUpTo(small, big, n) <==> forall j | 0 <= j < n :: NoBetterAt(small, big, j)
  {
    if n != 0 { NoBetterOnAll(small, big, n - 1); }
  }

  lemma {:induction false} SumWithMore(small: Table, big: Table, n: nat)
    requires Larger(small, big)
    ensures SumOfColumns(small, n) <= SumOfColumns(big, n)
    ensures SumOfColumns(small, n) == SumOfColumns(big, n) <==> NoBetterUpTo(small, big, n)
  {
    if n != 0 {
      SumWithMore(small, big, n - 1);
      ColumnWithMore(small, big, n - 1);
      SameSums(SumOfColumns(small, n - 1), Column(small, n - 1), SumOfColumns(big, n - 1), Column(big, n - 1));
    }
  }

  lemma SameSums(a: real, b: real, c: real, d: real)
    requires a <= c && b <= d
    ensures a + b == c + d <==> a == c && b == d
  {
  }

  lemma {:induction false} SumOfZeros(t: Table, w: nat, n: nat)
    requires w <= n && forall j | w <= j < n :: Column(t, j) == 0.0
    ensures SumOfColumns(t, n) == SumOfColumns(t, w)
  {
    if n != w { SumOfZeros(t, w, n - 1); }
  }

  /** Beyond the longest row there are only zeros. */
  lemma SumBeyondWidth(t: Table, n: nat)
    requires Width(t) <= n
    ensures SumOfColumns(t, n) == SumOfColumns(t, Width(t))
  {
    forall j | Width(t) <= j < n ensures Column(t, j) == 0.0 { ZerosBeyondWidth(t, j); }
    SumOfZeros(t, Width(t), n);
  }

  lemma ZerosBeyondWidth(t: Table, j: nat)
    requires Width(t) <= j
    ensures Column(t, j) == 0.0
  {
    if t.Keys != {} {
      assert t[Pick(t.Keys)].Cell(j) in Cells(t, j);
      assert Column(t, j) in Cells(t, j);
    }
  }

  lemma WidthWithMore(small: Table, big: Table)
    requires Included(small, big)
    ensures Width(small) <= Width(big)
  {
    if Width(small) != 0 {
      var k :| k in small && |small[k].Row()| == Width(small);
      assert |big[k].Row()| <= Width(big);
    }
  }

  /** In the modes without tokens, more submissions leave the rule as it was exactly if none is better. */
  lemma RuleWithMore(mode: Mode, small: Table, big: Table, released: seq<real>, last: Option<string>)
    requires Larger(small, big)
    requires last.Some? ==> last.value in small
    ensures Formula(mode, small, released, last) == Formula(mode, big, released, last) <==> NoBetter(mode, small, big)
  {
    match mode
    case Max => MaxWithMore(small, big);
    case MaxSubtask =>
      WidthWithMore(small, big);
      SumBeyondWidth(small, Width(big));
      SumWithMore(small, big, Width(big));
    case MaxTokenedLast =>
  }

  // ---- Submissions without results ---------------------------------------------------------------

  /** `big` is `small` plus submissions that no change has touched. */
  ghost predicate Padded(small: Table, big: Table) {
    Included(small, big) && forall k | k in big && k !in small :: big[k].Blank()
  }

  /** The best of the submissions, on every subtask, is not negative. */
  ghost predicate Harmless(mode: Mode, t: Table) {
    match mode
    case Max => t.Keys == {} || exists k | k in t :: 0.0 <= t[k].score
    case MaxSubtask => forall j: nat | j < Width(t) :: 0.0 <= Column(t, j)
    case MaxTokenedLast => true
  }

  lemma NonNegativeIsHarmless(mode: Mode, t: Table)
    requires NonNegative(t)
    ensures Harmless(mode, t)
  {
    if t.Keys != {} { assert 0.0 <= t[Pick(t.Keys)].score; }
    forall j: nat ensures 0.0 <= Column(t, j) { assert forall x | x in Cells(t, j) :: 0.0 <= x; }
  }

  /** A submission without results leaves the formula as it was exactly if the best so far is not negative. */
  lemma FormulaIgnoresBlankIff(mode: Mode, small: Table, big: Table, released: seq<real>, last: Option<string>)
    requires Padded(small, big) && small.Keys != big.Keys && (last.Some? ==> last.value in small)
    ensures Formula(mode, small, released, last) == Formula(mode, big, released, last) <==> Harmless(mode, small)
  {
    RuleWithMore(mode, small, big, released, last);
    match mode
    case Max => BlankIsNoBetter(small, big);
    case MaxSubtask => BlankIsNoBetterAnywhere(small, big);
    case MaxTokenedLast =>
  }

  lemma ExtraKey(small: Table, big: Table) returns (k: string)
    requires Padded(small, big) && small.Keys != big.Keys
    ensures k in big && k !in small && big[k].Blank()
  {
    k :| k in big.Keys && k !in small.Keys;
  }

  lemma BlankIsNoBetter(small: Table, big: Table)
    requires Padded(small, big) && small.Keys != big.Keys
    ensures NoBetter(Max, small, big) <==> Harmless(Max, small)
  {
    var k := ExtraKey(small, big);
    if small.Keys != {} {
      assert small[Pick(small.Keys)].score in Scores(small);
      var best :| best in small && small[best].score == MaxScore(small);
      if i :| i in small && 0.0 <= small[i].score { assert small[i].score in Scores(small); }
    }
  }

  lemma BlankIsNoBetterAnywhere(small: Table, big: Table)
    requires Padded(small, big) && small.Keys != big.Keys
    ensures NoBetter(MaxSubtask, small, big) <==> Harmless(MaxSubtask, small)
  {
    var k := ExtraKey(small, big);
    WidthWithMore(small, big);
    NoBetterOnAll(small, big, Width(big));
    forall j | 0 <= j < Width(big) ensures NoBetterAt(small, big, j) <==> 0.0 <= Column(small, j) {
      assert big[k].Cell(j) == 0.0 && forall i | i in big && i !in small :: big[i].Cell(j) == 0.0;
      if Width(small) <= j { ZerosBeyondWidth(small, j); }
    }
    forall j | Width(small) <= j < Width(big) ensures 0.0 <= Column(small, j) { ZerosBeyondWidth(small, j); }
  }

  lemma FormulaIgnoresBlank(mode: Mode, small: Table, big: Table, released: seq<real>, last: Option<string>)
    requires Padded(small, big) && Harmless(mode, small) && (last.Some? ==> last.value in small)
    ensures Formula(mode, small, released, last) == Formula(mode, big, released, last)
  {
    if small.Keys == big.Keys { assert small == big; } else { FormulaIgnoresBlankIff(mode, small, big, released, last); }
  }

  /** The same derived data but for the history, up to submissions without results. */
  ghost predicate SameBut(a: Core, b: Core) {
    Padded(a.table, b.table) && a.released == b.released && a.last == b.last
  }

  ghost predicate SameResults(a: Core, b: Core) { SameBut(a, b) && a.history == b.history }

  lemma AppendPads(mode: Mode, a: Core, b: Core, ch: Subchange)
    requires SameBut(a, b) && CanAppend(a, ch)
    ensures CanAppend(b, ch) && SameBut(Append(mode, a, ch), Append(mode, b, ch))
  {
  }

  lemma {:induction false} ReplayPads(mode: Mode, t: Table, u: Table, changes: seq<Subchange>)
    requires Known(t, changes) && t.Keys <= u.Keys && forall k | k in t :: t[k].Reset() == u[k].Reset()
    ensures Known(u, changes) && SameBut(Replay(mode, t, changes), Replay(mode, u, changes))
  {
    if changes != [] {
      var n := |changes| - 1;
      ReplayPads(mode, t, u, changes[..n]);
      AppendPads(mode, Replay(mode, t, changes[..n]), Replay(mode, u, changes[..n]), changes[n]);
    }
  }

  lemma AppendIgnoresBlank(mode: Mode, a: Core, b: Core, ch: Subchange)
    requires SameResults(a, b) && CanAppend(a, ch) && Harmless(mode, Append(mode, a, ch).table)
    ensures CanAppend(b, ch) && SameResults(Append(mode, a, ch), Append(mode, b, ch))
  {
    var x, y := Append(mode, a, ch), Append(mode, b, ch);
    AppendPads(mode, a, b, ch);
    FormulaIgnoresBlank(mode, x.table, y.table, x.released, x.last);
  }

  /** The best was never negative: after none of the changes. */
  ghost predicate HarmlessThroughout(mode: Mode, t: Table, changes: seq<Subchange>)
    requires Known(t, changes)
  {
    forall n | 0 <= n <= |changes| :: Harmless(mode, Replay(mode, t, changes[..n]).table)
  }

  lemma NonNegativeThroughout(mode: Mode, t: Table, changes: seq<Subchange>)
    requires Known(t, changes) && NonNegativeChanges(changes)
    ensures HarmlessThroughout(mode, t, changes)
  {
    forall n | 0 <= n <= |changes| ensures Harmless(mode, Replay(mode, t, changes[..n]).table) {
      ReplayIsNonNegative(mode, t, changes[..n]);
      NonNegativeIsHarmless(mode, Replay(mode, t, changes[..n]).table);
    }
  }

  lemma HarmlessBefore(mode: Mode, t: Table, changes: seq<Subchange>, n: nat)
    requires Known(t, changes) && HarmlessThroughout(mode, t, changes) && n <= |changes|
    ensures HarmlessThroughout(mode, t, changes[..n])
  {
    forall i | 0 <= i <= n ensures Harmless(mode, Replay(mode, t, changes[..n][..i]).table) {
      assert changes[..n][..i] == changes[..i];
    }
  }

  /** Replaying over more submissions gives the same results, as long as no change touches the others. */
  lemma {:induction false} ReplayIgnoresUntouched(mode: Mode, t: Table, u: Table, changes: seq<Subchange>)
    requires Known(t, changes) && HarmlessThroughout(mode, t, changes)
    requires t.Keys <= u.Keys && forall k | k in t :: t[k].Reset() == u[k].Reset()
    ensures Known(u, changes)
    ensures SameResults(Replay(mode, t, changes), Replay(mode, u, changes))
  {
    if changes != [] {
      var n := |changes| - 1;
      HarmlessBefore(mode, t, changes, n);
      ReplayIgnoresUntouched(mode, t, u, changes[..n]);
      assert changes[..|changes|] == changes;
      AppendIgnoresBlank(mode, Replay(mode, t, changes[..n]), Replay(mode, u, changes[..n]), changes[n]);
    }
  }

  // ---- The released scores -----------------------------------------------------------------------

  ghost function Tokened(t: Table, x: real): set<string> {
    set k | k in t && t[k].token && t[k].score == x
  }

  /** As a multiset, the released scores are those of the submissions with a token. */
  ghost predicate ReleasedIsTokened(c: Core) {
    forall x: real :: multiset(c.released)[x] == |Tokened(c.table, x)|
  }

  lemma {:induction false} RemoveFirstCounts(s: seq<real>, x: real)
    ensures multiset(RemoveFirst(s, x)) == multiset(s) - multiset{x}
  {
    if s != [] {
      assert s == [s[0]] + s[1..];
      RemoveFirstCounts(s[1..], x);
      if s[0] != x { assert multiset(RemoveFirst(s, x)) == multiset{s[0]} + multiset(RemoveFirst(s[1..], x)); }
    }
  }

  /** The score to withdraw is always there: removing it never fails. */
  lemma TokenIsReleased(c: Core, id: string)
    requires ReleasedIsTokened(c) && id in c.table && c.table[id].token
    ensures c.table[id].score in c.released
  {
    var x := c.table[id].score;
    assert id in Tokened(c.table, x);
    assert multiset(c.released)[x] == |Tokened(c.table, x)| > 0;
  }

  lemma TokenedAfter(t: Table, id: string, s: Submission, x: real)
    requires id in t
    ensures |Tokened(t[id := s], x)| + (if t[id].token && t[id].score == x then 1 else 0)
         == |Tokened(t, x)| + (if s.token && s.score == x then 1 else 0)
  {
    var a, b := Tokened(t, x), Tokened(t[id := s], x);
    assert a - {id} == b - {id};
    CountWithout(a, id);
    CountWithout(b, id);
  }

  lemma CountWithout(s: set<string>, id: string)
    ensures |s| == |s - {id}| + (if id in s then 1 else 0)
  {
    if id in s { assert s == s - {id} + {id}; } else { assert s == s - {id}; }
  }

  lemma AppendKeepsReleased(mode: Mode, c: Core, ch: Subchange)
    requires CanAppend(c, ch) && ReleasedIsTokened(c)
    ensures ReleasedIsTokened(Append(mode, c, ch))
  {
    var id := ch.submission;
    var r := Append(mode, c, ch);
    if c.table[id].token { TokenIsReleased(c, id); }
    RemoveFirstCounts(c.released, c.table[id].score);
    forall x: real ensures multiset(r.released)[x] == |Tokened(r.table, x)| {
      TokenedAfter(c.table, id, r.table[id], x);
    }
  }

  /** What the score means: the mode's rule applied to the submissions, without the released list. */
  ghost function Rule(mode: Mode, t: Table, last: Option<string>): real {
    match mode
    case Max => MaxScore(t)
    case MaxSubtask => SumOfColumns(t, Width(t))
    case MaxTokenedLast => Largest({0.0, LastScore(t, last)} + TokenedScores(t))
  }

  ghost function TokenedScores(t: Table): set<real> { set k | k in t && t[k].token :: t[k].score }

  lemma FormulaIsRule(mode: Mode, c: Core)
    requires ReleasedIsTokened(c)
    ensures Formula(mode, c.table, c.released, c.last) == Rule(mode, c.table, c.last)
  {
    var released := set x | x in c.released;
    var tokened := TokenedScores(c.table);
    forall x ensures x in released <==> x in tokened {
      assert x in released <==> multiset(c.released)[x] > 0;
      if x in released { var k := Pick(Tokened(c.table, x)); assert k in c.table; }
      if x in tokened {
        var k :| k in c.table && c.table[k].token && c.table[k].score == x;
        TokenIsReleased(c, k);
      }
    }
    assert released == tokened;
    var l := LastScore(c.table, c.last);
    var m := Largest({0.0, l} + tokened);
    var q := Query(c.released);
    assert q in {0.0} + released;
    assert q in {0.0, l} + tokened && l in {0.0, l} + tokened;
    assert m == l || m in {0.0} + released;
  }

  // ---- The last submission -----------------------------------------------------------------------

  /** Change i is the first to score a submission made no earlier than any other scored one. */
  ghost predicate MakesLast(t: Table, changes: seq<Subchange>, i: nat)
    requires Known(t, changes) && i < |changes|
  {
    && changes[i].score.Some?
    && forall j | 0 <= j < |changes| && changes[j].score.Some? ::
         var mine, other := t[changes[i].submission].time, t[changes[j].submission].time;
         other <= mine && (j < i ==> other < mine)
  }

  ghost predicate LastIsLatestScored(c: Core, changes: seq<Subchange>)
    requires Known(c.table, changes)
  {
    match c.last
    case None => forall j | 0 <= j < |changes| :: changes[j].score.None?
    case Some(id) => exists i | 0 <= i < |changes| :: changes[i].submission == id && MakesLast(c.table, changes, i)
  }

  lemma AppendKeepsLast(mode: Mode, c: Core, changes: seq<Subchange>, ch: Subchange)
    requires CanAppend(c, ch) && Known(c.table, changes) && LastIsLatestScored(c, changes)
    ensures Known(Append(mode, c, ch).table, changes + [ch])
    ensures LastIsLatestScored(Append(mode, c, ch), changes + [ch])
  {
    var r, all := Append(mode, c, ch), changes + [ch];
    assert SameTimes(c.table, r.table);
    if c.last.Some? {
      var i :| 0 <= i < |changes| && changes[i].submission == c.last.value && MakesLast(c.table, changes, i);
      if r.last == c.last {
        StaysLast(c.table, r.table, changes, ch, i);
        assert all[i].submission == c.last.value;
      } else {
        BecomesLast(c.table, r.table, changes, ch, i);
        assert all[|changes|].submission == r.last.value;
      }
    } else if r.last.Some? {
      assert all[|changes|].submission == r.last.value && MakesLast(r.table, all, |changes|);
    }
  }

  ghost predicate SameTimes(t: Table, u: Table) { t.Keys == u.Keys && forall k | k in t :: u[k].time == t[k].time }

  lemma StaysLast(t: Table, u: Table, changes: seq<Subchange>, ch: Subchange, i: nat)
    requires SameTimes(t, u) && Known(t, changes) && ch.submission in t && i < |changes| && MakesLast(t, changes, i)
    requires ch.score.Some? ==> t[ch.submission].time <= t[changes[i].submission].time
    ensures Known(u, changes + [ch]) && MakesLast(u, changes + [ch], i)
  {
  }

  lemma BecomesLast(t: Table, u: Table, changes: seq<Subchange>, ch: Subchange, i: nat)
    requires SameTimes(t, u) && Known(t, changes) && ch.submission in t && i < |changes| && MakesLast(t, changes, i)
    requires ch.score.Some? && t[changes[i].submission].time < t[ch.submission].time
    ensures Known(u, changes + [ch]) && MakesLast(u, changes + [ch], |changes|)
  {
  }

  // ---- The history -------------------------------------------------------------------------------

  /** In time order, and every entry changes the score of the one before (the first one, zero). */
  ghost predicate GoodHistory(h: seq<Entry>) {
    && (forall i, j | 0 <= i < j < |h| :: h[i].time <= h[j].time)
    && (forall i | 0 <= i < |h| :: h[i].score != CurrentScore(h[..i]))
  }

  ghost predicate NotAfter(h: seq<Entry>, t: int) {
    forall i | 0 <= i < |h| :: h[i].time <= t
  }

  lemma {:induction false} AppendKeepsHistory(mode: Mode, c: Core, ch: Subchange)
    requires CanAppend(c, ch) && GoodHistory(c.history) && NotAfter(c.history, ch.time)
    ensures GoodHistory(Append(mode, c, ch).history) && NotAfter(Append(mode, c, ch).history, ch.time)
  {
    var h, r := c.history, Append(mode, c, ch).history;
    forall i | 0 <= i < |r| ensures r[i].score != CurrentScore(r[..i]) {
      assert r[..i] == h[..i];
      assert h[..|h|] == h;
    }
  }

  // ---- Everything a replay establishes -----------------------------------------------------------

  ghost predicate GoodCore(mode: Mode, c: Core, changes: seq<Subchange>)
    requires Known(c.table, changes)
  {
    match c case Core(_, _, _, _) =>
      && ReleasedIsTokened(c)
      && LastIsLatestScored(c, changes)
      && CurrentScore(c.history) == Rule(mode, c.table, c.last)
  }

  lemma BlankRuleIsZero(mode: Mode, t: Table)
    ensures Rule(mode, Reset(t), None) == 0.0
  {
    var none: Table := map[];
    NonNegativeIsHarmless(mode, none);
    FormulaIgnoresBlank(mode, none, Reset(t), [], None);
    forall x: real ensures Tokened(Reset(t), x) == {} && Tokened(none, x) == {} {}
    FormulaIsRule(mode, Core(Reset(t), [], None, []));
    FormulaIsRule(mode, Core(none, [], None, []));
    assert Scores(none) == {} && TokenedScores(none) == {};
    assert Width(none) == 0;
  }

  lemma ResetIsGood(mode: Mode, t: Table)
    ensures GoodCore(mode, Core(Reset(t), [], None, []), [])
  {
    BlankRuleIsZero(mode, t);
    forall x: real ensures Tokened(Reset(t), x) == {} {}
  }

  lemma AppendIsGood(mode: Mode, c: Core, changes: seq<Subchange>, ch: Subchange)
    requires CanAppend(c, ch) && Known(c.table, changes) && GoodCore(mode, c, changes)
    ensures Known(Append(mode, c, ch).table, changes + [ch])
    ensures GoodCore(mode, Append(mode, c, ch), changes + [ch])
  {
    AppendKeepsReleased(mode, c, ch);
    FormulaIsRule(mode, Append(mode, c, ch));
    AppendKeepsLast(mode, c, changes, ch);
  }

  lemma {:induction false} ReplayIsGood(mode: Mode, t: Table, changes: seq<Subchange>)
    requires Known(t, changes)
    ensures GoodCore(mode, Replay(mode, t, changes), changes)
  {
    if changes == [] {
      ResetIsGood(mode, t);
    } else {
      var n := |changes| - 1;
      assert changes[..n] + [changes[n]] == changes;
      ReplayIsGood(mode, t, changes[..n]);
      AppendIsGood(mode, Replay(mode, t, changes[..n]), changes[..n], changes[n]);
    }
  }

  lemma {:induction false} ReplayHistoryIsGood(mode: Mode, t: Table, changes: seq<Subchange>)
    requires Known(t, changes) && Sorted(changes)
    ensures GoodHistory(Replay(mode, t, changes).history)
    ensures changes != [] ==> NotAfter(Replay(mode, t, changes).history, changes[|changes| - 1].time)
  {
    if changes != [] {
      var n := |changes| - 1;
      ReplayHistoryIsGood(mode, t, changes[..n]);
      assert n != 0 ==> Before(changes[n - 1], changes[n]);
      AppendKeepsHistory(mode, Replay(mode, t, changes[..n]), changes[n]);
    }
  }
}
