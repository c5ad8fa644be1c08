/**
  What a score means in terms of the changes alone: which result each submission has, and what each score
  mode makes of those results, written out field by field.
 */
module ScoreMeaning {
  import opened Basics
  import opened ScoreSpec
  import opened ScoreLaws
  import opened Freeze

  /** The order of a sorted list: by time, and changes of the same time by their keys. */
  lemma OrderOfChanges(changes: seq<Subchange>, i: nat, j: nat)
    requires Sorted(changes) && i < j < |changes|
    ensures changes[i].time <= changes[j].time
    ensures changes[i].time == changes[j].time ==> exists n: nat :: DifferAt(changes[i].key, changes[j].key, n)
  {
    assert Before(changes[i], changes[j]);
    PrecedesIs(changes[i].key, changes[j].key);
  }

  // ---- The results of a submission ---------------------------------------------------------------

  /** The last change of the submission that carries the field gives it this value; without one, it is the default. */
  ghost predicate LastGives<T>(changes: seq<Subchange>, id: string, field: Subchange -> Option<T>, value: T, default_: T) {
    || (exists i | 0 <= i < |changes| :: GivesAt(changes, id, field, value, i))
    || (value == default_ && NoneGives(changes, id, field, 0))
  }

  ghost predicate GivesAt<T>(changes: seq<Subchange>, id: string, field: Subchange -> Option<T>, value: T, i: int)
    requires 0 <= i < |changes|
  {
    changes[i].submission == id && field(changes[i]) == Some(value) && NoneGives(changes, id, field, i + 1)
  }

  ghost predicate NoneGives<T>(changes: seq<Subchange>, id: string, field: Subchange -> Option<T>, from: int)
    requires 0 <= from
  {
    forall j | from <= j < |changes| && changes[j].submission == id :: field(changes[j]).None?
  }

  lemma LastGivesNext<T>(changes: seq<Subchange>, c: Subchange, id: string, field: Subchange -> Option<T>, value: T, default_: T)
    requires LastGives(changes, id, field, value, default_)
    ensures LastGives(changes + [c], id, field,
                      if c.submission == id && field(c).Some? then field(c).value else value, default_)
  {
    var all := changes + [c];
    if c.submission == id && field(c).Some? {
      assert GivesAt(all, id, field, field(c).value, |changes|);
    } else if i :| 0 <= i < |changes| && GivesAt(changes, id, field, value, i) {
      assert GivesAt(all, id, field, value, i);
    } else {
      assert NoneGives(all, id, field, 0);
    }
  }

  function ScoreField(c: Subchange): Option<real> { c.score }
  function TokenField(c: Subchange): Option<bool> { c.token }
  function ExtraField(c: Subchange): Option<seq<real>> { c.extra }

  /** A submission has the score, the token and the extra that its changes last gave it, each for itself. */
  ghost predicate HasResults(changes: seq<Subchange>, id: string, s: Submission) {
    && LastGives(changes, id, ScoreField, s.score, 0.0)
    && LastGives(changes, id, TokenField, s.token, false)
    && LastGives(changes, id, ExtraField, s.extra, [])
  }

  ghost predicate SameMaker(s: Submission, r: Submission) { s.user == r.user && s.task == r.task && s.time == r.time }

  lemma {:induction false} AppliedResults(t: Table, changes: seq<Subchange>, id: string)
    ensures ApplyAll(Reset(t), changes).Keys == t.Keys
    ensures id in t ==> HasResults(changes, id, ApplyAll(Reset(t), changes)[id]) && SameMaker(t[id], ApplyAll(Reset(t), changes)[id])
  {
    if changes != [] {
      var n := |changes| - 1;
      AppliedResults(t, changes[..n], id);
      assert changes == changes[..n] + [changes[n]];
      if id in t {
        var s := ApplyAll(Reset(t), changes[..n])[id];
        LastGivesNext(changes[..n], changes[n], id, ScoreField, s.score, 0.0);
        LastGivesNext(changes[..n], changes[n], id, TokenField, s.token, false);
        LastGivesNext(changes[..n], changes[n], id, ExtraField, s.extra, []);
      }
    }
  }

  /** A replay leaves every submission with the results that its last changes gave. */
  lemma {:induction false} ReplayedResults(mode: Mode, t: Table, changes: seq<Subchange>, id: string)
    requires Known(t, changes) && id in t
    ensures HasResults(changes, id, Replay(mode, t, changes).table[id])
    ensures SameMaker(t[id], Replay(mode, t, changes).table[id])
  {
    ReplayTable(mode, t, changes);
    AppliedResults(t, changes, id);
  }

  /**
    The frozen submissions are those made by `at`, with the results that their last changes up to `at`
    gave: the first n of the list.
   */
  lemma {:induction false} FrozenResults(t: Table, changes: seq<Subchange>, at: int, n: nat, id: string)
    requires Sorted(changes) && n <= |changes| && forall i | 0 <= i < |changes| :: changes[i].time <= at <==> i < n
    ensures id in SubmissionsAt(t, changes, at) <==> id in t && t[id].time <= at
    ensures id in SubmissionsAt(t, changes, at) ==>
      HasResults(changes[..n], id, SubmissionsAt(t, changes, at)[id]) && SameMaker(t[id], SubmissionsAt(t, changes, at)[id])
  {
    forall i, j | 0 <= i < j < |changes| ensures ChangeTime(changes[i]) <= ChangeTime(changes[j]) {
      OrderOfChanges(changes, i, j);
    }
    LeadingKeepsAllUpTo(changes, ChangeTime, at);
    var m := |Leading(changes, ChangeTime, at)|;
    assert (m < |changes| ==> at < changes[m].time) && (n < |changes| ==> at < changes[n].time);
    AppliedResults(MadeBy(t, at), changes[..n], id);
  }

  // ---- What the modes make of them ---------------------------------------------------------------

  /** The best score of all submissions, zero without any. */
  ghost predicate IsBestScore(t: Table, x: real) {
    && (t.Keys == {} ==> x == 0.0)
    && (t.Keys != {} ==> exists k | k in t :: t[k].score == x)
    && (forall k | k in t :: t[k].score <= x)
  }

  lemma MaxMeans(t: Table, last: Option<string>)
    ensures IsBestScore(t, Rule(Max, t, last))
  {
    if t.Keys != {} {
      assert t[Pick(t.Keys)].score in Scores(t);
      var x := MaxScore(t);
      assert x in Scores(t) && forall k | k in t :: t[k].score in Scores(t);
    }
  }

  /** How many subtasks a submission has results for, and which: the extra fields, or else the score alone. */
  function Subtasks(s: Submission): nat { if |s.extra| > 0 then |s.extra| else 1 }

  function OnSubtask(s: Submission, j: nat): real {
    if |s.extra| > 0 then (if j < |s.extra| then s.extra[j] else 0.0) else if j == 0 then s.score else 0.0
  }

  function Sum(xs: seq<real>): real { if xs == [] then 0.0 else Sum(xs[..|xs| - 1]) + xs[|xs| - 1] }

  /** The best result on each subtask, up to the last one that any submission has. */
  ghost predicate AreBests(t: Table, bests: seq<real>) {
    && (forall k | k in t :: Subtasks(t[k]) <= |bests|)
    && (bests != [] ==> exists k | k in t :: Subtasks(t[k]) == |bests|)
    && (forall j | 0 <= j < |bests| :: IsBestOn(t, j, bests[j]))
  }

  ghost predicate IsBestOn(t: Table, j: nat, x: real) {
    (exists k | k in t :: OnSubtask(t[k], j) == x) && forall k | k in t :: OnSubtask(t[k], j) <= x
  }

  lemma ColumnMeans(t: Table, j: nat)
    requires t.Keys != {}
    ensures IsBestOn(t, j, Column(t, j))
  {
    assert forall k | k in t :: t[k].Cell(j) == OnSubtask(t[k], j);
    assert t[Pick(t.Keys)].Cell(j) in Cells(t, j);
    var x := Column(t, j);
    assert x in Cells(t, j) && forall k | k in t :: t[k].Cell(j) in Cells(t, j);
    var k :| k in t && t[k].Cell(j) == x;
    assert OnSubtask(t[k], j) == x;
  }

  ghost function Columns(t: Table, n: nat): seq<real> { seq(n, j requires 0 <= j < n => Column(t, j)) }

  lemma {:induction false} SumOfColumnsMeans(t: Table, n: nat)
    ensures Sum(Columns(t, n)) == SumOfColumns(t, n)
  {
    if n != 0 {
      SumOfColumnsMeans(t, n - 1);
      assert Columns(t, n)[..n - 1] == Columns(t, n - 1);
    }
  }

  /** The sum of the best results on the subtasks. */
  lemma SubtasksMean(t: Table, last: Option<string>) returns (bests: seq<real>)
    ensures AreBests(t, bests) && Rule(MaxSubtask, t, last) == Sum(bests)
  {
    bests := Columns(t, Width(t));
    SumOfColumnsMeans(t, Width(t));
    assert forall k | k in t :: Subtasks(t[k]) == |t[k].Row()|;
    if Width(t) != 0 {
      var k :| k in t && |t[k].Row()| == Width(t);
      assert Subtasks(t[k]) == |bests|;
      forall j | 0 <= j < |bests| ensures IsBestOn(t, j, bests[j]) { ColumnMeans(t, j); }
    }
  }

  /** The best of zero, the scores with a token, and the score of the last submission. */
  ghost predicate IsBestTokened(t: Table, last: Option<string>, x: real) {
    && 0.0 <= x && (forall k | k in t && t[k].token :: t[k].score <= x)
    && (last.Some? && last.value in t ==> t[last.value].score <= x)
    && (x == 0.0 || (exists k | k in t && t[k].token :: t[k].score == x) ||
        (last.Some? && last.value in t && t[last.value].score == x))
  }

  lemma TokenedMeans(t: Table, last: Option<string>)
    ensures IsBestTokened(t, last, Rule(MaxTokenedLast, t, last))
  {
    var x := Rule(MaxTokenedLast, t, last);
    assert x in {0.0, LastScore(t, last)} + TokenedScores(t);
    assert forall k | k in t && t[k].token :: t[k].score in TokenedScores(t);
  }

  /**
    The current score after a replay, from the changes alone: every submission has the results that its
    changes last gave it, and the score is what the mode makes of those.
   */
  lemma {:induction false} ScoreMeans(mode: Mode, t: Table, changes: seq<Subchange>) returns (bests: seq<real>)
    requires Known(t, changes)
    ensures var c := Replay(mode, t, changes); var x := CurrentScore(c.history);
      && c.table.Keys == t.Keys && (forall id | id in t :: HasResults(changes, id, c.table[id]))
      && (mode == Max ==> IsBestScore(c.table, x))
      && (mode == MaxSubtask ==> AreBests(c.table, bests) && x == Sum(bests))
      && (mode == MaxTokenedLast ==> IsBestTokened(c.table, c.last, x) && LastIsLatestScored(c, changes))
  {
    var c := Replay(mode, t, changes);
    ReplayIsGood(mode, t, changes);
    forall id | id in t ensures HasResults(changes, id, c.table[id]) { ReplayedResults(mode, t, changes, id); }
    bests := SubtasksMean(c.table, c.last);
    MaxMeans(c.table, c.last);
    TokenedMeans(c.table, c.last);
  }
}
