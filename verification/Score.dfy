/**
  The score of a user for a task, kept up to date change by change.
  Every method is proved to leave what a replay of all the changes from scratch would leave.
 */
module Score {
  import opened Basics
  import opened ScoreSpec
  import opened ScoreLaws
  import opened Freeze

  /** The value of a `Score`: its mode, its changes and what was derived from them. */
  datatype State = State(mode: Mode, core: Core, changes: seq<Subchange>)

  /** What clearing everything and replaying `changes` over the submissions of `t` leaves. */
  ghost function Rebuilt(mode: Mode, t: Table, changes: seq<Subchange>): (s: State)
    requires Known(t, changes)
  {
    State(mode, Replay(mode, t, changes), changes)
  }

  ghost predicate Replayed(s: State) {
    Known(s.core.table, s.changes) && s == Rebuilt(s.mode, s.core.table, s.changes)
  }

  /** Every operation is possible: no look-up and no removal of a released score can fail. */
  ghost predicate Usable(s: State) {
    match s case State(_, core, changes) =>
      Known(core.table, changes) && (core.last.Some? ==> core.last.value in core.table) && ReleasedIsTokened(core)
  }

  lemma RebuiltIsUsable(mode: Mode, t: Table, changes: seq<Subchange>)
    requires Known(t, changes)
    ensures Usable(Rebuilt(mode, t, changes)) && Reset(Rebuilt(mode, t, changes).core.table) == Reset(t)
  {
    ReplayIsGood(mode, t, changes);
    ReplayKeepsIdentity(mode, t, changes);
  }

  lemma ReplayedIsUsable(s: State)
    requires Replayed(s)
    ensures Usable(s)
  {
    RebuiltIsUsable(s.mode, s.core.table, s.changes);
  }

  // ---- The position of a new change --------------------------------------------------------------

  function InsertBeforeLater(changes: seq<Subchange>, c: Subchange): seq<Subchange> {
    if changes == [] then []
    else if Before(c, changes[0]) then [c] + changes
    else [changes[0]] + InsertBeforeLater(changes[1..], c)
  }

  /** Appended if it is the latest, else put before the first later one. */
  function Inserted(changes: seq<Subchange>, c: Subchange): seq<Subchange> {
    if changes == [] || Before(changes[|changes| - 1], c) then changes + [c] else InsertBeforeLater(changes, c)
  }

  /** Where the loop stops is where the change goes; if it runs through, the change is not put in. */
  lemma {:induction false} InsertedAt(changes: seq<Subchange>, c: Subchange, i: nat)
    requires i <= |changes| && (forall j | 0 <= j < i :: !Before(c, changes[j]))
    requires i < |changes| ==> Before(c, changes[i])
    ensures InsertBeforeLater(changes, c) == if i == |changes| then changes else changes[..i] + [c] + changes[i..]
  {
    if i != 0 {
      InsertedAt(changes[1..], c, i - 1);
      ConsParts(changes, c, i);
    }
  }

  lemma ConsParts(s: seq<Subchange>, c: Subchange, i: nat)
    requires 0 < i <= |s|
    ensures [s[0]] + s[1..] == s
    ensures [s[0]] + (s[1..][..i - 1] + [c] + s[1..][i - 1..]) == s[..i] + [c] + s[i..]
  {
  }

  ghost predicate NewKey(changes: seq<Subchange>, key: string) {
    forall i | 0 <= i < |changes| :: changes[i].key != key
  }

  /** Where a change with a new key goes in a sorted list: after all the earlier ones. */
  lemma Placement(changes: seq<Subchange>, c: Subchange) returns (i: nat)
    requires Sorted(changes) && NewKey(changes, c.key)
    ensures i <= |changes| && Inserted(changes, c) == changes[..i] + [c] + changes[i..]
    ensures forall j | 0 <= j < i :: Before(changes[j], c)
    ensures forall j | i <= j < |changes| :: Before(c, changes[j])
  {
    var n := |changes|;
    if changes == [] || Before(changes[n - 1], c) {
      i := n;
      forall j | 0 <= j < n - 1 ensures Before(changes[j], c) {
        BeforeIsTransitive(changes[j], changes[n - 1], c);
      }
    } else {
      BeforeIsTotal(c, changes[n - 1]);
      i := 0;
      while !Before(c, changes[i])
        invariant i < n && forall j | 0 <= j < i :: !Before(c, changes[j])
        decreases n - i
      {
        i := i + 1;
      }
      InsertedAt(changes, c, i);
      forall j | 0 <= j < i ensures Before(changes[j], c) { BeforeIsTotal(c, changes[j]); }
      forall j | i < j < n ensures Before(c, changes[j]) { BeforeIsTransitive(c, changes[i], changes[j]); }
    }
  }

  lemma PlacedIsSorted(changes: seq<Subchange>, c: Subchange, i: nat)
    requires Sorted(changes) && i <= |changes|
    requires forall j | 0 <= j < i :: Before(changes[j], c)
    requires forall j | i <= j < |changes| :: Before(c, changes[j])
    ensures Sorted(changes[..i] + [c] + changes[i..])
  {
    var r := changes[..i] + [c] + changes[i..];
    forall j, k | 0 <= j < k < |r| ensures Before(r[j], r[k]) {
      var j', k' := if j < i then j else j - 1, if k < i then k else k - 1;
      assert j != i ==> r[j] == changes[j'];
      assert k != i ==> r[k] == changes[k'];
    }
  }

  /** A change with a new key goes in exactly once, and the list stays sorted. */
  lemma InsertedIsSorted(changes: seq<Subchange>, c: Subchange)
    requires Sorted(changes) && NewKey(changes, c.key)
    ensures Sorted(Inserted(changes, c))
    ensures multiset(Inserted(changes, c)) == multiset(changes) + multiset{c}
  {
    var i := Placement(changes, c);
    PlacedIsSorted(changes, c, i);
    assert changes == changes[..i] + changes[i..];
  }

  // ---- Other edits of the list of changes ---------------------------------------------------------

  /** The changes that belong to a set, in their order. */
  ghost function Kept(changes: seq<Subchange>, these: set<Subchange>): seq<Subchange> {
    if changes == [] then [] else
      var n := |changes| - 1;
      Kept(changes[..n], these) + (if changes[n] in these then [changes[n]] else [])
  }

  ghost function OtherKeys(changes: seq<Subchange>, key: string): set<Subchange> {
    set c | c in changes && c.key != key
  }

  ghost function OtherSubmissions(changes: seq<Subchange>, id: string): set<Subchange> {
    set c | c in changes && c.submission != id
  }

  lemma {:induction false} KeptIsFilter(changes: seq<Subchange>, these: set<Subchange>)
    ensures forall c :: c in Kept(changes, these) <==> c in changes && c in these
    ensures Sorted(changes) ==> Sorted(Kept(changes, these))
  {
    if changes != [] {
      var n := |changes| - 1;
      KeptIsFilter(changes[..n], these);
      assert changes == changes[..n] + [changes[n]];
      if Sorted(changes) {
        assert forall c | c in changes[..n] :: Before(c, changes[n]);
        assert Sorted(changes[..n]);
      }
    }
  }

  function Replaced(changes: seq<Subchange>, key: string, c: Subchange): seq<Subchange> {
    seq(|changes|, i requires 0 <= i < |changes| => if changes[i].key == key then c else changes[i])
  }

  lemma InsertedIsKnown(t: Table, changes: seq<Subchange>, c: Subchange)
    requires Known(t, changes) && c.submission in t
    ensures Known(t, Inserted(changes, c))
  {
    InsertBeforeLaterMembers(changes, c);
    forall i | 0 <= i < |Inserted(changes, c)| ensures Inserted(changes, c)[i].submission in t {
      assert Inserted(changes, c)[i] in Inserted(changes, c);
    }
  }

  /** What a new change does: the fast path replays nothing. */
  ghost function WithChange(s: State, c: Subchange): State
    requires Usable(s) && c.submission in s.core.table
  {
    InsertedIsKnown(s.core.table, s.changes, c);
    if s.changes == [] || Before(s.changes[|s.changes| - 1], c)
    then State(s.mode, Append(s.mode, s.core, c), s.changes + [c])
    else Rebuilt(s.mode, s.core.table, Inserted(s.changes, c))
  }

  /** The fast path leaves what a full replay would leave. */
  lemma FastPathIsReplay(s: State, c: Subchange)
    requires Usable(s) && Replayed(s) && c.submission in s.core.table
    ensures Known(s.core.table, Inserted(s.changes, c))
    ensures WithChange(s, c) == Rebuilt(s.mode, s.core.table, Inserted(s.changes, c))
  {
    InsertedIsKnown(s.core.table, s.changes, c);
    assert (s.changes + [c])[..|s.changes|] == s.changes;
  }

  lemma WithChangeIsUsable(s: State, c: Subchange)
    requires Usable(s) && c.submission in s.core.table
    ensures Usable(WithChange(s, c)) && Reset(WithChange(s, c).core.table) == Reset(s.core.table)
  {
    InsertedIsKnown(s.core.table, s.changes, c);
    RebuiltIsUsable(s.mode, s.core.table, Inserted(s.changes, c));
    AppendKeepsReleased(s.mode, s.core, c);
    AppendKeepsIdentity(s.mode, s.core, c);
  }

  ghost function WithSubmission(s: State, key: string, sub: Submission): State {
    s.(core := s.core.(table := s.core.table[key := sub.Reset()]))
  }

  lemma WithSubmissionIsUsable(s: State, key: string, sub: Submission)
    requires Usable(s) && key !in s.core.table
    ensures Usable(WithSubmission(s, key, sub))
    ensures Reset(WithSubmission(s, key, sub).core.table) == Reset(s.core.table)[key := sub.Reset()]
  {
    forall x: real ensures Tokened(s.core.table[key := sub.Reset()], x) == Tokened(s.core.table, x) {}
  }

  lemma ReplacedIsKnown(t: Table, changes: seq<Subchange>, key: string, c: Subchange)
    requires Known(t, changes) && c.submission in t
    ensures Known(t, Replaced(changes, key, c))
  {
  }

  lemma KeptIsKnown(t: Table, u: Table, changes: seq<Subchange>, these: set<Subchange>)
    requires Known(t, changes) && forall c | c in changes && c in these && c.submission in t :: c.submission in u
    ensures Known(u, Kept(changes, these))
  {
    KeptIsFilter(changes, these);
    var r := Kept(changes, these);
    forall i | 0 <= i < |r| ensures r[i].submission in u { assert r[i] in r; }
  }

  lemma {:induction false} InsertBeforeLaterMembers(changes: seq<Subchange>, c: Subchange)
    ensures forall d | d in InsertBeforeLater(changes, c) :: d in changes || d == c
  {
    if changes != [] { InsertBeforeLaterMembers(changes[1..], c); }
  }

  lemma RebuiltIsReplayed(mode: Mode, t: Table, changes: seq<Subchange>)
    requires Known(t, changes)
    ensures Replayed(Rebuilt(mode, t, changes))
  {
    ReplayKeepsIdentity(mode, t, changes);
    ReplayOfSameIdentity(mode, t, Replay(mode, t, changes).table, changes);
  }

  // ---- Numbers -----------------------------------------------------------------------------------

  method MaxOrZero(values: seq<real>) returns (m: real)
    ensures m == LargestOrZero(set x | x in values)
  {
    m := 0.0;
    for i := 0 to |values|
      invariant i == 0 ==> m == 0.0
      invariant i != 0 ==> m in values[..i] && forall x | x in values[..i] :: x <= m
    {
      if i == 0 || m < values[i] { m := values[i]; }
      assert values[..i + 1] == values[..i] + [values[i]];
    }
    assert values[..|values|] == values;
    if values != [] { LargestIs((set x | x in values), m); }
  }

  lemma {:induction false} RemoveFirstAt(s: seq<real>, x: real, i: nat)
    requires i < |s| && s[i] == x && x !in s[..i]
    ensures RemoveFirst(s, x) == s[..i] + s[i + 1..]
  {
    if i != 0 {
      assert s[0] == s[..i][0];
      assert s[1..][..i - 1] == s[..i][1..];
      RemoveFirstAt(s[1..], x, i - 1);
      assert s[..i] == [s[0]] + s[1..][..i - 1] && s[1..][i..] == s[i + 1..];
    }
  }

  /** A multiset of numbers, held in a list. */
  class NumberSet {
    var impl: seq<real>

    constructor ()
      ensures impl == []
    {
      impl := [];
    }

    method Insert(val: real)
      modifies this
      ensures impl == old(impl) + [val]
    {
      impl := impl + [val];
    }

    /** Removes the first occurrence; there has to be one. */
    method Remove(val: real)
      requires val in impl
      modifies this
      ensures impl == RemoveFirst(old(impl), val)
    {
      var i := 0;
      while impl[i] != val
        invariant 0 <= i < |impl| && val !in impl[..i] && impl == old(impl)
        decreases |impl| - i
      {
        i := i + 1;
      }
      RemoveFirstAt(impl, val, i);
      impl := impl[..i] + impl[i + 1..];
    }

    method GetMax() returns (m: real)
      ensures m == ScoreSpec.Query(impl)
    {
      m := MaxOrZero(impl + [0.0]);
      assert (set x | x in impl + [0.0]) == (set x | x in impl) + {0.0};
    }

    method Clear()
      modifies this
      ensures impl == []
    {
      impl := [];
    }
  }

  method ScoreInMode(mode: Mode, table: Table, released: NumberSet, last: Option<string>) returns (score: real)
    ensures score == Formula(mode, table, released.impl, last)
  {
    var keys := Enumerate(table.Keys);
    match mode {
      case Max =>
        var scores := seq(|keys|, i requires 0 <= i < |keys| => table[keys[i]].score);
        score := MaxOrZero(scores);
        assert (set x | x in scores) == Scores(table) by {
          forall k | k in table ensures table[k].score in scores {
            var i :| 0 <= i < |keys| && keys[i] == k;
            assert scores[i] == table[k].score;
          }
        }
      case MaxSubtask =>
        score := SumOfBestColumns(table, keys);
      case MaxTokenedLast =>
        score := released.GetMax();
        if last.Some? && last.value in table {
          if score <= table[last.value].score { score := table[last.value].score; }
        } else if score <= 0.0 {
          score := 0.0;
        }
    }
  }

  method BestInColumn(table: Table, keys: seq<string>, j: nat) returns (best: real)
    requires forall k :: k in table.Keys <==> k in keys
    ensures best == Column(table, j)
  {
    var cells := seq(|keys|, i requires 0 <= i < |keys| => table[keys[i]].Cell(j));
    best := MaxOrZero(cells);
    assert (set x | x in cells) == Cells(table, j) by {
      forall k | k in table ensures table[k].Cell(j) in cells {
        var i :| 0 <= i < |keys| && keys[i] == k;
        assert cells[i] == table[k].Cell(j);
      }
    }
  }

  method LongestRow(table: Table, keys: seq<string>) returns (width: nat)
    requires forall k :: k in table.Keys <==> k in keys
    ensures width == Width(table)
  {
    width := 0;
    for i := 0 to |keys|
      invariant forall j | 0 <= j < i :: |table[keys[j]].Row()| <= width
      invariant width != 0 ==> exists k | k in table :: |table[k].Row()| == width
    {
      if width < |table[keys[i]].Row()| { width := |table[keys[i]].Row()|; }
    }
    forall k | k in table ensures |table[k].Row()| <= width { var i :| 0 <= i < |keys| && keys[i] == k; }
    WidthIs(table, width);
  }

  lemma WidthIs(t: Table, w: nat)
    requires forall k | k in t :: |t[k].Row()| <= w
    requires w != 0 ==> exists k | k in t :: |t[k].Row()| == w
    ensures w == Width(t)
  {
  }

  /** Sums the column maxima while some row still has a cell, as `zip_longest` yields them. */
  method SumOfBestColumns(table: Table, keys: seq<string>) returns (sum: real)
    requires forall k :: k in table.Keys <==> k in keys
    ensures sum == SumOfColumns(table, Width(table))
  {
    var width := LongestRow(table, keys);
    sum := 0.0;
    for j := 0 to width
      invariant sum == SumOfColumns(table, j)
    {
      var best := BestInColumn(table, keys, j);
      sum := sum + best;
    }
  }

  lemma LeadingNext<T>(s: seq<T>, time: T -> int, t: int, i: nat)
    requires i < |s| && time(s[i]) <= t
    ensures s[..i] + Leading(s[i..], time, t) == s[..i + 1] + Leading(s[i + 1..], time, t)
  {
    assert s[i..][1..] == s[i + 1..] && s[..i] + [s[i]] == s[..i + 1];
    ConcatIsAssociative(s[..i], [s[i]], Leading(s[i + 1..], time, t));
  }

  class Score {
    var submissions: Table
    var changes: seq<Subchange>
    const released: NumberSet
    var last: Option<string>
    var history: seq<Entry>
    var mode: Mode

    ghost function CoreView(): Core
      reads this, released
    {
      Core(submissions, released.impl, last, history)
    }

    ghost function View(): State
      reads this, released
    {
      State(mode, CoreView(), changes)
    }

    ghost predicate Valid()
      reads this, released
    {
      Usable(View())
    }

    constructor (mode: Mode)
      ensures Valid() && View() == Rebuilt(mode, map[], [])
      ensures fresh(released)
    {
      RebuiltIsUsable(mode, map[], []);
      submissions := map[];
      changes := [];
      released := new NumberSet();
      last := None;
      history := [];
      this.mode := mode;
    }

    /** The object whose value is the given one. */
    constructor Load(s: State)
      ensures View() == s
      ensures fresh(released)
    {
      submissions := s.core.table;
      changes := s.changes;
      released := new NumberSet();
      last := s.core.last;
      history := s.core.history;
      mode := s.mode;
      new;
      released.impl := s.core.released;
    }

    method Save() returns (s: State)
      ensures s == View()
    {
      s := State(mode, Core(submissions, released.impl, last, history), changes);
    }

    method AppendChange(change: Subchange)
      requires CanAppend(CoreView(), change) && ReleasedIsTokened(CoreView())
      modifies this`submissions, this`last, this`history, released
      ensures CoreView() == Append(mode, old(CoreView()), change)
    {
      var id := change.submission;
      if submissions[id].token {
        TokenIsReleased(CoreView(), id);
        released.Remove(submissions[id].score);
      }
      submissions := submissions[id := change.Apply(submissions[id])];
      if submissions[id].token {
        released.Insert(submissions[id].score);
      }
      if change.score.Some? && (last.None? || submissions[last.value].time < submissions[id].time) {
        last := Some(id);
      }
      var score := ScoreInMode(mode, submissions, released, last);
      if score != CurrentScore(history) {
        history := history + [Entry(change.time, score)];
      }
    }

    method ResetHistory()
      requires Known(submissions, changes)
      modifies this`submissions, this`last, this`history, released
      ensures View() == Rebuilt(mode, old(submissions), changes)
    {
      ghost var t := submissions;
      last := None;
      released.Clear();
      history := [];
      submissions := map k | k in submissions :: submissions[k].Reset();
      for i := 0 to |changes|
        invariant CoreView() == Replay(mode, t, changes[..i])
      {
        ReplayIsGood(mode, t, changes[..i]);
        AppendChange(changes[i]);
        assert changes[..i + 1][..i] == changes[..i];
      }
      assert changes[..|changes|] == changes;
    }

    method GetScore() returns (score: real)
      ensures score == CurrentScore(history)
      ensures Replayed(View()) ==> score == Rule(mode, submissions, last)
    {
      if Replayed(View()) { ReplayIsGood(mode, submissions, changes); }
      score := if history == [] then 0.0 else history[|history| - 1].score;
    }

    /** By `FastPathIsReplay`, whichever path is taken a replayed state is replayed with the new change. */
    method CreateSubchange(change: Subchange)
      requires Valid() && change.submission in submissions
      modifies this`submissions, this`changes, this`last, this`history, released
      ensures Valid() && View() == WithChange(old(View()), change)
    {
      ghost var s := View();
      InsertedIsKnown(submissions, changes, change);
      WithChangeIsUsable(s, change);
      if changes == [] || Before(changes[|changes| - 1], change) {
        AddLast(change);
      } else {
        AddBetween(change);
      }
    }

    /** The fast path: nothing is replayed. */
    method AddLast(change: Subchange)
      requires Valid() && change.submission in submissions
      modifies this`submissions, this`changes, this`last, this`history, released
      ensures View() == State(mode, Append(mode, old(CoreView()), change), old(changes) + [change])
    {
      changes := changes + [change];
      AppendChange(change);
    }

    method AddBetween(change: Subchange)
      requires Valid() && Known(submissions, InsertBeforeLater(changes, change))
      modifies this`submissions, this`changes, this`last, this`history, released
      ensures View() == Rebuilt(mode, old(submissions), InsertBeforeLater(old(changes), change))
    {
      changes := InsertChange(changes, change);
      ResetHistory();
    }

    method UpdateSubchange(key: string, change: Subchange)
      requires Valid() && change.submission in submissions
      modifies this`submissions, this`changes, this`last, this`history, released
      ensures Known(old(submissions), Replaced(old(changes), key, change))
      ensures Valid() && View() == Rebuilt(mode, old(submissions), Replaced(old(changes), key, change))
    {
      ReplacedIsKnown(submissions, changes, key, change);
      RebuiltIsUsable(mode, submissions, Replaced(changes, key, change));
      changes := ReplaceChange(changes, key, change);
      ResetHistory();
    }

    method DeleteSubchange(key: string)
      requires Valid()
      modifies this`submissions, this`changes, this`last, this`history, released
      ensures Known(old(submissions), Kept(old(changes), OtherKeys(old(changes), key)))
      ensures Valid()
      ensures View() == Rebuilt(mode, old(submissions), Kept(old(changes), OtherKeys(old(changes), key)))
    {
      ghost var these := OtherKeys(changes, key);
      KeptIsKnown(submissions, submissions, changes, these);
      RebuiltIsUsable(mode, submissions, Kept(changes, these));
      changes := DropKey(changes, key);
      ResetHistory();
    }

    /** A new submission does not touch the history; a replay would not either, unless all was below zero. */
    method CreateSubmission(key: string, submission: Submission)
      requires Valid() && key !in submissions
      modifies this`submissions
      ensures Valid() && View() == WithSubmission(old(View()), key, submission)
      ensures Known(old(submissions)[key := submission], changes)
      ensures old(Replayed(View())) && HarmlessThroughout(mode, old(submissions), changes) ==>
        View() == Rebuilt(mode, old(submissions)[key := submission], changes)
    {
      WithSubmissionIsUsable(View(), key, submission);
      if Replayed(View()) && HarmlessThroughout(mode, submissions, changes) {
        NewSubmissionIsReplayed(mode, submissions, changes, key, submission);
      }
      submissions := submissions[key := submission.Reset()];
    }

    method UpdateSubmission(key: string, submission: Submission)
      requires Valid()
      modifies this`submissions, this`last, this`history, released
      ensures Known(old(submissions)[key := submission], changes)
      ensures Valid() && View() == Rebuilt(mode, old(submissions)[key := submission], changes)
    {
      submissions := submissions[key := submission];
      RebuiltIsUsable(mode, submissions, changes);
      ResetHistory();
    }

    method DeleteSubmission(key: string)
      requires Valid()
      modifies this`submissions, this`changes, this`last, this`history, released
      ensures Valid() && Known(old(submissions) - {key}, Kept(old(changes), OtherSubmissions(old(changes), key)))
      ensures View() == if key !in old(submissions) then old(View()) else
        Rebuilt(mode, old(submissions) - {key}, Kept(old(changes), OtherSubmissions(old(changes), key)))
    {
      ghost var t, these := submissions - {key}, OtherSubmissions(changes, key);
      KeptIsKnown(submissions, t, changes, these);
      RebuiltIsUsable(mode, t, Kept(changes, these));
      if key in submissions { Remove(key); }
    }

    method Remove(key: string)
      requires Known(submissions - {key}, Kept(changes, OtherSubmissions(changes, key)))
      modifies this`submissions, this`changes, this`last, this`history, released
      ensures View() == Rebuilt(mode, old(submissions) - {key}, Kept(old(changes), OtherSubmissions(old(changes), key)))
    {
      submissions := submissions - {key};
      changes := DropSubmission(changes, key);
      ResetHistory();
    }

    method UpdateScoreMode(newMode: Mode)
      modifies this`mode
      ensures View() == old(View()).(mode := newMode)
    {
      mode := newMode;
    }

    method ScoreAsOf(t: int) returns (score: real)
      ensures score == ScoreAt(history, t)
    {
      score := 0.0;
      var i := 0;
      while i < |history| && history[i].time <= t
        invariant 0 <= i <= |history|
        invariant Leading(history, EntryTime, t) == history[..i] + Leading(history[i..], EntryTime, t)
        invariant score == CurrentScore(history[..i])
      {
        LeadingNext(history, EntryTime, t, i);
        score := history[i].score;
        i := i + 1;
      }
    }

    method SubmissionsAsOf(t: int) returns (result: Table)
      ensures result == SubmissionsAt(submissions, changes, t)
    {
      result := map k | k in submissions && submissions[k].time <= t :: submissions[k].Reset();
      ghost var start := Reset(MadeBy(submissions, t));
      assert result == start;
      var i := 0;
      while i < |changes| && changes[i].time <= t
        invariant 0 <= i <= |changes|
        invariant Leading(changes, ChangeTime, t) == changes[..i] + Leading(changes[i..], ChangeTime, t)
        invariant result == ApplyAll(start, changes[..i])
      {
        assert changes[i..][1..] == changes[i + 1..] && changes[..i] + [changes[i]] == changes[..i + 1];
        assert changes[..i + 1][..i] == changes[..i];
        var c := changes[i];
        if c.submission in result {
          result := result[c.submission := c.Apply(result[c.submission])];
        }
        i := i + 1;
      }
      assert changes[..i] + [] == changes[..i];
    }
  }

  method InsertChange(changes: seq<Subchange>, change: Subchange) returns (r: seq<Subchange>)
    ensures r == InsertBeforeLater(changes, change)
  {
    var i := 0;
    while i < |changes| && !Before(change, changes[i])
      invariant 0 <= i <= |changes|
      invariant forall j | 0 <= j < i :: !Before(change, changes[j])
    {
      i := i + 1;
    }
    InsertedAt(changes, change, i);
    r := if i < |changes| then changes[..i] + [change] + changes[i..] else changes;
  }

  method ReplaceChange(changes: seq<Subchange>, key: string, change: Subchange) returns (r: seq<Subchange>)
    ensures r == Replaced(changes, key, change)
  {
    r := changes;
    for i := 0 to |changes|
      invariant |r| == |changes|
      invariant forall j | 0 <= j < |r| ::
        r[j] == if j < i && changes[j].key == key then change else changes[j]
    {
      if r[i].key == key { r := r[i := change]; }
    }
  }

  method DropKey(changes: seq<Subchange>, key: string) returns (kept: seq<Subchange>)
    ensures kept == Kept(changes, OtherKeys(changes, key))
  {
    kept := [];
    for i := 0 to |changes|
      invariant kept == Kept(changes[..i], OtherKeys(changes, key))
    {
      assert changes[..i + 1][..i] == changes[..i];
      if changes[i].key != key { kept := kept + [changes[i]]; }
    }
    assert changes[..|changes|] == changes;
  }

  method DropSubmission(changes: seq<Subchange>, id: string) returns (kept: seq<Subchange>)
    ensures kept == Kept(changes, OtherSubmissions(changes, id))
  {
    kept := [];
    for i := 0 to |changes|
      invariant kept == Kept(changes[..i], OtherSubmissions(changes, id))
    {
      assert changes[..i + 1][..i] == changes[..i];
      if changes[i].submission != id { kept := kept + [changes[i]]; }
    }
    assert changes[..|changes|] == changes;
  }

  /** A replay with one more submission differs only in that submission, which stays without results. */
  lemma NewSubmissionIsReplayed(mode: Mode, t: Table, changes: seq<Subchange>, key: string, s: Submission)
    requires Known(t, changes) && key !in t && HarmlessThroughout(mode, t, changes)
    ensures Known(t[key := s], changes)
    ensures var c := Replay(mode, t, changes);
      Replay(mode, t[key := s], changes) == c.(table := c.table[key := s.Reset()])
  {
    var u := t[key := s];
    ReplayIgnoresUntouched(mode, t, u, changes);
    UntouchedStaysBlank(mode, u, changes, key);
    PaddedByOne(Replay(mode, t, changes), Replay(mode, u, changes), key);
  }

  /** The score that is kept is the score that a replay gives, exactly if the best is not negative now. */
  lemma {:induction false} NewSubmissionScoreIff(mode: Mode, t: Table, changes: seq<Subchange>, key: string, s: Submission)
    requires Known(t, changes) && key !in t
    ensures Known(t[key := s], changes)
    ensures CurrentScore(Replay(mode, t[key := s], changes).history) == CurrentScore(Replay(mode, t, changes).history)
       <==> Harmless(mode, Replay(mode, t, changes).table)
  {
    var u := t[key := s];
    ReplayPads(mode, t, u, changes);
    var c, d := Replay(mode, t, changes), Replay(mode, u, changes);
    ReplayIsGood(mode, t, changes);
    ReplayIsGood(mode, u, changes);
    FormulaIsRule(mode, c);
    FormulaIsRule(mode, d);
    assert key in d.table && key !in c.table;
    FormulaIgnoresBlankIff(mode, c.table, d.table, c.released, c.last);
  }

  ghost predicate StrictTimes(changes: seq<Subchange>) {
    forall i, j | 0 <= i < j < |changes| :: changes[i].time < changes[j].time
  }

  /** If the histories are the same, the best was not negative at any time. */
  lemma SameHistoryIsHarmless(mode: Mode, t: Table, changes: seq<Subchange>, key: string, s: Submission, at: int)
    requires Known(t, changes) && Known(t[key := s], changes) && key !in t && Sorted(changes)
    requires Replay(mode, t[key := s], changes).history == Replay(mode, t, changes).history
    ensures Harmless(mode, WithOldChanges(mode, t, changes, at))
  {
    HistoryUpTo(mode, t, changes, at);
    HistoryUpTo(mode, t[key := s], changes, at);
    NewSubmissionScoreIff(mode, t, Leading(changes, ChangeTime, at), key, s);
  }

  /**
    With a change per instant, the history that is kept is the history that a replay gives if and only if
    the best was never negative.
   */
  lemma {:induction false} NewSubmissionIsReplayedIff(mode: Mode, t: Table, changes: seq<Subchange>, key: string, s: Submission)
    requires Known(t, changes) && key !in t && StrictTimes(changes)
    ensures Known(t[key := s], changes)
    ensures (var c := Replay(mode, t, changes);
             Replay(mode, t[key := s], changes) == c.(table := c.table[key := s.Reset()]))
       <==> HarmlessThroughout(mode, t, changes)
  {
    if HarmlessThroughout(mode, t, changes) { NewSubmissionIsReplayed(mode, t, changes, key, s); }
    if Replay(mode, t[key := s], changes).history == Replay(mode, t, changes).history {
      SameHistoryIsHarmlessThroughout(mode, t, changes, key, s);
    }
  }

  lemma SameHistoryIsHarmlessThroughout(mode: Mode, t: Table, changes: seq<Subchange>, key: string, s: Submission)
    requires Known(t, changes) && Known(t[key := s], changes) && key !in t && StrictTimes(changes)
    requires Replay(mode, t[key := s], changes).history == Replay(mode, t, changes).history
    ensures HarmlessThroughout(mode, t, changes)
  {
    forall n | 0 <= n <= |changes| ensures Harmless(mode, Replay(mode, t, changes[..n]).table) {
      if n == 0 {
        NonNegativeIsHarmless(mode, Reset(t));
      } else {
        LeadingUpToOne(changes, n);
        SameHistoryIsHarmless(mode, t, changes, key, s, changes[n - 1].time);
      }
    }
  }

  lemma LeadingUpToOne(changes: seq<Subchange>, n: nat)
    requires StrictTimes(changes) && 0 < n <= |changes|
    ensures Leading(changes, ChangeTime, changes[n - 1].time) == changes[..n] && Sorted(changes)
  {
    var at := changes[n - 1].time;
    LeadingKeepsAllUpTo(changes, ChangeTime, at);
    assert n == |changes| || !(changes[n].time <= at);
  }

  /** It takes non-negative scores: with a negative one, the history kept and the history replayed differ. */
  lemma NegativeScoreBreaksReplay() returns (t: Table, changes: seq<Subchange>, key: string, s: Submission)
    ensures Known(t, changes) && Sorted(changes) && key !in t && Known(t[key := s], changes)
    ensures !NonNegativeChanges(changes)
    ensures Replay(Max, t[key := s], changes).history != Replay(Max, t, changes).history
  {
    s, key := Submission("u", "t", 0, 0.0, false, []), "b";
    t := map["a" := s];
    var u := t[key := s];
    var c := Subchange("c", "a", 1, Some(-5.0), None, None);
    changes := [c];
    assert changes[..0] == [] && !changes[0].NonNegative();
    var r, q := Append(Max, Replay(Max, t, []), c), Append(Max, Replay(Max, u, []), c);
    assert r == Replay(Max, t, changes) && q == Replay(Max, u, changes);
    assert r.table["a"].score == -5.0 && q.table["a"].score == -5.0 && q.table["b"].score == 0.0;
    assert -5.0 in Scores(r.table) && forall x | x in Scores(r.table) :: x == -5.0;
    LargestIs(Scores(r.table), -5.0);
    assert 0.0 in Scores(q.table) && forall x | x in Scores(q.table) :: x <= 0.0;
    LargestIs(Scores(q.table), 0.0);
    assert MaxScore(r.table) == -5.0 && MaxScore(q.table) == 0.0;
    assert r.history != q.history;
  }

  lemma PaddedByOne(c: Core, d: Core, key: string)
    requires SameResults(c, d) && d.table.Keys == c.table.Keys + {key} && key !in c.table
    ensures d == c.(table := c.table[key := d.table[key]])
  {
    assert d.table == c.table[key := d.table[key]];
  }

  lemma {:induction false} UntouchedStaysBlank(mode: Mode, t: Table, changes: seq<Subchange>, id: string)
    requires Known(t, changes) && id in t && forall i | 0 <= i < |changes| :: changes[i].submission != id
    ensures Replay(mode, t, changes).table[id] == t[id].Reset()
  {
    if changes != [] { UntouchedStaysBlank(mode, t, changes[..|changes| - 1], id); }
  }
}
