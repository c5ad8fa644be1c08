/**
  The scoring rules of one user on one task, as functions on values: what a change does to the
  submissions, and what a replay of all the changes from scratch computes.
  `Score` (Score.dfy) keeps the same data incrementally.
 */
module ScoreSpec {
  import opened Basics

  datatype Mode = Max | MaxSubtask | MaxTokenedLast

  /** A submission in its current status; score, token and extra come from the changes. */
  datatype Submission = Submission(user: string, task: string, time: int,
                                   score: real, token: bool, extra: seq<real>)
  {
    function Reset(): Submission { this.(score := 0.0, token := false, extra := []) }
    predicate Blank() { score == 0.0 && !token && extra == [] }
    predicate NonNegative() { 0.0 <= score && forall i | 0 <= i < |extra| :: 0.0 <= extra[i] }
    /** The scores of the subtasks: the extra fields, or the score alone if there are none. */
    function Row(): seq<real> { if extra != [] then extra else [score] }
    function Cell(j: nat): real { if j < |Row()| then Row()[j] else 0.0 }
  }

  datatype Subchange = Subchange(key: string, submission: string, time: int,
                                 score: Option<real>, token: Option<bool>, extra: Option<seq<real>>)
  {
    predicate NonNegative() {
      && (score.Some? ==> 0.0 <= score.value)
      && (extra.Some? ==> forall i | 0 <= i < |extra.value| :: 0.0 <= extra.value[i])
    }
    function Apply(s: Submission): Submission {
      s.(score := if score.Some? then score.value else s.score,
         token := if token.Some? then token.value else s.token,
         extra := if extra.Some? then extra.value else s.extra)
    }
  }

  /** The order in which changes are processed: by time, then by key. */
  predicate Before(a: Subchange, b: Subchange) {
    a.time < b.time || (a.time == b.time && Precedes(a.key, b.key))
  }

  ghost predicate Sorted(changes: seq<Subchange>) {
    forall i, j | 0 <= i < j < |changes| :: Before(changes[i], changes[j])
  }

  lemma BeforeIsTotal(a: Subchange, b: Subchange)
    ensures Before(a, b) ==> !Before(b, a)
    ensures a.key != b.key ==> Before(a, b) || Before(b, a)
    ensures !Before(a, a)
  {
    PrecedesIsTotal(a.key, b.key);
    PrecedesIsTotal(a.key, a.key);
  }

  lemma BeforeIsTransitive(a: Subchange, b: Subchange, c: Subchange)
    requires Before(a, b) && Before(b, c)
    ensures Before(a, c)
  {
    if a.time == b.time == c.time { PrecedesIsTransitive(a.key, b.key, c.key); }
  }

  type Table = map<string, Submission>

  datatype Entry = Entry(time: int, score: real)

  /** Everything a `Score` derives from its submissions and changes. */
  datatype Core = Core(table: Table, released: seq<real>, last: Option<string>, history: seq<Entry>)

  function CurrentScore(history: seq<Entry>): real {
    if history == [] then 0.0 else history[|history| - 1].score
  }

  // ---- The three score modes ------------------------------------------------------------------

  ghost function Scores(t: Table): set<real> { set k | k in t :: t[k].score }

  ghost function MaxScore(t: Table): real { LargestOrZero(Scores(t)) }

  ghost function Cells(t: Table, j: nat): set<real> { set k | k in t :: t[k].Cell(j) }

  /** The best result of any submission on subtask j. */
  ghost function Column(t: Table, j: nat): real { LargestOrZero(Cells(t, j)) }

  /** How many subtasks the longest row has. */
  ghost function Width(t: Table): (w: nat)
    ensures forall k | k in t :: |t[k].Row()| <= w
    ensures w != 0 ==> exists k | k in t :: |t[k].Row()| == w
  {
    if t.Keys == {} then 0 else
      var k := Pick(t.Keys);
      var w := Width(t - {k});
      assert forall i | i in t :: i == k || (i in t - {k} && (t - {k})[i] == t[i]);
      if w < |t[k].Row()| then |t[k].Row()| else w
  }

  ghost function SumOfColumns(t: Table, n: nat): real {
    if n == 0 then 0.0 else SumOfColumns(t, n - 1) + Column(t, n - 1)
  }

  ghost function Query(released: seq<real>): real {
    Largest((set x | x in released) + {0.0})
  }

  ghost function LastScore(t: Table, last: Option<string>): real {
    if last.Some? && last.value in t then t[last.value].score else 0.0
  }

  ghost function Formula(mode: Mode, t: Table, released: seq<real>, last: Option<string>): real {
    match mode
    case Max => MaxScore(t)
    case MaxSubtask => SumOfColumns(t, Width(t))
    case MaxTokenedLast =>
      if LastScore(t, last) < Query(released) then Query(released) else LastScore(t, last)
  }

  // ---- One change, and the replay of all of them ----------------------------------------------

  function RemoveFirst(s: seq<real>, x: real): seq<real> {
    if s == [] then [] else if s[0] == x then s[1..] else [s[0]] + RemoveFirst(s[1..], x)
  }

  ghost predicate CanAppend(c: Core, ch: Subchange) {
    ch.submission in c.table && (c.last.Some? ==> c.last.value in c.table)
  }

  ghost function Append(mode: Mode, c: Core, ch: Subchange): (r: Core)
    requires CanAppend(c, ch)
    ensures r.table.Keys == c.table.Keys
    ensures r.last.Some? ==> r.last.value in r.table
  {
    var id := ch.submission;
    var old_ := c.table[id];
    var new_ := ch.Apply(old_);
    var withdrawn := if old_.token then RemoveFirst(c.released, old_.score) else c.released;
    var released := if new_.token then withdrawn + [new_.score] else withdrawn;
    var table := c.table[id := new_];
    var last := if ch.score.Some? && (c.last.None? || table[c.last.value].time < new_.time)
                then Some(id) else c.last;
    var score := Formula(mode, table, released, last);
    var history := if score != CurrentScore(c.history)
                   then c.history + [Entry(ch.time, score)] else c.history;
    Core(table, released, last, history)
  }

  ghost function Reset(t: Table): (r: Table)
    ensures r.Keys == t.Keys
  {
    map k | k in t :: t[k].Reset()
  }

  ghost predicate Known(t: Table, changes: seq<Subchange>) {
    forall i | 0 <= i < |changes| :: changes[i].submission in t
  }

  /** The simple form: forget everything derived, then process the changes one at a time. */
  ghost function Replay(mode: Mode, t: Table, changes: seq<Subchange>): (r: Core)
    requires Known(t, changes)
    ensures r.table.Keys == t.Keys
    ensures r.last.Some? ==> r.last.value in r.table
  {
    if changes == [] then Core(Reset(t), [], None, []) else
      var n := |changes| - 1;
      Append(mode, Replay(mode, t, changes[..n]), changes[n])
  }
}
