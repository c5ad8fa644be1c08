/** The merge of all the per-user, per-task histories into one, through a priority queue. */
module GlobalHistory {
  import opened Basics
  import opened ScoreSpec
  import opened Freeze

  datatype Who = Who(user: string, task: string)
  datatype Line = Line(who: Who, entry: Entry)
  type Histories = map<Who, seq<Entry>>

  function LineTime(l: Line): int { l.entry.time }

  /** The order of the queue: time, then score, then user, then task. */
  predicate Earlier(a: Line, b: Line) {
    if a.entry.time != b.entry.time then a.entry.time < b.entry.time
    else if a.entry.score != b.entry.score then a.entry.score < b.entry.score
    else if a.who.user != b.who.user then Precedes(a.who.user, b.who.user)
    else Precedes(a.who.task, b.who.task)
  }

  lemma EarlierIsTotal(a: Line, b: Line)
    requires a.who != b.who
    ensures Earlier(a, b) <==> !Earlier(b, a)
  {
    PrecedesIsTotal(a.who.user, b.who.user);
    PrecedesIsTotal(a.who.task, b.who.task);
  }

  lemma EarlierIsTransitive(a: Line, b: Line, c: Line)
    requires Earlier(a, b) && Earlier(b, c)
    ensures Earlier(a, c)
  {
    if Precedes(a.who.user, b.who.user) && Precedes(b.who.user, c.who.user) {
      PrecedesIsTransitive(a.who.user, b.who.user, c.who.user);
      PrecedesIsTotal(a.who.user, c.who.user);
    }
    if Precedes(a.who.task, b.who.task) && Precedes(b.who.task, c.who.task) {
      PrecedesIsTransitive(a.who.task, b.who.task, c.who.task);
    }
  }

  ghost function Heads(h: Histories): set<Who> { set w | w in h && h[w] != [] }

  ghost predicate IsFirst(h: Histories, w: Who) {
    w in Heads(h) && forall v | v in Heads(h) && v != w :: Earlier(Line(w, h[w][0]), Line(v, h[v][0]))
  }

  lemma {:induction false} FirstAmong(h: Histories, ws: set<Who>) returns (w: Who)
    requires ws != {} && ws <= Heads(h)
    ensures w in ws && forall v | v in ws && v != w :: Earlier(Line(w, h[w][0]), Line(v, h[v][0]))
    decreases ws
  {
    var x := Pick(ws);
    if ws == {x} { return x; }
    var y := FirstAmong(h, ws - {x});
    var lx, ly := Line(x, h[x][0]), Line(y, h[y][0]);
    EarlierIsTotal(lx, ly);
    w := if Earlier(lx, ly) then x else y;
    forall v | v in ws && v != w ensures Earlier(Line(w, h[w][0]), Line(v, h[v][0])) {
      if w == x && v != y { EarlierIsTransitive(lx, ly, Line(v, h[v][0])); }
    }
  }

  ghost function First(h: Histories): (w: Who)
    requires Heads(h) != {}
    ensures IsFirst(h, w)
  {
    assert exists w :: IsFirst(h, w) by { var w := FirstAmong(h, Heads(h)); assert IsFirst(h, w); }
    var w :| IsFirst(h, w); w
  }

  lemma FirstIsUnique(h: Histories, w: Who)
    requires IsFirst(h, w)
    ensures First(h) == w
  {
    if First(h) != w { EarlierIsTotal(Line(w, h[w][0]), Line(First(h), h[First(h)][0])); }
  }

  // ---- How much there is to merge ----------------------------------------------------------------

  ghost function Total(h: Histories, ws: set<Who>): nat
    requires ws <= h.Keys
  {
    if ws == {} then 0 else var w := Pick(ws); |h[w]| + Total(h, ws - {w})
  }

  lemma {:induction false} TotalOf(h: Histories, ws: set<Who>, w: Who, s: seq<Entry>)
    requires ws <= h.Keys
    ensures ws <= h[w := s].Keys
    ensures Total(h[w := s], ws) == Total(h, ws) + (if w in ws then |s| - |h[w]| else 0)
    decreases ws
  {
    if ws != {} { TotalOf(h, ws - {Pick(ws)}, w, s); }
  }

  ghost function Rest(h: Histories): (r: Histories)
    requires Heads(h) != {}
    ensures r.Keys == h.Keys && Total(r, r.Keys) == Total(h, h.Keys) - 1
  {
    var w := First(h);
    TotalOf(h, h.Keys, w, h[w][1..]);
    assert h[w := h[w][1..]].Keys == h.Keys;
    h[w := h[w][1..]]
  }

  /** The merged history: always the first of the heads. */
  ghost function Merge(h: Histories): seq<Line>
    decreases Total(h, h.Keys)
  {
    if Heads(h) == {} then [] else [Line(First(h), h[First(h)][0])] + Merge(Rest(h))
  }

  // ---- What the merge guarantees -----------------------------------------------------------------

  ghost function Of(lines: seq<Line>, w: Who): seq<Entry> {
    if lines == [] then [] else (if lines[0].who == w then [lines[0].entry] else []) + Of(lines[1..], w)
  }

  /** It interleaves the histories: each one is intact inside it, and there is nothing else. */
  lemma {:induction false} MergeInterleaves(h: Histories, w: Who)
    ensures Of(Merge(h), w) == if w in h then h[w] else []
    ensures |Merge(h)| == Total(h, h.Keys)
    decreases Total(h, h.Keys)
  {
    if Heads(h) == {} {
      NothingLeft(h, h.Keys);
      if w in h { assert w !in Heads(h); }
    } else {
      var f := First(h);
      MergeInterleaves(Rest(h), w);
      assert Merge(h)[1..] == Merge(Rest(h));
      assert h[f] == [h[f][0]] + h[f][1..];
    }
  }

  lemma {:induction false} NothingLeft(h: Histories, ws: set<Who>)
    requires ws <= h.Keys && Heads(h) == {}
    ensures Total(h, ws) == 0
    decreases ws
  {
    if ws != {} {
      assert Pick(ws) !in Heads(h);
      NothingLeft(h, ws - {Pick(ws)});
    }
  }

  ghost predicate InOrder(h: seq<Entry>) {
    forall i, j | 0 <= i < j < |h| :: h[i].time <= h[j].time
  }

  ghost predicate AllInOrder(h: Histories) { forall w | w in h :: InOrder(h[w]) }

  ghost predicate NoneBefore(h: Histories, t: int) {
    forall w, i | w in h && 0 <= i < |h[w]| :: t <= h[w][i].time
  }

  lemma FirstIsEarliest(h: Histories)
    requires AllInOrder(h) && Heads(h) != {}
    ensures NoneBefore(h, h[First(h)][0].time) && AllInOrder(Rest(h)) && NoneBefore(Rest(h), h[First(h)][0].time)
  {
    var f := First(h);
    forall w, i | w in h && 0 <= i < |h[w]| ensures h[f][0].time <= h[w][i].time {
      assert w in Heads(h);
      assert i != 0 ==> h[w][0].time <= h[w][i].time;
    }
  }

  /** It is in time order. */
  lemma {:induction false} MergeIsInOrder(h: Histories, t: int)
    requires AllInOrder(h) && NoneBefore(h, t)
    ensures forall i, j | 0 <= i < j < |Merge(h)| :: LineTime(Merge(h)[i]) <= LineTime(Merge(h)[j])
    ensures forall i | 0 <= i < |Merge(h)| :: t <= LineTime(Merge(h)[i])
    decreases Total(h, h.Keys)
  {
    if Heads(h) != {} {
      FirstIsEarliest(h);
      MergeIsInOrder(Rest(h), h[First(h)][0].time);
      assert t <= h[First(h)][0].time;
    }
  }

  /** In the order of the queue: time, then score, then user, then task. */
  ghost predicate ComesBefore(w: Who, e: Entry, v: Who, f: Entry) {
    || e.time < f.time
    || (e.time == f.time && e.score < f.score)
    || (e.time == f.time && e.score == f.score && exists n: nat :: DifferAt(w.user, v.user, n))
    || (e.time == f.time && e.score == f.score && w.user == v.user && exists n: nat :: DifferAt(w.task, v.task, n))
  }

  lemma EarlierComesBefore(a: Line, b: Line)
    requires Earlier(a, b)
    ensures ComesBefore(a.who, a.entry, b.who, b.entry)
  {
    PrecedesIs(a.who.user, b.who.user);
    PrecedesIs(a.who.task, b.who.task);
  }

  /** What is next in a history after n lines is, after the first of them, next after n - 1 lines of the rest. */
  lemma RestIsNext(h: Histories, n: nat, w: Who)
    requires 0 < n <= |Merge(h)| && w in h
    ensures |Merge(Rest(h))| == |Merge(h)| - 1 && w in Rest(h)
    ensures var k, l := |Of(Merge(h)[..n], w)|, |Of(Merge(Rest(h))[..n - 1], w)|;
      |h[w]| - k == |Rest(h)[w]| - l && (k < |h[w]| ==> h[w][k] == Rest(h)[w][l])
  {
    var f, all := First(h), Merge(h);
    assert all[1..] == Merge(Rest(h));
    assert all[..n][0] == Line(f, h[f][0]) && all[..n][1..] == Merge(Rest(h))[..n - 1];
    assert Rest(h) == h[f := h[f][1..]];
  }

  /** Every line of the merge comes before whatever is next in any other history at that point. */
  lemma {:induction false} MergeTakesFirst(h: Histories, n: nat, w: Who)
    requires n < |Merge(h)| && w in h && w != Merge(h)[n].who && |Of(Merge(h)[..n], w)| < |h[w]|
    ensures ComesBefore(Merge(h)[n].who, Merge(h)[n].entry, w, h[w][|Of(Merge(h)[..n], w)|])
    decreases n
  {
    if n == 0 {
      assert Merge(h)[..0] == [];
      assert w in Heads(h);
      EarlierComesBefore(Line(First(h), h[First(h)][0]), Line(w, h[w][0]));
    } else {
      RestIsNext(h, n, w);
      assert Merge(h)[n] == Merge(Rest(h))[n - 1];
      MergeTakesFirst(Rest(h), n - 1, w);
    }
  }

  ghost function Truncated(h: Histories, t: int): Histories {
    map w | w in h :: Leading(h[w], EntryTime, t)
  }

  /** Stopping the merge at t is merging the histories as they were at t. */
  lemma {:induction false} MergeTruncated(h: Histories, t: int)
    requires AllInOrder(h)
    ensures Leading(Merge(h), LineTime, t) == Merge(Truncated(h, t))
    decreases Total(h, h.Keys)
  {
    var k := Truncated(h, t);
    if Heads(h) == {} {
      forall w | w in h ensures k[w] == [] { assert w !in Heads(h); }
      assert Heads(k) == {};
    } else {
      var f := First(h);
      FirstIsEarliest(h);
      if t < h[f][0].time {
        forall w | w in h ensures k[w] == [] {}
        assert Heads(k) == {};
      } else {
        TruncatedFirst(h, t);
        MergeTruncated(Rest(h), t);
        LeadingOfCons(Line(f, h[f][0]), Merge(Rest(h)), t);
        assert Merge(k) == [Line(f, h[f][0])] + Merge(Rest(k));
      }
    }
  }

  lemma LeadingOfCons(l: Line, rest: seq<Line>, t: int)
    requires LineTime(l) <= t
    ensures Leading([l] + rest, LineTime, t) == [l] + Leading(rest, LineTime, t)
  {
    assert ([l] + rest)[1..] == rest;
  }

  lemma TruncatedFirst(h: Histories, t: int)
    requires Heads(h) != {} && h[First(h)][0].time <= t
    ensures var k := Truncated(h, t);
      Heads(k) != {} && First(k) == First(h) && k[First(h)][0] == h[First(h)][0] && Rest(k) == Truncated(Rest(h), t)
  {
    var k, f := Truncated(h, t), First(h);
    TruncatedHeads(h, t);
    FirstIsUnique(k, f);
    assert k[f][1..] == Leading(h[f][1..], EntryTime, t);
    assert k[f := k[f][1..]] == Truncated(h[f := h[f][1..]], t);
  }

  lemma TruncatedHeads(h: Histories, t: int)
    requires Heads(h) != {} && h[First(h)][0].time <= t
    ensures IsFirst(Truncated(h, t), First(h))
  {
    var k := Truncated(h, t);
    assert forall w | w in Heads(k) :: w in Heads(h) && k[w][0] == h[w][0];
    assert k[First(h)] != [];
  }

  // ---- The loop ----------------------------------------------------------------------------------

  /**
    The priority queue: it has one entry per user and task, so it is a map from them to the index of
    that entry in its history.
   */
  type Queue = map<Who, nat>

  /** It holds the next entry of every history with entries left, and nothing else. */
  ghost predicate QueueOf(queue: Queue, h: Histories, left: Histories) {
    && left.Keys == h.Keys
    && queue.Keys == Heads(left)
    && forall w | w in queue :: w in h && queue[w] < |h[w]| && left[w] == h[w][queue[w]..]
  }

  function HeadLine(queue: Queue, h: Histories, w: Who): Line
    requires w in queue && w in h && queue[w] < |h[w]|
  {
    Line(w, h[w][queue[w]])
  }

  ghost predicate Leads(queue: Queue, h: Histories, first: Who, whos: set<Who>)
    requires forall w | w in queue :: w in h && queue[w] < |h[w]|
    requires first in queue && whos <= queue.Keys
  {
    forall w | w in whos && w != first :: Earlier(HeadLine(queue, h, first), HeadLine(queue, h, w))
  }

  lemma BetterLeads(queue: Queue, h: Histories, first: Who, whos: set<Who>, w: Who)
    requires forall w | w in queue :: w in h && queue[w] < |h[w]|
    requires first in queue && w in queue && whos <= queue.Keys && Leads(queue, h, first, whos)
    requires Earlier(HeadLine(queue, h, w), HeadLine(queue, h, first))
    ensures Leads(queue, h, w, whos + {w})
  {
    forall v | v in whos && v != first ensures Earlier(HeadLine(queue, h, w), HeadLine(queue, h, v)) {
      EarlierIsTransitive(HeadLine(queue, h, w), HeadLine(queue, h, first), HeadLine(queue, h, v));
    }
  }

  lemma LeaderIsFirst(queue: Queue, h: Histories, left: Histories, first: Who)
    requires QueueOf(queue, h, left) && first in queue && Leads(queue, h, first, queue.Keys)
    ensures Heads(left) != {} && first == First(left)
  {
    assert forall w | w in queue :: HeadLine(queue, h, w) == Line(w, left[w][0]);
    assert IsFirst(left, first);
    FirstIsUnique(left, first);
  }

  /** The user and task that `heappop` takes out. */
  method PopFirst(queue: Queue, h: Histories, ghost left: Histories) returns (first: Who)
    requires QueueOf(queue, h, left) && queue != map[]
    ensures Heads(left) != {} && first in queue && first == First(left)
  {
    var whos := Enumerate(queue.Keys);
    first := whos[0];
    ghost var seen, at := {first}, 0;
    for i := 1 to |whos|
      invariant 0 <= at < i && first == whos[at]
      invariant first in queue && seen <= queue.Keys && (forall j | 0 <= j < i :: whos[j] in seen)
      invariant Leads(queue, h, first, seen)
    {
      var w := whos[i];
      EarlierIsTotal(HeadLine(queue, h, w), HeadLine(queue, h, first));
      if Earlier(HeadLine(queue, h, w), HeadLine(queue, h, first)) {
        BetterLeads(queue, h, first, seen, w);
        first, at := w, i;
      }
      seen := seen + {w};
    }
    assert seen == queue.Keys;
    LeaderIsFirst(queue, h, left, first);
  }

  lemma PushedQueue(queue: Queue, h: Histories, left: Histories)
    requires QueueOf(queue, h, left) && Heads(left) != {}
    ensures var w := First(left); var n := queue[w] + 1;
      QueueOf(if n < |h[w]| then queue[w := n] else queue - {w}, h, Rest(left))
  {
    var w := First(left);
    assert Rest(left) == left[w := left[w][1..]];
    assert left[w][1..] == h[w][queue[w] + 1..];
  }

  function UpTo(lines: seq<Line>, until: Option<int>): seq<Line> {
    if until.Some? then Leading(lines, LineTime, until.value) else lines
  }

  lemma MergeStep(h: Histories, until: Option<int>)
    requires Heads(h) != {}
    ensures var l := Line(First(h), h[First(h)][0]);
      UpTo(Merge(h), until) ==
      if until.Some? && until.value < l.entry.time then [] else [l] + UpTo(Merge(Rest(h)), until)
  {
    assert Merge(h)[1..] == Merge(Rest(h));
  }

  /** One turn of the loop: what it takes out of the queue, puts back and adds to the output. */
  method Advance(queue: Queue, h: Histories, until: Option<int>, ghost left: Histories)
    returns (line: Option<Line>, queue': Queue)
    requires QueueOf(queue, h, left) && queue != map[]
    ensures Heads(left) != {}
    ensures line.None? ==> UpTo(Merge(left), until) == []
    ensures line.Some? ==> UpTo(Merge(left), until) == [line.value] + UpTo(Merge(Rest(left)), until)
    ensures QueueOf(queue', h, Rest(left))
  {
    var w := PopFirst(queue, h, left);
    MergeStep(left, until);
    PushedQueue(queue, h, left);
    var n := queue[w];
    line := if until.Some? && until.value < h[w][n].time then None else Some(Line(w, h[w][n]));
    queue' := if n + 1 < |h[w]| then queue[w := n + 1] else queue - {w};
  }

  /** `get_global_history` over the given histories, up to `until` if it is given. */
  method Collect(h: Histories, until: Option<int>) returns (lines: seq<Line>)
    ensures lines == UpTo(Merge(h), until)
  {
    var queue: Queue := map w | w in h && h[w] != [] :: 0;
    lines := [];
    ghost var left, goal, todo := h, UpTo(Merge(h), until), UpTo(Merge(h), until);
    StartingQueue(queue, h);
    while queue != map[]
      invariant QueueOf(queue, h, left) && todo == UpTo(Merge(left), until)
      invariant goal == lines + todo
      decreases Total(left, left.Keys)
    {
      var line;
      line, queue := Advance(queue, h, until, left);
      if line.None? { return; }
      Regroup(lines, line.value, todo);
      lines := lines + [line.value];
      left, todo := Rest(left), todo[1..];
    }
    FinishedQueue(queue, h, left, until);
  }

  lemma Regroup(done: seq<Line>, l: Line, todo: seq<Line>)
    requires todo != [] && todo[0] == l
    ensures done + todo == (done + [l]) + todo[1..]
  {
  }

  lemma StartingQueue(queue: Queue, h: Histories)
    requires queue == map w | w in h && h[w] != [] :: 0
    ensures QueueOf(queue, h, h)
  {
    assert queue.Keys == Heads(h);
  }

  lemma FinishedQueue(queue: Queue, h: Histories, left: Histories, until: Option<int>)
    requires QueueOf(queue, h, left) && queue == map[]
    ensures UpTo(Merge(left), until) == []
  {
    assert Heads(left) == {};
  }
}
