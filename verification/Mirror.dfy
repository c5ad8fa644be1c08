/**
  What a restart would build: the scores of every user and task, computed from scratch from the
  submissions and the changes in the stores. The lemmas say which store operations the incremental
  bookkeeping follows, and exactly when.
 */
module Mirror {
  import opened Basics
  import opened ScoreSpec
  import opened ScoreLaws
  import opened Score
  import opened GlobalHistory

  /** A submission as the store has it. */
  datatype Submitted = Submitted(user: string, task: string, time: int)
  {
    function Who(): Who { GlobalHistory.Who(user, task) }
    function Fresh(): Submission { Submission(user, task, time, 0.0, false, []) }
  }

  type Submissions = map<string, Submitted>
  type Changes = map<string, Subchange>
  type Modes = map<string, Mode>
  type View = map<Who, State>

  ghost predicate Anchored(subs: Submissions, chs: Changes) {
    forall k | k in chs :: chs[k].key == k && chs[k].submission in subs
  }

  ghost function TableOf(subs: Submissions, w: Who): Table {
    map k | k in subs && subs[k].Who() == w :: subs[k].Fresh()
  }

  ghost function ChangesOf(subs: Submissions, chs: Changes, w: Who): set<Subchange> {
    set k | k in chs && chs[k].submission in subs && subs[chs[k].submission].Who() == w :: chs[k]
  }

  ghost function Elements(changes: seq<Subchange>): (s: set<Subchange>)
    ensures forall c :: c in s <==> c in changes
  {
    set c | c in changes
  }

  /** The state of one `Score` is what sorting its changes and replaying them gives. */
  ghost predicate Faithful(st: State, subs: Submissions, chs: Changes, modes: Modes, w: Who) {
    match st case State(_, _, changes) =>
      && w.task in modes
      && Sorted(changes)
      && Elements(changes) == ChangesOf(subs, chs, w)
      && Known(TableOf(subs, w), changes)
      && st == Rebuilt(modes[w.task], TableOf(subs, w), changes)
  }

  /** There is one `Score` for each user and task with a submission, and all of them are faithful. */
  ghost predicate Mirrors(view: View, subs: Submissions, chs: Changes, modes: Modes) {
    && (forall k {:trigger subs[k].Who()} | k in subs :: subs[k].Who() in view)
    && (forall w {:trigger TableOf(subs, w)} | w in view :: TableOf(subs, w) != map[])
    && (forall w {:trigger Faithful(view[w], subs, chs, modes, w)} | w in view :: Faithful(view[w], subs, chs, modes, w))
  }

  // ---- The mirror is determined by the stores ----------------------------------------------------

  lemma {:induction false} SortedListIsUnique(a: seq<Subchange>, b: seq<Subchange>)
    requires Sorted(a) && Sorted(b) && (forall c :: c in a <==> c in b)
    ensures a == b
  {
    if a != [] { assert a[0] in b; }
    if b != [] { assert b[0] in a; }
    if a != [] {
      var n, m := |a| - 1, |b| - 1;
      LastOfSorted(a, b);
      forall c ensures c in a[..n] <==> c in b[..m] {
        LastIsNotBefore(a, c);
        LastIsNotBefore(b, c);
      }
      SortedListIsUnique(a[..n], b[..m]);
      assert a == a[..n] + [a[n]] && b == b[..m] + [b[m]];
    }
  }

  lemma LastIsNotBefore(a: seq<Subchange>, c: Subchange)
    requires Sorted(a) && a != []
    ensures c in a[..|a| - 1] <==> c in a && c != a[|a| - 1]
  {
    var n := |a| - 1;
    assert a == a[..n] + [a[n]];
    if c in a[..n] {
      var i :| 0 <= i < n && a[i] == c;
      BeforeIsTotal(a[i], a[n]);
    }
  }

  lemma LastOfSorted(a: seq<Subchange>, b: seq<Subchange>)
    requires Sorted(a) && Sorted(b) && a != [] && b != [] && (forall c :: c in a <==> c in b)
    ensures a[|a| - 1] == b[|b| - 1]
  {
    var n, m := |a| - 1, |b| - 1;
    assert a[n] in b && b[m] in a;
    var i :| 0 <= i < |b| && b[i] == a[n];
    var j :| 0 <= j < |a| && a[j] == b[m];
    if i != m && j != n {
      assert Before(b[i], b[m]) && Before(a[j], a[n]);
      BeforeIsTotal(a[n], b[m]);
    }
  }

  /** Whatever led to it: two mirrors of the same stores are equal. */
  lemma MirrorIsUnique(v: View, v': View, subs: Submissions, chs: Changes, modes: Modes)
    requires Mirrors(v, subs, chs, modes) && Mirrors(v', subs, chs, modes)
    ensures v == v'
  {
    forall w ensures w in v <==> w in v' {
      if w in v { WhoHasSubmission(v, subs, chs, modes, w); }
      if w in v' { WhoHasSubmission(v', subs, chs, modes, w); }
    }
    forall w | w in v ensures v[w] == v'[w] { FaithfulIsUnique(v[w], v'[w], subs, chs, modes, w); }
  }

  lemma FaithfulIsUnique(a: State, b: State, subs: Submissions, chs: Changes, modes: Modes, w: Who)
    requires Faithful(a, subs, chs, modes, w) && Faithful(b, subs, chs, modes, w)
    ensures a == b
  {
    assert forall c :: c in a.changes <==> c in Elements(b.changes);
    SortedListIsUnique(a.changes, b.changes);
  }

  lemma WhoHasSubmission(v: View, subs: Submissions, chs: Changes, modes: Modes, w: Who)
    requires Mirrors(v, subs, chs, modes) && w in v
    ensures exists k | k in subs :: subs[k].Who() == w
  {
    var k := Pick(TableOf(subs, w).Keys);
    assert k in subs && subs[k].Who() == w;
  }

  /** The mirror determines the changes too: none is missing and none is left over. */
  lemma MirroredChangesAreUnique(v: View, subs: Submissions, chs: Changes, chs': Changes, modes: Modes)
    requires Mirrors(v, subs, chs, modes) && Mirrors(v, subs, chs', modes)
    requires Anchored(subs, chs) && Anchored(subs, chs')
    ensures chs == chs'
  {
    forall k | k in chs ensures k in chs' && chs'[k] == chs[k] { ChangeIsMirrored(v, subs, chs, chs', modes, k); }
    forall k | k in chs' ensures k in chs { ChangeIsMirrored(v, subs, chs', chs, modes, k); }
  }

  lemma ChangeIsMirrored(v: View, subs: Submissions, chs: Changes, chs': Changes, modes: Modes, k: string)
    requires Mirrors(v, subs, chs, modes) && Mirrors(v, subs, chs', modes)
    requires Anchored(subs, chs) && Anchored(subs, chs') && k in chs
    ensures k in chs' && chs'[k] == chs[k]
  {
    var w := subs[chs[k].submission].Who();
    assert chs[k] in ChangesOf(subs, chs, w);
    assert w in v && Faithful(v[w], subs, chs, modes, w) && Faithful(v[w], subs, chs', modes, w);
    var k' :| k' in chs' && chs'[k'] == chs[k];
    assert k' == k;
  }
}
