/** How the scores follow the stores while a deletion is under way. */
module Tracking {
  import opened Basics
  import opened ScoreSpec
  import opened ScoreLaws
  import opened Mirror
  import opened MirrorSteps
  import opened Holding
  import opened Stores
  import opened ScoringStore

  ghost function SubmissionsIn(db: Db): (m: Submissions)
    ensures forall k :: k in m <==> Ref(SubmissionKind, k) in db && db[Ref(SubmissionKind, k)].ASubmission?
    ensures forall k | k in m :: m[k] == db[Ref(SubmissionKind, k)].sub
  {
    map k | k in KeysOf(db, SubmissionKind) && db[Ref(SubmissionKind, k)].ASubmission? :: db[Ref(SubmissionKind, k)].sub
  }

  ghost function ChangesIn(db: Db): (m: Changes)
    ensures forall k :: k in m <==> Ref(SubchangeKind, k) in db && db[Ref(SubchangeKind, k)].ASubchange?
    ensures forall k | k in m :: m[k] == db[Ref(SubchangeKind, k)].change
  {
    map k | k in KeysOf(db, SubchangeKind) && db[Ref(SubchangeKind, k)].ASubchange? :: db[Ref(SubchangeKind, k)].change
  }

  ghost function ModesIn(db: Db): (m: Modes)
    ensures forall k :: k in m <==> Ref(TaskKind, k) in db && db[Ref(TaskKind, k)].ATask?
    ensures forall k | k in m :: m[k] == db[Ref(TaskKind, k)].mode
  {
    map k | k in KeysOf(db, TaskKind) && db[Ref(TaskKind, k)].ATask? :: db[Ref(TaskKind, k)].mode
  }

  function KeysOf(db: Db, kind: Kind): (keys: set<string>)
    ensures forall k :: k in keys <==> Ref(kind, k) in db
  {
    set r | r in db && r.kind == kind :: r.key
  }

  /** The submissions and changes that the scores know of. Those in `pending` are being deleted. */
  datatype Known = Known(subs: Submissions, chs: Changes, modes: Modes, pending: set<string>)

  /** They know of every stored submission. */
  ghost predicate Follows(db: Db, kn: Known) {
    match kn case Known(subs, _, _, pending) =>
      && Typed(db)
      && (forall k | Ref(SubmissionKind, k) in db :: k in subs && subs[k] == db[Ref(SubmissionKind, k)].sub)
      && (forall k | k in subs :: Ref(SubmissionKind, k) in db || k in pending)
      && (forall k | k in pending :: Ref(SubmissionKind, k) !in db && k in subs)
  }

  /** They know of everything that is stored. */
  ghost predicate Tracks(db: Db, kn: Known) {
    match kn case Known(subs, chs, modes, pending) =>
      && Follows(db, kn) && Anchored(subs, chs)
      && (forall k | Ref(SubchangeKind, k) in db :: k in chs && chs[k] == db[Ref(SubchangeKind, k)].change)
      && (forall k | k in chs :: Ref(SubchangeKind, k) in db || chs[k].submission in pending)
      && (forall k | Ref(TaskKind, k) in db :: k in modes && modes[k] == db[Ref(TaskKind, k)].mode)
  }

  lemma NoSubmissionPending(db: Db, kn: Known)
    requires Follows(db, kn) && kn.pending == {}
    ensures kn.subs == SubmissionsIn(db)
  {
    EqualIfIncluded(kn.subs, SubmissionsIn(db));
  }

  /** With no deletion under way, the scores know exactly what the stores have. */
  lemma {:induction false} NothingPending(db: Db, kn: Known)
    requires Tracks(db, kn) && kn.pending == {}
    ensures kn.subs == SubmissionsIn(db) && kn.chs == ChangesIn(db)
    ensures Included(ModesIn(db), kn.modes)
  {
    NoSubmissionPending(db, kn);
    EqualIfIncluded(kn.chs, ChangesIn(db));
  }

  /** What the scores know of a consistent set of stores. */
  ghost function KnownOf(db: Db): Known {
    Known(SubmissionsIn(db), ChangesIn(db), ModesIn(db), {})
  }

  lemma StoresAreFollowed(db: Db)
    requires Typed(db)
    ensures Follows(db, KnownOf(db))
  {
  }

  lemma StoresAreTracked(db: Db)
    requires Typed(db) && Integrity(db)
    ensures Tracks(db, KnownOf(db))
  {
    var kn := KnownOf(db);
    StoresAreFollowed(db);
    forall k | k in kn.chs ensures kn.chs[k].key == k && kn.chs[k].submission in kn.subs { StoredChange(db, k); }
  }

  lemma StoredChange(db: Db, k: string)
    requires Typed(db) && Integrity(db) && k in ChangesIn(db)
    ensures ChangesIn(db)[k].key == k && ChangesIn(db)[k].submission in SubmissionsIn(db)
  {
    var r := Ref(SubchangeKind, k);
    assert db[r].Consistent(db);
    assert Ref(SubmissionKind, db[r].change.submission) in db[r].Refs();
  }

  // ---- The steps of a deletion -------------------------------------------------------------------

  ghost function Started(kn: Known, r: Ref): Known {
    if r.kind == SubmissionKind then kn.(pending := kn.pending + {r.key}) else kn
  }

  lemma StartFollowing(db: Db, kn: Known, r: Ref)
    requires Follows(db, kn) && r in db
    ensures Follows(db - {r}, Started(kn, r))
  {
  }

  lemma StartDeletion(db: Db, kn: Known, r: Ref)
    requires Tracks(db, kn) && r in db && r.kind != SubchangeKind
    ensures Tracks(db - {r}, Started(kn, r))
  {
    StartFollowing(db, kn, r);
  }

  ghost function Finished(kn: Known, key: string): Known {
    Known(kn.subs - {key}, ChangesWithout(kn.chs, key), kn.modes, kn.pending - {key})
  }

  lemma FinishFollowing(db: Db, kn: Known, key: string)
    requires Follows(db, kn) && key in kn.pending
    ensures Follows(db, Finished(kn, key))
  {
  }

  lemma FinishSubmission(db: Db, kn: Known, key: string)
    requires Tracks(db, kn) && key in kn.pending && Clean(db, {SubchangeKind})
    ensures Tracks(db, Finished(kn, key))
  {
    FinishFollowing(db, kn, key);
    forall k | Ref(SubchangeKind, k) in db ensures db[Ref(SubchangeKind, k)].change.submission != key {
      var e := db[Ref(SubchangeKind, k)];
      assert e.Consistent(db) && Ref(SubmissionKind, e.change.submission) in e.Refs();
    }
  }

  /** What they know once the change of a submission is out of its store. */
  ghost function WithoutTracked(db: Db, kn: Known, key: string, submission: string): Known {
    if Ref(SubmissionKind, submission) in db then kn.(chs := kn.chs - {key}) else kn
  }

  lemma DeleteTrackedChange(db: Db, kn: Known, key: string)
    requires Tracks(db, kn) && Ref(SubchangeKind, key) in db
    ensures key in kn.chs && kn.chs[key] == db[Ref(SubchangeKind, key)].change
    ensures var after := db - {Ref(SubchangeKind, key)};
      Tracks(after, WithoutTracked(after, kn, key, kn.chs[key].submission))
  {
    StartFollowing(db, kn, Ref(SubchangeKind, key));
  }

  lemma StoredSubmission(db: Db, kn: Known, k: string)
    requires Follows(db, kn)
    ensures k in SubmissionsIn(db) <==> Ref(SubmissionKind, k) in db
    ensures k in SubmissionsIn(db) ==> k in kn.subs && SubmissionsIn(db)[k] == kn.subs[k]
  {
    assert k in KeysOf(db, SubmissionKind) <==> Ref(SubmissionKind, k) in db;
  }

  // ---- What each store holds after one entity is put in ------------------------------------------

  lemma {:induction false} PutChangesOneStore(db: Db, r: Ref, e: Entity)
    requires e.Kind() == r.kind
    ensures SubmissionsIn(db[r := e]) == if e.ASubmission? then SubmissionsIn(db)[r.key := e.sub] else SubmissionsIn(db)
    ensures ChangesIn(db[r := e]) == if e.ASubchange? then ChangesIn(db)[r.key := e.change] else ChangesIn(db)
    ensures ModesIn(db[r := e]) == if e.ATask? then ModesIn(db)[r.key := e.mode] else ModesIn(db)
  {
    PutInSubmissions(db, r, e);
    PutInChanges(db, r, e);
    PutInTasks(db, r, e);
  }

  lemma PutInSubmissions(db: Db, r: Ref, e: Entity)
    requires e.Kind() == r.kind
    ensures SubmissionsIn(db[r := e]) == if e.ASubmission? then SubmissionsIn(db)[r.key := e.sub] else SubmissionsIn(db)
  {
    var m, n := SubmissionsIn(db[r := e]), if e.ASubmission? then SubmissionsIn(db)[r.key := e.sub] else SubmissionsIn(db);
    assert forall k :: Ref(SubmissionKind, k) == r <==> e.ASubmission? && k == r.key;
    EqualIfIncluded(m, n);
  }

  lemma PutInChanges(db: Db, r: Ref, e: Entity)
    requires e.Kind() == r.kind
    ensures ChangesIn(db[r := e]) == if e.ASubchange? then ChangesIn(db)[r.key := e.change] else ChangesIn(db)
  {
    var m, n := ChangesIn(db[r := e]), if e.ASubchange? then ChangesIn(db)[r.key := e.change] else ChangesIn(db);
    assert forall k :: Ref(SubchangeKind, k) == r <==> e.ASubchange? && k == r.key;
    EqualIfIncluded(m, n);
  }

  lemma PutInTasks(db: Db, r: Ref, e: Entity)
    requires e.Kind() == r.kind
    ensures ModesIn(db[r := e]) == if e.ATask? then ModesIn(db)[r.key := e.mode] else ModesIn(db)
  {
    var m, n := ModesIn(db[r := e]), if e.ATask? then ModesIn(db)[r.key := e.mode] else ModesIn(db);
    assert forall k :: Ref(TaskKind, k) == r <==> e.ATask? && k == r.key;
    EqualIfIncluded(m, n);
  }

  lemma StoresAreAnchored(db: Db)
    requires Typed(db) && Integrity(db)
    ensures Anchored(SubmissionsIn(db), ChangesIn(db))
    ensures forall k | k in SubmissionsIn(db) :: SubmissionsIn(db)[k].task in ModesIn(db)
  {
    StoresAreTracked(db);
    assert Anchored(KnownOf(db).subs, KnownOf(db).chs);
    forall k | k in SubmissionsIn(db) ensures SubmissionsIn(db)[k].task in ModesIn(db) {
      var e := db[Ref(SubmissionKind, k)];
      assert e.Consistent(db) && Ref(TaskKind, e.sub.task) in e.Refs();
    }
  }

  /** Modes of tasks without submissions do not matter. */
  lemma MirrorsWithFewerModes(v: View, subs: Submissions, chs: Changes, modes: Modes, fewer: Modes)
    requires Mirrors(v, subs, chs, modes) && Included(fewer, modes)
    requires forall k | k in subs :: subs[k].task in fewer
    ensures Mirrors(v, subs, chs, fewer)
  {
    forall w | w in v ensures Faithful(v[w], subs, chs, fewer, w) {
      assert Faithful(v[w], subs, chs, modes, w);
      WhoHasSubmission(v, subs, chs, modes, w);
    }
  }

  /** What the scores would be after a restart is what they are. */
  ghost predicate Restarted(db: Db, scores: View) {
    Mirrors(scores, SubmissionsIn(db), ChangesIn(db), ModesIn(db))
  }

  lemma {:induction false} RestartedAfterDeletion(db: Db, kn: Known, scores: View)
    requires Tracks(db, kn) && kn.pending == {} && Mirrors(scores, kn.subs, kn.chs, kn.modes)
    requires Typed(db) && Integrity(db)
    ensures Restarted(db, scores)
  {
    NothingPending(db, kn);
    StoresAreAnchored(db);
    MirrorsWithFewerModes(scores, kn.subs, kn.chs, kn.modes, ModesIn(db));
  }

  ghost predicate NonNegativeDb(db: Db) { NonNegativeStore(ChangesIn(db)) }

  lemma PutKeepsIntegrity(db: Db, r: Ref, e: Entity)
    requires Typed(db) && Integrity(db) && e.Kind() == r.kind && e.Consistent(db)
    requires e.ASubchange? ==> e.change.key == r.key
    ensures Typed(db[r := e]) && Integrity(db[r := e])
  {
    var after := db[r := e];
    forall x | x in after ensures after[x].Consistent(after) {
      assert x != r ==> db[x].Consistent(db);
    }
  }

  // ---- When an update keeps the scores right -----------------------------------------------------

  /**
    The updates that the scores follow: a task keeps its mode or has no submissions, a submission
    keeps its user and task or has no changes, a change goes to another submission or keeps its place
    among the changes of the same user and task.
   */
  ghost predicate InScope(db: Db, r: Ref, e: Entity)
    requires Typed(db) && Integrity(db) && r in db && e.Kind() == r.kind
  {
    StoresAreAnchored(db);
    match e
    case ATask(_, mode) => mode == db[r].mode || forall k | k in SubmissionsIn(db) :: SubmissionsIn(db)[k].task != r.key
    case ASubmission(s) => s.Who() == db[r].sub.Who() || forall k | k in ChangesIn(db) :: ChangesIn(db)[k].submission != r.key
    case ASubchange(c) =>
      Stored(db, r);
      c.submission != db[r].change.submission || KeepsPlace(SubmissionsIn(db), ChangesIn(db), db[r].change, c)
    case _ => true
  }

  lemma Stored(db: Db, r: Ref)
    requires Typed(db) && Integrity(db) && r in db
    ensures r.kind == TaskKind ==> r.key in ModesIn(db) && ModesIn(db)[r.key] == db[r].mode
    ensures r.kind == SubmissionKind ==> r.key in SubmissionsIn(db) && SubmissionsIn(db)[r.key] == db[r].sub
    ensures r.kind == SubchangeKind ==> r.key in ChangesIn(db) && ChangesIn(db)[r.key] == db[r].change
                                        && db[r].change.submission in SubmissionsIn(db)
  {
    assert r == Ref(r.kind, r.key);
    StoresAreTracked(db);
    assert Anchored(KnownOf(db).subs, KnownOf(db).chs);
  }

  /**
    The updates that are in scope whatever else happens in the same store: a task keeps its mode or has no
    submissions, a submission keeps its user and task or has no changes, a change goes to another
    submission or keeps its time.
   */
  ghost predicate Calm(db: Db, r: Ref, e: Entity)
    requires Typed(db) && r in db && e.Kind() == r.kind
  {
    match e
    case ATask(_, mode) => mode == db[r].mode || forall k | k in SubmissionsIn(db) :: SubmissionsIn(db)[k].task != r.key
    case ASubmission(s) => s.Who() == db[r].sub.Who() || forall k | k in ChangesIn(db) :: ChangesIn(db)[k].submission != r.key
    case ASubchange(c) => c.submission != db[r].change.submission || c.time == db[r].change.time
    case _ => true
  }

  lemma CalmIsInScope(db: Db, r: Ref, e: Entity)
    requires Typed(db) && Integrity(db) && r in db && e.Kind() == r.kind && (e.ASubchange? ==> e.change.key == r.key)
    requires Calm(db, r, e)
    ensures InScope(db, r, e)
  {
    Stored(db, r);
    StoresAreAnchored(db);
  }

  lemma SubmissionUpdate(before: Db, db: Db, key: string, old_: Submitted, s: Submitted)
    requires Typed(before) && Integrity(before) && Ref(SubmissionKind, key) in before
    requires before[Ref(SubmissionKind, key)] == ASubmission(old_)
    requires db == before[Ref(SubmissionKind, key) := ASubmission(s)] && Typed(db) && Integrity(db)
    ensures SubmissionsIn(db) == SubmissionsIn(before)[key := s]
    ensures ChangesIn(db) == ChangesIn(before) && ModesIn(db) == ModesIn(before) && s.task in ModesIn(before)
    ensures Anchored(SubmissionsIn(before), ChangesIn(before))
    ensures key in SubmissionsIn(before) && SubmissionsIn(before)[key] == old_
    ensures InScope(before, Ref(SubmissionKind, key), ASubmission(s)) <==>
      old_.Who() == s.Who() || forall k | k in ChangesIn(before) :: ChangesIn(before)[k].submission != key
  {
    var r := Ref(SubmissionKind, key);
    PutChangesOneStore(before, r, ASubmission(s));
    StoresAreAnchored(before);
    Stored(before, r);
    TaskOfSubmission(db, key);
    SubmissionScope(before, key, old_, s);
  }

  lemma TaskOfSubmission(db: Db, key: string)
    requires Typed(db) && Integrity(db) && Ref(SubmissionKind, key) in db
    ensures db[Ref(SubmissionKind, key)].sub.task in ModesIn(db)
  {
    Stored(db, Ref(SubmissionKind, key));
    StoresAreAnchored(db);
  }

  lemma SubmissionScope(db: Db, key: string, old_: Submitted, s: Submitted)
    requires Typed(db) && Integrity(db) && Ref(SubmissionKind, key) in db && db[Ref(SubmissionKind, key)] == ASubmission(old_)
    ensures InScope(db, Ref(SubmissionKind, key), ASubmission(s)) <==>
      old_.Who() == s.Who() || forall k | k in ChangesIn(db) :: ChangesIn(db)[k].submission != key
  {
  }

  lemma {:induction false} SubchangeUpdate(before: Db, db: Db, key: string, old_: Subchange, c: Subchange)
    requires Typed(before) && Integrity(before) && Ref(SubchangeKind, key) in before && c.key == key
    requires before[Ref(SubchangeKind, key)] == ASubchange(old_)
    requires db == before[Ref(SubchangeKind, key) := ASubchange(c)] && Typed(db) && Integrity(db)
    ensures ChangesIn(db) == ChangesIn(before)[key := c]
    ensures SubmissionsIn(db) == SubmissionsIn(before) && ModesIn(db) == ModesIn(before)
    ensures Anchored(SubmissionsIn(before), ChangesIn(before))
    ensures key in ChangesIn(before) && ChangesIn(before)[key] == old_ && c.submission in SubmissionsIn(before)
    ensures InScope(before, Ref(SubchangeKind, key), ASubchange(c)) <==>
      old_.submission != c.submission || KeepsPlace(SubmissionsIn(before), ChangesIn(before), old_, c)
  {
    var r := Ref(SubchangeKind, key);
    PutChangesOneStore(before, r, ASubchange(c));
    StoresAreAnchored(before);
    Stored(before, r);
    SubmissionOfChange(db, key);
    SubchangeScope(before, key, old_, c);
  }

  lemma SubmissionOfChange(db: Db, key: string)
    requires Typed(db) && Integrity(db) && Ref(SubchangeKind, key) in db
    ensures db[Ref(SubchangeKind, key)].change.submission in SubmissionsIn(db)
  {
    Stored(db, Ref(SubchangeKind, key));
  }

  lemma SubchangeScope(db: Db, key: string, old_: Subchange, c: Subchange)
    requires Typed(db) && Integrity(db) && Ref(SubchangeKind, key) in db && db[Ref(SubchangeKind, key)] == ASubchange(old_)
    requires Anchored(SubmissionsIn(db), ChangesIn(db)) && old_.submission in SubmissionsIn(db)
    ensures InScope(db, Ref(SubchangeKind, key), ASubchange(c)) <==>
      old_.submission != c.submission || KeepsPlace(SubmissionsIn(db), ChangesIn(db), old_, c)
  {
  }

  lemma {:induction false} NewSubmission(before: Db, db: Db, key: string, s: Submitted)
    requires Typed(before) && Integrity(before) && Ref(SubmissionKind, key) !in before
    requires db == before[Ref(SubmissionKind, key) := ASubmission(s)] && Typed(db) && Integrity(db)
    ensures SubmissionsIn(db) == SubmissionsIn(before)[key := s] && key !in SubmissionsIn(before)
    ensures ChangesIn(db) == ChangesIn(before) && ModesIn(db) == ModesIn(before) && s.task in ModesIn(before)
    ensures Anchored(SubmissionsIn(before), ChangesIn(before))
  {
    PutChangesOneStore(before, Ref(SubmissionKind, key), ASubmission(s));
    StoresAreAnchored(before);
    TaskOfSubmission(db, key);
  }

  lemma {:induction false} NewSubchange(before: Db, db: Db, key: string, c: Subchange)
    requires Typed(before) && Integrity(before) && Ref(SubchangeKind, key) !in before && c.key == key
    requires db == before[Ref(SubchangeKind, key) := ASubchange(c)] && Typed(db) && Integrity(db)
    ensures ChangesIn(db) == ChangesIn(before)[key := c] && key !in ChangesIn(before)
    ensures SubmissionsIn(db) == SubmissionsIn(before) && ModesIn(db) == ModesIn(before)
    ensures Anchored(SubmissionsIn(before), ChangesIn(before)) && c.submission in SubmissionsIn(before)
  {
    PutChangesOneStore(before, Ref(SubchangeKind, key), ASubchange(c));
    StoresAreAnchored(before);
    Stored(db, Ref(SubchangeKind, key));
  }
}
