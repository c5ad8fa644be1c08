/**
  The stores field by field: which keys an entity has to find in the other stores, what a request that
  is accepted or refused says of them, and what goes when an entity of each kind is deleted.
 */
module StoreMeaning {
  import opened Basics
  import opened ScoreSpec
  import opened Mirror
  import opened Stores
  import opened Tracking
  import opened Deletion
  import opened Server

  /** The keys that the data names are in the stores it names them for. */
  predicate FindsItsKeys(db: Db, data: Entity) {
    && (data.ATask? ==> Ref(ContestKind, data.contest) in db)
    && (data.AUser? && data.team != None ==> Ref(TeamKind, data.team.value) in db)
    && (data.ASubmission? ==> Ref(UserKind, data.sub.user) in db && Ref(TaskKind, data.sub.task) in db)
    && (data.ASubchange? ==> Ref(SubmissionKind, data.change.submission) in db)
  }

  /** The store takes this kind of data. */
  predicate Fits(kind: Kind, data: Entity) {
    && (kind == ContestKind <==> data.AContest?) && (kind == TaskKind <==> data.ATask?)
    && (kind == TeamKind <==> data.ATeam?) && (kind == UserKind <==> data.AUser?)
    && (kind == SubmissionKind <==> data.ASubmission?) && (kind == SubchangeKind <==> data.ASubchange?)
  }

  /** Letters, digits and underscores, by their ASCII codes. */
  predicate SpelledKey(key: string) {
    |key| > 0 && forall i | 0 <= i < |key| ::
      var code := key[i] as int;
      65 <= code <= 90 || 97 <= code <= 122 || 48 <= code <= 57 || code == 95
  }

  lemma AcceptableMeans(db: Db, kind: Kind, data: Entity)
    ensures Acceptable(db, kind, data) <==> Fits(kind, data) && FindsItsKeys(db, data)
  {
  }

  /** In every state of the server, each entity is in the store of its kind and finds the keys it names. */
  lemma StoredFindsItsKeys(w: World, r: Ref)
    requires Working(w) && r in w.db
    ensures Fits(r.kind, w.db[r]) && FindsItsKeys(w.db, w.db[r])
    ensures r.kind == SubchangeKind ==> w.db[r].change.key == r.key
  {
    WorkingIs(w);
    assert w.db[r].Consistent(w.db);
  }

  /** The entity that is stored: the data, and a change also has its key. */
  predicate StoredAs(db: Db, r: Ref, data: Entity) {
    && r in db && (!data.ASubchange? ==> db[r] == data)
    && (data.ASubchange? ==> db[r].ASubchange? && SameButKey(db[r].change, r.key, data.change))
  }

  predicate SameButKey(stored: Subchange, key: string, c: Subchange) {
    && stored.key == key && stored.submission == c.submission && stored.time == c.time
    && stored.score == c.score && stored.token == c.token && stored.extra == c.extra
  }

  ghost predicate SameElsewhere(before: Db, after: Db, r: Ref) {
    && (forall x | x in after && x != r :: x in before && before[x] == after[x])
    && forall x | x in before && x != r :: x in after
  }

  /** The three outcomes of `create`, each exactly when, and what is in the stores after a success. */
  lemma CreateMeans(a: World, b: World, r: Ref, data: Entity, o: Outcome)
    requires Created(a, b, r, data, o)
    ensures o == InvalidKey <==> !SpelledKey(r.key) || r in a.db
    ensures o == Done <==> SpelledKey(r.key) && r !in a.db && Fits(r.kind, data) && FindsItsKeys(a.db, data)
    ensures o != Done ==> b == a
    ensures o == Done ==> StoredAs(b.db, r, data) && SameElsewhere(a.db, b.db, r)
  {
    assert ValidKey(r.key) <==> SpelledKey(r.key);
    AcceptableMeans(a.db, r.kind, data);
  }

  lemma UpdateMeans(a: World, b: World, r: Ref, data: Entity, o: Outcome)
    requires Typed(a.db) && Integrity(a.db) && Updated(a, b, r, data, o)
    ensures o == InvalidKey <==> r !in a.db
    ensures o == Done <==> r in a.db && Fits(r.kind, data) && FindsItsKeys(a.db, data)
    ensures o != Done ==> b == a
    ensures o == Done ==> StoredAs(b.db, r, data) && SameElsewhere(a.db, b.db, r)
  {
    AcceptableMeans(a.db, r.kind, data);
  }

  // ---- What a deletion takes ---------------------------------------------------------------------

  ghost predicate IsTaskOf(db: Db, x: string, contest: string) {
    Ref(TaskKind, x) in db && db[Ref(TaskKind, x)].ATask? && db[Ref(TaskKind, x)].contest == contest
  }

  ghost predicate IsUserOf(db: Db, x: string, team: string) {
    Ref(UserKind, x) in db && db[Ref(UserKind, x)].AUser? && db[Ref(UserKind, x)].team == Some(team)
  }

  /** What falls with an entity of each kind, one kind at a time. */
  ghost predicate TaskFalls(db: Db, r: Ref, key: string) {
    r == Ref(TaskKind, key) || (r.kind == ContestKind && IsTaskOf(db, key, r.key))
  }

  ghost predicate UserFalls(db: Db, r: Ref, key: string) {
    r == Ref(UserKind, key) || (r.kind == TeamKind && IsUserOf(db, key, r.key))
  }

  ghost predicate SubmissionFalls(db: Db, r: Ref, key: string) {
    var x := Ref(SubmissionKind, key);
    x in db && db[x].ASubmission? && (r == x || TaskFalls(db, r, db[x].sub.task) || UserFalls(db, r, db[x].sub.user))
  }

  ghost predicate ChangeFalls(db: Db, r: Ref, key: string) {
    var x := Ref(SubchangeKind, key);
    x in db && db[x].ASubchange? && (r == x || SubmissionFalls(db, r, db[x].change.submission))
  }

  ghost predicate Falls(db: Db, r: Ref, x: Ref) {
    match x.kind
    case ContestKind | TeamKind => x == r
    case TaskKind => TaskFalls(db, r, x.key)
    case UserKind => UserFalls(db, r, x.key)
    case SubmissionKind => SubmissionFalls(db, r, x.key)
    case SubchangeKind => ChangeFalls(db, r, x.key)
  }

  lemma DoomedIs(db: Db, r: Ref, x: Ref)
    requires Typed(db) && x in db && x != r
    ensures Doomed(db, r, x) <==> exists y | y in db[x].Refs() :: Doomed(db, r, y)
  {
    forall y | y in db[x].Refs() ensures Rank(x.kind) < Rank(y.kind) { ReferrerIsBelow(db[x], y); }
  }

  lemma RootFalls(db: Db, r: Ref, x: Ref)
    requires Typed(db) && x in db && x.kind in {ContestKind, TeamKind}
    ensures Doomed(db, r, x) <==> x == r
  {
    if x != r { DoomedIs(db, r, x); }
  }

  lemma DoomedTaskFalls(db: Db, r: Ref, key: string)
    requires Typed(db) && Integrity(db) && r in db && Ref(TaskKind, key) in db
    ensures Doomed(db, r, Ref(TaskKind, key)) <==> TaskFalls(db, r, key)
  {
    var x := Ref(TaskKind, key);
    if x != r {
      DoomedIs(db, r, x);
      assert db[x].Consistent(db);
      RootFalls(db, r, Ref(ContestKind, db[x].contest));
    }
  }

  lemma DoomedUserFalls(db: Db, r: Ref, key: string)
    requires Typed(db) && Integrity(db) && r in db && Ref(UserKind, key) in db
    ensures Doomed(db, r, Ref(UserKind, key)) <==> UserFalls(db, r, key)
  {
    var x := Ref(UserKind, key);
    if x != r {
      DoomedIs(db, r, x);
      assert db[x].Consistent(db);
      if db[x].team.Some? { RootFalls(db, r, Ref(TeamKind, db[x].team.value)); }
    }
  }

  lemma DoomedSubmissionFalls(db: Db, r: Ref, key: string)
    requires Typed(db) && Integrity(db) && r in db && Ref(SubmissionKind, key) in db
    ensures Doomed(db, r, Ref(SubmissionKind, key)) <==> SubmissionFalls(db, r, key)
  {
    var x := Ref(SubmissionKind, key);
    if x != r {
      DoomedIs(db, r, x);
      assert db[x].Consistent(db);
      DoomedTaskFalls(db, r, db[x].sub.task);
      DoomedUserFalls(db, r, db[x].sub.user);
    }
  }

  lemma DoomedFalls(db: Db, r: Ref, x: Ref)
    requires Typed(db) && Integrity(db) && r in db && x in db
    ensures Doomed(db, r, x) <==> Falls(db, r, x)
  {
    match x.kind {
      case ContestKind | TeamKind => RootFalls(db, r, x);
      case TaskKind => DoomedTaskFalls(db, r, x.key);
      case UserKind => DoomedUserFalls(db, r, x.key);
      case SubmissionKind => DoomedSubmissionFalls(db, r, x.key);
      case SubchangeKind =>
        if x != r {
          DoomedIs(db, r, x);
          assert db[x].Consistent(db);
          DoomedSubmissionFalls(db, r, db[x].change.submission);
        }
    }
  }

  /**
    Deleting an entity takes exactly: a change, itself; a submission, its changes too; a user or a task,
    its submissions and their changes too; a team, its users, and a contest, its tasks, with all of
    theirs. Everything else stays as it is.
   */
  lemma DeleteMeans(a: World, b: World, r: Ref, gone: seq<Ref>, o: Outcome)
    requires Typed(a.db) && Integrity(a.db) && Deleted(a, b, r, gone, o)
    ensures o == if r in a.db then Done else InvalidKey
    ensures o != Done ==> b == a
    ensures o == Done ==> forall x :: x in b.db <==> x in a.db && !Falls(a.db, r, x)
    ensures o == Done ==> forall x | x in b.db :: b.db[x] == a.db[x]
    ensures o == Done ==> forall x :: x in gone <==> x in a.db && Falls(a.db, r, x)
  {
    if o == Done {
      forall x | x in a.db ensures Doomed(a.db, r, x) <==> Falls(a.db, r, x) { DoomedFalls(a.db, r, x); }
    }
  }

  lemma DoomedWithFalls(db: Db, kind: Kind, x: Ref)
    requires Typed(db) && Integrity(db) && x in db
    ensures DoomedWith(db, kind, x) <==> exists r | r in db && r.kind == kind :: Falls(db, r, x)
  {
    if r :| r in db && r.kind == kind && Doomed(db, r, x) { DoomedFalls(db, r, x); }
    if r :| r in db && r.kind == kind && Falls(db, r, x) { DoomedFalls(db, r, x); }
  }

  /** Emptying a store takes exactly what falls with any of its entities. */
  lemma EmptiedMeans(a: Db, b: Db, kind: Kind, x: Ref)
    requires Typed(a) && Integrity(a) && x in a && (x in b <==> !DoomedWith(a, kind, x))
    ensures x in b <==> forall r | r in a && r.kind == kind :: !Falls(a, r, x)
  {
    DoomedWithFalls(a, kind, x);
  }
}
