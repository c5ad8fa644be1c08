/**
  The stores of one ranking, with the scores that listen to them: create, update, merge and the
  deletion that cascades to everything that needs the deleted entity.
 */
module Server {
  import opened Basics
  import opened ScoreSpec
  import opened ScoreLaws
  import opened GlobalHistory
  import opened Mirror
  import opened MirrorSteps
  import opened Holding
  import opened Stores
  import opened ScoringStore
  import opened Tracking
  import opened Deletion

  datatype Outcome = Done | InvalidKey | InvalidData

  predicate ValidKey(key: string) {
    key != [] && forall i | 0 <= i < |key| ::
      'A' <= key[i] <= 'Z' || 'a' <= key[i] <= 'z' || '0' <= key[i] <= '9' || key[i] == '_'
  }

  /** The entity made from some data, once it knows its key. */
  function Keyed(data: Entity, key: string): Entity {
    if data.ASubchange? then ASubchange(data.change.(key := key)) else data
  }

  predicate NonNegativeEntity(e: Entity) { e.ASubchange? ==> e.change.NonNegative() }

  /** Data that `set` and `consistent` accept. */
  predicate Acceptable(db: Db, kind: Kind, data: Entity) { data.Kind() == kind && data.Consistent(db) }

  /** Nothing that is below zero is touched by a submission without results. */
  ghost predicate Safe(w: World, r: Ref, data: Entity) {
    data.ASubmission? && !(r in w.db && w.db[r].ASubmission? && w.db[r].sub.Who() == data.sub.Who()) ==>
    Unharmed(w.scores, data.sub.Who())
  }

  /** What is lost: a task does not touch the scores, a submission adds no change, and loses its own if it moves. */
  ghost predicate Touches(a: World, b: World, r: Ref, data: Entity) {
    && (data.ATask? ==> b.scores == a.scores)
    && (data.ASubmission? ==> NoneAdded(a.scores, b.scores))
    && (data.ASubmission? && r in a.db && a.db[r].ASubmission? && a.db[r].sub.Who() != data.sub.Who() ==>
        forall c | Listed(b.scores, c) :: c.submission != r.key)
  }

  /** What `create` does: nothing if it is refused, and otherwise everything stays consistent and is told. */
  ghost predicate Created(a: World, b: World, r: Ref, data: Entity, o: Outcome) {
    match o
    case InvalidKey => b == a && (!ValidKey(r.key) || r in a.db)
    case InvalidData => b == a && ValidKey(r.key) && r !in a.db && !Acceptable(a.db, r.kind, data)
    case Done =>
      && ValidKey(r.key) && r !in a.db && Acceptable(a.db, r.kind, data)
      && b.db == a.db[r := Keyed(data, r.key)] && Working(b) && Told(a, b) && Touches(a, b, r, data)
      && (Sound(a) && Safe(a, r, data) ==> Sound(b))
  }

  /** What `update` does: the same, and the scores follow exactly if it is in scope. */
  ghost predicate Updated(a: World, b: World, r: Ref, data: Entity, o: Outcome)
    requires Typed(a.db) && Integrity(a.db)
  {
    match o
    case InvalidKey => b == a && r !in a.db
    case InvalidData => b == a && r in a.db && !Acceptable(a.db, r.kind, data)
    case Done =>
      && r in a.db && Acceptable(a.db, r.kind, data)
      && b.db == a.db[r := Keyed(data, r.key)] && Working(b) && Told(a, b) && Touches(a, b, r, data)
      && (Sound(a) && Safe(a, r, data) ==> (Sound(b) <==> InScope(a.db, r, Keyed(data, r.key))))
  }

  /**
    What `delete` does: exactly the entity and its transitive referrers go, each with one callback and
    referrers first, every reference left is valid, and the scores follow.
   */
  ghost predicate Deleted(a: World, b: World, r: Ref, gone: seq<Ref>, o: Outcome)
    requires Typed(a.db)
  {
    match o
    case InvalidKey => b == a && r !in a.db
    case InvalidData => false
    case Done =>
      && r in a.db && LosesDoomed(a.db, b.db, r)
      && Gone(a.db, b.db, gone) && b.deleted == a.deleted + gone
      && Working(b) && Told(a, b) && (Sound(a) ==> Sound(b))
  }

  /** With scores that are not negative, any entity is safe, and they stay so if the new ones are. */
  lemma NonNegativeIsSafe(w: World, r: Ref, data: Entity)
    requires Sound(w) && NonNegativeDb(w.db)
    ensures Safe(w, r, data)
  {
    SoundIs(w);
    StoresAreAnchored(w.db);
    if data.ASubmission? {
      NonNegativeIsUnharmed(w.scores, SubmissionsIn(w.db), ChangesIn(w.db), ModesIn(w.db), data.sub.Who());
    }
  }

  /** Every entity of a merge is one that the scores follow, whatever the order. */
  ghost predicate CalmMerge(db: Db, kind: Kind, items: map<string, Entity>)
    requires Typed(db)
  {
    AllCalm(db, kind, items) && forall k | k in items :: NonNegativeEntity(items[k])
  }

  ghost predicate AllCalm(db: Db, kind: Kind, items: map<string, Entity>)
    requires Typed(db)
  {
    forall k {:trigger CalmItem(db, kind, k, items[k])} | k in items :: CalmItem(db, kind, k, items[k])
  }

  ghost predicate CalmItem(db: Db, kind: Kind, key: string, data: Entity)
    requires Typed(db)
  {
    var r := Ref(kind, key);
    r in db && data.Kind() == kind ==> Calm(db, r, Keyed(data, key))
  }

  /** The change is out of its store, and the scores are right but for that. */
  ghost predicate KnownChange(w: World, key: string, c: Subchange) {
    match w case World(db, scores, _, _, known) =>
      && key in known.chs && known.chs[key] == c && Tracks(db, WithoutTracked(db, known, key, c.submission))
      && Exact(scores, known.subs, known.chs, known.modes)
  }

  lemma ChangeForgotten(a: World, b: World, key: string, c: Subchange)
    requires Coupled(a) && b.db == a.db && b.known == WithoutTracked(a.db, a.known, key, c.submission)
    requires Holds(b.scores, a.known.subs)
    requires KnownChange(a, key, c) ==> Mirrors(b.scores, a.known.subs, b.known.chs, a.known.modes)
    ensures Coupled(b) && (KnownChange(a, key, c) ==> Right(b))
  {
    if KnownChange(a, key, c) { RightIf(b); }
  }

  class Server {
    var db: Db
    const scoring: ScoringStore
    var deleted: seq<Ref>
    ghost var known: Known

    ghost function Now(): World
      reads this, scoring
    {
      World(db, scoring.scores, scoring.notices, deleted, known)
    }

    /** Empty stores. */
    constructor ()
      ensures db == map[] && fresh(scoring) && Sound(Now()) && Working(Now()) && NonNegativeDb(db)
    {
      db, deleted := map[], [];
      var store := new ScoringStore();
      scoring := store;
      known := KnownOf(map[]);
      new;
      SoundIs(Now());
      SoundWorks(Now());
    }

    /** Stores loaded from disk, which have to be consistent: the scores are built from them. */
    constructor Load(db: Db)
      requires Typed(db) && Integrity(db)
      ensures this.db == db && fresh(scoring) && Sound(Now()) && Working(Now())
    {
      this.db, deleted := db, [];
      StoresAreAnchored(db);
      var store := StartScoring(db);
      scoring := store;
      known := KnownOf(db);
      new;
      SoundIs(Now());
      SoundWorks(Now());
    }

    /** The delete callback of the submission store. */
    method SubmissionDeleted(key: string, s: Submitted)
      requires Coupled(Now()) && Clean(db, {SubchangeKind}) && key in known.pending && known.subs[key] == s
      modifies this`deleted, this`known, scoring
      ensures Coupled(Now()) && (old(Right(Now())) ==> Right(Now())) && Told(old(Now()), Now())
      ensures deleted == old(deleted) + [Ref(SubmissionKind, key)] && known == Finished(old(known), key)
    {
      FinishFollowing(db, known, key);
      if Right(Now()) { FinishSubmission(db, known, key); }
      scoring.DeleteSubmission(key, s, known.subs, known.chs, known.modes);
      known := Finished(known, key);
      deleted := deleted + [Ref(SubmissionKind, key)];
    }

    /** The delete callback of the subchange store. */
    method SubchangeDeleted(key: string, c: Subchange)
      requires Coupled(Now())
      modifies this`deleted, this`known, scoring
      ensures Coupled(Now()) && Told(old(Now()), Now()) && deleted == old(deleted) + [Ref(SubchangeKind, key)]
      ensures known == WithoutTracked(db, old(known), key, c.submission)
      ensures old(KnownChange(Now(), key, c)) ==> Right(Now())
    {
      ghost var a := Now();
      ForgetInScores(key, c);
      known := WithoutTracked(db, known, key, c.submission);
      deleted := deleted + [Ref(SubchangeKind, key)];
      ChangeForgotten(a, Now(), key, c);
    }

    method ForgetInScores(key: string, c: Subchange)
      requires Coupled(Now())
      modifies scoring
      ensures Holds(scoring.scores, known.subs)
      ensures old(KnownChange(Now(), key, c)) ==>
        Mirrors(scoring.scores, known.subs, WithoutTracked(db, known, key, c.submission).chs, known.modes)
      ensures Told(old(Now()), Now())
    {
      var subs := SubmissionStore(db);
      StoredSubmission(db, known, c.submission);
      scoring.DeleteSubchange(key, c, subs, known.subs, known.chs, known.modes);
    }

    /** `delete` on a store: the entity, then everything left dangling, then the callbacks. */
    method DeleteEntity(r: Ref) returns (ghost gone: seq<Ref>)
      requires Coupled(Now()) && Typed(db) && r in db && Clean(db, Below(r.kind))
      modifies this`db, this`deleted, this`known, scoring
      ensures Cascaded(old(Now()), Now(), gone)
      ensures AllDoomed(old(db), r, gone)
      ensures r in gone && Clean(db, Below(r.kind))
      decreases Rank(r.kind), 1
    {
      DependentsAreLower(r.kind);
      if Depends(r.kind) == [] {
        gone := DeleteLeaf(r);
        return;
      }
      ghost var a := Now();
      var e := db[r];
      gone := Sweep(r);
      if r.kind == SubmissionKind {
        FinishSubmissionDeletion(r, e.sub, gone, a);
      } else {
        FinishPlainDeletion(r, gone, a);
      }
      gone := gone + [r];
    }

    /** Takes the entity out of its store, and deletes what that leaves dangling. */
    method Sweep(r: Ref) returns (ghost gone: seq<Ref>)
      requires Coupled(Now()) && Typed(db) && r in db && Clean(db, Below(r.kind)) && Depends(r.kind) != []
      modifies this`db, this`deleted, this`known, scoring
      ensures Cascaded(Removed(old(Now()), r), Now(), gone) && Within(gone, Depends(r.kind)[0])
      ensures AllDoomed(old(db), r, gone + [r]) && Clean(db, Below(r.kind))
      decreases Rank(r.kind), 0
    {
      ghost var a := Now();
      var d := Depends(r.kind)[0];
      DependentsAreLower(r.kind);
      BeforeDangling(a, r, d);
      db := db - {r};
      known := Started(known, r);
      assert Now() == Removed(a, r);
      gone := DeleteDangling(d);
      AfterDangling(a, Now(), r, d, gone);
    }

    /** A change has no dependents: only its callback is left to run. */
    method DeleteLeaf(r: Ref) returns (ghost gone: seq<Ref>)
      requires Coupled(Now()) && r in db && r.kind == SubchangeKind
      modifies this`db, this`deleted, this`known, scoring
      ensures Cascaded(old(Now()), Now(), gone) && gone == [r]
    {
      ghost var a := Now();
      var c := db[r].change;
      if Right(a) { DeleteTrackedChange(db, known, r.key); }
      StartFollowing(db, known, r);
      db := db - {r};
      ghost var b := Now();
      CoupledIf(b);
      SubchangeDeleted(r.key, c);
      LeafDeletion(a, b, Now(), r);
      gone := [r];
    }

    /** The callbacks of a deleted submission, once its changes are gone. */
    method FinishSubmissionDeletion(r: Ref, s: Submitted, ghost gone: seq<Ref>, ghost a: World)
      requires Coupled(a) && Typed(a.db) && r in a.db && a.db[r] == ASubmission(s) && r.kind == SubmissionKind
      requires Cascaded(Removed(a, r), Now(), gone) && Clean(db, Below(r.kind)) && Within(gone, SubchangeKind)
      modifies this`deleted, this`known, scoring
      ensures Cascaded(a, Now(), gone + [r])
    {
      ghost var b := Now();
      PendingSubmission(a.db, a.known, known, r.key, s);
      SubmissionDeleted(r.key, s);
      FinishedDeletion(a, b, Now(), r, gone, SubchangeKind);
    }

    /** The callbacks of the stores that the scores do not listen to. */
    method FinishPlainDeletion(r: Ref, ghost gone: seq<Ref>, ghost a: World)
      requires Coupled(a) && Typed(a.db) && r in a.db && r.kind !in {SubmissionKind, SubchangeKind}
      requires Cascaded(Removed(a, r), Now(), gone) && Within(gone, Depends(r.kind)[0])
      modifies this`deleted
      ensures Cascaded(a, Now(), gone + [r])
    {
      PlainDeletion(a, Now(), r, gone, Depends(r.kind)[0]);
      ghost var b := Now();
      deleted := deleted + [r];
      assert Now() == b.(deleted := b.deleted + [r]);
    }

    /** Deletes every entity of a store with a dangling reference, over a snapshot of its keys. */
    method DeleteDangling(d: Kind) returns (ghost gone: seq<Ref>)
      requires Coupled(Now()) && Typed(db) && Clean(db, Below(d))
      modifies this`db, this`deleted, this`known, scoring
      ensures Cascaded(old(Now()), Now(), gone) && Within(gone, d)
      ensures DoomedByDangling(old(db), d, gone)
      ensures Clean(db, Below(d) + {d})
      decreases Rank(d), 2
    {
      ghost var a := Now();
      gone := [];
      NoCascade(a);
      var keys := Enumerate(KeysOf(db, d));
      for i := 0 to |keys|
        invariant Cascaded(a, Now(), gone) && Within(gone, d) && DoomedByDangling(a.db, d, gone)
        invariant Clean(db, Below(d)) && Awaiting(db, d, keys, i) && Settled(db, a.db, d, keys, i)
      {
        var y := Ref(d, keys[i]);
        ghost var b := Now();
        SameVerdict(a, b, gone, d, db[y]);
        if !db[y].Consistent(db) {
          ghost var more := DeleteEntity(y);
          AwaitingNext(b, Now(), y, more, keys, i);
          MoreDangling(a, b, Now(), d, gone, more, y);
          gone := gone + more;
        }
        SettledNext(b.db, db, a.db, d, keys, i);
      }
      AllVerdicts(a, Now(), gone, d, keys);
    }

    // ---- The operations of the stores ------------------------------------------------------------

    /** The create callbacks; the entity is in its store already. */
    method CreateCallbacks(r: Ref, e: Entity, ghost before: Db)
      requires Typed(before) && Integrity(before) && Holds(scoring.scores, SubmissionsIn(before))
      requires r !in before && e.Kind() == r.kind && e.Consistent(before) && (e.ASubchange? ==> e.change.key == r.key)
      requires db == before[r := e] && Typed(db) && Integrity(db)
      modifies scoring
      ensures Holds(scoring.scores, SubmissionsIn(db)) && Told(old(Now()), Now())
      ensures Touches(old(Now()).(db := before), Now(), r, e)
      ensures old(Restarted(before, scoring.scores)) && (e.ASubmission? ==> old(Unharmed(scoring.scores, e.sub.Who()))) ==>
        Restarted(db, scoring.scores)
    {
      match e {
        case ASubmission(s) =>
          var modes := TaskModes(db);
          NewSubmission(before, db, r.key, s);
          scoring.CreateSubmission(r.key, s, modes, SubmissionsIn(before), ChangesIn(before));
        case ASubchange(c) =>
          var subs := SubmissionStore(db);
          NewSubchange(before, db, r.key, c);
          scoring.CreateSubchange(c, subs, ChangesIn(before), ModesIn(before));
        case ATask(_, mode) =>
          PutChangesOneStore(before, r, e);
          if Restarted(before, scoring.scores) { NewTaskIsSilent(before, scoring.scores, r.key, mode); }
          NothingTold(Now(), Now());
        case _ =>
          PutChangesOneStore(before, r, e);
          NothingTold(Now(), Now());
      }
    }

    /** The update callbacks; the new entity is in its store already. */
    method UpdateCallbacks(r: Ref, old_: Entity, e: Entity, ghost before: Db)
      requires Typed(before) && Integrity(before) && Holds(scoring.scores, SubmissionsIn(before))
      requires r in before && before[r] == old_ && e.Kind() == r.kind && e.Consistent(before)
      requires e.ASubchange? ==> e.change.key == r.key
      requires db == before[r := e] && Typed(db) && Integrity(db)
      modifies scoring
      ensures Holds(scoring.scores, SubmissionsIn(db)) && Told(old(Now()), Now())
      ensures Touches(old(Now()).(db := before), Now(), r, e)
      ensures old(Restarted(before, scoring.scores)) &&
              (e.ASubmission? && e.sub.Who() != old_.sub.Who() ==> old(Unharmed(scoring.scores, e.sub.Who()))) ==>
        (Restarted(db, scoring.scores) <==> InScope(before, r, e))
    {
      match e {
        case ASubmission(s) =>
          SubmissionUpdated(r, old_.sub, s, before);
        case ASubchange(c) =>
          SubchangeUpdated(r, old_.change, c, before);
        case ATask(_, mode) =>
          PutChangesOneStore(before, r, e);
          Stored(before, r);
          if Restarted(before, scoring.scores) {
            ModeChangeMirrors(scoring.scores, SubmissionsIn(before), ChangesIn(before), ModesIn(before), r.key, mode);
          }
          NothingTold(Now(), Now());
        case _ =>
          PutChangesOneStore(before, r, e);
          NothingTold(Now(), Now());
      }
    }

    method SubmissionUpdated(r: Ref, old_: Submitted, s: Submitted, ghost before: Db)
      requires Typed(before) && Integrity(before) && Holds(scoring.scores, SubmissionsIn(before))
      requires r in before && before[r] == ASubmission(old_) && r.kind == SubmissionKind
      requires db == before[r := ASubmission(s)] && Typed(db) && Integrity(db)
      modifies scoring
      ensures Holds(scoring.scores, SubmissionsIn(db)) && Told(old(Now()), Now())
      ensures Touches(old(Now()).(db := before), Now(), r, ASubmission(s))
      ensures old(Restarted(before, scoring.scores)) && (s.Who() != old_.Who() ==> old(Unharmed(scoring.scores, s.Who()))) ==>
        (Restarted(db, scoring.scores) <==> InScope(before, r, ASubmission(s)))
    {
      var modes := TaskModes(db);
      SubmissionUpdate(before, db, r.key, old_, s);
      scoring.UpdateSubmission(r.key, old_, s, modes, SubmissionsIn(before), ChangesIn(before));
    }

    method SubchangeUpdated(r: Ref, old_: Subchange, c: Subchange, ghost before: Db)
      requires Typed(before) && Integrity(before) && Holds(scoring.scores, SubmissionsIn(before))
      requires r in before && before[r] == ASubchange(old_) && r.kind == SubchangeKind && c.key == r.key
      requires db == before[r := ASubchange(c)] && Typed(db) && Integrity(db)
      modifies scoring
      ensures Holds(scoring.scores, SubmissionsIn(db)) && Told(old(Now()), Now())
      ensures old(Restarted(before, scoring.scores)) ==>
        (Restarted(db, scoring.scores) <==> InScope(before, r, ASubchange(c)))
    {
      var subs := SubmissionStore(db);
      SubchangeUpdate(before, db, r.key, old_, c);
      scoring.UpdateSubchange(r.key, old_, c, subs, ChangesIn(before), ModesIn(before));
    }

    method Create(r: Ref, data: Entity) returns (o: Outcome)
      requires Working(Now())
      modifies this`db, scoring
      ensures Created(old(Now()), Now(), r, data, o)
    {
      if !ValidKey(r.key) || r in db { return InvalidKey; }
      if !Acceptable(db, r.kind, data) { return InvalidData; }
      Insert(r, Keyed(data, r.key));
      CreatedIs(old(Now()), Now(), r, data);
      o := Done;
    }

    method Insert(r: Ref, item: Entity)
      requires Working(Now()) && r !in db && Acceptable(db, r.kind, item) && item == Keyed(item, r.key)
      modifies this`db, scoring
      ensures db == old(db)[r := item] && Working(Now()) && Told(old(Now()), Now()) && Touches(old(Now()), Now(), r, item)
      ensures old(Sound(Now()) && Safe(Now(), r, item)) ==> Sound(Now())
    {
      WorkingIs(Now());
      SoundIs(Now());
      ghost var before := db;
      PutKeepsIntegrity(db, r, item);
      db := db[r := item];
      CreateCallbacks(r, item, before);
      WorkingIs(Now());
      SoundIs(Now());
    }

    method Update(r: Ref, data: Entity) returns (o: Outcome)
      requires Working(Now())
      modifies this`db, scoring
      ensures Typed(old(db)) && Integrity(old(db)) && Updated(old(Now()), Now(), r, data, o)
    {
      WorkingIs(Now());
      if r !in db { return InvalidKey; }
      if !Acceptable(db, r.kind, data) { return InvalidData; }
      Overwrite(r, Keyed(data, r.key));
      UpdatedIs(old(Now()), Now(), r, data);
      o := Done;
    }

    method Overwrite(r: Ref, item: Entity)
      requires Working(Now()) && r in db && Acceptable(db, r.kind, item) && item == Keyed(item, r.key)
      modifies this`db, scoring
      ensures db == old(db)[r := item] && Working(Now()) && Told(old(Now()), Now()) && Touches(old(Now()), Now(), r, item)
      ensures Typed(old(db)) && Integrity(old(db))
      ensures old(Sound(Now()) && Safe(Now(), r, item)) ==> (Sound(Now()) <==> InScope(old(db), r, item))
    {
      WorkingIs(Now());
      SoundIs(Now());
      ghost var before := db;
      var old_ := db[r];
      PutKeepsIntegrity(db, r, item);
      db := db[r := item];
      UpdateCallbacks(r, old_, item, before);
      WorkingIs(Now());
      SoundIs(Now());
    }

    /** Deletes the entity and, children first, all that needs it directly or indirectly. */
    method Delete(r: Ref) returns (o: Outcome, ghost gone: seq<Ref>)
      requires Working(Now())
      modifies this`db, this`deleted, this`known, scoring
      ensures Typed(old(db)) && Deleted(old(Now()), Now(), r, gone, o)
    {
      ReadyToDelete(Now(), r);
      if r !in db { return InvalidKey, []; }
      known := KnownOf(db);
      ghost var a := Now();
      gone := DeleteEntity(r);
      DeletionIsWhole(old(Now()), a, Now(), r, gone);
      o := Done;
    }

    /** Deletes all the entities of a store, one after the other. */
    method DeleteList(kind: Kind)
      requires Working(Now())
      modifies this`db, this`deleted, this`known, scoring
      ensures Working(Now()) && Told(old(Now()), Now()) && (old(Sound(Now())) ==> Sound(Now()))
      ensures Typed(old(db)) && Included(db, old(db)) && forall x | x in db :: x.kind != kind
      ensures forall x | x in old(db) :: x in db <==> !DoomedWith(old(db), kind, x)
    {
      NothingTold(Now(), Now());
      WorkingIs(Now());
      var keys := Enumerate(KeysOf(db, kind));
      for i := 0 to |keys|
        invariant Working(Now()) && Told(old(Now()), Now()) && (old(Sound(Now())) ==> Sound(Now()))
        invariant Emptied(old(db), db, kind, keys, i)
      {
        ghost var b := Now();
        var r := Ref(kind, keys[i]);
        var _, _ := Delete(r);
        ToldAgain(old(Now()), b, Now());
        EmptiedNext(old(db), b.db, db, r, keys, i);
      }
      WorkingIs(Now());
      AllEmptied(old(db), db, kind, keys);
    }

    /** Puts one entity of a merge in its store: an update if it is there already. */
    method Merge(r: Ref, data: Entity)
      requires Working(Now()) && Acceptable(db, r.kind, data) && ValidKey(r.key)
      modifies this`db, scoring
      ensures db == old(db)[r := Keyed(data, r.key)] && Working(Now()) && Told(old(Now()), Now())
      ensures Typed(old(db)) && Touches(old(Now()), Now(), r, data)
      ensures old(Sound(Now()) && NonNegativeDb(db)) && CalmItem(old(db), r.kind, r.key, data) ==> Sound(Now())
    {
      ghost var a := Now();
      WorkingIs(a);
      if Sound(a) && NonNegativeDb(db) { NonNegativeIsSafe(a, r, data); }
      if r in db {
        var _ := Update(r, data);
        if CalmItem(a.db, r.kind, r.key, data) { CalmIsInScope(a.db, r, Keyed(data, r.key)); }
      } else {
        var _ := Create(r, data);
      }
    }

    /**
      Merges a dictionary of entities into a store: all of them, or none if one is not acceptable. The
      scores follow if every entity is calm, and only then (but for changes, where it can depend on the
      order of the dictionary).
     */
    method MergeList(kind: Kind, items: map<string, Entity>) returns (o: Outcome)
      requires Working(Now())
      modifies this`db, scoring
      ensures o == if forall k | k in items :: ValidKey(k) && Acceptable(old(db), kind, items[k]) then Done else InvalidData
      ensures o != Done ==> Now() == old(Now())
      ensures o == Done ==> Merged(old(db), db, kind, items, items.Keys)
      ensures Typed(old(db)) && Working(Now()) && Told(old(Now()), Now())
      ensures old(Sound(Now()) && NonNegativeDb(db)) && CalmMerge(old(db), kind, items) ==> Sound(Now()) && NonNegativeDb(db)
      ensures o == Done && old(Sound(Now())) && kind != SubchangeKind && Sound(Now()) ==> AllCalm(old(db), kind, items)
    {
      WorkingIs(Now());
      NothingTold(Now(), Now());
      if exists k | k in items :: !ValidKey(k) || !Acceptable(db, kind, items[k]) {
        return InvalidData;
      }
      MergeAll(kind, items);
      o := Done;
    }

    method MergeAll(kind: Kind, items: map<string, Entity>)
      requires Working(Now()) && Typed(db)
      requires forall k | k in items :: ValidKey(k) && Acceptable(db, kind, items[k])
      modifies this`db, scoring
      ensures Merged(old(db), db, kind, items, items.Keys) && Working(Now()) && Told(old(Now()), Now())
      ensures StillRight(old(Now()), Now(), kind, items)
      ensures old(Sound(Now())) && kind != SubchangeKind && Sound(Now()) ==> AllCalm(old(db), kind, items)
    {
      ghost var start := Now();
      NothingTold(start, start);
      var keys := Enumerate(items.Keys);
      for i := 0 to |keys|
        invariant Working(Now()) && Told(start, Now()) && Merged(start.db, db, kind, items, DoneKeys(keys, i))
        invariant StillRight(start, Now(), kind, items) && Losses(start, Now(), kind, items, DoneKeys(keys, i))
      {
        DoneKeysNext(keys, i);
        MergeOne(kind, items, keys[i], DoneKeys(keys, i), start);
      }
      DoneKeysAll(keys, items.Keys);
      if Sound(start) && Sound(Now()) && kind != SubchangeKind { SoundWasCalm(start, Now(), kind, items); }
    }

    method MergeOne(kind: Kind, items: map<string, Entity>, key: string, ghost done: set<string>, ghost start: World)
      requires Working(Now()) && Typed(start.db) && Told(start, Now()) && Merged(start.db, db, kind, items, done)
      requires key in items && key !in done && ValidKey(key)
      requires forall k | k in items :: Acceptable(start.db, kind, items[k])
      requires StillRight(start, Now(), kind, items) && Losses(start, Now(), kind, items, done)
      modifies this`db, scoring
      ensures Working(Now()) && Told(start, Now()) && Merged(start.db, db, kind, items, done + {key})
      ensures StillRight(start, Now(), kind, items) && Losses(start, Now(), kind, items, done + {key})
    {
      ghost var b := Now();
      WorkingIs(b);
      MergeNext(start.db, db, kind, items, done, key);
      Merge(Ref(kind, key), items[key]);
      StillRightNext(start, b, Now(), kind, items, done, key);
      LossesNext(start, b, Now(), kind, items, done, key);
      ToldAgain(start, b, Now());
    }

    /** A server started over the same stores: its scores are the same exactly if these were right. */
    method Restart() returns (store: ScoringStore)
      requires Working(Now())
      ensures fresh(store) && Typed(db) && Restarted(db, store.scores)
      ensures store.scores == scoring.scores <==> Sound(Now())
    {
      WorkingIs(Now());
      SoundIs(Now());
      StoresAreAnchored(db);
      store := StartScoring(db);
      if Sound(Now()) {
        MirrorIsUnique(store.scores, scoring.scores, SubmissionsIn(db), ChangesIn(db), ModesIn(db));
      }
    }
  }

  method SubmissionStore(db: Db) returns (subs: Submissions)
    requires Typed(db)
    ensures subs == SubmissionsIn(db)
  {
    subs := map k | k in KeysOf(db, SubmissionKind) :: db[Ref(SubmissionKind, k)].sub;
  }

  method SubchangeStore(db: Db) returns (chs: Changes)
    requires Typed(db)
    ensures chs == ChangesIn(db)
  {
    chs := map k | k in KeysOf(db, SubchangeKind) :: db[Ref(SubchangeKind, k)].change;
  }

  method TaskModes(db: Db) returns (modes: Modes)
    requires Typed(db)
    ensures modes == ModesIn(db)
  {
    modes := map k | k in KeysOf(db, TaskKind) :: db[Ref(TaskKind, k)].mode;
  }

  /** The scores over given stores, from scratch. */
  method StartScoring(db: Db) returns (store: ScoringStore)
    requires Typed(db) && Integrity(db)
    ensures fresh(store) && Restarted(db, store.scores)
  {
    StoresAreAnchored(db);
    var subs := SubmissionStore(db);
    var chs := SubchangeStore(db);
    var modes := TaskModes(db);
    store := InitStore(subs, chs, modes);
  }

  lemma CreatedIs(a: World, b: World, r: Ref, data: Entity)
    requires ValidKey(r.key) && r !in a.db && Acceptable(a.db, r.kind, data) && b.db == a.db[r := Keyed(data, r.key)]
    requires Working(b) && Told(a, b) && Touches(a, b, r, Keyed(data, r.key))
    requires Sound(a) && Safe(a, r, Keyed(data, r.key)) ==> Sound(b)
    ensures Created(a, b, r, data, Done)
  {
  }

  lemma UpdatedIs(a: World, b: World, r: Ref, data: Entity)
    requires Typed(a.db) && Integrity(a.db) && r in a.db && Acceptable(a.db, r.kind, data) && b.db == a.db[r := Keyed(data, r.key)]
    requires Working(b) && Told(a, b) && Touches(a, b, r, Keyed(data, r.key))
    requires Sound(a) && Safe(a, r, Keyed(data, r.key)) ==> (Sound(b) <==> InScope(a.db, r, Keyed(data, r.key)))
    ensures Updated(a, b, r, data, Done)
  {
  }

  /** If the scores were right and the merge is calm, they still are. */
  ghost predicate StillRight(start: World, now: World, kind: Kind, items: map<string, Entity>)
    requires Typed(start.db)
  {
    match now case World(db, _, _, _, _) =>
      Sound(start) && NonNegativeDb(start.db) && CalmMerge(start.db, kind, items) ==> Sound(now) && NonNegativeDb(db)
  }

  lemma StillRightNext(start: World, b: World, c: World, kind: Kind, items: map<string, Entity>, done: set<string>, key: string)
    requires Typed(start.db) && Typed(b.db) && Merged(start.db, b.db, kind, items, done) && key in items && key !in done
    requires forall k | k in items :: items[k].Kind() == kind
    requires c.db == b.db[Ref(kind, key) := Keyed(items[key], key)]
    requires Sound(b) && NonNegativeDb(b.db) && CalmItem(b.db, kind, key, items[key]) ==> Sound(c)
    requires StillRight(start, b, kind, items)
    ensures StillRight(start, c, kind, items)
  {
    if Sound(start) && NonNegativeDb(start.db) && CalmMerge(start.db, kind, items) {
      assert AllCalm(start.db, kind, items) && CalmItem(start.db, kind, key, items[key]);
      CalmStays(start.db, b.db, kind, items, done, key);
      MergeIsNonNegative(b.db, kind, key, items[key]);
    }
  }

  lemma MergeIsNonNegative(db: Db, kind: Kind, key: string, data: Entity)
    requires NonNegativeDb(db) && data.Kind() == kind && NonNegativeEntity(data)
    ensures NonNegativeDb(db[Ref(kind, key) := Keyed(data, key)])
  {
    PutIsNonNegative(db, Ref(kind, key), Keyed(data, key));
  }

  /** What the merged entities that are not calm have cost already. */
  ghost predicate Losses(start: World, now: World, kind: Kind, items: map<string, Entity>, done: set<string>)
    requires Typed(start.db) && done <= items.Keys
  {
    match now case World(_, scores, _, _, _) =>
      && (kind == TaskKind ==> scores == start.scores)
      && (kind == SubmissionKind ==> forall c | Listed(scores, c) && c.submission in done ::
            CalmItem(start.db, kind, c.submission, items[c.submission]))
  }

  lemma LossesNext(start: World, b: World, c: World, kind: Kind, items: map<string, Entity>, done: set<string>, key: string)
    requires Typed(start.db) && Merged(start.db, b.db, kind, items, done) && key in items && key !in done
    requires items[key].Kind() == kind && Losses(start, b, kind, items, done) && Touches(b, c, Ref(kind, key), items[key])
    ensures Losses(start, c, kind, items, done + {key})
  {
    if kind == SubmissionKind {
      forall d | Listed(c.scores, d) && d.submission in done + {key}
        ensures CalmItem(start.db, kind, d.submission, items[d.submission])
      {
        assert Listed(b.scores, d);
      }
    }
  }

  /** If the scores are right after a merge, every entity was calm: a new mode or a lost change would show. */
  lemma SoundWasCalm(start: World, now: World, kind: Kind, items: map<string, Entity>)
    requires Typed(start.db) && Sound(start) && Sound(now) && kind != SubchangeKind
    requires Merged(start.db, now.db, kind, items, items.Keys) && Losses(start, now, kind, items, items.Keys)
    requires forall k | k in items :: items[k].Kind() == kind
    ensures AllCalm(start.db, kind, items)
  {
    SoundIs(start);
    SoundIs(now);
    forall k | k in items ensures CalmItem(start.db, kind, k, items[k]) {
      if Ref(kind, k) in start.db {
        match kind
        case TaskKind => SoundTaskWasCalm(start, now, items, k);
        case SubmissionKind => SoundSubmissionWasCalm(start, now, items, k);
        case _ =>
      }
    }
  }

  lemma SoundTaskWasCalm(start: World, now: World, items: map<string, Entity>, k: string)
    requires Typed(start.db) && Integrity(start.db) && Restarted(start.db, start.scores)
    requires Typed(now.db) && Integrity(now.db) && Restarted(now.db, start.scores)
    requires Merged(start.db, now.db, TaskKind, items, items.Keys) && k in items && items[k].ATask? && Ref(TaskKind, k) in start.db
    ensures CalmItem(start.db, TaskKind, k, items[k])
  {
    var subs, v := SubmissionsIn(start.db), start.scores;
    MergedElsewhere(start.db, now.db, TaskKind, items, items.Keys);
    assert ModesIn(now.db)[k] == items[k].mode && ModesIn(start.db)[k] == start.db[Ref(TaskKind, k)].mode;
    forall j | j in subs && subs[j].task == k ensures items[k].mode == start.db[Ref(TaskKind, k)].mode {
      SameMode(v, subs, ChangesIn(start.db), ModesIn(start.db), ChangesIn(now.db), ModesIn(now.db), j);
    }
  }

  lemma SameMode(v: View, subs: Submissions, chs: Changes, modes: Modes, chs': Changes, modes': Modes, j: string)
    requires Mirrors(v, subs, chs, modes) && Mirrors(v, subs, chs', modes') && j in subs
    ensures subs[j].task in modes && subs[j].task in modes' && modes[subs[j].task] == modes'[subs[j].task]
  {
    var w := subs[j].Who();
    assert Faithful(v[w], subs, chs, modes, w) && Faithful(v[w], subs, chs', modes', w);
    LiveTable(v[w], subs, chs, modes, w);
    LiveTable(v[w], subs, chs', modes', w);
  }

  lemma SoundSubmissionWasCalm(start: World, now: World, items: map<string, Entity>, k: string)
    requires Typed(start.db) && Integrity(start.db) && Typed(now.db) && Integrity(now.db) && Restarted(now.db, now.scores)
    requires Merged(start.db, now.db, SubmissionKind, items, items.Keys) && Losses(start, now, SubmissionKind, items, items.Keys)
    requires k in items && items[k].ASubmission? && Ref(SubmissionKind, k) in start.db
    ensures CalmItem(start.db, SubmissionKind, k, items[k])
  {
    MergedElsewhere(start.db, now.db, SubmissionKind, items, items.Keys);
    StoresAreAnchored(now.db);
    if j :| j in ChangesIn(now.db) && ChangesIn(now.db)[j].submission == k {
      MirroredIsListed(now.scores, SubmissionsIn(now.db), ChangesIn(now.db), ModesIn(now.db), j);
    }
  }

  lemma MirroredIsListed(v: View, subs: Submissions, chs: Changes, modes: Modes, j: string)
    requires Anchored(subs, chs) && Mirrors(v, subs, chs, modes) && j in chs
    ensures Listed(v, chs[j])
  {
    var w := subs[chs[j].submission].Who();
    assert Faithful(v[w], subs, chs, modes, w);
    assert chs[j] in ChangesOf(subs, chs, w);
    assert chs[j] in v[w].changes;
  }

  lemma MergedElsewhere(start: Db, db: Db, kind: Kind, items: map<string, Entity>, done: set<string>)
    requires Merged(start, db, kind, items, done)
    ensures kind != SubmissionKind ==> SubmissionsIn(db) == SubmissionsIn(start)
    ensures kind != SubchangeKind ==> ChangesIn(db) == ChangesIn(start)
  {
    if kind != SubmissionKind { EqualIfIncluded(SubmissionsIn(db), SubmissionsIn(start)); }
    if kind != SubchangeKind { EqualIfIncluded(ChangesIn(db), ChangesIn(start)); }
  }

  /** What makes an entity calm is not touched by the others of the same store. */
  lemma CalmStays(start: Db, db: Db, kind: Kind, items: map<string, Entity>, done: set<string>, key: string)
    requires Typed(start) && Typed(db) && Merged(start, db, kind, items, done) && key in items && key !in done
    requires forall k | k in items :: items[k].Kind() == kind
    ensures CalmItem(start, kind, key, items[key]) ==> CalmItem(db, kind, key, items[key])
  {
    MergedElsewhere(start, db, kind, items, done);
  }

  lemma {:induction false} DeletionIsWhole(start: World, a: World, b: World, r: Ref, gone: seq<Ref>)
    requires Typed(start.db) && Working(start) && r in start.db && a == start.(known := KnownOf(start.db))
    requires Cascaded(a, b, gone) && AllDoomed(a.db, r, gone) && r in gone && Clean(b.db, Below(r.kind))
    ensures Deleted(start, b, r, gone, Done)
  {
    ReadyToDelete(start, r);
    CascadedIs(a, b, gone);
    WholeDeletion(a, b, r, gone);
    NothingTold(start, a);
    ToldAgain(start, a, b);
  }

  lemma ToldAgain(a: World, b: World, c: World)
    requires Told(a, b) && Told(b, c)
    ensures Told(a, c)
  {
    ToldInTwoSteps(a.notices, b.notices, c.notices, a.scores, b.scores, c.scores);
  }

  /** The first i entities of the snapshot of a store are gone, the rest is there. */
  ghost predicate Emptied(start: Db, db: Db, kind: Kind, keys: seq<string>, i: nat) {
    && Included(db, start) && Awaiting(db, kind, keys, i)
    && (forall j | 0 <= j < i && j < |keys| :: Ref(kind, keys[j]) !in db)
    && Typed(start) && (forall x | x in start && x !in db :: DoomedWith(start, kind, x))
  }

  /** The entity needs one of the store, or is one of it. */
  ghost predicate DoomedWith(db: Db, kind: Kind, x: Ref)
    requires Typed(db)
  {
    exists r | r in db && r.kind == kind :: Doomed(db, r, x)
  }

  lemma EmptiedNext(start: Db, before: Db, after: Db, r: Ref, keys: seq<string>, i: nat)
    requires Typed(before) && Included(after, before) && i < |keys| && r == Ref(r.kind, keys[i])
    requires Emptied(start, before, r.kind, keys, i)
    requires LosesDoomed(before, after, r)
    requires forall j, k | 0 <= j < k < |keys| :: keys[j] != keys[k]
    ensures Emptied(start, after, r.kind, keys, i + 1)
  {
    assert Doomed(before, r, r);
    forall x | x in before && x !in after ensures DoomedWith(start, r.kind, x) && (x != r ==> x.kind != r.kind) {
      assert Doomed(before, r, x);
      if x != r { DoomedIsBelow(before, r, x); DependentsAreLower(r.kind); }
      DoomedInLarger(before, start, r, x);
    }
  }

  lemma AllEmptied(start: Db, db: Db, kind: Kind, keys: seq<string>)
    requires Emptied(start, db, kind, keys, |keys|) && forall k :: k in KeysOf(start, kind) <==> k in keys
    requires Integrity(db)
    ensures forall x | x in db :: x.kind != kind
    ensures forall x | x in start :: x in db <==> !DoomedWith(start, kind, x)
  {
    assert forall k | k in keys :: Ref(kind, k) !in db;
    forall x | x in db ensures x.kind != kind {
      assert x == Ref(x.kind, x.key) && x.key in KeysOf(start, x.kind);
    }
    forall x | x in start && DoomedWith(start, kind, x) ensures x !in db {
      var r :| r in start && r.kind == kind && Doomed(start, r, x);
      DoomedIsGone(start, db, r, x);
    }
  }

  /** The entities with the given keys have been merged, and nothing else has changed. */
  ghost predicate Merged(start: Db, db: Db, kind: Kind, items: map<string, Entity>, done: set<string>) {
    && done <= items.Keys
    && (forall r :: r in db <==> r in start || (r.kind == kind && r.key in done))
    && (forall r | r in db :: db[r] == if r.kind == kind && r.key in done then Keyed(items[r.key], r.key) else start[r])
  }

  lemma MergeNext(start: Db, db: Db, kind: Kind, items: map<string, Entity>, done: set<string>, key: string)
    requires Merged(start, db, kind, items, done) && key in items && key !in done
    ensures Merged(start, db[Ref(kind, key) := Keyed(items[key], key)], kind, items, done + {key})
    ensures Acceptable(start, kind, items[key]) ==> Acceptable(db, kind, items[key])
    ensures Ref(kind, key) in db ==> Ref(kind, key) in start && db[Ref(kind, key)] == start[Ref(kind, key)]
  {
  }

  /** A merge keeps every reference valid, whatever it changes. */
  lemma {:induction false} MergeKeepsIntegrity(start: Db, db: Db, kind: Kind, items: map<string, Entity>)
    requires Typed(start) && Integrity(start) && Merged(start, db, kind, items, items.Keys)
    requires forall k | k in items :: Acceptable(start, kind, items[k])
    ensures Typed(db) && Integrity(db)
  {
    forall r | r in db
      ensures db[r].Kind() == r.kind && (db[r].ASubchange? ==> db[r].change.key == r.key) && db[r].Consistent(db)
    {
      if r.kind == kind && r.key in items {
        assert Acceptable(start, kind, items[r.key]);
      } else {
        assert start[r].Consistent(start);
      }
    }
  }

  ghost function DoneKeys(keys: seq<string>, i: nat): set<string>
    requires i <= |keys|
  {
    set k | k in keys[..i]
  }

  lemma DoneKeysNext(keys: seq<string>, i: nat)
    requires i < |keys| && forall a, b | 0 <= a < b < |keys| :: keys[a] != keys[b]
    ensures keys[i] !in DoneKeys(keys, i) && DoneKeys(keys, i + 1) == DoneKeys(keys, i) + {keys[i]}
  {
    assert keys[..i + 1] == keys[..i] + [keys[i]];
  }

  lemma DoneKeysAll(keys: seq<string>, all: set<string>)
    requires forall k :: k in all <==> k in keys
    ensures DoneKeys(keys, |keys|) == all
  {
    assert keys[..|keys|] == keys;
  }

  lemma PutIsNonNegative(db: Db, r: Ref, e: Entity)
    requires NonNegativeDb(db) && e.Kind() == r.kind
    ensures NonNegativeEntity(e) ==> NonNegativeDb(db[r := e])
  {
    PutInChanges(db, r, e);
  }

  /** Nobody can have submitted to a task that did not exist. */
  lemma {:induction false} NewTaskIsSilent(db: Db, scores: View, key: string, mode: Mode)
    requires Typed(db) && Integrity(db) && Ref(TaskKind, key) !in db && Restarted(db, scores)
    ensures Mirrors(scores, SubmissionsIn(db), ChangesIn(db), ModesIn(db)[key := mode])
  {
    StoresAreAnchored(db);
    var modes := ModesIn(db)[key := mode];
    forall w | w in scores ensures Faithful(scores[w], SubmissionsIn(db), ChangesIn(db), modes, w) {
      assert Faithful(scores[w], SubmissionsIn(db), ChangesIn(db), ModesIn(db), w);
      assert w.task != key;
    }
  }
}
