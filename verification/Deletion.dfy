/** What a cascading deletion may do to the stores, the scores and the listeners, as a relation. */
module Deletion {
  import opened Basics
  import opened ScoreSpec
  import opened Mirror
  import opened MirrorSteps
  import opened Holding
  import opened Stores
  import opened ScoringStore
  import opened Tracking

  /** Everything a ranking server holds; `deleted` lists the delete callbacks that have run. */
  datatype World = World(db: Db, scores: View, notices: seq<Notice>, deleted: seq<Ref>, known: Known)

  /** Every submission they know of is held by its `Score`: this is so over every run. */
  ghost predicate Coupled(w: World) {
    match w case World(db, scores, _, _, known) => Follows(db, known) && Holds(scores, known.subs)
  }

  /** The scores are a mirror of what they know. */
  ghost predicate Right(w: World) {
    match w case World(db, scores, _, _, known) =>
      Tracks(db, known) && Mirrors(scores, known.subs, known.chs, known.modes)
  }

  lemma CoupledIf(w: World)
    requires Follows(w.db, w.known) && Holds(w.scores, w.known.subs)
    ensures Coupled(w)
  {
  }

  lemma RightIf(w: World)
    requires Tracks(w.db, w.known) && Mirrors(w.scores, w.known.subs, w.known.chs, w.known.modes)
    ensures Right(w)
  {
  }

  ghost predicate KnownSteps(a: Known, b: Known) {
    b.pending == a.pending && b.modes == a.modes && forall k | k in a.pending && k in a.subs :: k in b.subs && b.subs[k] == a.subs[k]
  }

  ghost predicate Told(a: World, b: World) {
    a.notices <= b.notices && Informs(b.notices[|a.notices|..], a.scores, b.scores)
  }

  /** From a to b exactly the entities in `gone` were deleted, each once, and referrers first. */
  ghost predicate Gone(a: Db, b: Db, gone: seq<Ref>) {
    Included(b, a) && (forall r {:trigger r in gone} {:trigger r in b} | r in a :: r in b <==> r !in gone) && ReferrersFirst(a, gone)
  }

  ghost predicate Cascaded(a: World, b: World, gone: seq<Ref>) {
    match b case World(db, _, _, deleted, known) =>
      && Coupled(b) && (Right(a) ==> Right(b)) && KnownSteps(a.known, known) && Told(a, b)
      && Gone(a.db, db, gone) && deleted == a.deleted + gone
  }

  lemma NoCascade(a: World)
    requires Coupled(a)
    ensures Cascaded(a, a, [])
  {
    assert a.notices[|a.notices|..] == [];
  }

  ghost predicate Within(gone: seq<Ref>, kind: Kind) {
    forall r | r in gone :: r.kind == kind || r.kind in Below(kind)
  }

  lemma GoneInTwoSteps(a: Db, b: Db, c: Db, g: seq<Ref>, h: seq<Ref>, kind: Kind)
    requires Gone(a, b, g) && Gone(b, c, h) && Typed(a) && Within(g, kind) && Clean(b, Below(kind))
    ensures Gone(a, c, g + h)
  {
    forall i | 0 <= i < |g| ensures g[i] !in b && Below(g[i].kind) <= Below(kind) { assert g[i] in g; }
    LogsInTwoParts(a, b, g, h, Below(kind));
  }

  lemma CascadeInTwoSteps(a: World, b: World, c: World, g: seq<Ref>, h: seq<Ref>, kind: Kind)
    requires Cascaded(a, b, g) && Cascaded(b, c, h) && Typed(a.db)
    requires Within(g, kind) && Clean(b.db, Below(kind))
    ensures Cascaded(a, c, g + h)
  {
    GoneInTwoSteps(a.db, b.db, c.db, g, h, kind);
    ToldInTwoSteps(a.notices, b.notices, c.notices, a.scores, b.scores, c.scores);
    KnownInTwoSteps(a.known, b.known, c.known);
    ConcatIsAssociative(a.deleted, g, h);
  }

  lemma KnownInTwoSteps(a: Known, b: Known, c: Known)
    requires KnownSteps(a, b) && KnownSteps(b, c)
    ensures KnownSteps(a, c)
  {
  }

  /** The entities doomed by some entity of a kind with a dangling reference. */
  ghost predicate Dangling(db: Db, kind: Kind, y: Ref) {
    y in db && y.kind == kind && !db[y].Consistent(db)
  }

  ghost predicate DoomedByDangling(db: Db, kind: Kind, gone: seq<Ref>)
    requires Typed(db)
  {
    forall x | x in gone :: exists y :: Dangling(db, kind, y) && Doomed(db, y, x)
  }

  /** Deletions within a kind do not change whether its entities are consistent. */
  lemma SameVerdict(a: World, b: World, gone: seq<Ref>, kind: Kind, e: Entity)
    requires Cascaded(a, b, gone) && Within(gone, kind) && e.Kind() == kind
    ensures e.Consistent(a.db) <==> e.Consistent(b.db)
  {
    forall x | x in e.Refs() ensures x in a.db <==> x in b.db {
      ReferrerIsBelow(e, x);
      assert x.kind != kind && x.kind !in Below(kind);
    }
  }

  lemma DoomedIsWithin(db: Db, target: Ref, gone: seq<Ref>)
    requires Typed(db) && forall x | x in gone :: Doomed(db, target, x)
    ensures Within(gone, target.kind)
  {
    forall r | r in gone ensures r.kind == target.kind || r.kind in Below(target.kind) {
      if r != target { DoomedIsBelow(db, target, r); }
    }
  }

  /** A deletion takes no other entity of the same store. */
  lemma OthersStay(b: World, c: World, y: Ref, h: seq<Ref>, z: Ref)
    requires Cascaded(b, c, h) && Typed(b.db) && (AllDoomed(b.db, y, h))
    requires z in b.db && z.kind == y.kind && z != y
    ensures z in c.db && c.db[z] == b.db[z]
  {
    if z in h {
      DoomedIsBelow(b.db, y, z);
      DependentsAreLower(y.kind);
      assert false;
    }
  }

  /** One more dangling entity of the kind is deleted, with all that needs it. */
  lemma {:induction false} MoreDangling(a: World, b: World, c: World, kind: Kind, g: seq<Ref>, h: seq<Ref>, y: Ref)
    requires Typed(a.db) && Cascaded(a, b, g) && Cascaded(b, c, h)
    requires Within(g, kind) && DoomedByDangling(a.db, kind, g) && Clean(b.db, Below(kind))
    requires Dangling(b.db, kind, y) && AllDoomed(b.db, y, h)
    ensures Cascaded(a, c, g + h) && Within(g + h, kind) && DoomedByDangling(a.db, kind, g + h)
  {
    CascadeInTwoSteps(a, b, c, g, h, kind);
    DoomedIsWithin(b.db, y, h);
    SameVerdict(a, b, g, kind, b.db[y]);
    forall x | x in g + h ensures exists y' :: Dangling(a.db, kind, y') && Doomed(a.db, y', x) {
      if x in h {
        DoomedInLarger(b.db, a.db, y, x);
        assert Dangling(a.db, kind, y);
      }
    }
  }

  // ---- The deletion of one entity ----------------------------------------------------------------

  ghost function Removed(a: World, r: Ref): World {
    a.(db := a.db - {r}, known := Started(a.known, r))
  }

  lemma RemovedIsCoupled(a: World, r: Ref)
    requires Coupled(a) && r in a.db && r.kind != SubchangeKind
    ensures Coupled(Removed(a, r)) && (Right(a) ==> Right(Removed(a, r)))
  {
    StartFollowing(a.db, a.known, r);
    if Right(a) { StartDeletion(a.db, a.known, r); }
  }

  /** Only the stores that depend directly on the entity's have new dangling references. */
  lemma CleanWithout(db: Db, r: Ref, d: Kind)
    requires Typed(db) && r in db && Clean(db, Below(r.kind)) && Depends(r.kind) == [d]
    ensures Clean(db - {r}, Below(d))
  {
    forall x | x in db - {r} && x.kind in Below(d) ensures db[x].Consistent(db - {r}) {
      BelowIsTransitive(x.kind, d, r.kind);
      assert db[x].Consistent(db);
      if r in db[x].Refs() { ReferrerIsBelow(db[x], r); assert false; }
    }
  }

  /** What dangles right after the removal needs the removed entity. */
  lemma DanglingIsDoomed(a: World, r: Ref, d: Kind, gone: seq<Ref>)
    requires Typed(a.db) && r in a.db && Clean(a.db, Below(r.kind)) && d in Depends(r.kind)
    requires DoomedByDangling(a.db - {r}, d, gone)
    ensures forall x | x in gone :: Doomed(a.db, r, x)
  {
    forall x | x in gone ensures Doomed(a.db, r, x) {
      var y :| Dangling(a.db - {r}, d, y) && Doomed(a.db - {r}, y, x);
      assert a.db[y].Consistent(a.db);
      assert r in a.db[y].Refs();
      ReferrerIsDoomed(a.db, r, y);
      DoomedInLarger(a.db - {r}, a.db, y, x);
      DoomedIsTransitive(a.db, r, y, x);
    }
  }

  /** The log of the cascade, with the entity itself at the end. */
  lemma LogWithTarget(db: Db, r: Ref, gone: seq<Ref>)
    requires Typed(db) && r in db && ReferrersFirst(db - {r}, gone)
    requires forall x | x in gone :: x.kind in Below(r.kind)
    ensures ReferrersFirst(db, gone + [r])
  {
    var log := gone + [r];
    forall i, j | 0 <= i < j < |log| ensures log[i] != log[j] && log[i] !in db[log[j]].Refs() {
      assert log[i] == gone[i] && gone[i] in gone;
      if j == |gone| {
        if gone[i] in db[r].Refs() { ReferrerIsBelow(db[r], gone[i]); assert false; }
      }
    }
  }

  lemma GoneWithTarget(db: Db, after: Db, r: Ref, gone: seq<Ref>)
    requires Typed(db) && r in db && Gone(db - {r}, after, gone)
    requires forall x | x in gone :: x.kind in Below(r.kind)
    ensures Gone(db, after, gone + [r])
  {
    LogWithTarget(db, r, gone);
    assert r !in gone && r !in after;
  }

  lemma KnownAfterSubmission(a: Known, b: Known, key: string)
    requires key !in a.pending && KnownSteps(a.(pending := a.pending + {key}), b)
    ensures KnownSteps(a, Finished(b, key))
  {
    assert (a.pending + {key}) - {key} == a.pending;
  }

  /** The callback of the entity itself runs last. */
  lemma DeletionIsCascade(a: World, b: World, c: World, r: Ref, gone: seq<Ref>)
    requires Typed(a.db) && r in a.db && Gone(a.db - {r}, b.db, gone) && b.deleted == a.deleted + gone
    requires forall x | x in gone :: x.kind in Below(r.kind)
    requires Told(a, b) && Told(b, c) && c.db == b.db && c.deleted == b.deleted + [r]
    requires Coupled(c) && (Right(a) ==> Right(c)) && KnownSteps(a.known, c.known)
    ensures Cascaded(a, c, gone + [r])
  {
    GoneWithTarget(a.db, b.db, r, gone);
    ToldInTwoSteps(a.notices, b.notices, c.notices, a.scores, b.scores, c.scores);
  }

  lemma NothingTold(a: World, b: World)
    requires b.notices == a.notices && b.scores == a.scores
    ensures Told(a, b)
  {
    assert b.notices[|a.notices|..] == [];
  }

  /** A change is deleted, and only its callback runs. */
  lemma LeafDeletion(a: World, b: World, c: World, r: Ref)
    requires Typed(a.db) && r in a.db && b == a.(db := a.db - {r})
    requires Told(b, c) && c.db == b.db && c.deleted == b.deleted + [r]
    requires Coupled(c) && (Right(a) ==> Right(c)) && KnownSteps(a.known, c.known)
    ensures Cascaded(a, c, [r])
  {
    NothingTold(a, b);
    assert [] + [r] == [r];
    DeletionIsCascade(a, b, c, r, []);
  }

  lemma FinishedDeletion(a: World, b: World, c: World, r: Ref, gone: seq<Ref>, d: Kind)
    requires Coupled(a) && Typed(a.db) && r in a.db && Depends(r.kind) == [d]
    requires Cascaded(Removed(a, r), b, gone) && Within(gone, d)
    requires Told(b, c) && c.db == b.db && c.deleted == b.deleted + [r]
    requires Coupled(c) && (Right(b) ==> Right(c)) && KnownSteps(a.known, c.known)
    ensures Cascaded(a, c, gone + [r])
  {
    RemovedIsCoupled(a, r);
    DependentsAreLower(r.kind);
    forall x | x in gone ensures x.kind in Below(r.kind) { if x.kind != d { BelowIsTransitive(x.kind, d, r.kind); } }
    DeletionIsCascade(a, b, c, r, gone);
  }

  /** The submission to finish is still known as it was. */
  lemma PendingSubmission(db: Db, a: Known, b: Known, key: string, s: Submitted)
    requires Follows(db, a) && Ref(SubmissionKind, key) in db && db[Ref(SubmissionKind, key)] == ASubmission(s)
    requires KnownSteps(a.(pending := a.pending + {key}), b)
    ensures key in b.pending && key in b.subs && b.subs[key] == s
    ensures KnownSteps(a, Finished(b, key))
  {
    KnownAfterSubmission(a, b, key);
  }

  /** The callbacks of the other stores do not touch the scores. */
  lemma PlainDeletion(a: World, b: World, r: Ref, gone: seq<Ref>, d: Kind)
    requires Coupled(a) && Typed(a.db) && r in a.db && Depends(r.kind) == [d] && r.kind != SubmissionKind
    requires Cascaded(Removed(a, r), b, gone) && Within(gone, d)
    ensures Cascaded(a, b.(deleted := b.deleted + [r]), gone + [r])
  {
    var c := b.(deleted := b.deleted + [r]);
    NothingTold(b, c);
    FinishedDeletion(a, b, c, r, gone, d);
  }

  // ---- The loop over the snapshot of a store -----------------------------------------------------

  ghost predicate Settled(db: Db, start: Db, d: Kind, keys: seq<string>, i: nat) {
    forall j | 0 <= j < i && j < |keys| && Ref(d, keys[j]) in db :: db[Ref(d, keys[j])].Consistent(start)
  }

  ghost predicate Awaiting(db: Db, d: Kind, keys: seq<string>, i: nat) {
    forall j | i <= j < |keys| :: Ref(d, keys[j]) in db
  }

  lemma SettledNext(b: Db, c: Db, start: Db, d: Kind, keys: seq<string>, i: nat)
    requires i < |keys| && Settled(b, start, d, keys, i) && Included(c, b)
    requires Ref(d, keys[i]) in c ==> c[Ref(d, keys[i])].Consistent(start)
    ensures Settled(c, start, d, keys, i + 1)
  {
  }

  lemma AwaitingNext(b: World, c: World, y: Ref, h: seq<Ref>, keys: seq<string>, i: nat)
    requires Cascaded(b, c, h) && Typed(b.db) && (AllDoomed(b.db, y, h)) && y in h
    requires i < |keys| && Awaiting(b.db, y.kind, keys, i) && y == Ref(y.kind, keys[i])
    requires forall j, k | 0 <= j < k < |keys| :: keys[j] != keys[k]
    ensures Awaiting(c.db, y.kind, keys, i + 1) && y !in c.db && Included(c.db, b.db)
  {
    forall j | i < j < |keys| ensures Ref(y.kind, keys[j]) in c.db {
      OthersStay(b, c, y, h, Ref(y.kind, keys[j]));
    }
  }

  lemma AllVerdicts(a: World, c: World, gone: seq<Ref>, d: Kind, keys: seq<string>)
    requires Cascaded(a, c, gone) && Within(gone, d) && Typed(c.db) && Clean(c.db, Below(d))
    requires (forall k :: k in KeysOf(a.db, d) <==> k in keys) && Settled(c.db, a.db, d, keys, |keys|)
    ensures Clean(c.db, Below(d) + {d})
  {
    forall x | x in c.db && x.kind == d ensures c.db[x].Consistent(c.db) {
      assert x.key in KeysOf(a.db, d);
      var j :| 0 <= j < |keys| && keys[j] == x.key;
      assert x == Ref(d, keys[j]);
      SameVerdict(a, c, gone, d, c.db[x]);
    }
  }

  lemma BeforeDangling(a: World, r: Ref, d: Kind)
    requires Coupled(a) && Typed(a.db) && r in a.db && Clean(a.db, Below(r.kind)) && Depends(r.kind) == [d]
    ensures var b := Removed(a, r); Coupled(b) && (Right(a) ==> Right(b)) && Typed(b.db) && Clean(b.db, Below(d))
  {
    RemovedIsCoupled(a, r);
    CleanWithout(a.db, r, d);
  }

  lemma AfterDangling(a: World, b: World, r: Ref, d: Kind, gone: seq<Ref>)
    requires Typed(a.db) && r in a.db && Clean(a.db, Below(r.kind)) && Depends(r.kind) == [d]
    requires DoomedByDangling(a.db - {r}, d, gone) && Clean(b.db, Below(d) + {d})
    ensures AllDoomed(a.db, r, gone + [r]) && Clean(b.db, Below(r.kind))
  {
    DanglingIsDoomed(a, r, d, gone);
    DependentsAreLower(r.kind);
  }

  ghost predicate AllDoomed(db: Db, target: Ref, gone: seq<Ref>)
    requires Typed(db)
  {
    forall x | x in gone :: Doomed(db, target, x)
  }

  /** The stores are consistent, and every operation on the scores is possible. */
  ghost predicate Working(w: World) {
    match w case World(db, scores, _, _, _) => Typed(db) && Integrity(db) && Holds(scores, SubmissionsIn(db))
  }

  /** The stores are consistent, and the scores are what a restart over them would compute. */
  ghost predicate Sound(w: World) {
    match w case World(db, scores, _, _, _) => Typed(db) && Integrity(db) && Restarted(db, scores)
  }

  lemma SoundWorks(w: World)
    requires Sound(w)
    ensures Working(w)
  {
    MirrorsHold(w.scores, SubmissionsIn(w.db), ChangesIn(w.db), ModesIn(w.db));
  }

  // ---- A whole deletion, from consistent stores --------------------------------------------------

  /** Exactly the entity and its transitive referrers are gone, and every reference is valid again. */
  lemma {:induction false} WholeDeletion(a: World, b: World, r: Ref, gone: seq<Ref>)
    requires Typed(a.db) && Working(a) && r in a.db && a.known == KnownOf(a.db)
    requires Cascaded(a, b, gone) && AllDoomed(a.db, r, gone) && r in gone && Clean(b.db, Below(r.kind))
    ensures LosesDoomed(a.db, b.db, r)
    ensures Working(b) && (Sound(a) ==> Sound(b))
  {
    forall x | x in a.db ensures x in b.db <==> !Doomed(a.db, r, x) {
      if Doomed(a.db, r, x) { DoomedIsGone(a.db, b.db, r, x); }
    }
    RemovalKeepsIntegrity(a.db, b.db, r);
    NoSubmissionPending(b.db, b.known);
    if Sound(a) { WholeDeletionIsSound(a, b, gone); }
  }

  lemma WholeDeletionIsSound(a: World, b: World, gone: seq<Ref>)
    requires Sound(a) && a.known == KnownOf(a.db) && Cascaded(a, b, gone) && Typed(b.db) && Integrity(b.db)
    ensures Sound(b)
  {
    StoresAreTracked(a.db);
    RightIf(a);
    RestartedAfterDeletion(b.db, b.known, b.scores);
  }

  lemma DeletionIsNonNegative(a: Db, b: Db)
    requires Included(b, a) && NonNegativeDb(a)
    ensures NonNegativeDb(b)
  {
    forall k | k in ChangesIn(b) ensures ChangesIn(b)[k].NonNegative() { assert k in ChangesIn(a); }
  }

  lemma ReadyToDelete(w: World, r: Ref)
    requires Working(w)
    ensures Typed(w.db) && Clean(w.db, Below(r.kind))
    ensures Coupled(w.(known := KnownOf(w.db))) && Working(w.(known := KnownOf(w.db)))
    ensures Sound(w) ==> Sound(w.(known := KnownOf(w.db)))
  {
    WorkingIs(w);
    IntegrityIsClean(w.db, Below(r.kind));
    StoresAreTracked(w.db);
    CoupledIf(w.(known := KnownOf(w.db)));
    WorkingIs(w.(known := KnownOf(w.db)));
    SoundIs(w);
    SoundIs(w.(known := KnownOf(w.db)));
  }

  lemma WorkingIs(w: World)
    ensures Working(w) <==> Typed(w.db) && Integrity(w.db) && Holds(w.scores, SubmissionsIn(w.db))
  {
  }

  lemma IntegrityIsClean(db: Db, kinds: set<Kind>)
    requires Integrity(db)
    ensures Clean(db, kinds)
  {
  }

  lemma CascadedIs(a: World, b: World, gone: seq<Ref>)
    requires Cascaded(a, b, gone)
    ensures Gone(a.db, b.db, gone) && b.deleted == a.deleted + gone && Told(a, b)
  {
  }

  lemma SoundIs(w: World)
    ensures Sound(w) <==> Typed(w.db) && Integrity(w.db) && Restarted(w.db, w.scores)
  {
  }
}
