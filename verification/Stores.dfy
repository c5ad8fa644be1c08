/**
  The entity stores of a ranking and their references. The dictionaries of the six stores are one
  map here, from the store and the key to the entity.
 */
module Stores {
  import opened Basics
  import opened ScoreSpec
  import opened Mirror

  datatype Kind = ContestKind | TaskKind | TeamKind | UserKind | SubmissionKind | SubchangeKind
  datatype Ref = Ref(kind: Kind, key: string)

  datatype Entity =
    | AContest
    | ATask(contest: string, mode: Mode)
    | ATeam
    | AUser(team: Option<string>)
    | ASubmission(sub: Submitted)
    | ASubchange(change: Subchange)
  {
    function Kind(): Kind {
      match this
      case AContest => ContestKind
      case ATask(_, _) => TaskKind
      case ATeam => TeamKind
      case AUser(_) => UserKind
      case ASubmission(_) => SubmissionKind
      case ASubchange(_) => SubchangeKind
    }

    /** The entities that this one needs. */
    function Refs(): set<Ref> {
      match this
      case AContest => {}
      case ATask(contest, _) => {Ref(ContestKind, contest)}
      case ATeam => {}
      case AUser(team) => if team.Some? then {Ref(TeamKind, team.value)} else {}
      case ASubmission(s) => {Ref(TaskKind, s.task), Ref(UserKind, s.user)}
      case ASubchange(c) => {Ref(SubmissionKind, c.submission)}
    }

    predicate Consistent(db: Db) { Refs() <= db.Keys }
  }

  type Db = map<Ref, Entity>

  /** The stores to look at after a deletion, as `build_ranking_app` wires them. */
  function Depends(kind: Kind): seq<Kind> {
    match kind
    case ContestKind => [TaskKind]
    case TaskKind => [SubmissionKind]
    case TeamKind => [UserKind]
    case UserKind => [SubmissionKind]
    case SubmissionKind => [SubchangeKind]
    case SubchangeKind => []
  }

  function Rank(kind: Kind): nat {
    match kind
    case ContestKind | TeamKind => 3
    case TaskKind | UserKind => 2
    case SubmissionKind => 1
    case SubchangeKind => 0
  }

  /** All the stores that a deletion can reach. */
  function Below(kind: Kind): set<Kind> {
    match kind
    case ContestKind => {TaskKind, SubmissionKind, SubchangeKind}
    case TaskKind => {SubmissionKind, SubchangeKind}
    case TeamKind => {UserKind, SubmissionKind, SubchangeKind}
    case UserKind => {SubmissionKind, SubchangeKind}
    case SubmissionKind => {SubchangeKind}
    case SubchangeKind => {}
  }

  /** Every store has entities of its own kind, which know their key. */
  ghost predicate Typed(db: Db) {
    forall r | r in db :: db[r].Kind() == r.kind && (db[r].ASubchange? ==> db[r].change.key == r.key)
  }

  ghost predicate Clean(db: Db, kinds: set<Kind>) {
    forall r {:trigger db[r].Consistent(db)} | r in db && r.kind in kinds :: db[r].Consistent(db)
  }

  /** Every reference in every store is valid. */
  ghost predicate Integrity(db: Db) {
    forall r {:trigger db[r].Consistent(db)} | r in db :: db[r].Consistent(db)
  }

  lemma ReferrerIsBelow(e: Entity, r: Ref)
    requires r in e.Refs()
    ensures e.Kind() in Depends(r.kind) && e.Kind() in Below(r.kind) && Rank(e.Kind()) < Rank(r.kind)
  {
  }

  lemma CleanMeans(db: Db, kinds: set<Kind>, r: Ref, x: Ref)
    requires Clean(db, kinds) && r in db && r.kind in kinds && x in db[r].Refs()
    ensures x in db
  {
    assert db[r].Consistent(db);
  }

  lemma DependentsAreLower(kind: Kind)
    ensures forall d | d in Depends(kind) :: Rank(d) < Rank(kind) && d in Below(kind)
    ensures forall d | d in Depends(kind) :: Below(kind) == Below(d) + {d}
    ensures kind !in Below(kind) && |Depends(kind)| <= 1 && (Depends(kind) == [] <==> kind == SubchangeKind)
  {
  }

  lemma BelowIsTransitive(a: Kind, b: Kind, c: Kind)
    requires a in Below(b) && b in Below(c)
    ensures a in Below(c)
  {
  }

  /** The entity is the target, or needs it through any chain of references. */
  ghost predicate Doomed(db: Db, target: Ref, r: Ref)
    requires Typed(db)
    decreases 3 - Rank(r.kind)
  {
    r in db && (r == target || exists x | x in db[r].Refs() :: Rank(r.kind) < Rank(x.kind) && Doomed(db, target, x))
  }

  lemma {:induction false} DoomedIsBelow(db: Db, target: Ref, r: Ref)
    requires Typed(db) && Doomed(db, target, r) && r != target
    ensures r.kind in Below(target.kind)
    decreases 3 - Rank(r.kind)
  {
    var x :| x in db[r].Refs() && Rank(r.kind) < Rank(x.kind) && Doomed(db, target, x);
    ReferrerIsBelow(db[r], x);
    if x != target {
      DoomedIsBelow(db, target, x);
      BelowIsTransitive(r.kind, x.kind, target.kind);
    }
  }

  lemma {:induction false} DoomedInLarger(small: Db, big: Db, target: Ref, r: Ref)
    requires Typed(small) && Typed(big) && Included(small, big) && Doomed(small, target, r)
    ensures Doomed(big, target, r)
    decreases 3 - Rank(r.kind)
  {
    if r != target {
      var x :| x in small[r].Refs() && Rank(r.kind) < Rank(x.kind) && Doomed(small, target, x);
      DoomedInLarger(small, big, target, x);
    }
  }

  lemma {:induction false} DoomedIsTransitive(db: Db, target: Ref, y: Ref, r: Ref)
    requires Typed(db) && Doomed(db, y, r) && Doomed(db, target, y)
    ensures Doomed(db, target, r)
    decreases 3 - Rank(r.kind)
  {
    if r != y && r != target {
      var x :| x in db[r].Refs() && Rank(r.kind) < Rank(x.kind) && Doomed(db, y, x);
      DoomedIsTransitive(db, target, y, x);
    }
  }

  lemma ReferrerIsDoomed(db: Db, target: Ref, r: Ref)
    requires Typed(db) && target in db && r in db && target in db[r].Refs()
    ensures Doomed(db, target, r)
  {
    ReferrerIsBelow(db[r], target);
    assert Doomed(db, target, target);
  }

  /** Removing only doomed entities, until no dangling reference is left, removes all of them. */
  lemma {:induction false} DoomedIsGone(db: Db, after: Db, target: Ref, r: Ref)
    requires Typed(db) && Included(after, db)
    requires target !in after && Clean(after, Below(target.kind)) && Doomed(db, target, r)
    ensures r !in after
    decreases 3 - Rank(r.kind)
  {
    if r != target {
      DoomedIsBelow(db, target, r);
      var x :| x in db[r].Refs() && Rank(r.kind) < Rank(x.kind) && Doomed(db, target, x);
      if r in after { CleanMeans(after, Below(target.kind), r, x); }
      DoomedIsGone(db, after, target, x);
    }
  }

  /** Exactly the target and its transitive referrers are missing. */
  ghost predicate LosesDoomed(db: Db, after: Db, target: Ref)
    requires Typed(db)
  {
    Included(after, db) && forall r {:trigger Doomed(db, target, r)} | r in db :: r in after <==> !Doomed(db, target, r)
  }

  /** Removing what is doomed leaves every other reference valid. */
  lemma RemovalKeepsIntegrity(db: Db, after: Db, target: Ref)
    requires Typed(db) && Integrity(db) && LosesDoomed(db, after, target)
    ensures Typed(after) && Integrity(after)
  {
    forall r, x | r in after && x in after[r].Refs() ensures x in after {
      assert x in db by { assert db[r].Consistent(db); }
      ReferrerIsBelow(db[r], x);
      assert !Doomed(db, target, r);
      assert !Doomed(db, target, x);
    }
  }

  /** In the order of the deletions, an entity comes before the ones it needs. */
  ghost predicate ReferrersFirst(db: Db, log: seq<Ref>) {
    && (forall i | 0 <= i < |log| :: log[i] in db)
    && (forall i, j | 0 <= i < j < |log| :: log[i] != log[j] && log[i] !in db[log[j]].Refs())
  }

  lemma LogsInTwoParts(db: Db, middle: Db, a: seq<Ref>, b: seq<Ref>, kinds: set<Kind>)
    requires Included(middle, db) && ReferrersFirst(db, a) && ReferrersFirst(middle, b)
    requires Typed(db) && Clean(middle, kinds)
    requires forall i | 0 <= i < |a| :: a[i] !in middle && Below(a[i].kind) <= kinds
    ensures ReferrersFirst(db, a + b)
  {
    var log := a + b;
    forall i, j | 0 <= i < j < |log| ensures log[i] != log[j] && log[i] !in db[log[j]].Refs() {
      if i < |a| <= j {
        var x, y := a[i], b[j - |a|];
        assert y in middle && middle[y] == db[y];
        if x in db[y].Refs() {
          ReferrerIsBelow(db[y], x);
          CleanMeans(middle, kinds, y, x);
          assert false;
        }
      } else if |a| <= i {
        assert b[i - |a|] !in middle[b[j - |a|]].Refs();
      }
    }
  }
}
