/**
  The scores of all users on all tasks. It listens to the submission and subchange stores, sends each
  event to the `Score` it belongs to, and tells its own listeners when a score changes.
 */
module ScoringStore {
  import opened Basics
  import opened ScoreSpec
  import opened ScoreLaws
  import opened Freeze
  import opened Score
  import opened GlobalHistory
  import opened Mirror
  import opened MirrorSteps
  import opened Holding

  /** What a score callback is called with. */
  datatype Notice = Notice(who: Who, score: real)

  function LiveScore(v: View, w: Who): real {
    if w in v then CurrentScore(v[w].core.history) else 0.0
  }

  /** The score that a listener ends up with if it starts from `start` and applies the notices. */
  function Heard(start: real, notices: seq<Notice>, w: Who): real {
    if notices == [] then start else
      var n := notices[|notices| - 1];
      if n.who == w then n.score else Heard(start, notices[..|notices| - 1], w)
  }

  /** Each notice tells such a listener something it did not know. */
  ghost predicate News(notices: seq<Notice>, before: View) {
    forall i {:trigger notices[i]} | 0 <= i < |notices| ::
      Heard(LiveScore(before, notices[i].who), notices[..i], notices[i].who) != notices[i].score
  }

  /** A listener that knew all the scores before knows all of them after, and was told nothing twice. */
  ghost predicate Informs(notices: seq<Notice>, before: View, after: View) {
    News(notices, before) && forall w :: Heard(LiveScore(before, w), notices, w) == LiveScore(after, w)
  }

  lemma {:induction false} HeardInTwoParts(start: real, a: seq<Notice>, b: seq<Notice>, w: Who)
    ensures Heard(start, a + b, w) == Heard(Heard(start, a, w), b, w)
  {
    if b == [] {
      assert a + b == a;
    } else {
      var n := |b| - 1;
      assert (a + b)[..|a + b| - 1] == a + b[..n];
      HeardInTwoParts(start, a, b[..n], w);
    }
  }

  /** Completeness of the notices is kept from one operation to the next. */
  lemma InformsInTwoSteps(a: seq<Notice>, b: seq<Notice>, v0: View, v1: View, v2: View)
    requires Informs(a, v0, v1) && Informs(b, v1, v2)
    ensures Informs(a + b, v0, v2)
  {
    forall w ensures Heard(LiveScore(v0, w), a + b, w) == LiveScore(v2, w) {
      HeardInTwoParts(LiveScore(v0, w), a, b, w);
    }
    var all := a + b;
    forall i | 0 <= i < |all| ensures Heard(LiveScore(v0, all[i].who), all[..i], all[i].who) != all[i].score {
      if i < |a| {
        assert all[..i] == a[..i] && all[i] == a[i];
      } else {
        assert all[..i] == a + b[..i - |a|] && all[i] == b[i - |a|];
        HeardInTwoParts(LiveScore(v0, all[i].who), a, b[..i - |a|], all[i].who);
      }
    }
  }

  lemma NewScoreIsTold(before: View, w: Who, st: State, notices: seq<Notice>)
    requires var new_ := CurrentScore(st.core.history);
      notices == if LiveScore(before, w) != new_ then [Notice(w, new_)] else []
    ensures Informs(notices, before, before[w := st])
  {
    forall u ensures Heard(LiveScore(before, u), notices, u) == LiveScore(before[w := st], u) {
      assert notices != [] ==> notices[..0] == [];
    }
  }

  ghost predicate NonNegativeStore(chs: Changes) {
    forall k | k in chs :: chs[k].NonNegative()
  }

  lemma MirroredIsReplayed(st: State, subs: Submissions, chs: Changes, modes: Modes, w: Who)
    requires Faithful(st, subs, chs, modes, w) && Anchored(subs, chs)
    ensures Replayed(st) && st.core.table.Keys == TableOf(subs, w).Keys
    ensures NonNegativeStore(chs) ==> NonNegativeChanges(st.changes)
  {
    LiveTable(st, subs, chs, modes, w);
    ListedChanges(st, subs, chs, modes, w);
    if NonNegativeStore(chs) {
      forall i | 0 <= i < |st.changes| ensures st.changes[i].NonNegative() { assert st.changes[i] in st.changes; }
    }
  }

  /** The scores are those of the stores, which are consistent. */
  ghost predicate Exact(v: View, subs: Submissions, chs: Changes, modes: Modes) {
    Anchored(subs, chs) && Mirrors(v, subs, chs, modes)
  }

  /** The best results of the user on the task were never below zero. */
  ghost predicate Unharmed(v: View, w: Who) {
    w in v ==> Usable(v[w]) && HarmlessThroughout(v[w].mode, v[w].core.table, v[w].changes)
  }

  lemma NonNegativeIsUnharmed(v: View, subs: Submissions, chs: Changes, modes: Modes, w: Who)
    requires Exact(v, subs, chs, modes) && NonNegativeStore(chs)
    ensures Unharmed(v, w)
  {
    if w in v {
      assert Faithful(v[w], subs, chs, modes, w);
      MirroredIsReplayed(v[w], subs, chs, modes, w);
      ReplayedIsUsable(v[w]);
      NonNegativeThroughout(v[w].mode, v[w].core.table, v[w].changes);
    }
  }

  // ---- One event on the `Score` it belongs to ----------------------------------------------------

  lemma NewSubmissionMirrors(v: View, subs: Submissions, chs: Changes, modes: Modes, key: string, s: Submitted)
    requires Exact(v, subs, chs, modes) && Unharmed(v, s.Who()) && key !in subs && s.task in modes
    ensures Mirrors(v[s.Who() := WithSubmission(Existing(v, modes, s.Who()), key, s.Fresh())], subs[key := s], chs, modes)
  {
    var w := s.Who();
    var st := Existing(v, modes, w);
    ExistingIsFaithful(v, subs, chs, modes, w);
    MirroredIsReplayed(st, subs, chs, modes, w);
    PutSubmissionMirrors(v, subs, chs, modes, key, s);
    if w !in v { NonNegativeThroughout(st.mode, st.core.table, st.changes); }
    NewSubmissionIsReplayed(st.mode, st.core.table, st.changes, key, s.Fresh());
  }

  method WithNewSubmission(v: View, key: string, s: Submitted, modes: Modes, ghost subs: Submissions)
    returns (st: State)
    requires Holds(v, subs) && key !in subs && s.task in modes
    ensures st == WithSubmission(Existing(v, modes, s.Who()), key, s.Fresh()) && Holds(v[s.Who() := st], subs[key := s])
  {
    var w := s.Who();
    st := if w in v then v[w] else State(modes[w.task], Core(map[], [], None, []), []);
    assert st == Existing(v, modes, w);
    NewSubmissionHolds(v, subs, modes, key, s);
    var score := new Score.Load(st);
    score.CreateSubmission(key, s.Fresh());
    st := score.Save();
  }

  ghost predicate IsNewData(v: View, key: string, s: Submitted, modes: Modes, st: State) {
    var w := s.Who();
    && s.task in modes && w in v && Known(v[w].core.table[key := s.Fresh()], v[w].changes)
    && st == Rebuilt(v[w].mode, v[w].core.table[key := s.Fresh()], v[w].changes).(mode := modes[s.task])
  }

  method WithUpdatedSubmission(v: View, key: string, s: Submitted, modes: Modes, ghost subs: Submissions)
    returns (st: State)
    requires Holds(v, subs) && key in subs && subs[key].Who() == s.Who() && s.task in modes
    ensures IsNewData(v, key, s, modes, st) && Holds(v[s.Who() := st], subs[key := s])
  {
    HeldSubmission(v, subs, key);
    NewDataHolds(v, subs, modes[s.task], key, s);
    var score := new Score.Load(v[s.Who()]);
    score.UpdateSubmission(key, s.Fresh());
    score.UpdateScoreMode(modes[s.task]);
    st := score.Save();
  }

  lemma UpdatedSubmissionMirrors(v: View, subs: Submissions, chs: Changes, modes: Modes, key: string, s: Submitted, st: State)
    requires Exact(v, subs, chs, modes) && key in subs && subs[key].Who() == s.Who() && IsNewData(v, key, s, modes, st)
    ensures Mirrors(v[s.Who() := st], subs[key := s], chs, modes)
  {
    PutSubmissionMirrors(v, subs, chs, modes, key, s);
    assert Faithful(v[s.Who()], subs, chs, modes, s.Who());
  }

  method WithoutSubmission(v: View, key: string, s: Submitted, ghost subs: Submissions) returns (st: State)
    requires Holds(v, subs) && key in subs && subs[key] == s
    ensures s.Who() in v && Usable(v[s.Who()]) && st == Dropped(v[s.Who()], key)
    ensures Holds(Shrunk(v, s.Who(), st), subs - {key})
    ensures st.core.table == map[] ==> CurrentScore(st.core.history) == 0.0
  {
    HeldSubmission(v, subs, key);
    DropHolds(v, subs, key);
    var score := new Score.Load(v[s.Who()]);
    score.DeleteSubmission(key);
    st := score.Save();
    if st.core.table == map[] { EmptyScoreIsZero(v[s.Who()], key); }
  }

  method WithNewChange(v: View, c: Subchange, w: Who, ghost subs: Submissions) returns (st: State)
    requires Holds(v, subs) && c.submission in subs && w == subs[c.submission].Who()
    ensures w in v && Usable(v[w]) && c.submission in v[w].core.table && st == WithChange(v[w], c)
    ensures Holds(v[w := st], subs)
  {
    HeldSubmission(v, subs, c.submission);
    WithChangeIsUsable(v[w], c);
    EditHolds(v, WithChange(v[w], c), subs, w);
    var score := new Score.Load(v[w]);
    score.CreateSubchange(c);
    st := score.Save();
  }

  lemma NewChangeMirrors(v: View, subs: Submissions, chs: Changes, modes: Modes, c: Subchange, w: Who)
    requires Exact(v, subs, chs, modes) && c.key !in chs && c.submission in subs && w == subs[c.submission].Who()
    requires w in v && Usable(v[w]) && c.submission in v[w].core.table
    ensures Mirrors(v[w := WithChange(v[w], c)], subs, chs[c.key := c], modes)
  {
    assert Faithful(v[w], subs, chs, modes, w);
    MirroredIsReplayed(v[w], subs, chs, modes, w);
    FastPathIsReplay(v[w], c);
    AddChangeMirrors(v, subs, chs, modes, c);
  }

  method WithReplacedChange(v: View, c: Subchange, w: Who, ghost subs: Submissions) returns (st: State)
    requires Holds(v, subs) && c.submission in subs && w == subs[c.submission].Who()
    ensures w in v && Known(v[w].core.table, Replaced(v[w].changes, c.key, c))
    ensures st == Rebuilt(v[w].mode, v[w].core.table, Replaced(v[w].changes, c.key, c)) && Holds(v[w := st], subs)
  {
    HeldSubmission(v, subs, c.submission);
    ReplacedIsKnown(v[w].core.table, v[w].changes, c.key, c);
    RebuiltIsUsable(v[w].mode, v[w].core.table, Replaced(v[w].changes, c.key, c));
    EditHolds(v, Rebuilt(v[w].mode, v[w].core.table, Replaced(v[w].changes, c.key, c)), subs, w);
    var score := new Score.Load(v[w]);
    score.UpdateSubchange(c.key, c);
    st := score.Save();
  }

  ghost predicate IsWithoutKey(old_: State, key: string, st: State) {
    var changes := Kept(old_.changes, OtherKeys(old_.changes, key));
    Known(old_.core.table, changes) && st == Rebuilt(old_.mode, old_.core.table, changes)
  }

  method WithoutChange(v: View, key: string, w: Who, ghost subs: Submissions) returns (st: State)
    requires Holds(v, subs) && w in v
    ensures IsWithoutKey(v[w], key, st) && Holds(v[w := st], subs)
  {
    assert Held(v[w], subs, w);
    KeptIsKnown(v[w].core.table, v[w].core.table, v[w].changes, OtherKeys(v[w].changes, key));
    RebuiltIsUsable(v[w].mode, v[w].core.table, Kept(v[w].changes, OtherKeys(v[w].changes, key)));
    EditHolds(v, Rebuilt(v[w].mode, v[w].core.table, Kept(v[w].changes, OtherKeys(v[w].changes, key))), subs, w);
    var score := new Score.Load(v[w]);
    score.DeleteSubchange(key);
    st := score.Save();
  }

  class ScoringStore {
    /** The `Score` of each user and task; nothing else refers to these objects, so they are values here. */
    var scores: View
    var notices: seq<Notice>

    constructor ()
      ensures scores == map[] && notices == []
    {
      scores, notices := map[], [];
    }

    method NotifyCallbacks(w: Who, score: real)
      modifies this`notices
      ensures notices == old(notices) + [Notice(w, score)]
    {
      notices := notices + [Notice(w, score)];
    }

    /** Keeps the new state of a `Score` and tells its score if it is another one. */
    method Put(w: Who, st: State)
      modifies this
      ensures scores == old(scores)[w := st]
      ensures old(notices) <= notices && Informs(notices[|old(notices)|..], old(scores), scores)
    {
      var oldScore, newScore := LiveScore(scores, w), CurrentScore(st.core.history);
      scores := scores[w := st];
      if oldScore != newScore { NotifyCallbacks(w, newScore); }
      NewScoreIsTold(old(scores), w, st, notices[|old(notices)|..]);
    }

    /** The scores are still those of the stores, if the user had never gone below zero on the task. */
    method CreateSubmission(key: string, s: Submitted, modes: Modes, ghost subs: Submissions, ghost chs: Changes)
      requires Holds(scores, subs) && key !in subs && s.task in modes
      modifies this
      ensures Holds(scores, subs[key := s])
      ensures old(Exact(scores, subs, chs, modes)) && old(Unharmed(scores, s.Who())) ==> Mirrors(scores, subs[key := s], chs, modes)
      ensures forall w | w != s.Who() :: (w in scores <==> w in old(scores)) && (w in scores ==> scores[w] == old(scores)[w])
      ensures NoneAdded(old(scores), scores)
      ensures old(notices) <= notices && Informs(notices[|old(notices)|..], old(scores), scores)
    {
      var st := WithNewSubmission(scores, key, s, modes, subs);
      if Exact(scores, subs, chs, modes) && Unharmed(scores, s.Who()) {
        NewSubmissionMirrors(scores, subs, chs, modes, key, s);
      }
      Put(s.Who(), st);
    }

    /** An update in place; a submission that moves is deleted and created, and its changes are lost. */
    method UpdateSubmission(key: string, old_: Submitted, s: Submitted, modes: Modes,
                            ghost subs: Submissions, ghost chs: Changes)
      requires Holds(scores, subs) && key in subs && subs[key] == old_ && s.task in modes
      modifies this
      ensures Holds(scores, subs[key := s])
      ensures old(Exact(scores, subs, chs, modes)) && (old_.Who() == s.Who() || old(Unharmed(scores, s.Who()))) ==>
        (Mirrors(scores, subs[key := s], chs, modes) <==>
         old_.Who() == s.Who() || forall k | k in chs :: chs[k].submission != key)
      ensures NoneAdded(old(scores), scores)
      ensures old_.Who() != s.Who() ==> forall c | Listed(scores, c) :: c.submission != key
      ensures old(notices) <= notices && Informs(notices[|old(notices)|..], old(scores), scores)
    {
      if old_.user != s.user || old_.task != s.task {
        MoveSubmission(key, old_, s, modes, subs, chs);
      } else {
        var st := WithUpdatedSubmission(scores, key, s, modes, subs);
        if Exact(scores, subs, chs, modes) { UpdatedSubmissionMirrors(scores, subs, chs, modes, key, s, st); }
        Put(s.Who(), st);
      }
    }

    method MoveSubmission(key: string, old_: Submitted, s: Submitted, modes: Modes,
                          ghost subs: Submissions, ghost chs: Changes)
      requires Holds(scores, subs) && key in subs && subs[key] == old_ && s.task in modes && old_.Who() != s.Who()
      modifies this
      ensures Holds(scores, subs[key := s])
      ensures old(Exact(scores, subs, chs, modes)) && old(Unharmed(scores, s.Who())) ==>
        (Mirrors(scores, subs[key := s], chs, modes) <==> forall k | k in chs :: chs[k].submission != key)
      ensures NoneAdded(old(scores), scores)
      ensures forall c | Listed(scores, c) :: c.submission != key
      ensures old(notices) <= notices && Informs(notices[|old(notices)|..], old(scores), scores)
    {
      DeleteSubmission(key, old_, subs, chs, modes);
      ghost var middle, told := scores, notices;
      forall c | Listed(middle, c) ensures c.submission != key { ListedIsHeld(middle, subs - {key}, c); }
      if Anchored(subs, chs) { DroppedIsAnchored(subs, chs, key); }
      CreateSubmission(key, s, modes, subs - {key}, ChangesWithout(chs, key));
      RemoveThenPut(subs, key, s);
      if old(Exact(scores, subs, chs, modes)) && old(Unharmed(scores, s.Who())) {
        MoveSubmissionMirrors(scores, subs[key := s], chs, modes, key);
      }
      ToldInTwoSteps(old(notices), told, notices, old(scores), middle, scores);
    }

    method DeleteSubmission(key: string, s: Submitted, ghost subs: Submissions, ghost chs: Changes, ghost modes: Modes)
      requires Holds(scores, subs) && key in subs && subs[key] == s
      modifies this
      ensures Holds(scores, subs - {key})
      ensures old(Exact(scores, subs, chs, modes)) ==> Mirrors(scores, subs - {key}, ChangesWithout(chs, key), modes)
      ensures forall w | w != s.Who() :: (w in scores <==> w in old(scores)) && (w in scores ==> scores[w] == old(scores)[w])
      ensures NoneAdded(old(scores), scores)
      ensures old(notices) <= notices && Informs(notices[|old(notices)|..], old(scores), scores)
    {
      var w := s.Who();
      var st := WithoutSubmission(scores, key, s, subs);
      if Exact(scores, subs, chs, modes) { DropSubmissionMirrors(scores, subs, chs, modes, key); }
      KeptIsFilter(scores[w].changes, OtherSubmissions(scores[w].changes, key));
      NoneAddedByEdit(scores, w, st);
      Put(w, st);
      if st.core.table == map[] {
        NoneAddedByRemoval(old(scores), scores, w);
        ForgettingIsSilent(notices[|old(notices)|..], old(scores), scores, w);
        PutThenRemove(old(scores), w, st);
        scores := scores - {w};
      }
    }

    method CreateSubchange(c: Subchange, subs: Submissions, ghost chs: Changes, ghost modes: Modes)
      requires Holds(scores, subs) && c.submission in subs
      modifies this
      ensures Holds(scores, subs)
      ensures old(Exact(scores, subs, chs, modes)) && c.key !in chs ==> Mirrors(scores, subs, chs[c.key := c], modes)
      ensures old(notices) <= notices && Informs(notices[|old(notices)|..], old(scores), scores)
    {
      var w := subs[c.submission].Who();
      var st := WithNewChange(scores, c, w, subs);
      if Exact(scores, subs, chs, modes) && c.key !in chs { NewChangeMirrors(scores, subs, chs, modes, c, w); }
      Put(w, st);
    }

    method UpdateSubchange(key: string, old_: Subchange, c: Subchange, subs: Submissions,
                           ghost chs: Changes, ghost modes: Modes)
      requires Holds(scores, subs) && old_.submission in subs && c.submission in subs && c.key == key
      modifies this
      ensures Holds(scores, subs)
      ensures old(Exact(scores, subs, chs, modes)) && key in chs && chs[key] == old_ ==>
        (Mirrors(scores, subs, chs[key := c], modes) <==>
         old_.submission != c.submission || KeepsPlace(subs, chs, old_, c))
      ensures old(notices) <= notices && Informs(notices[|old(notices)|..], old(scores), scores)
    {
      if old_.submission != c.submission {
        DeleteSubchange(key, old_, subs, subs, chs, modes);
        ghost var middle, told := scores, notices;
        CreateSubchange(c, subs, chs - {key}, modes);
        if key in chs { RemoveThenPut(chs, key, c); }
        ToldInTwoSteps(old(notices), told, notices, old(scores), middle, scores);
      } else {
        var w := subs[c.submission].Who();
        var st := WithReplacedChange(scores, c, w, subs);
        if Exact(scores, subs, chs, modes) && key in chs && chs[key] == old_ {
          ReplaceChangeMirrors(scores, subs, chs, modes, c, w);
        }
        Put(w, st);
      }
    }

    /** `store` is the submission store; a submission being deleted is already out of it. */
    method DeleteSubchange(key: string, c: Subchange, store: Submissions,
                           ghost subs: Submissions, ghost chs: Changes, ghost modes: Modes)
      requires Holds(scores, subs)
      requires c.submission in store ==> c.submission in subs && store[c.submission] == subs[c.submission]
      modifies this
      ensures Holds(scores, subs)
      ensures old(Exact(scores, subs, chs, modes)) && key in chs && chs[key] == c ==>
        Exact(scores, subs, if c.submission in store then chs - {key} else chs, modes)
      ensures old(notices) <= notices && Informs(notices[|old(notices)|..], old(scores), scores)
    {
      if c.submission in store {
        var w := store[c.submission].Who();
        var st := WithoutChange(scores, key, w, subs);
        if Exact(scores, subs, chs, modes) && key in chs && chs[key] == c { RemoveChangeMirrors(scores, subs, chs, modes, key); }
        Put(w, st);
      }
    }
  }

  // ---- Loading, and the answers ------------------------------------------------------------------

  /** The part of a store whose keys were already visited. */
  ghost predicate Visited<V>(part: map<string, V>, all: map<string, V>, keys: seq<string>) {
    (forall k :: k in part <==> k in keys) && forall k | k in part :: k in all && part[k] == all[k]
  }

  lemma VisitNext<V>(part: map<string, V>, all: map<string, V>, keys: seq<string>, i: nat)
    requires i < |keys| && (forall a, b | 0 <= a < b < |keys| :: keys[a] != keys[b])
    requires Visited(part, all, keys[..i]) && keys[i] in all
    ensures keys[i] !in part && Visited(part[keys[i] := all[keys[i]]], all, keys[..i + 1])
  {
    assert keys[..i + 1] == keys[..i] + [keys[i]];
  }

  lemma VisitedAll<V>(part: map<string, V>, all: map<string, V>, keys: seq<string>)
    requires Visited(part, all, keys[..|keys|]) && forall k :: k in all.Keys <==> k in keys
    ensures part == all
  {
    assert keys[..|keys|] == keys;
  }

  lemma PartIsAnchored(subs: Submissions, part: Changes, all: Changes, keys: seq<string>)
    requires Anchored(subs, all) && Visited(part, all, keys)
    ensures Anchored(subs, part)
  {
  }

  method LoadSubmissions(store: ScoringStore, subs: Submissions, modes: Modes)
    requires store.scores == map[] && forall k | k in subs :: subs[k].task in modes
    modifies store
    ensures Mirrors(store.scores, subs, map[], modes)
  {
    ghost var loaded: Submissions, none: Changes := map[], map[];
    var keys := Enumerate(subs.Keys);
    for i := 0 to |keys|
      invariant Mirrors(store.scores, loaded, none, modes) && Visited(loaded, subs, keys[..i])
    {
      VisitNext(loaded, subs, keys, i);
      MirrorsHold(store.scores, loaded, none, modes);
      NonNegativeIsUnharmed(store.scores, loaded, none, modes, subs[keys[i]].Who());
      store.CreateSubmission(keys[i], subs[keys[i]], modes, loaded, none);
      loaded := loaded[keys[i] := subs[keys[i]]];
    }
    VisitedAll(loaded, subs, keys);
  }

  method LoadChanges(store: ScoringStore, subs: Submissions, chs: Changes, ghost modes: Modes)
    requires Mirrors(store.scores, subs, map[], modes) && Anchored(subs, chs)
    modifies store
    ensures Mirrors(store.scores, subs, chs, modes)
  {
    ghost var loaded: Changes := map[];
    var keys := Enumerate(chs.Keys);
    for i := 0 to |keys|
      invariant Mirrors(store.scores, subs, loaded, modes) && Visited(loaded, chs, keys[..i])
    {
      VisitNext(loaded, chs, keys, i);
      PartIsAnchored(subs, loaded, chs, keys[..i]);
      MirrorsHold(store.scores, subs, loaded, modes);
      var c := chs[keys[i]];
      store.CreateSubchange(c, subs, loaded, modes);
      loaded := loaded[c.key := c];
    }
    VisitedAll(loaded, chs, keys);
  }

  /** The scores are right whatever the order of the changes. (The code takes them by key.) */
  method InitStore(subs: Submissions, chs: Changes, modes: Modes) returns (store: ScoringStore)
    requires Anchored(subs, chs) && forall k | k in subs :: subs[k].task in modes
    ensures fresh(store) && Mirrors(store.scores, subs, chs, modes)
  {
    store := new ScoringStore();
    LoadSubmissions(store, subs, modes);
    LoadChanges(store, subs, chs, modes);
  }

  ghost function HistoriesOf(v: View): Histories { map w | w in v :: v[w].core.history }

  ghost function PositiveScoresAt(v: View, t: int): map<Who, real> {
    map w | w in v && 0.0 < ScoreAt(v[w].core.history, t) :: ScoreAt(v[w].core.history, t)
  }

  ghost function PositiveScores(v: View): map<Who, real> {
    map w | w in v && 0.0 < LiveScore(v, w) :: LiveScore(v, w)
  }

  ghost function FrozenSubmissions(v: View, w: Who, t: int): Table {
    if w in v then SubmissionsAt(v[w].core.table, v[w].changes, t) else map[]
  }

  method GetScoresAt(v: View, t: int) returns (result: map<Who, real>)
    ensures result == PositiveScoresAt(v, t)
  {
    result := map[];
    var whos := Enumerate(v.Keys);
    for i := 0 to |whos|
      invariant forall w :: w in result <==> w in whos[..i] && 0.0 < ScoreAt(v[w].core.history, t)
      invariant forall w | w in result :: result[w] == ScoreAt(v[w].core.history, t)
    {
      assert whos[..i + 1] == whos[..i] + [whos[i]];
      var obj := new Score.Load(v[whos[i]]);
      var score := obj.ScoreAsOf(t);
      if 0.0 < score { result := result[whos[i] := score]; }
    }
    assert whos[..|whos|] == whos;
  }

  method GetSubmissionsAt(v: View, w: Who, t: int) returns (result: Table)
    ensures result == FrozenSubmissions(v, w, t)
  {
    if w !in v { return map[]; }
    var obj := new Score.Load(v[w]);
    result := obj.SubmissionsAsOf(t);
  }

  method GetGlobalHistory(v: View, until: Option<int>) returns (lines: seq<Line>)
    ensures lines == UpTo(Merge(HistoriesOf(v)), until)
  {
    lines := Collect(map w | w in v :: v[w].core.history, until);
  }

  lemma ToldInTwoSteps(n0: seq<Notice>, n1: seq<Notice>, n2: seq<Notice>, v0: View, v1: View, v2: View)
    requires n0 <= n1 <= n2 && Informs(n1[|n0|..], v0, v1) && Informs(n2[|n1|..], v1, v2)
    ensures n0 <= n2 && Informs(n2[|n0|..], v0, v2)
  {
    InformsInTwoSteps(n1[|n0|..], n2[|n1|..], v0, v1, v2);
    assert n1[|n0|..] + n2[|n1|..] == n2[|n0|..];
  }

  lemma DroppedIsAnchored(subs: Submissions, chs: Changes, key: string)
    requires Anchored(subs, chs)
    ensures Anchored(subs - {key}, ChangesWithout(chs, key))
    ensures NonNegativeStore(chs) ==> NonNegativeStore(ChangesWithout(chs, key))
  {
  }

  lemma EmptyScoreIsZero(st: State, key: string)
    requires Usable(st) && Dropped(st, key).core.table == map[]
    ensures CurrentScore(Dropped(st, key).core.history) == 0.0
  {
    var after := Dropped(st, key);
    assert after.core.table.Keys == (st.core.table - {key}).Keys;
    if after.changes != [] { assert false; }
  }

  /** Dropping a `Score` of zero needs no notice. */
  lemma ForgettingIsSilent(notices: seq<Notice>, before: View, after: View, w: Who)
    requires Informs(notices, before, after) && w in after && CurrentScore(after[w].core.history) == 0.0
    ensures Informs(notices, before, after - {w})
  {
    forall u ensures Heard(LiveScore(before, u), notices, u) == LiveScore(after - {w}, u) {
      assert LiveScore(after - {w}, u) == LiveScore(after, u);
    }
  }
}
