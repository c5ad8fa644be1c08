/**
  The scoreboard of a sound server from its stores alone: who is on it, with which submissions and
  changes, and with which score.
 */
module BoardMeaning {
  import opened Basics
  import opened ScoreSpec
  import opened ScoreLaws
  import opened Freeze
  import opened ScoreMeaning
  import opened GlobalHistory
  import opened Score
  import opened Mirror
  import opened Stores
  import opened ScoringStore
  import opened Tracking
  import opened Deletion

  /** A stored submission of the user on the task. */
  ghost predicate IsHis(db: Db, user: string, task: string, key: string) {
    var r := Ref(SubmissionKind, key);
    r in db && db[r].ASubmission? && db[r].sub.user == user && db[r].sub.task == task
  }

  /** A stored change of one of those. */
  ghost predicate IsHisChange(db: Db, user: string, task: string, c: Subchange) {
    && Ref(SubchangeKind, c.key) in db && db[Ref(SubchangeKind, c.key)] == ASubchange(c)
    && IsHis(db, user, task, c.submission)
  }

  /** The submission has the user, the task and the time that it was stored with, and the results of its changes. */
  ghost predicate IsShown(db: Db, user: string, task: string, key: string, s: Submission, changes: seq<Subchange>) {
    && s.user == user && s.task == task
    && Ref(SubmissionKind, key) in db && db[Ref(SubmissionKind, key)].ASubmission?
    && s.time == db[Ref(SubmissionKind, key)].sub.time && HasResults(changes, key, s)
  }

  /** Sorted by time and key, the list of the stored changes. */
  ghost predicate AreHisChanges(db: Db, user: string, task: string, changes: seq<Subchange>) {
    && Sorted(changes) && forall c :: c in changes <==> IsHisChange(db, user, task, c)
  }

  lemma SubmissionIsHis(db: Db, user: string, task: string, key: string)
    requires Typed(db)
    ensures IsHis(db, user, task, key) <==> key in SubmissionsIn(db) && SubmissionsIn(db)[key].Who() == Who(user, task)
  {
  }

  /** Someone is on the board for a task if and only if there is a submission. */
  lemma OnBoardIff(w: World, user: string, task: string)
    requires Sound(w)
    ensures Who(user, task) in w.scores <==> exists key :: IsHis(w.db, user, task, key)
  {
    SoundIs(w);
    var who, subs := Who(user, task), SubmissionsIn(w.db);
    forall key ensures IsHis(w.db, user, task, key) <==> key in subs && subs[key].Who() == who {
      SubmissionIsHis(w.db, user, task, key);
    }
    if who in w.scores {
      WhoHasSubmission(w.scores, subs, ChangesIn(w.db), ModesIn(w.db), who);
    }
  }

  lemma ChangesAreHis(w: World, user: string, task: string)
    requires Sound(w) && Who(user, task) in w.scores
    ensures AreHisChanges(w.db, user, task, w.scores[Who(user, task)].changes)
  {
    SoundIs(w);
    var db, who := w.db, Who(user, task);
    var subs, chs := SubmissionsIn(db), ChangesIn(db);
    assert Faithful(w.scores[who], subs, chs, ModesIn(db), who);
    forall c ensures c in ChangesOf(subs, chs, who) <==> IsHisChange(db, user, task, c) {
      SubmissionIsHis(db, user, task, c.submission);
      if IsHisChange(db, user, task, c) { assert chs[c.key] == c; }
      if c in ChangesOf(subs, chs, who) {
        var k :| k in chs && chs[k].submission in subs && subs[chs[k].submission].Who() == who && chs[k] == c;
        StoresAreAnchored(db);
        assert db[Ref(SubchangeKind, k)] == ASubchange(c);
      }
    }
    assert Elements(w.scores[who].changes) == ChangesOf(subs, chs, who);
  }

  lemma SubmissionsAreHis(w: World, user: string, task: string, key: string)
    requires Sound(w) && Who(user, task) in w.scores
    ensures var st := w.scores[Who(user, task)];
      && (key in st.core.table <==> IsHis(w.db, user, task, key))
      && (key in st.core.table ==> IsShown(w.db, user, task, key, st.core.table[key], st.changes))
  {
    SoundIs(w);
    var db, who := w.db, Who(user, task);
    var st, t := w.scores[who], TableOf(SubmissionsIn(db), who);
    assert Faithful(st, SubmissionsIn(db), ChangesIn(db), ModesIn(db), who);
    SubmissionIsHis(db, user, task, key);
    if key in t { ReplayedResults(st.mode, t, st.changes, key); }
    ReplayTable(st.mode, t, st.changes);
    AppliedResults(t, st.changes, key);
  }

  /** What the mode of the stored task makes of the results of the submissions. */
  ghost predicate IsScore(mode: Mode, t: Table, last: Option<string>, x: real, bests: seq<real>) {
    match mode
    case Max => IsBestScore(t, x)
    case MaxSubtask => AreBests(t, bests) && x == Sum(bests)
    case MaxTokenedLast => IsBestTokened(t, last, x)
  }

  /**
    The score on the board is the last entry of the history, and is what the mode of the task makes of the
    submissions that are stored, each with the results that its stored changes last gave it.
   */
  lemma {:induction false} BoardMeans(w: World, user: string, task: string) returns (bests: seq<real>)
    requires Sound(w) && Who(user, task) in w.scores
    ensures Ref(TaskKind, task) in w.db && w.db[Ref(TaskKind, task)].ATask?
    ensures var st := w.scores[Who(user, task)];
      var x := LiveScore(w.scores, Who(user, task));
      && AreHisChanges(w.db, user, task, st.changes)
      && (forall key :: key in st.core.table <==> IsHis(w.db, user, task, key))
      && (forall key | key in st.core.table :: IsShown(w.db, user, task, key, st.core.table[key], st.changes))
      && (x == if |st.core.history| == 0 then 0.0 else st.core.history[|st.core.history| - 1].score)
      && IsScore(w.db[Ref(TaskKind, task)].mode, st.core.table, st.core.last, x, bests)
      && ScoreSpec.Known(st.core.table, st.changes) && LastIsLatestScored(st.core, st.changes)
  {
    SoundIs(w);
    var db, who := w.db, Who(user, task);
    var st, t := w.scores[who], TableOf(SubmissionsIn(db), who);
    assert Faithful(st, SubmissionsIn(db), ChangesIn(db), ModesIn(db), who);
    ChangesAreHis(w, user, task);
    forall key
      ensures key in st.core.table <==> IsHis(db, user, task, key)
      ensures key in st.core.table ==> IsShown(db, user, task, key, st.core.table[key], st.changes)
    {
      SubmissionsAreHis(w, user, task, key);
    }
    bests := ScoreMeans(st.mode, t, st.changes);
    ReplayIsGood(st.mode, t, st.changes);
  }
}
