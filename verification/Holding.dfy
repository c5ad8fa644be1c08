/**
  What holds over every run, whatever is written: each user and task with a submission has a `Score` that
  holds exactly their submissions and on which every operation is possible. Unlike the mirror of the
  stores, this says nothing of the changes.
 */
module Holding {
  import opened Basics
  import opened ScoreSpec
  import opened ScoreLaws
  import opened Score
  import opened GlobalHistory
  import opened Mirror
  import opened MirrorSteps

  ghost predicate Held(st: State, subs: Submissions, w: Who) {
    match st case State(_, core, _) => Usable(st) && Reset(core.table) == TableOf(subs, w)
  }

  ghost predicate Holds(v: View, subs: Submissions) {
    && (forall k {:trigger subs[k].Who()} | k in subs :: subs[k].Who() in v)
    && (forall w {:trigger TableOf(subs, w)} | w in v :: TableOf(subs, w) != map[])
    && (forall w {:trigger Held(v[w], subs, w)} | w in v :: Held(v[w], subs, w))
  }

  lemma MirrorsHold(v: View, subs: Submissions, chs: Changes, modes: Modes)
    requires Mirrors(v, subs, chs, modes)
    ensures Holds(v, subs)
  {
    forall w | w in v ensures Held(v[w], subs, w) {
      assert Faithful(v[w], subs, chs, modes, w);
      LiveTable(v[w], subs, chs, modes, w);
      ReplayedIsUsable(v[w]);
    }
  }

  lemma HeldSubmission(v: View, subs: Submissions, key: string)
    requires Holds(v, subs) && key in subs
    ensures var w := subs[key].Who(); w in v && Held(v[w], subs, w) && Usable(v[w]) && key in v[w].core.table
  {
    var w := subs[key].Who();
    assert Held(v[w], subs, w) && key in TableOf(subs, w);
    assert v[w].core.table.Keys == Reset(v[w].core.table).Keys;
  }

  /** If the submissions change only for one user and task, so need the scores. */
  lemma HoldsWith(v: View, st: State, subs: Submissions, subs': Submissions, w: Who)
    requires Holds(v, subs) && Held(st, subs', w) && TableOf(subs', w) != map[]
    requires forall u | u != w :: TableOf(subs', u) == TableOf(subs, u)
    ensures Holds(v[w := st], subs')
  {
    var v' := v[w := st];
    forall u | u in v' ensures Held(v'[u], subs', u) { assert u != w ==> Held(v[u], subs, u); }
    forall u | u in v' ensures TableOf(subs', u) != map[] { assert u != w ==> TableOf(subs, u) != map[]; }
    forall k | k in subs' ensures subs'[k].Who() in v' {
      if subs'[k].Who() != w { SubmissionElsewhere(subs, subs', k, w); }
    }
  }

  lemma HoldsWithout(v: View, subs: Submissions, subs': Submissions, w: Who)
    requires Holds(v, subs) && TableOf(subs', w) == map[]
    requires forall u | u != w :: TableOf(subs', u) == TableOf(subs, u)
    ensures Holds(v - {w}, subs')
  {
    forall u | u in v - {w} ensures Held((v - {w})[u], subs', u) && TableOf(subs', u) != map[] {
      assert Held(v[u], subs, u);
    }
    forall k | k in subs' ensures subs'[k].Who() in v - {w} {
      assert k in TableOf(subs', subs'[k].Who());
      SubmissionElsewhere(subs, subs', k, w);
    }
  }

  lemma SubmissionElsewhere(subs: Submissions, subs': Submissions, k: string, w: Who)
    requires k in subs' && subs'[k].Who() != w
    requires forall u | u != w :: TableOf(subs', u) == TableOf(subs, u)
    ensures k in subs && subs[k].Who() == subs'[k].Who()
  {
    assert k in TableOf(subs', subs'[k].Who());
    assert k in TableOf(subs, subs'[k].Who());
  }

  /** The list of changes, or the mode, of one `Score` changes. */
  lemma EditHolds(v: View, st: State, subs: Submissions, w: Who)
    requires Holds(v, subs) && w in v && Usable(st) && Reset(st.core.table) == Reset(v[w].core.table)
    ensures Holds(v[w := st], subs)
  {
    assert Held(v[w], subs, w);
    HoldsWith(v, st, subs, subs, w);
  }

  lemma ExistingIsHeld(v: View, subs: Submissions, modes: Modes, w: Who)
    requires Holds(v, subs) && w.task in modes
    ensures Held(Existing(v, modes, w), subs, w)
  {
    if w in v {
      assert Held(v[w], subs, w);
    } else {
      RebuiltIsUsable(modes[w.task], map[], []);
      assert TableOf(subs, w) == map[];
    }
  }

  lemma NewSubmissionHolds(v: View, subs: Submissions, modes: Modes, key: string, s: Submitted)
    requires Holds(v, subs) && key !in subs && s.task in modes
    ensures var st := Existing(v, modes, s.Who());
      Usable(st) && key !in st.core.table && Holds(v[s.Who() := WithSubmission(st, key, s.Fresh())], subs[key := s])
  {
    var w := s.Who();
    var st := Existing(v, modes, w);
    ExistingIsHeld(v, subs, modes, w);
    assert st.core.table.Keys == Reset(st.core.table).Keys == TableOf(subs, w).Keys;
    PutTables(subs, map[], key, s);
    WithSubmissionIsUsable(st, key, s.Fresh());
    assert key in TableOf(subs[key := s], w);
    HoldsWith(v, WithSubmission(st, key, s.Fresh()), subs, subs[key := s], w);
  }

  /** A submission of the same user and task takes the place of another; the mode may change too. */
  lemma NewDataHolds(v: View, subs: Submissions, mode: Mode, key: string, s: Submitted)
    requires Holds(v, subs) && key in subs && subs[key].Who() == s.Who()
    ensures var w := s.Who();
      && w in v && Known(v[w].core.table[key := s.Fresh()], v[w].changes)
      && Holds(v[w := Rebuilt(v[w].mode, v[w].core.table[key := s.Fresh()], v[w].changes).(mode := mode)], subs[key := s])
  {
    var w := s.Who();
    HeldSubmission(v, subs, key);
    var t := v[w].core.table[key := s.Fresh()];
    RebuiltIsUsable(v[w].mode, t, v[w].changes);
    ResetPut(v[w].core.table, key, s.Fresh());
    PutTables(subs, map[], key, s);
    assert key in TableOf(subs[key := s], w);
    HoldsWith(v, Rebuilt(v[w].mode, t, v[w].changes).(mode := mode), subs, subs[key := s], w);
  }

  ghost function Dropped(st: State, key: string): State
    requires Usable(st)
  {
    KeptIsKnown(st.core.table, st.core.table - {key}, st.changes, OtherSubmissions(st.changes, key));
    Rebuilt(st.mode, st.core.table - {key}, Kept(st.changes, OtherSubmissions(st.changes, key)))
  }

  lemma DropHolds(v: View, subs: Submissions, key: string)
    requires Holds(v, subs) && key in subs
    ensures var w := subs[key].Who();
      w in v && Usable(v[w]) && Holds(Shrunk(v, w, Dropped(v[w], key)), subs - {key})
  {
    var w, subs' := subs[key].Who(), subs - {key};
    HeldSubmission(v, subs, key);
    var st := Dropped(v[w], key);
    DroppedIsHeld(v[w], subs, key);
    DropTables(subs, map[], key);
    assert Reset(st.core.table).Keys == st.core.table.Keys;
    if st.core.table == map[] {
      HoldsWithout(v, subs, subs', w);
    } else {
      HoldsWith(v, st, subs, subs', w);
    }
  }

  lemma DroppedIsHeld(st: State, subs: Submissions, key: string)
    requires key in subs && Held(st, subs, subs[key].Who())
    ensures Held(Dropped(st, key), subs - {key}, subs[key].Who())
  {
    KeptIsKnown(st.core.table, st.core.table - {key}, st.changes, OtherSubmissions(st.changes, key));
    RebuiltIsUsable(st.mode, st.core.table - {key}, Kept(st.changes, OtherSubmissions(st.changes, key)));
    DropTables(subs, map[], key);
    assert Reset(st.core.table - {key}) == Reset(st.core.table) - {key};
  }

  // ---- Changes that are lost ---------------------------------------------------------------------

  ghost predicate Listed(v: View, c: Subchange) { exists w | w in v :: c in v[w].changes }

  ghost predicate NoneAdded(v: View, v': View) { forall c | Listed(v', c) :: Listed(v, c) }

  lemma NoneAddedByEdit(v: View, w: Who, st: State)
    requires forall c | c in st.changes :: w in v && c in v[w].changes
    ensures NoneAdded(v, v[w := st])
  {
    forall c | Listed(v[w := st], c) ensures Listed(v, c) {
      var u :| u in v[w := st] && c in v[w := st][u].changes;
      if u == w { assert c in v[w].changes; } else { assert c in v[u].changes; }
    }
  }

  lemma NoneAddedByRemoval(v: View, v': View, w: Who)
    requires NoneAdded(v, v')
    ensures NoneAdded(v, v' - {w})
  {
    forall c | Listed(v' - {w}, c) ensures Listed(v, c) {
      var u :| u in v' - {w} && c in (v' - {w})[u].changes;
      assert c in v'[u].changes;
    }
  }

  /** Changes are listed with their submission. */
  lemma ListedIsHeld(v: View, subs: Submissions, c: Subchange)
    requires Holds(v, subs) && Listed(v, c)
    ensures c.submission in subs
  {
    var w :| w in v && c in v[w].changes;
    assert Held(v[w], subs, w);
    assert c.submission in v[w].core.table && v[w].core.table.Keys == Reset(v[w].core.table).Keys;
    assert c.submission in TableOf(subs, w);
  }
}
