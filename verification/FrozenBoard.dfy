/**
  The whole frozen scoreboard: two servers that agree on all the data with a time up to t give the
  same answers as of t, whatever else they have.
 */
module FrozenBoard {
  import opened Basics
  import opened ScoreSpec
  import opened ScoreLaws
  import opened Freeze
  import opened Score
  import opened GlobalHistory
  import opened Mirror
  import opened MirrorSteps
  import opened ScoringStore

  ghost function OldSubmissions(subs: Submissions, t: int): Submissions {
    map k | k in subs && subs[k].time <= t :: subs[k]
  }

  ghost function OldChanges(chs: Changes, t: int): Changes {
    map k | k in chs && chs[k].time <= t :: chs[k]
  }

  /** Consistent stores, where no change predates its submission and no score is negative. */
  ghost predicate Sound(subs: Submissions, chs: Changes) {
    && Anchored(subs, chs) && NonNegativeStore(chs)
    && forall k | k in chs :: subs[chs[k].submission].time <= chs[k].time
  }

  ghost predicate SameUpTo(subs: Submissions, chs: Changes, subs': Submissions, chs': Changes, t: int) {
    OldSubmissions(subs, t) == OldSubmissions(subs', t) && OldChanges(chs, t) == OldChanges(chs', t)
  }

  lemma OldPart(subs: Submissions, chs: Changes, subs': Submissions, chs': Changes, t: int)
    requires SameUpTo(subs, chs, subs', chs', t)
    ensures forall k | k in subs && subs[k].time <= t :: k in subs' && subs'[k] == subs[k]
    ensures forall k | k in chs && chs[k].time <= t :: k in chs' && chs'[k] == chs[k]
  {
    forall k | k in subs && subs[k].time <= t ensures k in subs' && subs'[k] == subs[k] {
      assert OldSubmissions(subs', t)[k] == subs[k];
    }
    forall k | k in chs && chs[k].time <= t ensures k in chs' && chs'[k] == chs[k] {
      assert OldChanges(chs', t)[k] == chs[k];
    }
  }

  lemma LeadingOfSorted(changes: seq<Subchange>, t: int)
    requires Sorted(changes)
    ensures Sorted(Leading(changes, ChangeTime, t))
    ensures forall c :: c in Leading(changes, ChangeTime, t) <==> c in changes && c.time <= t
  {
    forall i, j | 0 <= i < j < |changes| ensures ChangeTime(changes[i]) <= ChangeTime(changes[j]) {
      assert Before(changes[i], changes[j]);
    }
    LeadingKeepsAllUpTo(changes, ChangeTime, t);
  }

  lemma SameLeadingList(a: State, b: State, subs: Submissions, chs: Changes, subs': Submissions, chs': Changes,
                        modes: Modes, w: Who, t: int)
    requires Sound(subs, chs) && Sound(subs', chs') && SameUpTo(subs, chs, subs', chs', t)
    requires Faithful(a, subs, chs, modes, w) && Faithful(b, subs', chs', modes, w)
    ensures Leading(a.changes, ChangeTime, t) == Leading(b.changes, ChangeTime, t)
  {
    LeadingOfSorted(a.changes, t);
    LeadingOfSorted(b.changes, t);
    OldPart(subs, chs, subs', chs', t);
    OldPart(subs', chs', subs, chs, t);
    ListedChanges(a, subs, chs, modes, w);
    ListedChanges(b, subs', chs', modes, w);
    SortedListIsUnique(Leading(a.changes, ChangeTime, t), Leading(b.changes, ChangeTime, t));
  }

  lemma SameOldTable(subs: Submissions, subs': Submissions, w: Who, t: int)
    requires OldSubmissions(subs, t) == OldSubmissions(subs', t)
    ensures MadeBy(TableOf(subs, w), t) == MadeBy(TableOf(subs', w), t)
  {
    OldPart(subs, map[], subs', map[], t);
    OldPart(subs', map[], subs, map[], t);
  }

  lemma ListIsSound(st: State, subs: Submissions, chs: Changes, modes: Modes, w: Who)
    requires Sound(subs, chs) && Faithful(st, subs, chs, modes, w)
    ensures Causal(TableOf(subs, w), st.changes) && NonNegativeChanges(st.changes)
  {
    ListedChanges(st, subs, chs, modes, w);
    forall i | 0 <= i < |st.changes|
      ensures st.changes[i].NonNegative()
      ensures TableOf(subs, w)[st.changes[i].submission].time <= st.changes[i].time
    {
      assert st.changes[i] in st.changes;
    }
  }

  /** For one user and task. */
  lemma FrozenScoresAgree(a: State, b: State, subs: Submissions, chs: Changes, subs': Submissions, chs': Changes,
                          modes: Modes, w: Who, t: int)
    requires Sound(subs, chs) && Sound(subs', chs') && SameUpTo(subs, chs, subs', chs', t)
    requires Faithful(a, subs, chs, modes, w) && Faithful(b, subs', chs', modes, w)
    ensures ScoreAt(a.core.history, t) == ScoreAt(b.core.history, t)
    ensures Leading(a.core.history, EntryTime, t) == Leading(b.core.history, EntryTime, t)
    ensures SubmissionsAt(TableOf(subs, w), a.changes, t) == SubmissionsAt(TableOf(subs', w), b.changes, t)
  {
    SameLeadingList(a, b, subs, chs, subs', chs', modes, w, t);
    SameOldTable(subs, subs', w, t);
    ListIsSound(a, subs, chs, modes, w);
    ListIsSound(b, subs', chs', modes, w);
    FreezeHidesTheFuture(modes[w.task], TableOf(subs, w), a.changes, TableOf(subs', w), b.changes, t);
  }

  /** The frozen submissions do not depend on the current results. */
  lemma FrozenSubmissionsOf(v: View, subs: Submissions, chs: Changes, modes: Modes, w: Who, t: int)
    requires Mirrors(v, subs, chs, modes) && Anchored(subs, chs) && w.task in modes
    ensures FrozenSubmissions(v, w, t) == SubmissionsAt(TableOf(subs, w), Existing(v, modes, w).changes, t)
  {
    ExistingIsFaithful(v, subs, chs, modes, w);
    var st := Existing(v, modes, w);
    LiveTable(st, subs, chs, modes, w);
    if w in v {
      SameMadeBy(st.core.table, TableOf(subs, w), t);
    } else {
      assert TableOf(subs, w) == map[];
      assert MadeBy(TableOf(subs, w), t) == map[];
    }
  }

  lemma SameMadeBy(live: Table, t: Table, at: int)
    requires Reset(live) == t
    ensures Reset(MadeBy(live, at)) == Reset(MadeBy(t, at))
  {
    assert forall k | k in live :: t[k] == live[k].Reset();
  }

  // ---- Histories that have nothing left do not count ----------------------------------------------

  ghost predicate SameHeads(h: Histories, k: Histories) {
    forall w :: (w in Heads(h) <==> w in Heads(k)) && (w in Heads(h) ==> h[w] == k[w])
  }

  lemma {:induction false} MergeIgnoresEmpty(h: Histories, k: Histories)
    requires SameHeads(h, k)
    ensures Merge(h) == Merge(k)
    decreases Total(h, h.Keys)
  {
    assert Heads(h) == Heads(k);
    if Heads(h) != {} {
      var f := First(h);
      assert IsFirst(k, f);
      FirstIsUnique(k, f);
      SameHeadsAfter(h, k, f);
      MergeIgnoresEmpty(Rest(h), Rest(k));
    }
  }

  lemma SameHeadsAfter(h: Histories, k: Histories, f: Who)
    requires SameHeads(h, k) && f in Heads(h)
    ensures SameHeads(h[f := h[f][1..]], k[f := k[f][1..]])
  {
    var h', k' := h[f := h[f][1..]], k[f := k[f][1..]];
    forall w ensures (w in Heads(h') <==> w in Heads(k')) && (w in Heads(h') ==> h'[w] == k'[w]) {
      assert w != f ==> (w in Heads(h') <==> w in Heads(h)) && (w in Heads(k') <==> w in Heads(k));
    }
  }

  // ---- The three public answers -------------------------------------------------------------------

  ghost predicate Agree(v: View, subs: Submissions, chs: Changes, v': View, subs': Submissions, chs': Changes,
                        modes: Modes, t: int) {
    && Mirrors(v, subs, chs, modes) && Mirrors(v', subs', chs', modes)
    && Sound(subs, chs) && Sound(subs', chs') && SameUpTo(subs, chs, subs', chs', t)
  }

  lemma AgreeOn(v: View, subs: Submissions, chs: Changes, v': View, subs': Submissions, chs': Changes,
                modes: Modes, t: int, w: Who)
    requires Agree(v, subs, chs, v', subs', chs', modes, t) && w.task in modes
    ensures var a, b := Existing(v, modes, w), Existing(v', modes, w);
      && ScoreAt(a.core.history, t) == ScoreAt(b.core.history, t)
      && Leading(a.core.history, EntryTime, t) == Leading(b.core.history, EntryTime, t)
    ensures FrozenSubmissions(v, w, t) == FrozenSubmissions(v', w, t)
  {
    ExistingIsFaithful(v, subs, chs, modes, w);
    ExistingIsFaithful(v', subs', chs', modes, w);
    FrozenScoresAgree(Existing(v, modes, w), Existing(v', modes, w), subs, chs, subs', chs', modes, w, t);
    FrozenSubmissionsOf(v, subs, chs, modes, w, t);
    FrozenSubmissionsOf(v', subs', chs', modes, w, t);
  }

  lemma AbsentScoreIsZero(v: View, modes: Modes, w: Who, t: int)
    requires w !in v && w.task in modes
    ensures ScoreAt(Existing(v, modes, w).core.history, t) == 0.0
    ensures Leading(Existing(v, modes, w).core.history, EntryTime, t) == []
  {
  }

  lemma ShownScoresAgree(v: View, subs: Submissions, chs: Changes, v': View, subs': Submissions, chs': Changes,
                         modes: Modes, t: int, w: Who)
    requires Agree(v, subs, chs, v', subs', chs', modes, t)
    requires w in PositiveScoresAt(v, t)
    ensures w in PositiveScoresAt(v', t) && PositiveScoresAt(v', t)[w] == PositiveScoresAt(v, t)[w]
  {
    assert Faithful(v[w], subs, chs, modes, w);
    AgreeOn(v, subs, chs, v', subs', chs', modes, t, w);
    if w !in v' { AbsentScoreIsZero(v', modes, w, t); }
  }

  lemma ShownHistory(v: View, t: int, w: Who)
    ensures w in Heads(Truncated(HistoriesOf(v), t)) <==> w in v && Leading(v[w].core.history, EntryTime, t) != []
    ensures w in v ==> Truncated(HistoriesOf(v), t)[w] == Leading(v[w].core.history, EntryTime, t)
  {
    assert w in HistoriesOf(v) <==> w in v;
  }

  lemma ShownHistoryAgrees(v: View, subs: Submissions, chs: Changes, v': View, subs': Submissions, chs': Changes,
                           modes: Modes, t: int, w: Who)
    requires Agree(v, subs, chs, v', subs', chs', modes, t)
    requires w in Heads(Truncated(HistoriesOf(v), t))
    ensures w in Heads(Truncated(HistoriesOf(v'), t))
    ensures Truncated(HistoriesOf(v'), t)[w] == Truncated(HistoriesOf(v), t)[w]
  {
    ShownHistory(v, t, w);
    ShownHistory(v', t, w);
    assert Faithful(v[w], subs, chs, modes, w);
    AgreeOn(v, subs, chs, v', subs', chs', modes, t, w);
    if w !in v' { AbsentScoreIsZero(v', modes, w, t); }
  }

  lemma HistoriesAreInOrder(v: View, subs: Submissions, chs: Changes, modes: Modes)
    requires Mirrors(v, subs, chs, modes)
    ensures AllInOrder(HistoriesOf(v))
  {
    forall w | w in v ensures InOrder(v[w].core.history) {
      assert Faithful(v[w], subs, chs, modes, w);
      ReplayHistoryIsGood(modes[w.task], TableOf(subs, w), v[w].changes);
    }
  }

  /** Nothing on the public board as of t depends on what happened after t. */
  lemma FrozenBoardHidesTheFuture(v: View, subs: Submissions, chs: Changes,
                                  v': View, subs': Submissions, chs': Changes, modes: Modes, t: int)
    requires Agree(v, subs, chs, v', subs', chs', modes, t)
    ensures PositiveScoresAt(v, t) == PositiveScoresAt(v', t)
    ensures forall w: Who | w.task in modes :: FrozenSubmissions(v, w, t) == FrozenSubmissions(v', w, t)
    ensures UpTo(Merge(HistoriesOf(v)), Some(t)) == UpTo(Merge(HistoriesOf(v')), Some(t))
  {
    FrozenScoresHideTheFuture(v, subs, chs, v', subs', chs', modes, t);
    forall w: Who | w.task in modes ensures FrozenSubmissions(v, w, t) == FrozenSubmissions(v', w, t) {
      AgreeOn(v, subs, chs, v', subs', chs', modes, t, w);
    }
    FrozenHistoryHidesTheFuture(v, subs, chs, v', subs', chs', modes, t);
  }

  lemma FrozenScoresHideTheFuture(v: View, subs: Submissions, chs: Changes,
                                  v': View, subs': Submissions, chs': Changes, modes: Modes, t: int)
    requires Agree(v, subs, chs, v', subs', chs', modes, t)
    ensures PositiveScoresAt(v, t) == PositiveScoresAt(v', t)
  {
    ShownScoresIncluded(v, subs, chs, v', subs', chs', modes, t);
    ShownScoresIncluded(v', subs', chs', v, subs, chs, modes, t);
    EqualIfIncluded(PositiveScoresAt(v, t), PositiveScoresAt(v', t));
  }

  lemma ShownScoresIncluded(v: View, subs: Submissions, chs: Changes,
                            v': View, subs': Submissions, chs': Changes, modes: Modes, t: int)
    requires Agree(v, subs, chs, v', subs', chs', modes, t)
    ensures Included(PositiveScoresAt(v, t), PositiveScoresAt(v', t))
  {
    forall w | w in PositiveScoresAt(v, t)
      ensures w in PositiveScoresAt(v', t) && PositiveScoresAt(v', t)[w] == PositiveScoresAt(v, t)[w]
    {
      ShownScoresAgree(v, subs, chs, v', subs', chs', modes, t, w);
    }
  }

  lemma FrozenHistoryHidesTheFuture(v: View, subs: Submissions, chs: Changes,
                                    v': View, subs': Submissions, chs': Changes, modes: Modes, t: int)
    requires Agree(v, subs, chs, v', subs', chs', modes, t)
    ensures UpTo(Merge(HistoriesOf(v)), Some(t)) == UpTo(Merge(HistoriesOf(v')), Some(t))
  {
    var h, k := HistoriesOf(v), HistoriesOf(v');
    HistoriesAreInOrder(v, subs, chs, modes);
    HistoriesAreInOrder(v', subs', chs', modes);
    MergeTruncated(h, t);
    MergeTruncated(k, t);
    forall w ensures (w in Heads(Truncated(h, t)) <==> w in Heads(Truncated(k, t)))
                  && (w in Heads(Truncated(h, t)) ==> Truncated(h, t)[w] == Truncated(k, t)[w])
    {
      if w in Heads(Truncated(h, t)) { ShownHistoryAgrees(v, subs, chs, v', subs', chs', modes, t, w); }
      if w in Heads(Truncated(k, t)) { ShownHistoryAgrees(v', subs', chs', v, subs, chs, modes, t, w); }
    }
    MergeIgnoresEmpty(Truncated(h, t), Truncated(k, t));
  }

  /** Past every event, the frozen board is the live one. */
  lemma FrozenBoardAfterTheEnd(v: View, subs: Submissions, chs: Changes, modes: Modes, t: int)
    requires Mirrors(v, subs, chs, modes) && Anchored(subs, chs)
    requires (forall k | k in subs :: subs[k].time <= t) && (forall k | k in chs :: chs[k].time <= t)
    ensures PositiveScoresAt(v, t) == PositiveScores(v)
    ensures forall w | w in v :: FrozenSubmissions(v, w, t) == v[w].core.table
  {
    forall w | w in v
      ensures ScoreAt(v[w].core.history, t) == LiveScore(v, w) && FrozenSubmissions(v, w, t) == v[w].core.table
    {
      ListedChanges(v[w], subs, chs, modes, w);
      forall i | 0 <= i < |v[w].changes| ensures v[w].changes[i].time <= t { assert v[w].changes[i] in v[w].changes; }
      FreezeAfterTheEnd(modes[w.task], TableOf(subs, w), v[w].changes, t);
      FrozenSubmissionsOf(v, subs, chs, modes, w, t);
    }
  }
}
