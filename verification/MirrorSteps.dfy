/** How each update of one `Score` keeps the mirror of the stores, and exactly when it does. */
module MirrorSteps {
  import opened Basics
  import opened ScoreSpec
  import opened ScoreLaws
  import opened Score
  import opened GlobalHistory
  import opened Mirror

  lemma LiveTable(st: State, subs: Submissions, chs: Changes, modes: Modes, w: Who)
    requires Faithful(st, subs, chs, modes, w)
    ensures Reset(st.core.table) == TableOf(subs, w) && st.core.table.Keys == TableOf(subs, w).Keys
    ensures Replayed(st) && st.mode == modes[w.task]
  {
    var t := TableOf(subs, w);
    ReplayKeepsIdentity(st.mode, t, st.changes);
    assert Reset(t) == t;
    RebuiltIsReplayed(st.mode, t, st.changes);
  }

  /** In consistent stores, a change belongs to the user and task of its submission. */
  lemma ChangesOfAnchored(subs: Submissions, chs: Changes)
    requires Anchored(subs, chs)
    ensures forall w, c :: c in ChangesOf(subs, chs, w) <==>
      c.key in chs && chs[c.key] == c && subs[c.submission].Who() == w
  {
    forall w, c ensures c in ChangesOf(subs, chs, w) <==>
      c.key in chs && chs[c.key] == c && subs[c.submission].Who() == w
    {
      if c in ChangesOf(subs, chs, w) {
        var k :| k in chs && chs[k] == c && c.submission in subs && subs[c.submission].Who() == w;
      }
    }
  }

  lemma RebuiltFrom(mode: Mode, live: Table, t: Table, changes: seq<Subchange>)
    requires Known(t, changes) && Reset(live) == Reset(t)
    ensures Known(live, changes) && Rebuilt(mode, live, changes) == Rebuilt(mode, t, changes)
  {
    ReplayOfSameIdentity(mode, t, live, changes);
  }

  /** If the stores change only for one user and task, so does the mirror. */
  lemma MirrorElsewhere(v: View, subs: Submissions, chs: Changes, subs': Submissions, chs': Changes, modes: Modes, w: Who)
    requires Mirrors(v, subs, chs, modes)
    requires forall u | u != w :: TableOf(subs', u) == TableOf(subs, u) && ChangesOf(subs', chs', u) == ChangesOf(subs, chs, u)
    ensures forall u | u in v && u != w :: TableOf(subs', u) != map[] && Faithful(v[u], subs', chs', modes, u)
    ensures forall k | k in subs' && subs'[k].Who() != w :: subs'[k].Who() in v
  {
    forall u | u in v && u != w ensures TableOf(subs', u) != map[] && Faithful(v[u], subs', chs', modes, u) {
      assert Faithful(v[u], subs, chs, modes, u);
    }
    forall k | k in subs' && subs'[k].Who() != w ensures subs'[k].Who() in v {
      assert k in TableOf(subs', subs'[k].Who());
      assert k in TableOf(subs, subs'[k].Who());
    }
  }

  lemma MirrorWith(v: View, st: State, subs: Submissions, chs: Changes, subs': Submissions, chs': Changes, modes: Modes, w: Who)
    requires Mirrors(v, subs, chs, modes)
    requires forall u | u != w :: TableOf(subs', u) == TableOf(subs, u) && ChangesOf(subs', chs', u) == ChangesOf(subs, chs, u)
    requires Faithful(st, subs', chs', modes, w) && TableOf(subs', w) != map[]
    ensures Mirrors(v[w := st], subs', chs', modes)
  {
    MirrorElsewhere(v, subs, chs, subs', chs', modes, w);
    forall u | u in v[w := st] ensures Faithful(v[w := st][u], subs', chs', modes, u) && TableOf(subs', u) != map[] {
      assert u != w ==> Faithful(v[u], subs', chs', modes, u);
    }
  }

  // ---- Submissions -------------------------------------------------------------------------------

  /** The `Score` of a user and task, a new one if they have no submission yet. */
  ghost function Existing(v: View, modes: Modes, w: Who): State
    requires w.task in modes
  {
    if w in v then v[w] else Rebuilt(modes[w.task], map[], [])
  }

  lemma ExistingIsFaithful(v: View, subs: Submissions, chs: Changes, modes: Modes, w: Who)
    requires Mirrors(v, subs, chs, modes) && Anchored(subs, chs) && w.task in modes
    ensures Faithful(Existing(v, modes, w), subs, chs, modes, w)
  {
    if w !in v {
      assert TableOf(subs, w) == map[];
      assert ChangesOf(subs, chs, w) == {};
    }
  }

  lemma PutTables(subs: Submissions, chs: Changes, key: string, s: Submitted)
    requires Anchored(subs, chs) && (key in subs ==> subs[key].Who() == s.Who())
    ensures TableOf(subs[key := s], s.Who()) == TableOf(subs, s.Who())[key := s.Fresh()]
    ensures forall u | u != s.Who() :: TableOf(subs[key := s], u) == TableOf(subs, u)
    ensures forall u :: ChangesOf(subs[key := s], chs, u) == ChangesOf(subs, chs, u)
  {
    forall k | k in chs ensures subs[key := s][chs[k].submission].Who() == subs[chs[k].submission].Who() {}
  }

  lemma ResetPut(t: Table, key: string, s: Submission)
    ensures Reset(t[key := s]) == Reset(t)[key := s.Reset()]
  {
  }

  lemma PutFaithful(old_: State, subs: Submissions, chs: Changes, modes: Modes, key: string, s: Submitted)
    requires Faithful(old_, subs, chs, modes, s.Who()) && Anchored(subs, chs)
    requires key in subs ==> subs[key].Who() == s.Who()
    ensures Known(old_.core.table[key := s.Fresh()], old_.changes)
    ensures Faithful(Rebuilt(old_.mode, old_.core.table[key := s.Fresh()], old_.changes), subs[key := s], chs, modes, s.Who())
  {
    PutTables(subs, chs, key, s);
    LiveTable(old_, subs, chs, modes, s.Who());
    var live, t := old_.core.table[key := s.Fresh()], TableOf(subs, s.Who())[key := s.Fresh()];
    ResetPut(old_.core.table, key, s.Fresh());
    ResetPut(TableOf(subs, s.Who()), key, s.Fresh());
    assert Reset(old_.core.table) == Reset(TableOf(subs, s.Who()));
    RebuiltFrom(old_.mode, live, t, old_.changes);
  }

  /** A submission is put in place of none, or of one of the same user and task. */
  lemma PutSubmissionMirrors(v: View, subs: Submissions, chs: Changes, modes: Modes, key: string, s: Submitted)
    requires Mirrors(v, subs, chs, modes) && Anchored(subs, chs) && s.task in modes
    requires key in subs ==> subs[key].Who() == s.Who()
    ensures Anchored(subs[key := s], chs)
    ensures var old_ := Existing(v, modes, s.Who());
      && Known(old_.core.table[key := s.Fresh()], old_.changes)
      && Mirrors(v[s.Who() := Rebuilt(old_.mode, old_.core.table[key := s.Fresh()], old_.changes)],
                 subs[key := s], chs, modes)
  {
    var w := s.Who();
    var old_ := Existing(v, modes, w);
    ExistingIsFaithful(v, subs, chs, modes, w);
    PutFaithful(old_, subs, chs, modes, key, s);
    PutTables(subs, chs, key, s);
    assert key in TableOf(subs[key := s], w);
    MirrorWith(v, Rebuilt(old_.mode, old_.core.table[key := s.Fresh()], old_.changes), subs, chs, subs[key := s], chs, modes, w);
  }

  ghost function ChangesWithout(chs: Changes, id: string): Changes {
    map k | k in chs && chs[k].submission != id :: chs[k]
  }

  lemma DropTables(subs: Submissions, chs: Changes, key: string)
    requires Anchored(subs, chs) && key in subs
    ensures TableOf(subs - {key}, subs[key].Who()) == TableOf(subs, subs[key].Who()) - {key}
    ensures forall u | u != subs[key].Who() :: TableOf(subs - {key}, u) == TableOf(subs, u)
    ensures forall u | u != subs[key].Who() :: ChangesOf(subs - {key}, ChangesWithout(chs, key), u) == ChangesOf(subs, chs, u)
  {
    forall u | u != subs[key].Who()
      ensures ChangesOf(subs - {key}, ChangesWithout(chs, key), u) == ChangesOf(subs, chs, u)
    {
      forall c ensures c in ChangesOf(subs - {key}, ChangesWithout(chs, key), u) <==> c in ChangesOf(subs, chs, u) {
        DroppedChange(subs, chs, key, u, c);
      }
    }
  }

  lemma DroppedChange(subs: Submissions, chs: Changes, key: string, u: Who, c: Subchange)
    requires Anchored(subs, chs) && key in subs
    ensures c in ChangesOf(subs - {key}, ChangesWithout(chs, key), u) <==>
            c in ChangesOf(subs, chs, u) && c.submission != key
  {
    var chs' := ChangesWithout(chs, key);
    if c in ChangesOf(subs, chs, u) && c.submission != key {
      var k :| k in chs && chs[k] == c;
      assert k in chs' && chs'[k] == c;
    }
    if c in ChangesOf(subs - {key}, chs', u) {
      var k :| k in chs' && chs'[k] == c;
      assert k in chs && chs[k] == c;
    }
  }

  lemma ResetWithout(a: Table, b: Table, key: string)
    requires Reset(a) == Reset(b)
    ensures Reset(a - {key}) == Reset(b - {key})
  {
    assert Reset(a - {key}) == Reset(a) - {key} && Reset(b - {key}) == Reset(b) - {key};
  }

  lemma DropFaithful(old_: State, subs: Submissions, chs: Changes, modes: Modes, key: string)
    requires Anchored(subs, chs) && key in subs && Faithful(old_, subs, chs, modes, subs[key].Who())
    ensures var changes := Kept(old_.changes, OtherSubmissions(old_.changes, key));
      && Known(old_.core.table - {key}, changes)
      && Faithful(Rebuilt(old_.mode, old_.core.table - {key}, changes),
                  subs - {key}, ChangesWithout(chs, key), modes, subs[key].Who())
  {
    var w := subs[key].Who();
    var changes := Kept(old_.changes, OtherSubmissions(old_.changes, key));
    DropTables(subs, chs, key);
    LiveTable(old_, subs, chs, modes, w);
    KeptIsFilter(old_.changes, OtherSubmissions(old_.changes, key));
    KeptIsKnown(TableOf(subs, w), TableOf(subs, w) - {key}, old_.changes, OtherSubmissions(old_.changes, key));
    var live, t := old_.core.table - {key}, TableOf(subs, w) - {key};
    ResetWithout(old_.core.table, TableOf(subs, w), key);
    RebuiltFrom(old_.mode, live, t, changes);
    forall c ensures c in Elements(changes) <==> c in ChangesOf(subs - {key}, ChangesWithout(chs, key), w) {
      DroppedChange(subs, chs, key, w, c);
    }
  }

  ghost function Shrunk(v: View, w: Who, st: State): View {
    if st.core.table == map[] then v - {w} else v[w := st]
  }

  /** A submission goes with its changes, and its `Score` with the last submission. */
  lemma DropSubmissionMirrors(v: View, subs: Submissions, chs: Changes, modes: Modes, key: string)
    requires Mirrors(v, subs, chs, modes) && Anchored(subs, chs) && key in subs
    ensures var w := subs[key].Who();
      var changes := Kept(v[w].changes, OtherSubmissions(v[w].changes, key));
      && Known(v[w].core.table - {key}, changes)
      && Mirrors(Shrunk(v, w, Rebuilt(v[w].mode, v[w].core.table - {key}, changes)),
                 subs - {key}, ChangesWithout(chs, key), modes)
  {
    var w, subs', chs' := subs[key].Who(), subs - {key}, ChangesWithout(chs, key);
    DropFaithful(v[w], subs, chs, modes, key);
    var st := Rebuilt(v[w].mode, v[w].core.table - {key}, Kept(v[w].changes, OtherSubmissions(v[w].changes, key)));
    DropTables(subs, chs, key);
    LiveTable(st, subs', chs', modes, w);
    if st.core.table == map[] {
      MirrorWithout(v, st.core.table, subs, chs, subs', chs', modes, w);
    } else {
      MirrorWith(v, st, subs, chs, subs', chs', modes, w);
    }
  }

  lemma MirrorWithout(v: View, t: Table, subs: Submissions, chs: Changes, subs': Submissions, chs': Changes, modes: Modes, w: Who)
    requires Mirrors(v, subs, chs, modes)
    requires forall u | u != w :: TableOf(subs', u) == TableOf(subs, u) && ChangesOf(subs', chs', u) == ChangesOf(subs, chs, u)
    requires t == map[] && t.Keys == TableOf(subs', w).Keys
    ensures Mirrors(v - {w}, subs', chs', modes)
  {
    NoneLeft(subs', t, w);
    MirrorElsewhere(v, subs, chs, subs', chs', modes, w);
  }

  lemma NoneLeft(subs: Submissions, t: Table, w: Who)
    requires t == map[] && t.Keys == TableOf(subs, w).Keys
    ensures forall k | k in subs :: subs[k].Who() != w
  {
    forall k | k in subs ensures subs[k].Who() != w { assert k !in TableOf(subs, w).Keys; }
  }

  // ---- Changes -----------------------------------------------------------------------------------

  lemma ListedChanges(st: State, subs: Submissions, chs: Changes, modes: Modes, w: Who)
    requires Faithful(st, subs, chs, modes, w) && Anchored(subs, chs)
    ensures forall c :: c in st.changes <==> c.key in chs && chs[c.key] == c && subs[c.submission].Who() == w
  {
    ChangesOfAnchored(subs, chs);
    assert forall c :: c in st.changes <==> c in Elements(st.changes);
  }

  /** The list of changes of one `Score` is edited; the rest of the stores stays. */
  lemma EditFaithful(old_: State, subs: Submissions, chs: Changes, chs': Changes, modes: Modes, w: Who, changes: seq<Subchange>)
    requires Faithful(old_, subs, chs, modes, w)
    requires Known(TableOf(subs, w), changes)
    ensures Known(old_.core.table, changes)
    ensures Faithful(Rebuilt(old_.mode, old_.core.table, changes), subs, chs', modes, w)
       <==> Sorted(changes) && Elements(changes) == ChangesOf(subs, chs', w)
  {
    LiveTable(old_, subs, chs, modes, w);
    assert Reset(TableOf(subs, w)) == TableOf(subs, w);
    RebuiltFrom(old_.mode, old_.core.table, TableOf(subs, w), changes);
  }

  lemma EditMirrors(v: View, subs: Submissions, chs: Changes, chs': Changes, modes: Modes, w: Who, changes: seq<Subchange>)
    requires Mirrors(v, subs, chs, modes) && w in v && Known(TableOf(subs, w), changes)
    requires forall u | u != w :: ChangesOf(subs, chs', u) == ChangesOf(subs, chs, u)
    ensures Known(v[w].core.table, changes)
    ensures Mirrors(v[w := Rebuilt(v[w].mode, v[w].core.table, changes)], subs, chs', modes)
       <==> Sorted(changes) && Elements(changes) == ChangesOf(subs, chs', w)
  {
    var old_ := v[w];
    EditFaithful(old_, subs, chs, chs', modes, w, changes);
    var st := Rebuilt(old_.mode, old_.core.table, changes);
    if Faithful(st, subs, chs', modes, w) {
      MirrorWith(v, st, subs, chs, subs, chs', modes, w);
    } else {
      assert v[w := st][w] == st;
    }
  }

  lemma AddChangeMirrors(v: View, subs: Submissions, chs: Changes, modes: Modes, c: Subchange)
    requires Mirrors(v, subs, chs, modes) && Anchored(subs, chs)
    requires c.key !in chs && c.submission in subs
    ensures Anchored(subs, chs[c.key := c])
    ensures var w := subs[c.submission].Who(); var changes := Inserted(v[w].changes, c);
      && Known(v[w].core.table, changes)
      && Mirrors(v[w := Rebuilt(v[w].mode, v[w].core.table, changes)], subs, chs[c.key := c], modes)
  {
    var w, chs' := subs[c.submission].Who(), chs[c.key := c];
    AddedChanges(v[w], subs, chs, modes, c);
    EditMirrors(v, subs, chs, chs', modes, w, Inserted(v[w].changes, c));
  }

  lemma AddedChangesOf(subs: Submissions, chs: Changes, c: Subchange)
    requires c.submission in subs && Anchored(subs, chs)
    requires c.key in chs ==> c.submission == chs[c.key].submission
    ensures forall d :: d in ChangesOf(subs, chs[c.key := c], subs[c.submission].Who()) <==>
                        d == c || (d in ChangesOf(subs, chs, subs[c.submission].Who()) && d.key != c.key)
    ensures forall u | u != subs[c.submission].Who() :: ChangesOf(subs, chs[c.key := c], u) == ChangesOf(subs, chs, u)
  {
    ChangesOfAnchored(subs, chs);
    ChangesOfAnchored(subs, chs[c.key := c]);
  }

  lemma ListHasNewKey(st: State, subs: Submissions, chs: Changes, modes: Modes, w: Who, key: string)
    requires Faithful(st, subs, chs, modes, w) && Anchored(subs, chs) && key !in chs
    ensures NewKey(st.changes, key)
  {
    ListedChanges(st, subs, chs, modes, w);
    forall i | 0 <= i < |st.changes| ensures st.changes[i].key != key { assert st.changes[i] in st.changes; }
  }

  lemma AddedChanges(st: State, subs: Submissions, chs: Changes, modes: Modes, c: Subchange)
    requires c.key !in chs && c.submission in subs && Anchored(subs, chs)
    requires Faithful(st, subs, chs, modes, subs[c.submission].Who())
    ensures Known(TableOf(subs, subs[c.submission].Who()), Inserted(st.changes, c)) && Sorted(Inserted(st.changes, c))
    ensures Elements(Inserted(st.changes, c)) == ChangesOf(subs, chs[c.key := c], subs[c.submission].Who())
    ensures forall u | u != subs[c.submission].Who() :: ChangesOf(subs, chs[c.key := c], u) == ChangesOf(subs, chs, u)
  {
    var w := subs[c.submission].Who();
    ListHasNewKey(st, subs, chs, modes, w, c.key);
    InsertedIsSorted(st.changes, c);
    InsertedIsKnown(TableOf(subs, w), st.changes, c);
    InsertedElements(st.changes, c);
    AddedChangesOf(subs, chs, c);
    assert forall d | d in st.changes :: d.key != c.key;
  }

  lemma InsertedElements(changes: seq<Subchange>, c: Subchange)
    requires multiset(Inserted(changes, c)) == multiset(changes) + multiset{c}
    ensures forall d :: d in Inserted(changes, c) <==> d in changes || d == c
  {
    forall d ensures d in Inserted(changes, c) <==> d in changes || d == c {
      assert d in Inserted(changes, c) <==> d in multiset(Inserted(changes, c));
    }
  }

  lemma RemoveChangeMirrors(v: View, subs: Submissions, chs: Changes, modes: Modes, key: string)
    requires Mirrors(v, subs, chs, modes) && Anchored(subs, chs) && key in chs
    ensures Anchored(subs, chs - {key})
    ensures var w := subs[chs[key].submission].Who();
      var changes := Kept(v[w].changes, OtherKeys(v[w].changes, key));
      && Known(v[w].core.table, changes)
      && Mirrors(v[w := Rebuilt(v[w].mode, v[w].core.table, changes)], subs, chs - {key}, modes)
  {
    var w := subs[chs[key].submission].Who();
    RemovedChanges(v[w], subs, chs, modes, key);
    EditMirrors(v, subs, chs, chs - {key}, modes, w, Kept(v[w].changes, OtherKeys(v[w].changes, key)));
  }

  lemma RemovedChanges(st: State, subs: Submissions, chs: Changes, modes: Modes, key: string)
    requires key in chs && Anchored(subs, chs) && Faithful(st, subs, chs, modes, subs[chs[key].submission].Who())
    ensures var w := subs[chs[key].submission].Who(); var after := Kept(st.changes, OtherKeys(st.changes, key));
      && Known(TableOf(subs, w), after) && Sorted(after)
      && Elements(after) == ChangesOf(subs, chs - {key}, w)
    ensures forall u | u != subs[chs[key].submission].Who() :: ChangesOf(subs, chs - {key}, u) == ChangesOf(subs, chs, u)
  {
    var w, others := subs[chs[key].submission].Who(), OtherKeys(st.changes, key);
    ListedChanges(st, subs, chs, modes, w);
    KeptIsFilter(st.changes, others);
    KeptIsKnown(TableOf(subs, w), TableOf(subs, w), st.changes, others);
    RemovedChangesOf(subs, chs, key);
    assert forall c :: c in Elements(st.changes) <==> c in ChangesOf(subs, chs, w);
  }

  lemma RemovedChangesOf(subs: Submissions, chs: Changes, key: string)
    requires key in chs && Anchored(subs, chs)
    ensures forall w, c :: c in ChangesOf(subs, chs - {key}, w) <==> c in ChangesOf(subs, chs, w) && c.key != key
    ensures forall u | u != subs[chs[key].submission].Who() :: ChangesOf(subs, chs - {key}, u) == ChangesOf(subs, chs, u)
  {
    ChangesOfAnchored(subs, chs);
    ChangesOfAnchored(subs, chs - {key});
  }

  // ---- A change replaced in place ----------------------------------------------------------------

  /** No other change of the same user and task lies between the old and the new position. */
  ghost predicate KeepsPlace(subs: Submissions, chs: Changes, old_: Subchange, new_: Subchange)
    requires Anchored(subs, chs) && old_.submission in subs
  {
    forall k | k in chs && k != old_.key && subs[chs[k].submission].Who() == subs[old_.submission].Who() ::
      Before(chs[k], old_) <==> Before(chs[k], new_)
  }

  lemma ReplacedAt(changes: seq<Subchange>, c: Subchange, i: nat)
    requires i < |changes| && changes[i].key == c.key
    requires forall j | 0 <= j < |changes| && j != i :: changes[j].key != c.key
    ensures Replaced(changes, c.key, c) == changes[i := c]
  {
  }

  /** Overwriting a change in a sorted list keeps it sorted exactly if its place is still right. */
  lemma OverwriteKeepsSorted(changes: seq<Subchange>, c: Subchange, i: nat)
    requires Sorted(changes) && i < |changes| && changes[i].key == c.key
    requires forall j | 0 <= j < |changes| && j != i :: changes[j].key != c.key
    ensures Sorted(changes[i := c]) <==>
      forall j | 0 <= j < |changes| && j != i :: Before(changes[j], changes[i]) <==> Before(changes[j], c)
  {
    forall j | 0 <= j < |changes| && j != i ensures Before(changes[j], c) <==> !Before(c, changes[j]) {
      BeforeIsTotal(changes[j], c);
    }
    forall j | 0 <= j < |changes| && j != i ensures Before(changes[j], changes[i]) <==> j < i {
      if i < j { BeforeIsTotal(changes[j], changes[i]); }
    }
    if Sorted(changes[i := c]) {
      forall j | 0 <= j < |changes| && j != i ensures Before(changes[j], c) <==> j < i {
        var r := changes[i := c];
        if j < i { assert Before(r[j], r[i]); } else { assert Before(r[i], r[j]); }
      }
    }
  }

  lemma PlaceOf(st: State, subs: Submissions, chs: Changes, modes: Modes, key: string) returns (i: nat)
    requires key in chs && Anchored(subs, chs) && Faithful(st, subs, chs, modes, subs[chs[key].submission].Who())
    ensures i < |st.changes| && st.changes[i] == chs[key]
    ensures forall j | 0 <= j < |st.changes| && j != i :: st.changes[j].key != key
  {
    var changes := st.changes;
    ListedChanges(st, subs, chs, modes, subs[chs[key].submission].Who());
    assert chs[key] in changes;
    i :| 0 <= i < |changes| && changes[i] == chs[key];
    forall j | 0 <= j < |changes| && j != i ensures changes[j].key != key {
      assert changes[j] in changes;
      assert if i < j then Before(changes[i], changes[j]) else Before(changes[j], changes[i]);
      BeforeIsTotal(chs[key], chs[key]);
    }
  }

  lemma PlaceIsKept(st: State, subs: Submissions, chs: Changes, modes: Modes, c: Subchange, i: nat)
    requires c.key in chs && c.submission == chs[c.key].submission && Anchored(subs, chs)
    requires Faithful(st, subs, chs, modes, subs[c.submission].Who())
    requires i < |st.changes| && st.changes[i] == chs[c.key]
    requires forall j | 0 <= j < |st.changes| && j != i :: st.changes[j].key != c.key
    ensures KeepsPlace(subs, chs, chs[c.key], c) <==>
      forall j | 0 <= j < |st.changes| && j != i :: Before(st.changes[j], st.changes[i]) <==> Before(st.changes[j], c)
  {
    ListedChanges(st, subs, chs, modes, subs[c.submission].Who());
    assert KeepsPlace(subs, chs, chs[c.key], c) <==>
      forall d | d in st.changes && d.key != c.key :: Before(d, chs[c.key]) <==> Before(d, c);
  }

  lemma ReplacedChanges(st: State, subs: Submissions, chs: Changes, modes: Modes, c: Subchange)
    requires c.key in chs && c.submission == chs[c.key].submission && Anchored(subs, chs)
    requires Faithful(st, subs, chs, modes, subs[c.submission].Who())
    ensures var w := subs[c.submission].Who(); var after := Replaced(st.changes, c.key, c);
      && Known(TableOf(subs, w), after)
      && Elements(after) == ChangesOf(subs, chs[c.key := c], w)
      && (Sorted(after) <==> KeepsPlace(subs, chs, chs[c.key], c))
    ensures forall u | u != subs[c.submission].Who() :: ChangesOf(subs, chs[c.key := c], u) == ChangesOf(subs, chs, u)
  {
    var i := PlaceOf(st, subs, chs, modes, c.key);
    ReplacedAt(st.changes, c, i);
    OverwriteKeepsSorted(st.changes, c, i);
    PlaceIsKept(st, subs, chs, modes, c, i);
    AddedChangesOf(subs, chs, c);
    OverwrittenElements(st.changes, c, i);
    ReplacedIsKnown(TableOf(subs, subs[c.submission].Who()), st.changes, c.key, c);
  }

  lemma OverwrittenElements(changes: seq<Subchange>, c: Subchange, i: nat)
    requires i < |changes| && changes[i].key == c.key
    requires forall j | 0 <= j < |changes| && j != i :: changes[j].key != c.key
    ensures forall d :: d in changes[i := c] <==> d == c || (d in changes && d.key != c.key)
  {
    var r := changes[i := c];
    forall d | d == c || (d in changes && d.key != c.key) ensures d in r {
      if d == c { assert r[i] == c; } else { var j :| 0 <= j < |changes| && changes[j] == d; assert r[j] == d; }
    }
  }

  /** `update_subchange` does not re-sort: it is right exactly if no other change lies in between. */
  lemma ReplaceChangeMirrors(v: View, subs: Submissions, chs: Changes, modes: Modes, c: Subchange, w: Who)
    requires Mirrors(v, subs, chs, modes) && Anchored(subs, chs)
    requires c.key in chs && c.submission == chs[c.key].submission && w == subs[c.submission].Who()
    ensures Known(v[w].core.table, Replaced(v[w].changes, c.key, c))
    ensures Mirrors(v[w := Rebuilt(v[w].mode, v[w].core.table, Replaced(v[w].changes, c.key, c))],
                    subs, chs[c.key := c], modes)
       <==> KeepsPlace(subs, chs, chs[c.key], c)
  {
    ReplacedChanges(v[w], subs, chs, modes, c);
    EditMirrors(v, subs, chs, chs[c.key := c], modes, w, Replaced(v[w].changes, c.key, c));
  }

  // ---- Submissions that move, tasks that change their mode ----------------------------------------

  /** A submission moved to another user or task loses its changes: right exactly if it has none. */
  lemma MoveSubmissionMirrors(v: View, subs: Submissions, chs: Changes, modes: Modes, key: string)
    requires Mirrors(v, subs, ChangesWithout(chs, key), modes)
    requires Anchored(subs, chs) && key in subs
    ensures Mirrors(v, subs, chs, modes) <==> forall k | k in chs :: chs[k].submission != key
  {
    NothingToLose(chs, key);
    var chs' := ChangesWithout(chs, key);
    if chs' != chs && Mirrors(v, subs, chs, modes) {
      MirroredChangesAreUnique(v, subs, chs, chs', modes);
      assert false;
    }
  }

  lemma NothingToLose(chs: Changes, key: string)
    ensures ChangesWithout(chs, key) == chs <==> forall k | k in chs :: chs[k].submission != key
  {
    if ChangesWithout(chs, key) == chs {
      forall k | k in chs ensures chs[k].submission != key { assert k in ChangesWithout(chs, key); }
    }
  }

  /** A task with another mode leaves the old states, mode included: right exactly if nobody submitted to it. */
  lemma ModeChangeMirrors(v: View, subs: Submissions, chs: Changes, modes: Modes, task: string, mode: Mode)
    requires Mirrors(v, subs, chs, modes) && task in modes
    ensures Mirrors(v, subs, chs, modes[task := mode]) <==>
      mode == modes[task] || forall k | k in subs :: subs[k].task != task
  {
    var modes' := modes[task := mode];
    if mode == modes[task] {
      assert modes' == modes;
    } else if forall k | k in subs :: subs[k].task != task {
      forall w | w in v ensures Faithful(v[w], subs, chs, modes', w) {
        WhoHasSubmission(v, subs, chs, modes, w);
        assert Faithful(v[w], subs, chs, modes, w);
      }
    } else {
      var k :| k in subs && subs[k].task == task;
      var w := subs[k].Who();
      assert Faithful(v[w], subs, chs, modes, w);
      assert v[w].mode == modes[task] != modes'[task];
      assert !Faithful(v[w], subs, chs, modes', w);
    }
  }
}
