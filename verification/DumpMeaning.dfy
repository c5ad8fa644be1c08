/**
  What is in a dump and what is read from it, in terms of the classes that each option leaves out, and
  of the relationships of the objects one by one.
 */
module DumpMeaning {
  import opened Basics
  import opened Codec
  import opened DecimalIds
  import opened DumpModel
  import opened DumpExporter
  import opened DumpImporter
  import opened DumpRoundTrip

  // ---- Export ------------------------------------------------------------------------------------

  function If(flag: bool, classes: set<string>): set<string> { if flag then classes else {} }

  /** The classes to which an export follows no relationship. */
  function Withheld(s: Skips): set<string> {
    {"RankingGroup"} + If(s.submissions, {"Submission"}) + If(s.userTests, {"UserTest"})
    + If(s.users, {"Participation", "Submission", "UserTest", "Announcement"})
    + If(s.generated, {"SubmissionResult", "UserTestResult"})
  }

  /** The relationship has the object at its other end. */
  ghost predicate Mentions(r: Relation<Key>, k: Key) {
    || r == One(k)
    || (r.Many? && exists i | 0 <= i < |r.list| :: r.list[i] == k)
    || (r.Named? && exists n | n in r.dict :: r.dict[n] == k)
  }

  /** The relationship is written with the ids of its objects, in the same shape. */
  ghost predicate WrittenAs(r: Relation<Key>, ids: map<Key, string>, j: Json) {
    && (forall k | Mentions(r, k) :: k in ids)
    && (r.Empty? ==> j == JNull)
    && (r.One? ==> Mentions(r, r.object_) && j == JString(ids[r.object_]))
    && (r.Many? ==> j.JList? && |j.items| == |r.list|)
    && (r.Many? ==> forall i | 0 <= i < |r.list| :: Mentions(r, r.list[i]) && j.items[i] == JString(ids[r.list[i]]))
    && (r.Named? ==> j.JDict? && j.fields.Keys == r.dict.Keys)
    && (r.Named? ==> forall n | n in r.dict :: Mentions(r, r.dict[n]) && j.fields[n] == JString(ids[r.dict[n]]))
  }

  /** Some relationship to a class that is not withheld leads from the one object to the other. */
  ghost predicate Leads(schema: Schema, s: Skips, o: Object, k: Key) {
    && o.cls in schema
    && exists i | 0 <= i < |schema[o.cls].relations| :: var p := schema[o.cls].relations[i];
         p.target !in Withheld(s) && p.name in o.relations && Mentions(o.relations[p.name], k)
  }

  ghost predicate IsTrail(schema: Schema, s: Skips, g: Graph, p: seq<Key>) {
    && (forall i | 0 <= i < |p| :: p[i] in g && g[p[i]].cls in schema)
    && forall i | 0 < i < |p| :: Leads(schema, s, g[p[i - 1]], p[i])
  }

  lemma SkippedIsWithheld(s: Skips, target: string)
    ensures Skipped(s, target) <==> target in Withheld(s)
  {
  }

  lemma TargetsAreMentioned(r: Relation<Key>, k: Key)
    ensures k in Targets(r) <==> Mentions(r, k)
  {
  }

  lemma {:induction false} SuccessorsAre(props: seq<Relationship>, s: Skips, relations: map<string, Relation<Key>>, k: Key)
    ensures k in Successors(props, s, relations) <==>
      exists i | 0 <= i < |props| ::
        props[i].target !in Withheld(s) && props[i].name in relations && Mentions(relations[props[i].name], k)
  {
    if props != [] {
      var n := |props| - 1;
      SuccessorsAre(props[..n], s, relations, k);
      SkippedIsWithheld(s, props[n].target);
      if props[n].name in relations { TargetsAreMentioned(relations[props[n].name], k); }
      assert forall i | 0 <= i < n :: props[..n][i] == props[i];
    }
  }

  lemma NextIsLed(schema: Schema, s: Skips, o: Object, k: Key)
    requires o.cls in schema
    ensures k in Next(schema, s, o) <==> Leads(schema, s, o, k)
  {
    SuccessorsAre(schema[o.cls].relations, s, o.relations, k);
  }

  lemma PathIsTrail(schema: Schema, s: Skips, g: Graph, p: seq<Key>)
    ensures IsPath(schema, s, g, p) <==> IsTrail(schema, s, g, p)
  {
    if forall i | 0 <= i < |p| :: p[i] in g && g[p[i]].cls in schema {
      forall i | 0 < i < |p| ensures p[i] in Next(schema, s, g[p[i - 1]]) <==> Leads(schema, s, g[p[i - 1]], p[i]) {
        NextIsLed(schema, s, g[p[i - 1]], p[i]);
      }
    }
  }

  /** An export has exactly the objects to which some trail leads from a root. */
  lemma ExportedIffLed(schema: Schema, s: Skips, g: Graph, roots: seq<Key>, order: seq<Key>, ids: map<Key, string>,
                       dump: Dump, k: Key)
    requires Exported(schema, s, g, roots, order, ids, dump)
    ensures k in ids <==> exists p: seq<Key> :: p != [] && IsTrail(schema, s, g, p) && p[0] in roots && p[|p| - 1] == k
  {
    if k in ids {
      assert Reachable(schema, s, g, roots, k);
      var p: seq<Key> :| p != [] && IsPath(schema, s, g, p) && p[0] in roots && p[|p| - 1] == k;
      PathIsTrail(schema, s, g, p);
    }
    if p: seq<Key> :| p != [] && IsTrail(schema, s, g, p) && p[0] in roots && p[|p| - 1] == k {
      PathIsTrail(schema, s, g, p);
      assert Reachable(schema, s, g, roots, k);
    }
  }

  lemma RelationIsWritten(r: Relation<Key>, ids: map<Key, string>)
    requires Targets(r) <= ids.Keys
    ensures WrittenAs(r, ids, RelationJson(r, ids))
  {
    forall k ensures k in Targets(r) <==> Mentions(r, k) { TargetsAreMentioned(r, k); }
  }

  /**
    The record of an object has no relationship to a withheld class, and every other relationship of the
    object: all that it mentions is in the dump as well.
   */
  lemma RecordMeans(schema: Schema, s: Skips, g: Graph, roots: seq<Key>, order: seq<Key>, ids: map<Key, string>,
                    dump: Dump, k: Key, i: nat)
    requires WellFormed(schema) && Exported(schema, s, g, roots, order, ids, dump) && k in ids
    ensures k in g && g[k].cls in schema && ids[k] in dump && dump[ids[k]].JDict?
    ensures dump[ids[k]].fields.Keys >= {"_class"} && dump[ids[k]].fields["_class"] == JString(g[k].cls)
    ensures i < |schema[g[k].cls].relations| ==>
      var p, r := schema[g[k].cls].relations[i], dump[ids[k]].fields;
      && (p.name in r <==> p.target !in Withheld(s))
      && (p.name in r ==> p.name in g[k].relations && WrittenAs(g[k].relations[p.name], ids, r[p.name]))
      && (p.name in r ==> forall x | Mentions(g[k].relations[p.name], x) :: x in ids && ids[x] in dump)
  {
    ObjectIsRecorded(schema, s, g, roots, order, ids, dump, k);
    if i < |schema[g[k].cls].relations| {
      var p, r := schema[g[k].cls].relations[i], dump[ids[k]].fields;
      assert HasRelation(p, s, g[k], ids, r);
      SkippedIsWithheld(s, p.target);
      if p.target !in Withheld(s) {
        RelationIsWritten(g[k].relations[p.name], ids);
        forall x | Mentions(g[k].relations[p.name], x) ensures x in ids && ids[x] in dump {
          ObjectIsRecorded(schema, s, g, roots, order, ids, dump, x);
        }
      }
    }
  }

  /** The list of objects has the ids of the roots, each once: "0", "1" and so on. */
  lemma RootsMean(roots: seq<Key>, order: seq<Key>, ids: map<Key, string>, dump: Dump)
    requires Numbered(order, ids) && IsRootList(roots, order, dump)
    ensures "_objects" in dump && dump["_objects"].JList?
    ensures forall k :: k in roots <==> k in ids && JString(ids[k]) in dump["_objects"].items
    ensures forall i | 0 <= i < |dump["_objects"].items| :: dump["_objects"].items[i] == JString(Decimal(i))
  {
    var items := dump["_objects"].items;
    var n := |items|;
    assert dump["_objects"] == dump[RootsField];
    forall k | k in roots ensures k in ids && JString(ids[k]) in items {
      var i :| 0 <= i < n && order[..n][i] == k;
      assert order[i] == k && items[i] == JString(Decimal(i));
    }
    forall k | k in ids && JString(ids[k]) in items ensures k in roots {
      var i :| 0 <= i < n && items[i] == JString(ids[k]);
      assert ids[order[i]] == Decimal(i) && order[i] in ids;
      IdsAreDistinct(order, ids, k, order[i]);
      assert order[..n][i] == k;
    }
  }

  // ---- Import ------------------------------------------------------------------------------------

  /** The classes whose objects an import leaves out. */
  function Dismissed(s: Skips): set<string> {
    If(s.submissions, {"Submission"}) + If(s.userTests, {"UserTest"})
    + If(s.users, {"User", "Participation", "Submission", "UserTest", "Announcement"})
    + If(s.generated, {"SubmissionResult", "UserTestResult"})
  }

  /** An object for every entry, but for those of the dismissed classes. */
  lemma ImportedIff(schema: Schema, latest: int, s: Skips, drop: bool, dump: map<string, Json>, objs: Nodes, id: string)
    requires Imported(schema, latest, s, drop, dump, objs)
    ensures id in objs <==>
      id in dump && !("_" <= id) && dump[id].JDict? && "_class" in dump[id].fields && dump[id].fields["_class"].JString? &&
      dump[id].fields["_class"].text !in Dismissed(s)
    ensures id in objs ==> dump[id].fields["_class"] == JString(objs[id].cls)
  {
    assert IsEntry(id) <==> !("_" <= id);
    if id in objs { assert Made(schema, latest, drop, dump, id, objs[id].cls, objs[id].columns); }
    if id in dump && IsEntry(id) { assert EntryReadable(schema, dump[id]); }
  }

  /** Contests arrive inactive, unless the database was dropped; every other column is as the record has it. */
  lemma ImportedColumns(schema: Schema, latest: int, s: Skips, drop: bool, dump: map<string, Json>, objs: Nodes, id: string, i: nat)
    requires Imported(schema, latest, s, drop, dump, objs) && id in objs
    ensures !drop && objs[id].cls == "Contest" ==> "active" in objs[id].columns && objs[id].columns["active"] == PlainValue(JBool(false))
    ensures objs[id].cls in schema && id in dump && dump[id].JDict?
    ensures i < |schema[objs[id].cls].columns| && (drop || objs[id].cls != "Contest" || schema[objs[id].cls].columns[i].name != "active") ==>
      var c, r := schema[objs[id].cls].columns[i], dump[id].fields;
      && c.name in objs[id].columns
      && (c.name in r ==> Readable(c.kind, r[c.name]) && objs[id].columns[c.name] == Decode(latest, c.kind, r[c.name]))
      && (c.name !in r ==> Some(objs[id].columns[c.name]) == if c.default != None then c.default else Some(Null))
  {
    var cls, columns, r := objs[id].cls, objs[id].columns, dump[id].fields;
    assert Made(schema, latest, drop, dump, id, cls, columns);
    var m :| IsColumns(latest, schema[cls].columns, r, m) && columns == Arrived(drop, cls, m);
    if i < |schema[cls].columns| { assert ColumnReadable(schema[cls].columns[i], r); }
  }

  lemma LinkedSingle<T>(id: string, objs: map<string, T>)
    ensures LinkedList([JString(id)], objs) == if id in objs then [objs[id]] else []
  {
    assert [JString(id)][..0] == [];
    assert LinkedList<T>([], objs) == [];
  }

  /** The objects of a list, those that are missing left out and the others in their order. */
  lemma {:induction false} LinkedInOrder<T>(a: seq<Json>, b: seq<Json>, objs: map<string, T>)
    ensures LinkedList(a + b, objs) == LinkedList(a, objs) + LinkedList(b, objs)
  {
    if b == [] {
      assert a + b == a;
    } else {
      var n := |b| - 1;
      LinkedInOrder(a, b[..n], objs);
      assert (a + b)[..|a| + n] == a + b[..n] && (a + b)[|a| + n] == b[n];
      var last := if b[n].JString? && b[n].text in objs then [objs[b[n].text]] else [];
      ConcatIsAssociative(LinkedList(a, objs), LinkedList(b[..n], objs), last);
    }
  }

  /** The relationship as it was read. */
  ghost predicate ReadAs<T>(j: Json, objs: map<string, T>, r: Relation<T>) {
    && (j.JNull? ==> r == Empty)
    && (j.JString? ==> r == if j.text in objs then One(objs[j.text]) else Empty)
    && (j.JList? ==> r.Many? && r.list == LinkedList(j.items, objs))
    && (j.JDict? ==> r.Named?)
    && (j.JDict? ==> forall n :: n in r.dict <==> n in j.fields && j.fields[n].JString? && j.fields[n].text in objs)
    && (j.JDict? ==> forall n | n in r.dict :: r.dict[n] == objs[j.fields[n].text])
  }

  /** An object has the relationships of its record, each to the objects that were imported. */
  lemma ImportedRelations(schema: Schema, latest: int, s: Skips, drop: bool, dump: map<string, Json>, objs: Nodes, id: string, i: nat)
    requires Imported(schema, latest, s, drop, dump, objs) && id in objs
    ensures objs[id].cls in schema && id in dump && dump[id].JDict?
    ensures i < |schema[objs[id].cls].relations| ==>
      var n, r := schema[objs[id].cls].relations[i].name, dump[id].fields;
      && (n in objs[id].relations <==> n in r)
      && (n in r ==> ReadAs(r[n], objs, objs[id].relations[n]))
  {
    assert Made(schema, latest, drop, dump, id, objs[id].cls, objs[id].columns);
    assert LinkedNode(schema, dump, id, objs, objs[id]);
    if i < |schema[objs[id].cls].relations| {
      var n, r := schema[objs[id].cls].relations[i].name, dump[id].fields;
      assert IsLinkedProperty(n, r, objs, objs[id].relations);
      assert RecordReadable(schema, r);
    }
  }
}
