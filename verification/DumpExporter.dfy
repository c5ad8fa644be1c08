/** The exporter: a worklist over the object graph. */
module DumpExporter {
  import opened Basics
  import opened Codec
  import opened DecimalIds
  import opened DumpModel

  // ---- Records under construction ----------------------------------------------------------------

  ghost predicate HasColumns(c: Class, o: Object, n: nat, r: Record)
    requires n <= |c.columns|
  {
    && ClassField in r && r[ClassField] == JString(o.cls)
    && (forall m {:trigger IsProperty(c, m)} | m in r :: IsProperty(c, m))
    && forall i | 0 <= i < n :: HasColumn(c.columns[i], o, r)
  }

  /** All the columns and the first n relationships are there, and no other relationship. */
  ghost predicate PartRecord(c: Class, s: Skips, o: Object, ids: map<Key, string>, r: Record, n: nat)
    requires n <= |c.relations|
  {
    && HasColumns(c, o, |c.columns|, r)
    && (forall i | 0 <= i < n :: HasRelation(c.relations[i], s, o, ids, r))
    && forall i | n <= i < |c.relations| :: c.relations[i].name !in r
  }

  lemma ColumnNext(c: Class, o: Object, n: nat, r: Record, j: Json)
    requires WellNamed(c) && n < |c.columns| && HasColumns(c, o, n, r)
    requires HoldsColumn(c.columns[n], o.columns) && Encode(c.columns[n].kind, o.columns[c.columns[n].name]) == Some(j)
    ensures HasColumns(c, o, n + 1, r[c.columns[n].name := j])
  {
  }

  lemma {:induction false} PartNext(c: Class, s: Skips, o: Object, ids: map<Key, string>, more: map<Key, string>, r: Record, n: nat)
    requires WellNamed(c) && n < |c.relations| && PartRecord(c, s, o, ids, r, n) && Included(ids, more)
    ensures Skipped(s, c.relations[n].target) ==> PartRecord(c, s, o, more, r, n + 1)
    ensures var p := c.relations[n];
      !Skipped(s, p.target) && p.name in o.relations && Targets(o.relations[p.name]) <= more.Keys ==>
      PartRecord(c, s, o, more, r[p.name := RelationJson(o.relations[p.name], more)], n + 1)
  {
    var p := c.relations[n];
    forall i | 0 <= i < n && !Skipped(s, c.relations[i].target)
      ensures Targets(o.relations[c.relations[i].name]) <= more.Keys
      ensures RelationJson(o.relations[c.relations[i].name], ids) == RelationJson(o.relations[c.relations[i].name], more)
    {
      assert HasRelation(c.relations[i], s, o, ids, r);
      MoreIds(o.relations[c.relations[i].name], ids, more);
    }
    assert forall i | 0 <= i < n :: HasRelation(c.relations[i], s, o, more, r);
  }

  method ExportColumns(schema: Schema, o: Object) returns (r: Option<Record>)
    requires WellFormed(schema) && Conforms(schema, o)
    ensures r.Some? <==> CanDump(schema, o)
    ensures r.Some? ==> PartRecord(schema[o.cls], Skips(false, false, false, false), o, map[], r.value, 0)
  {
    var c := schema[o.cls];
    assert WellNamed(schema[o.cls]);
    var data: Record := map[ClassField := JString(o.cls)];
    for i := 0 to |c.columns|
      invariant HasColumns(c, o, i, data)
      invariant forall j | 0 <= j < i :: Dumpable(o.columns[c.columns[j].name])
      invariant forall j | 0 <= j < |c.relations| :: c.relations[j].name !in data
    {
      var col := c.columns[i];
      assert HoldsColumn(col, o.columns);
      EncodesIffDumpable(col.kind, o.columns[col.name]);
      var j := Encode(col.kind, o.columns[col.name]);
      if j.None? { return None; }
      ColumnNext(c, o, i, data, j.value);
      data := data[col.name := j.value];
    }
    r := Some(data);
  }

  // ---- Growing the numbering ---------------------------------------------------------------------

  /** Objects were added at the end, all of them from the given set. */
  ghost predicate Grew(before: seq<Key>, after: seq<Key>, from: set<Key>) {
    before <= after && forall i | |before| <= i < |after| :: after[i] in from
  }

  lemma GrewTwice(a: seq<Key>, b: seq<Key>, c: seq<Key>, from: set<Key>, from': set<Key>)
    requires Grew(a, b, from) && Grew(b, c, from')
    ensures Grew(a, c, from + from')
  {
    assert forall i | |a| <= i < |b| :: c[i] == b[i];
  }

  lemma RelationIsHeld(schema: Schema, g: Graph, k: Key, i: nat)
    requires ValidGraph(schema, g) && k in g && g[k].cls in schema && i < |schema[g[k].cls].relations|
    ensures var n := schema[g[k].cls].relations[i].name; n in g[k].relations && Targets(g[k].relations[n]) <= g.Keys
  {
    assert Conforms(schema, g[k]);
  }

  lemma SuccessorsNext(props: seq<Relationship>, s: Skips, relations: map<string, Relation<Key>>, i: nat)
    requires i < |props|
    ensures Successors(props[..i + 1], s, relations)
         == Successors(props[..i], s, relations) + Followed(props[i], s, relations)
  {
    assert props[..i + 1][..i] == props[..i];
  }

  // ---- The worklist ------------------------------------------------------------------------------

  const RootsField := "_objects"

  const VersionField := "_version"

  type Dump = map<string, Json>

  /** The object has a record under this id, and whatever that one mentions has an id. */
  ghost predicate Recorded(schema: Schema, s: Skips, g: Graph, k: Key, ids: map<Key, string>, dump: Dump, id: string) {
    && k in g && g[k].cls in schema && CanDump(schema, g[k]) && Next(schema, s, g[k]) <= ids.Keys
    && id in dump && dump[id].JDict? && IsRecord(schema[g[k].cls], s, g[k], ids, dump[id].fields)
  }

  ghost predicate FromRoots(schema: Schema, s: Skips, g: Graph, roots: seq<Key>, order: seq<Key>) {
    && (forall k | k in order :: k in g)
    && forall k {:trigger Reachable(schema, s, g, roots, k)} | k in order :: Reachable(schema, s, g, roots, k)
  }

  ghost predicate RecordedUpTo(schema: Schema, s: Skips, g: Graph, order: seq<Key>, ids: map<Key, string>, done: nat,
                               dump: Dump)
    requires done <= |order|
  {
    && (forall i {:trigger Recorded(schema, s, g, order[i], ids, dump, Decimal(i))} | 0 <= i < done ::
          Recorded(schema, s, g, order[i], ids, dump, Decimal(i)))
    && forall id | id in dump && id !in {RootsField, VersionField} :: exists i | 0 <= i < done :: id == Decimal(i)
  }

  lemma GrewFromRoots(schema: Schema, s: Skips, g: Graph, roots: seq<Key>, order: seq<Key>, more: seq<Key>, k: Key)
    requires ValidGraph(schema, g) && FromRoots(schema, s, g, roots, order) && k in order
    requires k in g && g[k].cls in schema && Grew(order, more, Next(schema, s, g[k]))
    ensures FromRoots(schema, s, g, roots, more)
  {
    forall n | n in more ensures n in g && Reachable(schema, s, g, roots, n) {
      var i :| 0 <= i < |more| && more[i] == n;
      if i < |order| {
        assert n == order[i] && n in order;
      } else {
        SuccessorsInGraph(g, schema[g[k].cls].relations, s, k);
        assert Conforms(schema, g[n]);
        NextIsReachable(schema, s, g, roots, k, n);
      }
    }
  }

  lemma RootsComeFirst(schema: Schema, s: Skips, g: Graph, roots: seq<Key>, order: seq<Key>)
    requires ValidGraph(schema, g) && (forall k | k in roots :: k in g) && Grew([], order, set k | k in roots)
    ensures FromRoots(schema, s, g, roots, order) && forall k | k in order :: k in roots
  {
    forall k | k in order ensures k in roots && Reachable(schema, s, g, roots, k) {
      var i :| 0 <= i < |order| && order[i] == k;
      assert Conforms(schema, g[k]);
      RootIsReachable(schema, s, g, roots, k);
    }
  }

  lemma StaysRecorded(schema: Schema, s: Skips, g: Graph, k: Key, ids: map<Key, string>, more: map<Key, string>,
                      dump: Dump, i: nat, done: nat, j: Json)
    requires Recorded(schema, s, g, k, ids, dump, Decimal(i)) && Included(ids, more) && i < done
    ensures Recorded(schema, s, g, k, more, dump[Decimal(done) := j], Decimal(i))
  {
    DecimalIsInjective(i, done);
    RecordWithMoreIds(schema[g[k].cls], s, g[k], ids, more, dump[Decimal(i)].fields);
  }

  lemma RecordedNext(schema: Schema, s: Skips, g: Graph, order: seq<Key>, more: seq<Key>, ids: map<Key, string>,
                     moreIds: map<Key, string>, done: nat, dump: Dump, r: Record)
    requires done < |order| && order <= more && RecordedUpTo(schema, s, g, order, ids, done, dump)
    requires Included(ids, moreIds) && order[done] in g && g[order[done]].cls in schema
    requires CanDump(schema, g[order[done]]) && Next(schema, s, g[order[done]]) <= moreIds.Keys
    requires IsRecord(schema[g[order[done]].cls], s, g[order[done]], moreIds, r)
    ensures RecordedUpTo(schema, s, g, more, moreIds, done + 1, dump[Decimal(done) := JDict(r)])
  {
    var dump' := dump[Decimal(done) := JDict(r)];
    forall i | 0 <= i < done + 1 ensures Recorded(schema, s, g, more[i], moreIds, dump', Decimal(i)) {
      assert more[i] == order[i];
      if i < done {
        assert Recorded(schema, s, g, order[i], ids, dump, Decimal(i));
        StaysRecorded(schema, s, g, order[i], ids, moreIds, dump, i, done, JDict(r));
      }
    }
  }

  /**
    What an export is: the reachable objects and no others have ids, "0", "1" and so on, and every one
    has its record.
   */
  ghost predicate Exported(schema: Schema, s: Skips, g: Graph, roots: seq<Key>, order: seq<Key>, ids: map<Key, string>,
                           dump: Dump) {
    && Numbered(order, ids)
    && (forall k {:trigger Reachable(schema, s, g, roots, k)} :: k in ids <==> k in g && Reachable(schema, s, g, roots, k))
    && RecordedUpTo(schema, s, g, order, ids, |order|, dump)
  }

  ghost predicate AllDumpable(schema: Schema, s: Skips, g: Graph, roots: seq<Key>) {
    forall k | k in g && g[k].cls in schema && Reachable(schema, s, g, roots, k) :: CanDump(schema, g[k])
  }

  /** The ids of the roots, each once, are listed. */
  ghost predicate IsRootList(roots: seq<Key>, order: seq<Key>, dump: Dump) {
    && RootsField in dump && dump[RootsField].JList?
    && var n := |dump[RootsField].items|;
       && n <= |order| && (forall k :: k in roots <==> k in order[..n])
       && forall i | 0 <= i < n :: dump[RootsField].items[i] == JString(Decimal(i))
  }

  lemma IdIsNoField(n: nat)
    ensures Decimal(n) !in {RootsField, VersionField}
  {
    DecimalIsReadBack(n);
  }

  datatype Job = Job(schema: Schema, skips: Skips, graph: Graph, roots: seq<Key>)

  /** The first `done` objects have their records, and all that has an id is due for one. */
  ghost predicate Progress(job: Job, order: seq<Key>, ids: map<Key, string>, done: int, dump: Dump) {
    match job case Job(schema, s, g, roots) =>
      && 0 <= done <= |order| && Numbered(order, ids)
      && FromRoots(schema, s, g, roots, order) && (forall k | k in roots :: k in ids)
      && RecordedUpTo(schema, s, g, order, ids, done, dump) && IsRootList(roots, order, dump)
  }

  lemma RootListStays(roots: seq<Key>, order: seq<Key>, more: seq<Key>, dump: Dump, n: nat, j: Json)
    requires IsRootList(roots, order, dump) && order <= more
    ensures IsRootList(roots, more, dump[Decimal(n) := j]) && IsRootList(roots, more, dump[VersionField := j])
  {
    IdIsNoField(n);
    assert forall i | 0 <= i <= |order| :: order[..i] == more[..i];
  }

  lemma {:induction false} ProgressNext(job: Job, order: seq<Key>, more: seq<Key>, ids: map<Key, string>, moreIds: map<Key, string>,
                     done: nat, dump: Dump, r: Record, k: Key)
    requires Progress(job, order, ids, done, dump) && done < |order| && order[done] == k && Numbered(more, moreIds)
    requires ValidGraph(job.schema, job.graph) && k in job.graph && job.graph[k].cls in job.schema
    requires Grew(order, more, Next(job.schema, job.skips, job.graph[k]))
    requires CanDump(job.schema, job.graph[k]) && Next(job.schema, job.skips, job.graph[k]) <= moreIds.Keys
    requires IsRecord(job.schema[job.graph[k].cls], job.skips, job.graph[k], moreIds, r)
    ensures Progress(job, more, moreIds, done + 1, dump[Decimal(done) := JDict(r)])
  {
    NumberedGrows(order, ids, more, moreIds);
    GrewFromRoots(job.schema, job.skips, job.graph, job.roots, order, more, k);
    RecordedNext(job.schema, job.skips, job.graph, order, more, ids, moreIds, done, dump, r);
    RootListStays(job.roots, order, more, dump, done, JDict(r));
  }

  lemma FinishedIsExported(schema: Schema, s: Skips, g: Graph, roots: seq<Key>, order: seq<Key>, ids: map<Key, string>,
                           dump: Dump)
    requires Progress(Job(schema, s, g, roots), order, ids, |order|, dump)
    ensures Exported(schema, s, g, roots, order, ids, dump)
    ensures forall k | k in ids :: k in g && g[k].cls in schema && CanDump(schema, g[k])
  {
    forall k | k in ids ensures k in g && g[k].cls in schema && CanDump(schema, g[k]) && Next(schema, s, g[k]) <= ids.Keys {
      var i :| 0 <= i < |order| && order[i] == k;
      assert Recorded(schema, s, g, order[i], ids, dump, Decimal(i));
    }
    forall k | k in g && Reachable(schema, s, g, roots, k) ensures k in ids {
      var p: seq<Key> :| p != [] && IsPath(schema, s, g, p) && p[0] in roots && p[|p| - 1] == k;
      ClosedHasReachable(schema, s, g, ids.Keys, p);
    }
  }

  lemma Begun(job: Job, order: seq<Key>, ids: map<Key, string>, dump: Dump)
    requires Numbered(order, ids) && FromRoots(job.schema, job.skips, job.graph, job.roots, order)
    requires forall k :: k in job.roots <==> k in ids
    requires dump == map[RootsField := JList(Ids(order, ids))]
    ensures Progress(job, order, ids, 0, dump)
  {
    assert order[..|order|] == order;
  }

  lemma OrderIsSmall(order: seq<Key>, ids: map<Key, string>, g: Graph)
    requires Numbered(order, ids) && forall k | k in order :: k in g
    ensures |order| <= |g|
  {
    NumberedOnce(order, ids);
    NumberedIsSmall(order, g.Keys);
  }

  lemma Failed(job: Job, order: seq<Key>, ids: map<Key, string>, done: nat, dump: Dump)
    requires Progress(job, order, ids, done, dump) && done < |order|
    requires order[done] in job.graph && job.graph[order[done]].cls in job.schema
    requires !CanDump(job.schema, job.graph[order[done]])
    ensures !AllDumpable(job.schema, job.skips, job.graph, job.roots)
  {
    assert order[done] in order;
  }

  lemma Finished(job: Job, order: seq<Key>, ids: map<Key, string>, dump: Dump, version: real)
    requires Progress(job, order, ids, |order|, dump)
    ensures var all := dump[VersionField := JNumber(version)];
      Exported(job.schema, job.skips, job.graph, job.roots, order, ids, all) && IsRootList(job.roots, order, all)
    ensures AllDumpable(job.schema, job.skips, job.graph, job.roots)
  {
    var all := dump[VersionField := JNumber(version)];
    FinishedIsExported(job.schema, job.skips, job.graph, job.roots, order, ids, dump);
    RootListStays(job.roots, order, order, dump, 0, JNumber(version));
    RecordedWithField(job.schema, job.skips, job.graph, order, ids, dump, JNumber(version));
  }

  lemma RecordedWithField(schema: Schema, s: Skips, g: Graph, order: seq<Key>, ids: map<Key, string>, dump: Dump, j: Json)
    requires RecordedUpTo(schema, s, g, order, ids, |order|, dump)
    ensures RecordedUpTo(schema, s, g, order, ids, |order|, dump[VersionField := j])
  {
    forall i | 0 <= i < |order| ensures Recorded(schema, s, g, order[i], ids, dump[VersionField := j], Decimal(i)) {
      IdIsNoField(i);
      assert Recorded(schema, s, g, order[i], ids, dump, Decimal(i));
    }
  }

  class Exporter {
    const schema: Schema
    const skips: Skips
    const graph: Graph
    /** A dictionary, and the order in which its keys were inserted. */
    var ids: map<Key, string>
    var order: seq<Key>
    var queue: seq<Key>

    constructor (schema: Schema, skips: Skips, graph: Graph)
      ensures this.schema == schema && this.skips == skips && this.graph == graph
      ensures Valid() && order == []
    {
      this.schema, this.skips, this.graph := schema, skips, graph;
      ids, queue, order := map[], [], [];
    }

    /** The queue has the objects that have an id and no record yet, in the order of their ids. */
    ghost predicate Valid()
      reads this
    {
      && Numbered(order, ids)
      && |queue| <= |order| && queue == order[Done()..]
      && forall k | k in order :: k in graph
    }

    ghost function Done(): int
      reads this
    {
      |order| - |queue|
    }

    method GetId(k: Key) returns (id: string)
      requires Valid() && k in graph
      modifies this
      ensures Valid() && Done() == old(Done()) && k in ids && id == ids[k]
      ensures order == old(order) + if k in old(ids) then [] else [k]
      ensures Included(old(ids), ids)
    {
      if k !in ids {
        NumberedNext(order, ids, k);
        ids := ids[k := Decimal(|ids|)];
        queue, order := queue + [k], order + [k];
      }
      id := ids[k];
    }

    method ExportList(list: seq<Key>) returns (items: seq<Json>)
      requires Valid() && forall k | k in list :: k in graph
      modifies this
      ensures Valid() && Done() == old(Done()) && Grew(old(order), order, set k | k in list)
      ensures (forall k | k in list :: k in ids) && items == Ids(list, ids)
    {
      items := [];
      for i := 0 to |list|
        invariant Valid() && Done() == old(Done()) && Grew(old(order), order, set k | k in list)
        invariant |items| == i && forall j | 0 <= j < i :: list[j] in ids && items[j] == JString(ids[list[j]])
      {
        var id := GetId(list[i]);
        items := items + [JString(id)];
      }
      forall k | k in list ensures k in ids { var i :| 0 <= i < |list| && list[i] == k; }
    }

    /** A dictionary, whatever the order of its items. */
    method ExportNamed(dict: map<string, Key>) returns (fields: map<string, Json>)
      requires Valid() && dict.Values <= graph.Keys
      modifies this
      ensures Valid() && Done() == old(Done()) && Grew(old(order), order, dict.Values)
      ensures fields.Keys == dict.Keys
      ensures forall n | n in dict :: dict[n] in ids && fields[n] == JString(ids[dict[n]])
    {
      fields := map[];
      var left := dict.Keys;
      while left != {}
        invariant left <= dict.Keys && fields.Keys == dict.Keys - left
        invariant Valid() && Done() == old(Done()) && Grew(old(order), order, dict.Values)
        invariant forall n | n in fields :: dict[n] in ids && fields[n] == JString(ids[dict[n]])
        decreases left
      {
        var n :| n in left;
        assert dict[n] in dict.Values;
        var id := GetId(dict[n]);
        fields, left := fields[n := JString(id)], left - {n};
      }
    }

    method ExportRelation(r: Relation<Key>) returns (j: Json)
      requires Valid() && Targets(r) <= graph.Keys
      modifies this
      ensures Valid() && Done() == old(Done()) && Grew(old(order), order, Targets(r))
      ensures Targets(r) <= ids.Keys && j == RelationJson(r, ids)
    {
      match r {
        case Empty => j := JNull;
        case One(k) =>
          var id := GetId(k);
          j := JString(id);
        case Many(list) =>
          var items := ExportList(list);
          j := JList(items);
        case Named(dict) =>
          var fields := ExportNamed(dict);
          assert fields == RelationJson(r, ids).fields;
          j := JDict(fields);
      }
    }

    /** `export_object`: fails if and only if some column cannot be dumped. */
    method ExportObject(k: Key) returns (r: Option<Record>)
      requires WellFormed(schema) && ValidGraph(schema, graph) && Valid() && k in graph && Conforms(schema, graph[k])
      modifies this
      ensures Valid() && Done() == old(Done()) && Grew(old(order), order, Next(schema, skips, graph[k]))
      ensures r.Some? <==> CanDump(schema, graph[k])
      ensures r.Some? ==> Next(schema, skips, graph[k]) <= ids.Keys
      ensures r.Some? ==> IsRecord(schema[graph[k].cls], skips, graph[k], ids, r.value)
    {
      var o := graph[k];
      var c := schema[o.cls];
      assert WellNamed(schema[o.cls]);
      var columns := ExportColumns(schema, o);
      if columns.None? { return None; }
      var data := columns.value;
      for i := 0 to |c.relations|
        invariant Valid() && Done() == old(Done())
        invariant Grew(old(order), order, Successors(c.relations[..i], skips, o.relations))
        invariant Successors(c.relations[..i], skips, o.relations) <= ids.Keys
        invariant PartRecord(c, skips, o, ids, data, i)
      {
        RelationIsHeld(schema, graph, k, i);
        SuccessorsNext(c.relations, skips, o.relations, i);
        ghost var before := order;
        data := ExportProperty(c, o, i, data);
        GrewTwice(old(order), before, order, Successors(c.relations[..i], skips, o.relations),
                  Followed(c.relations[i], skips, o.relations));
      }
      assert c.relations[..|c.relations|] == c.relations;
      r := Some(data);
    }

    /** One relationship of an object. */
    method ExportProperty(c: Class, o: Object, i: nat, data: Record) returns (r: Record)
      requires Valid() && WellNamed(c) && i < |c.relations| && PartRecord(c, skips, o, ids, data, i)
      requires c.relations[i].name in o.relations && Targets(o.relations[c.relations[i].name]) <= graph.Keys
      modifies this
      ensures Valid() && Done() == old(Done()) && Included(old(ids), ids)
      ensures Grew(old(order), order, Followed(c.relations[i], skips, o.relations))
      ensures Followed(c.relations[i], skips, o.relations) <= ids.Keys
      ensures PartRecord(c, skips, o, ids, r, i + 1)
    {
      var p := c.relations[i];
      r := data;
      if !Skipped(skips, p.target) {
        var j := ExportRelation(o.relations[p.name]);
        NumberedGrows(old(order), old(ids), order, ids);
        r := data[p.name := j];
      }
      PartNext(c, skips, o, old(ids), ids, data, i);
    }

    /** The roots get the first ids. */
    method Start(roots: seq<Key>)
      requires Valid() && order == [] && ValidGraph(schema, graph) && forall k | k in roots :: k in graph
      modifies this
      ensures Valid() && Done() == 0 && FromRoots(schema, skips, graph, roots, order)
      ensures forall k :: k in roots <==> k in ids
    {
      var items := ExportList(roots);
      RootsComeFirst(schema, skips, graph, roots, order);
    }

    method Pop() returns (k: Key)
      requires Valid() && queue != []
      modifies this`queue
      ensures Valid() && Done() == old(Done()) + 1
      ensures k == old(queue[0]) && k == order[old(Done())] && k in graph && k in ids && ids[k] == Decimal(old(Done()))
    {
      k := queue[0];
      assert k == order[Done()] && k in order;
      queue := queue[1..];
    }

    /** One turn of the worklist loop; fails if and only if the object cannot be dumped. */
    method Step(ghost job: Job, ghost dump: Dump) returns (id: string, data: Option<Record>)
      requires WellFormed(schema) && ValidGraph(schema, graph) && Valid() && queue != []
      requires job == Job(schema, skips, graph, job.roots) && Progress(job, order, ids, Done(), dump)
      modifies this
      ensures Valid() && old(Done()) < Done() <= |graph|
      ensures data.None? ==> !AllDumpable(schema, skips, graph, job.roots)
      ensures data.Some? ==> Progress(job, order, ids, Done(), dump[id := JDict(data.value)])
    {
      ghost var done := Done();
      var k := Pop();
      assert Conforms(schema, graph[k]);
      id := ids[k];
      data := ExportObject(k);
      if data.Some? {
        ProgressNext(job, old(order), order, old(ids), ids, done, dump, data.value, k);
      } else {
        Failed(job, old(order), old(ids), done, dump);
      }
      OrderIsSmall(order, ids, graph);
    }

    /**
      `do_export`: terminates on every graph, and fails if and only if something reachable cannot be
      dumped.
     */
    method Export(roots: seq<Key>, version: real) returns (r: Option<Dump>)
      requires WellFormed(schema) && ValidGraph(schema, graph) && Valid() && order == []
      requires forall k | k in roots :: k in graph
      modifies this
      ensures r.Some? <==> AllDumpable(schema, skips, graph, roots)
      ensures r.Some? ==> Exported(schema, skips, graph, roots, order, ids, r.value)
      ensures r.Some? ==> IsRootList(roots, order, r.value)
      ensures r.Some? ==> "_version" in r.value && r.value["_version"] == JNumber(version)
    {
      ghost var job := Job(schema, skips, graph, roots);
      Start(roots);
      var dump: Dump := map[RootsField := JList(Ids(order, ids))];
      Begun(job, order, ids, dump);
      while queue != []
        invariant Valid() && Progress(job, order, ids, Done(), dump)
        decreases |graph| - Done()
      {
        var id, data := Step(job, dump);
        if data.None? { return None; }
        dump := dump[id := JDict(data.value)];
      }
      Finished(job, order, ids, dump, version);
      r := Some(dump[VersionField := JNumber(version)]);
    }
  }
}
