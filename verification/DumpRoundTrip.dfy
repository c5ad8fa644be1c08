/** Importing an export gives back the objects that were reachable, up to the choice of objects. */
module DumpRoundTrip {
  import opened Basics
  import opened Codec
  import opened DecimalIds
  import opened DumpModel
  import opened DumpExporter
  import opened DumpImporter

  // ---- One object --------------------------------------------------------------------------------

  lemma EncodedColumnIsReadable(c: Column, o: Object, r: Record)
    requires HasColumn(c, o, r)
    ensures ColumnReadable(c, r)
  {
    EncodedIsReadable(c.kind, o.columns[c.name]);
  }

  lemma RecordIsReadable(schema: Schema, s: Skips, o: Object, ids: map<Key, string>, r: Record)
    requires o.cls in schema && WellNamed(schema[o.cls]) && IsRecord(schema[o.cls], s, o, ids, r)
    ensures RecordReadable(schema, r)
  {
    var c := schema[o.cls];
    forall i | 0 <= i < |c.columns| ensures ColumnReadable(c.columns[i], r) {
      assert HasColumn(c.columns[i], o, r);
      EncodedColumnIsReadable(c.columns[i], o, r);
    }
    forall i | 0 <= i < |c.relations| && c.relations[i].name in r ensures IsIds(r[c.relations[i].name]) {
      assert HasRelation(c.relations[i], s, o, ids, r);
    }
  }

  /** All dates of the object fit the system that reads them. */
  predicate FitsObject(latest: int, o: Object) { forall n | n in o.columns :: Fits(latest, o.columns[n]) }

  lemma ColumnRoundTrip(latest: int, c: Column, o: Object, r: Record)
    requires HasColumn(c, o, r) && ColumnReadable(c, r)
    ensures ColumnValue(latest, c, r) == o.columns[c.name] <==> Fits(latest, o.columns[c.name])
  {
    ValueRoundTrip(latest, c.kind, o.columns[c.name]);
  }

  lemma NamedRoundTrip(cols: seq<Column>, latest: int, o: Object, r: Record, m: map<string, Value>, n: string)
    requires forall i | 0 <= i < |cols| :: ColumnReadable(cols[i], r) && HasColumn(cols[i], o, r)
    requires IsColumns(latest, cols, r, m) && exists i | 0 <= i < |cols| :: cols[i].name == n
    ensures n in m && n in o.columns && (m[n] == o.columns[n] <==> Fits(latest, o.columns[n]))
  {
    var i :| 0 <= i < |cols| && cols[i].name == n;
    ColumnRoundTrip(latest, cols[i], o, r);
  }

  /** The columns are read back as they were if and only if all dates fit. */
  lemma {:induction false} ColumnsRoundTrip(schema: Schema, s: Skips, latest: int, o: Object, ids: map<Key, string>, r: Record,
                         m: map<string, Value>)
    requires Conforms(schema, o) && IsRecord(schema[o.cls], s, o, ids, r)
    requires forall i | 0 <= i < |schema[o.cls].columns| :: ColumnReadable(schema[o.cls].columns[i], r)
    requires IsColumns(latest, schema[o.cls].columns, r, m)
    ensures m == o.columns <==> FitsObject(latest, o)
  {
    forall n | n in m || n in o.columns
      ensures n in m && n in o.columns && (m[n] == o.columns[n] <==> Fits(latest, o.columns[n]))
    {
      NamedRoundTrip(schema[o.cls].columns, latest, o, r, m, n);
    }
    assert m.Keys == o.columns.Keys;
  }

  function MappedList<K, T>(list: seq<K>, f: map<K, T>): seq<T>
    requires forall k | k in list :: k in f
  {
    seq(|list|, i requires 0 <= i < |list| => f[list[i]])
  }

  /** A relationship to other objects in place of the original ones. */
  function Mapped<K, T>(r: Relation<K>, f: map<K, T>): Relation<T>
    requires Targets(r) <= f.Keys
  {
    match r
    case Empty => Empty
    case One(k) => One(f[k])
    case Many(list) => Many(MappedList(list, f))
    case Named(m) => Named(map n | n in m :: assert m[n] in m.Values; f[m[n]])
  }

  /** The object that stands for an object. */
  function Images<T>(ids: map<Key, string>, objs: map<string, T>): map<Key, T>
    requires ids.Values <= objs.Keys
  {
    map k | k in ids :: assert ids[k] in ids.Values; objs[ids[k]]
  }

  lemma {:induction false} ListRoundTrip<T>(list: seq<Key>, ids: map<Key, string>, objs: map<string, T>)
    requires (forall k | k in list :: k in ids) && ids.Values <= objs.Keys
    ensures LinkedList(Ids(list, ids), objs) == MappedList(list, Images(ids, objs))
  {
    if list != [] {
      var n, f := |list| - 1, Images(ids, objs);
      ListRoundTrip(list[..n], ids, objs);
      assert Ids(list, ids)[..n] == Ids(list[..n], ids);
      assert ids[list[n]] in ids.Values;
      assert MappedList(list, f) == MappedList(list[..n], f) + [f[list[n]]];
    }
  }

  lemma RelationRoundTrip<T>(r: Relation<Key>, ids: map<Key, string>, objs: map<string, T>)
    requires Targets(r) <= ids.Keys && ids.Values <= objs.Keys
    ensures IsIds(RelationJson(r, ids)) && Linked(RelationJson(r, ids), objs) == Mapped(r, Images(ids, objs))
  {
    match r
    case One(k) => assert ids[k] in ids.Values;
    case Many(list) => ListRoundTrip(list, ids, objs);
    case Named(m) =>
      var j := RelationJson(r, ids);
      forall n | n in m ensures j.fields[n].text in objs && objs[j.fields[n].text] == Images(ids, objs)[m[n]] {
        assert m[n] in m.Values && ids[m[n]] in ids.Values;
      }
      assert Linked(j, objs).dict == Mapped(r, Images(ids, objs)).dict;
    case _ =>
  }

  // ---- The whole dump ----------------------------------------------------------------------------

  lemma EntryIsRecord(schema: Schema, s: Skips, g: Graph, roots: seq<Key>, order: seq<Key>, ids: map<Key, string>,
                      dump: Dump, id: string) returns (k: Key)
    requires Exported(schema, s, g, roots, order, ids, dump) && id in dump && IsEntry(id)
    ensures k in ids && ids[k] == id && Recorded(schema, s, g, k, ids, dump, id)
  {
    assert id !in {RootsField, VersionField};
    var i :| 0 <= i < |order| && id == Decimal(i);
    k := order[i];
    assert Recorded(schema, s, g, order[i], ids, dump, Decimal(i));
  }

  lemma ObjectIsRecorded(schema: Schema, s: Skips, g: Graph, roots: seq<Key>, order: seq<Key>, ids: map<Key, string>,
                         dump: Dump, k: Key)
    requires Exported(schema, s, g, roots, order, ids, dump) && k in ids
    ensures IsEntry(ids[k]) && Recorded(schema, s, g, k, ids, dump, ids[k])
  {
    var i :| 0 <= i < |order| && order[i] == k;
    assert Recorded(schema, s, g, order[i], ids, dump, Decimal(i));
    DecimalIsReadBack(i);
  }

  /** Every id that a record mentions has a record. */
  lemma MentionedIsRecorded(schema: Schema, s: Skips, g: Graph, roots: seq<Key>, order: seq<Key>, ids: map<Key, string>,
                            dump: Dump, k: Key, n: Key)
    requires Exported(schema, s, g, roots, order, ids, dump)
    requires k in ids && k in g && g[k].cls in schema && n in Next(schema, s, g[k])
    ensures n in ids && ids[n] in dump && Recorded(schema, s, g, n, ids, dump, ids[n])
  {
    ObjectIsRecorded(schema, s, g, roots, order, ids, dump, k);
    ObjectIsRecorded(schema, s, g, roots, order, ids, dump, n);
  }

  /** Whatever the exporter writes, the importer can read. */
  lemma ExportIsReadable(schema: Schema, s: Skips, g: Graph, roots: seq<Key>, order: seq<Key>, ids: map<Key, string>,
                         dump: Dump)
    requires WellFormed(schema) && Exported(schema, s, g, roots, order, ids, dump)
    ensures DumpReadable(schema, dump)
  {
    forall id | id in dump && IsEntry(id) ensures EntryReadable(schema, dump[id]) {
      var k := EntryIsRecord(schema, s, g, roots, order, ids, dump, id);
      assert WellNamed(schema[g[k].cls]);
      RecordIsReadable(schema, s, g[k], ids, dump[id].fields);
    }
  }

  const NoSkips := Skips(false, false, false, false)

  ghost predicate SameRelation(p: Relationship, s: Skips, o: Object, ids: map<Key, string>, objs: Nodes,
                               relations: map<string, Relation<Node>>)
    requires ids.Values <= objs.Keys
  {
    if Skipped(s, p.target) then p.name !in relations else
      && p.name in relations && p.name in o.relations && Targets(o.relations[p.name]) <= ids.Keys
      && relations[p.name] == Mapped(o.relations[p.name], Images(ids, objs))
  }

  /** The object has the class, the columns and the relationships of the original. */
  ghost predicate Mirrors(schema: Schema, s: Skips, latest: int, o: Object, ids: map<Key, string>, objs: Nodes, node: Node)
    requires ids.Values <= objs.Keys
    reads node
  {
    && o.cls in schema && node.cls == o.cls
    && (node.columns == o.columns <==> FitsObject(latest, o))
    && forall i | 0 <= i < |schema[o.cls].relations| ::
         SameRelation(schema[o.cls].relations[i], s, o, ids, objs, node.relations)
  }

  lemma RelationsRoundTrip(schema: Schema, s: Skips, o: Object, ids: map<Key, string>, objs: Nodes, r: Record,
                           relations: map<string, Relation<Node>>, i: nat)
    requires o.cls in schema && i < |schema[o.cls].relations| && ids.Values <= objs.Keys
    requires IsRecord(schema[o.cls], s, o, ids, r) && IsLinked(schema[o.cls].relations, r, objs, relations)
    ensures SameRelation(schema[o.cls].relations[i], s, o, ids, objs, relations)
  {
    var p := schema[o.cls].relations[i];
    assert HasRelation(p, s, o, ids, r);
    if !Skipped(s, p.target) { RelationRoundTrip(o.relations[p.name], ids, objs); }
  }

  lemma ObjectRoundTrip(schema: Schema, s: Skips, latest: int, g: Graph, k: Key, ids: map<Key, string>, dump: Dump,
                        objs: Nodes, id: string)
    requires WellFormed(schema) && ValidGraph(schema, g) && ids.Values <= objs.Keys
    requires Recorded(schema, s, g, k, ids, dump, id) && id in objs
    requires Made(schema, latest, true, dump, id, objs[id].cls, objs[id].columns)
    requires LinkedNode(schema, dump, id, objs, objs[id])
    ensures Mirrors(schema, s, latest, g[k], ids, objs, objs[id])
  {
    var o, r, node := g[k], dump[id].fields, objs[id];
    assert Conforms(schema, g[k]) && WellNamed(schema[o.cls]);
    assert node.cls == o.cls;
    var m :| IsColumns(latest, schema[node.cls].columns, r, m) && node.columns == Arrived(true, node.cls, m);
    ColumnsRoundTrip(schema, s, latest, o, ids, r, m);
    forall i | 0 <= i < |schema[o.cls].relations|
      ensures SameRelation(schema[o.cls].relations[i], s, o, ids, objs, node.relations)
    {
      RelationsRoundTrip(schema, s, o, ids, objs, r, node.relations, i);
    }
  }

  lemma SameObjects(schema: Schema, s: Skips, latest: int, g: Graph, roots: seq<Key>, order: seq<Key>,
                    ids: map<Key, string>, dump: Dump, objs: Nodes)
    requires WellFormed(schema) && ValidGraph(schema, g)
    requires Exported(schema, s, g, roots, order, ids, dump) && Imported(schema, latest, NoSkips, true, dump, objs)
    ensures ids.Values == objs.Keys
  {
    forall k | k in ids ensures ids[k] in objs {
      ObjectIsRecorded(schema, s, g, roots, order, ids, dump, k);
      assert EntryReadable(schema, dump[ids[k]]);
    }
    forall id | id in objs ensures id in ids.Values {
      assert Made(schema, latest, true, dump, id, objs[id].cls, objs[id].columns);
      var k := EntryIsRecord(schema, s, g, roots, order, ids, dump, id);
      assert ids[k] in ids.Values;
    }
  }

  /**
    The round trip: a full restore of a dump has one object for every reachable object and no others,
    different ones for different ones, with the same class, the same relationships (but those that the
    export skipped) and, exactly when its dates fit, the same columns.
   */
  lemma {:induction false} DumpRoundTrip(schema: Schema, s: Skips, latest: int, g: Graph, roots: seq<Key>, order: seq<Key>,
                      ids: map<Key, string>, dump: Dump, objs: Nodes)
    requires WellFormed(schema) && ValidGraph(schema, g)
    requires Exported(schema, s, g, roots, order, ids, dump) && Imported(schema, latest, NoSkips, true, dump, objs)
    ensures ids.Values == objs.Keys
    ensures forall k :: k in ids <==> k in g && Reachable(schema, s, g, roots, k)
    ensures forall j, k | j in ids && k in ids && Images(ids, objs)[j] == Images(ids, objs)[k] :: j == k
    ensures forall k | k in ids :: k in g && Mirrors(schema, s, latest, g[k], ids, objs, Images(ids, objs)[k])
  {
    SameObjects(schema, s, latest, g, roots, order, ids, dump, objs);
    forall j, k | j in ids && k in ids && Images(ids, objs)[j] == Images(ids, objs)[k] ensures j == k {
      assert ids[j] in ids.Values && ids[k] in ids.Values && objs[ids[j]] == objs[ids[k]];
      IdsAreDistinct(order, ids, j, k);
    }
    forall k | k in ids ensures k in g && Mirrors(schema, s, latest, g[k], ids, objs, Images(ids, objs)[k]) {
      ObjectIsRecorded(schema, s, g, roots, order, ids, dump, k);
      var id := ids[k];
      assert id in ids.Values;
      assert Made(schema, latest, true, dump, id, objs[id].cls, objs[id].columns);
      ObjectRoundTrip(schema, s, latest, g, k, ids, dump, objs, id);
    }
  }
}
