/** The importer: a first pass makes the objects of a dump, a second one links them. */
module DumpImporter {
  import opened Basics
  import opened Codec
  import opened DumpModel

  // ---- What can be read --------------------------------------------------------------------------

  /** Keys with a leading underscore are not ids. */
  predicate IsEntry(id: string) { id == "" || id[0] != '_' }

  predicate IsIds(j: Json) {
    match j
    case JNull => true
    case JString(_) => true
    case JList(items) => forall i | 0 <= i < |items| :: items[i].JString?
    case JDict(fields) => forall n | n in fields :: fields[n].JString?
    case _ => false
  }

  predicate ColumnReadable(c: Column, r: Record) {
    if c.name in r then Readable(c.kind, r[c.name]) && (r[c.name].JNull? ==> c.nullable)
    else c.default.Some? || c.nullable
  }

  /** The importer does not validate its input: this is what it takes for granted. */
  predicate RecordReadable(schema: Schema, r: Record) {
    && ClassField in r && r[ClassField].JString? && r[ClassField].text in schema
    && var c := schema[r[ClassField].text];
       && (forall i | 0 <= i < |c.columns| :: ColumnReadable(c.columns[i], r))
       && forall i | 0 <= i < |c.relations| && c.relations[i].name in r :: IsIds(r[c.relations[i].name])
  }

  predicate EntryReadable(schema: Schema, j: Json) { j.JDict? && RecordReadable(schema, j.fields) }

  predicate DumpReadable(schema: Schema, dump: map<string, Json>) {
    forall id {:trigger EntryReadable(schema, dump[id])} | id in dump && IsEntry(id) :: EntryReadable(schema, dump[id])
  }

  // ---- What is read ------------------------------------------------------------------------------

  function ColumnValue(latest: int, c: Column, r: Record): Value
    requires ColumnReadable(c, r)
  {
    if c.name in r then Decode(latest, c.kind, r[c.name]) else if c.default.Some? then c.default.value else Null
  }

  ghost predicate IsColumns(latest: int, columns: seq<Column>, r: Record, values: map<string, Value>)
    requires forall i | 0 <= i < |columns| :: ColumnReadable(columns[i], r)
  {
    && (forall n | n in values :: exists i | 0 <= i < |columns| :: columns[i].name == n)
    && forall i | 0 <= i < |columns| ::
         columns[i].name in values && values[columns[i].name] == ColumnValue(latest, columns[i], r)
  }

  function LinkedList<T>(items: seq<Json>, objs: map<string, T>): seq<T> {
    if items == [] then [] else
      var n := |items| - 1;
      LinkedList(items[..n], objs) +
      if items[n].JString? && items[n].text in objs then [objs[items[n].text]] else []
  }

  /** Ids of objects that were left out are dropped. */
  function Linked<T>(j: Json, objs: map<string, T>): Relation<T>
    requires IsIds(j)
  {
    match j
    case JNull => Empty
    case JString(id) => if id in objs then One(objs[id]) else Empty
    case JList(items) => Many(LinkedList(items, objs))
    case JDict(fields) => Named(map n | n in fields && fields[n].text in objs :: objs[fields[n].text])
  }

  ghost predicate IsLinked<T>(props: seq<Relationship>, r: Record, objs: map<string, T>, relations: map<string, Relation<T>>)
  {
    && (forall n | n in relations :: exists i | 0 <= i < |props| :: props[i].name == n)
    && forall i | 0 <= i < |props| :: IsLinkedProperty(props[i].name, r, objs, relations)
  }

  ghost predicate IsLinkedProperty<T>(n: string, r: Record, objs: map<string, T>, relations: map<string, Relation<T>>) {
    if n in r && IsIds(r[n]) then n in relations && relations[n] == Linked(r[n], objs) else n !in relations
  }

  lemma LinkedNext<T>(c: Class, i: nat, r: Record, objs: map<string, T>, relations: map<string, Relation<T>>)
    requires WellNamed(c) && i < |c.relations| && IsLinked(c.relations[..i], r, objs, relations)
    requires c.relations[i].name in r ==> IsIds(r[c.relations[i].name])
    ensures var n := c.relations[i].name;
      IsLinked(c.relations[..i + 1], r, objs, if n in r then relations[n := Linked(r[n], objs)] else relations)
  {
    var n := c.relations[i].name;
    var props, more := c.relations[..i], c.relations[..i + 1];
    var relations' := if n in r then relations[n := Linked(r[n], objs)] else relations;
    forall m | m in relations' ensures exists j | 0 <= j < |more| :: more[j].name == m {
      if m in relations {
        var j :| 0 <= j < |props| && props[j].name == m;
        assert more[j].name == m;
      } else {
        assert more[i].name == m;
      }
    }
    forall j | 0 <= j < |more| ensures IsLinkedProperty(more[j].name, r, objs, relations') {
      if j < i {
        assert IsLinkedProperty(props[j].name, r, objs, relations);
        assert c.relations[j].name != n;
      } else {
        assert n !in relations by { NotYetLinked(c, i, r, objs, relations); }
      }
    }
  }

  lemma NotYetLinked<T>(c: Class, i: nat, r: Record, objs: map<string, T>, relations: map<string, Relation<T>>)
    requires WellNamed(c) && i < |c.relations| && IsLinked(c.relations[..i], r, objs, relations)
    ensures c.relations[i].name !in relations
  {
    assert forall j | 0 <= j < i :: c.relations[j].name != c.relations[i].name;
  }

  predicate LeftOut(s: Skips, cls: string) {
    || (s.submissions && cls == "Submission")
    || (s.userTests && cls == "UserTest")
    || (s.users && cls in {"User", "Participation", "Submission", "UserTest", "Announcement"})
    || (s.generated && cls in {"SubmissionResult", "UserTestResult"})
  }

  // ---- The passes --------------------------------------------------------------------------------

  /** An object of the data model; its relationships are references. */
  class Node {
    const cls: string
    var columns: map<string, Value>
    var relations: map<string, Relation<Node>>

    constructor (cls: string, columns: map<string, Value>)
      ensures this.cls == cls && this.columns == columns && relations == map[]
    {
      this.cls, this.columns, relations := cls, columns, map[];
    }
  }

  type Nodes = map<string, Node>

  ghost predicate Distinct(objs: Nodes) { forall i, j | i in objs && j in objs && objs[i] == objs[j] :: i == j }

  /** `import_object`. */
  method ImportObject(schema: Schema, latest: int, r: Record) returns (node: Node)
    requires WellFormed(schema) && RecordReadable(schema, r)
    ensures fresh(node) && node.cls == r[ClassField].text && node.relations == map[]
    ensures IsColumns(latest, schema[node.cls].columns, r, node.columns)
  {
    var cls := r[ClassField].text;
    var columns := schema[cls].columns;
    assert WellNamed(schema[cls]);
    var args: map<string, Value> := map[];
    for i := 0 to |columns|
      invariant forall n | n in args :: exists j | 0 <= j < i :: columns[j].name == n
      invariant forall j | 0 <= j < i ::
        columns[j].name in args && args[columns[j].name] == ColumnValue(latest, columns[j], r)
    {
      assert ColumnReadable(columns[i], r);
      args := args[columns[i].name := ColumnValue(latest, columns[i], r)];
    }
    node := new Node(cls, args);
  }

  /** `add_relationships`. */
  method AddRelationships(schema: Schema, r: Record, objs: Nodes, node: Node)
    requires WellFormed(schema) && RecordReadable(schema, r) && r[ClassField].text == node.cls && node.relations == map[]
    modifies node`relations
    ensures IsLinked(schema[node.cls].relations, r, objs, node.relations)
  {
    var props := schema[node.cls].relations;
    assert WellNamed(schema[node.cls]);
    for i := 0 to |props|
      invariant IsLinked(props[..i], r, objs, node.relations)
    {
      var n := props[i].name;
      LinkedNext(schema[node.cls], i, r, objs, node.relations);
      if n in r { node.relations := node.relations[n := Linked(r[n], objs)]; }
    }
    assert props[..|props|] == props;
  }

  /** Contests arrive inactive, unless the database was dropped. */
  function Arrived(drop: bool, cls: string, columns: map<string, Value>): map<string, Value> {
    if !drop && cls == "Contest" then columns["active" := PlainValue(JBool(false))] else columns
  }

  /** An object with this class and these columns can come from the record. */
  ghost predicate Made(schema: Schema, latest: int, drop: bool, dump: map<string, Json>, id: string,
                       cls: string, columns: map<string, Value>)
  {
    && id in dump && IsEntry(id) && EntryReadable(schema, dump[id])
    && cls == dump[id].fields[ClassField].text
    && exists m :: IsColumns(latest, schema[cls].columns, dump[id].fields, m) && columns == Arrived(drop, cls, m)
  }

  ghost predicate AllMade(schema: Schema, latest: int, drop: bool, dump: map<string, Json>, objs: Nodes)
    reads objs.Values
  {
    forall id {:trigger Made(schema, latest, drop, dump, id, objs[id].cls, objs[id].columns)} | id in objs ::
      Made(schema, latest, drop, dump, id, objs[id].cls, objs[id].columns)
  }

  ghost predicate Unlinked(objs: Nodes)
    reads objs.Values
  {
    forall id | id in objs :: objs[id].relations == map[]
  }

  method CreateObjects(schema: Schema, latest: int, dump: map<string, Json>) returns (objs: Nodes)
    requires WellFormed(schema) && DumpReadable(schema, dump)
    ensures (forall id :: id in objs <==> id in dump && IsEntry(id)) && Distinct(objs) && fresh(objs.Values)
    ensures AllMade(schema, latest, true, dump, objs) && Unlinked(objs)
  {
    objs := map[];
    var left := dump.Keys;
    while left != {}
      invariant left <= dump.Keys && (forall id :: id in objs <==> id in dump && id !in left && IsEntry(id))
      invariant Distinct(objs) && forall id | id in objs :: fresh(objs[id])
      invariant AllMade(schema, latest, true, dump, objs) && Unlinked(objs)
      decreases left
    {
      var id :| id in left;
      if IsEntry(id) {
        assert EntryReadable(schema, dump[id]);
        var node := ImportObject(schema, latest, dump[id].fields);
        assert Made(schema, latest, true, dump, id, node.cls, node.columns);
        objs := objs[id := node];
      }
      left := left - {id};
    }
  }

  method Deactivate(ghost schema: Schema, ghost latest: int, ghost dump: map<string, Json>, objs: Nodes)
    requires Distinct(objs) && AllMade(schema, latest, true, dump, objs) && Unlinked(objs)
    modifies objs.Values
    ensures AllMade(schema, latest, false, dump, objs) && Unlinked(objs)
  {
    var left := objs.Keys;
    while left != {}
      invariant left <= objs.Keys && Unlinked(objs)
      invariant forall id {:trigger Made(schema, latest, true, dump, id, objs[id].cls, objs[id].columns)} | id in left ::
        Made(schema, latest, true, dump, id, objs[id].cls, objs[id].columns)
      invariant forall id {:trigger Made(schema, latest, false, dump, id, objs[id].cls, objs[id].columns)} |
        id in objs && id !in left :: Made(schema, latest, false, dump, id, objs[id].cls, objs[id].columns)
      decreases left
    {
      var id :| id in left;
      var node := objs[id];
      Inactive(schema, latest, dump, id, node.cls, node.columns);
      if node.cls == "Contest" { node.columns := node.columns["active" := PlainValue(JBool(false))]; }
      left := left - {id};
    }
  }

  lemma Inactive(schema: Schema, latest: int, dump: map<string, Json>, id: string, cls: string, columns: map<string, Value>)
    requires Made(schema, latest, true, dump, id, cls, columns)
    ensures Made(schema, latest, false, dump, id, cls, Arrived(false, cls, columns))
  {
  }

  method LeaveOut(s: Skips, objs: Nodes) returns (kept: Nodes)
    ensures forall id :: id in kept <==> id in objs && !LeftOut(s, objs[id].cls)
    ensures Included(kept, objs)
  {
    kept := objs;
    var left := objs.Keys;
    while left != {}
      invariant left <= objs.Keys && Included(kept, objs)
      invariant forall id :: id in kept <==> id in objs && (id in left || !LeftOut(s, objs[id].cls))
      decreases left
    {
      var id :| id in left;
      if LeftOut(s, objs[id].cls) { kept := kept - {id}; }
      left := left - {id};
    }
  }

  ghost predicate AllLinked(schema: Schema, dump: map<string, Json>, objs: Nodes)
    reads objs.Values
  {
    forall id | id in objs :: LinkedNode(schema, dump, id, objs, objs[id])
  }

  ghost predicate LinkedNode(schema: Schema, dump: map<string, Json>, id: string, objs: Nodes, node: Node)
    reads node
  {
    id in dump && dump[id].JDict? && node.cls in schema &&
    IsLinked(schema[node.cls].relations, dump[id].fields, objs, node.relations)
  }

  method LinkAll(schema: Schema, ghost latest: int, ghost drop: bool, dump: map<string, Json>, objs: Nodes)
    requires WellFormed(schema) && Distinct(objs) && AllMade(schema, latest, drop, dump, objs) && Unlinked(objs)
    modifies objs.Values
    ensures AllMade(schema, latest, drop, dump, objs) && AllLinked(schema, dump, objs)
  {
    var left := objs.Keys;
    while left != {}
      invariant left <= objs.Keys && AllMade(schema, latest, drop, dump, objs)
      invariant forall id | id in left :: objs[id].relations == map[]
      invariant forall id | id in objs && id !in left :: LinkedNode(schema, dump, id, objs, objs[id])
      decreases left
    {
      var id :| id in left;
      assert Made(schema, latest, drop, dump, id, objs[id].cls, objs[id].columns);
      AddRelationships(schema, dump[id].fields, objs, objs[id]);
      left := left - {id};
    }
  }

  /** What an import is. */
  ghost predicate Imported(schema: Schema, latest: int, s: Skips, drop: bool, dump: map<string, Json>, objs: Nodes)
    reads objs.Values
  {
    && DumpReadable(schema, dump) && Distinct(objs)
    && (forall id :: id in objs <==> id in dump && IsEntry(id) && EntryReadable(schema, dump[id]) &&
                                     !LeftOut(s, dump[id].fields[ClassField].text))
    && AllMade(schema, latest, drop, dump, objs) && AllLinked(schema, dump, objs)
  }

  /** The model part of `do_import`. */
  method Import(schema: Schema, latest: int, s: Skips, drop: bool, dump: map<string, Json>) returns (objs: Nodes)
    requires WellFormed(schema) && DumpReadable(schema, dump)
    ensures fresh(objs.Values) && Imported(schema, latest, s, drop, dump, objs)
  {
    objs := CreateObjects(schema, latest, dump);
    ghost var made := map id | id in objs :: (objs[id].cls, objs[id].columns);
    if !drop { Deactivate(schema, latest, dump, objs); }
    ghost var all := objs;
    objs := LeaveOut(s, objs);
    KeptObjects(schema, latest, drop, dump, all, objs);
    LinkAll(schema, latest, drop, dump, objs);
    forall id ensures id in objs <==> id in dump && IsEntry(id) && EntryReadable(schema, dump[id]) &&
                                      !LeftOut(s, dump[id].fields[ClassField].text) {
      if id in dump && IsEntry(id) {
        assert Made(schema, latest, true, dump, id, made[id].0, made[id].1);
        assert id in all && EntryReadable(schema, dump[id]);
      }
    }
  }

  lemma KeptObjects(schema: Schema, latest: int, drop: bool, dump: map<string, Json>, all: Nodes, kept: Nodes)
    requires Included(kept, all) && Distinct(all) && AllMade(schema, latest, drop, dump, all) && Unlinked(all)
    ensures kept.Values <= all.Values && Distinct(kept)
    ensures AllMade(schema, latest, drop, dump, kept) && Unlinked(kept)
  {
    forall id | id in kept ensures Made(schema, latest, drop, dump, id, kept[id].cls, kept[id].columns) {
      assert kept[id] == all[id] && Made(schema, latest, drop, dump, id, all[id].cls, all[id].columns);
    }
  }
}
