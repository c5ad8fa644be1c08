/** The object graph that a dump is made from, and the records that stand for its objects. */
module DumpModel {
  import opened Basics
  import opened Codec
  import opened DecimalIds

  // ---- Data model --------------------------------------------------------------------------------

  datatype Column = Column(name: string, kind: ColumnType, default: Option<Value>, nullable: bool)

  datatype Relationship = Relationship(name: string, target: string)

  datatype Class = Class(columns: seq<Column>, relations: seq<Relationship>)

  type Schema = map<string, Class>

  /** A relationship of an object: to nothing, to one object, to a list or to a dictionary of them. */
  datatype Relation<T> = Empty | One(object_: T) | Many(list: seq<T>) | Named(dict: map<string, T>)

  /** The identity key of an object in the database. */
  datatype Key = Key(table: string, id: int)

  datatype Object = Object(cls: string, columns: map<string, Value>, relations: map<string, Relation<Key>>)

  type Graph = map<Key, Object>

  type Record = map<string, Json>

  datatype Skips = Skips(generated: bool, submissions: bool, userTests: bool, users: bool)

  const ClassField := "_class"

  /** The properties of a class have names of their own, and none takes the name of the class field. */
  predicate WellNamed(c: Class) {
    && (forall i, j | 0 <= i < j < |c.columns| :: c.columns[i].name != c.columns[j].name)
    && (forall i, j | 0 <= i < j < |c.relations| :: c.relations[i].name != c.relations[j].name)
    && (forall i, j | 0 <= i < |c.columns| && 0 <= j < |c.relations| :: c.columns[i].name != c.relations[j].name)
    && (forall i | 0 <= i < |c.columns| :: c.columns[i].name != ClassField)
    && (forall i | 0 <= i < |c.relations| :: c.relations[i].name != ClassField)
  }

  predicate WellFormed(schema: Schema) {
    forall c {:trigger WellNamed(schema[c])} | c in schema :: WellNamed(schema[c])
  }

  function Targets<T>(r: Relation<T>): set<T> {
    match r
    case Empty => {}
    case One(x) => {x}
    case Many(s) => set x | x in s
    case Named(m) => m.Values
  }

  predicate HoldsColumn(c: Column, values: map<string, Value>) {
    c.name in values && HasType(c.kind, values[c.name]) && (values[c.name].Null? ==> c.nullable)
  }

  /** The columns and the relationships of an object are those of its class. */
  predicate Conforms(schema: Schema, o: Object) {
    && o.cls in schema
    && (forall i | 0 <= i < |schema[o.cls].columns| :: HoldsColumn(schema[o.cls].columns[i], o.columns))
    && (forall n | n in o.columns :: exists i | 0 <= i < |schema[o.cls].columns| :: schema[o.cls].columns[i].name == n)
    && (forall i | 0 <= i < |schema[o.cls].relations| :: schema[o.cls].relations[i].name in o.relations)
  }

  predicate Closed(g: Graph) {
    forall k, n {:trigger Targets(g[k].relations[n])} | k in g && n in g[k].relations :: Targets(g[k].relations[n]) <= g.Keys
  }

  predicate ValidGraph(schema: Schema, g: Graph) {
    Closed(g) && forall k {:trigger Conforms(schema, g[k])} | k in g :: Conforms(schema, g[k])
  }

  // ---- Which relationships a dump follows --------------------------------------------------------

  /** Ranking groups never travel. */
  predicate Skipped(s: Skips, target: string) {
    || target == "RankingGroup"
    || (s.submissions && target == "Submission")
    || (s.userTests && target == "UserTest")
    || (s.users && target in {"Participation", "Submission", "UserTest", "Announcement"})
    || (s.generated && target in {"SubmissionResult", "UserTestResult"})
  }

  function Followed(p: Relationship, s: Skips, relations: map<string, Relation<Key>>): set<Key> {
    if Skipped(s, p.target) || p.name !in relations then {} else Targets(relations[p.name])
  }

  /** The objects that the given relationships lead to. */
  function Successors(props: seq<Relationship>, s: Skips, relations: map<string, Relation<Key>>): set<Key> {
    if props == [] then {} else
      Successors(props[..|props| - 1], s, relations) + Followed(props[|props| - 1], s, relations)
  }

  function Next(schema: Schema, s: Skips, o: Object): set<Key>
    requires o.cls in schema
  {
    Successors(schema[o.cls].relations, s, o.relations)
  }

  ghost predicate IsPath(schema: Schema, s: Skips, g: Graph, p: seq<Key>) {
    && (forall i | 0 <= i < |p| :: p[i] in g && g[p[i]].cls in schema)
    && forall i | 0 < i < |p| :: p[i] in Next(schema, s, g[p[i - 1]])
  }

  /** Some path of followed relationships leads from a root to the object. */
  ghost predicate Reachable(schema: Schema, s: Skips, g: Graph, roots: seq<Key>, k: Key) {
    exists p: seq<Key> :: p != [] && IsPath(schema, s, g, p) && p[0] in roots && p[|p| - 1] == k
  }

  lemma RootIsReachable(schema: Schema, s: Skips, g: Graph, roots: seq<Key>, k: Key)
    requires k in roots && k in g && g[k].cls in schema
    ensures Reachable(schema, s, g, roots, k)
  {
    assert IsPath(schema, s, g, [k]);
  }

  lemma NextIsReachable(schema: Schema, s: Skips, g: Graph, roots: seq<Key>, k: Key, n: Key)
    requires Reachable(schema, s, g, roots, k) && k in g && g[k].cls in schema
    requires n in g && g[n].cls in schema && n in Next(schema, s, g[k])
    ensures Reachable(schema, s, g, roots, n)
  {
    var p: seq<Key> :| p != [] && IsPath(schema, s, g, p) && p[0] in roots && p[|p| - 1] == k;
    assert IsPath(schema, s, g, p + [n]);
    assert (p + [n])[0] in roots;
  }

  /** A set that has the roots and the successors of all its members has all that is reachable. */
  lemma {:induction false} ClosedHasReachable(schema: Schema, s: Skips, g: Graph, keys: set<Key>, p: seq<Key>)
    requires p != [] && IsPath(schema, s, g, p) && p[0] in keys
    requires forall k | k in keys :: k in g && g[k].cls in schema && Next(schema, s, g[k]) <= keys
    ensures p[|p| - 1] in keys
  {
    var n := |p| - 1;
    if n > 0 {
      assert IsPath(schema, s, g, p[..n]);
      ClosedHasReachable(schema, s, g, keys, p[..n]);
      assert p[n] in Next(schema, s, g[p[n - 1]]);
    }
  }

  lemma {:induction false} SuccessorsInGraph(g: Graph, props: seq<Relationship>, s: Skips, k: Key)
    requires Closed(g) && k in g
    ensures Successors(props, s, g[k].relations) <= g.Keys
  {
    if props != [] { SuccessorsInGraph(g, props[..|props| - 1], s, k); }
  }

  lemma {:induction false} TargetsAreSuccessors(props: seq<Relationship>, s: Skips, relations: map<string, Relation<Key>>, i: nat)
    requires i < |props| && !Skipped(s, props[i].target) && props[i].name in relations
    ensures Targets(relations[props[i].name]) <= Successors(props, s, relations)
  {
    if i < |props| - 1 { TargetsAreSuccessors(props[..|props| - 1], s, relations, i); }
  }

  // ---- Records -----------------------------------------------------------------------------------

  function Ids(list: seq<Key>, ids: map<Key, string>): seq<Json>
    requires forall k | k in list :: k in ids
  {
    seq(|list|, i requires 0 <= i < |list| => JString(ids[list[i]]))
  }

  /** A relationship in a record: an id or a collection of ids. */
  function RelationJson(r: Relation<Key>, ids: map<Key, string>): Json
    requires Targets(r) <= ids.Keys
  {
    match r
    case Empty => JNull
    case One(k) => JString(ids[k])
    case Many(list) => JList(Ids(list, ids))
    case Named(m) => JDict(map n | n in m :: assert m[n] in m.Values; JString(ids[m[n]]))
  }

  ghost predicate IsProperty(c: Class, n: string) {
    || n == ClassField
    || (exists i | 0 <= i < |c.columns| :: c.columns[i].name == n)
    || (exists i | 0 <= i < |c.relations| :: c.relations[i].name == n)
  }

  /** A record has the class, the columns, the relationships that are followed, and nothing else. */
  ghost predicate IsRecord(c: Class, s: Skips, o: Object, ids: map<Key, string>, r: Record) {
    && ClassField in r && r[ClassField] == JString(o.cls)
    && (forall n {:trigger IsProperty(c, n)} | n in r :: IsProperty(c, n))
    && (forall i | 0 <= i < |c.columns| :: HasColumn(c.columns[i], o, r))
    && (forall i | 0 <= i < |c.relations| :: HasRelation(c.relations[i], s, o, ids, r))
  }

  ghost predicate HasColumn(col: Column, o: Object, r: Record) {
    && HoldsColumn(col, o.columns)
    && Encode(col.kind, o.columns[col.name]).Some?
    && col.name in r && r[col.name] == Encode(col.kind, o.columns[col.name]).value
  }

  ghost predicate HasRelation(p: Relationship, s: Skips, o: Object, ids: map<Key, string>, r: Record) {
    if Skipped(s, p.target) then p.name !in r else
      && p.name in o.relations
      && Targets(o.relations[p.name]) <= ids.Keys
      && p.name in r && r[p.name] == RelationJson(o.relations[p.name], ids)
  }

  lemma MoreIds(r: Relation<Key>, ids: map<Key, string>, more: map<Key, string>)
    requires Targets(r) <= ids.Keys && Included(ids, more)
    ensures Targets(r) <= more.Keys && RelationJson(r, ids) == RelationJson(r, more)
  {
    match r
    case Many(list) => assert Ids(list, ids) == Ids(list, more);
    case Named(m) =>
      forall n | n in m ensures ids[m[n]] == more[m[n]] { assert m[n] in m.Values; }
      assert RelationJson(r, ids).fields == RelationJson(r, more).fields;
    case _ =>
  }

  lemma RecordWithMoreIds(c: Class, s: Skips, o: Object, ids: map<Key, string>, more: map<Key, string>, r: Record)
    requires IsRecord(c, s, o, ids, r) && Included(ids, more)
    ensures IsRecord(c, s, o, more, r)
  {
    forall i | 0 <= i < |c.relations| ensures HasRelation(c.relations[i], s, o, more, r) {
      var p := c.relations[i];
      assert HasRelation(p, s, o, ids, r);
      if !Skipped(s, p.target) { MoreIds(o.relations[p.name], ids, more); }
    }
  }

  /** An object can be dumped. */
  predicate CanDump(schema: Schema, o: Object)
    requires o.cls in schema
  {
    forall i | 0 <= i < |schema[o.cls].columns| && schema[o.cls].columns[i].name in o.columns ::
      Dumpable(o.columns[schema[o.cls].columns[i].name])
  }

  // ---- Ids ---------------------------------------------------------------------------------------

  /** The objects got the ids "0", "1", "2" and so on in this order. */
  ghost predicate Numbered(order: seq<Key>, ids: map<Key, string>) {
    && (forall k :: k in ids <==> k in order)
    && forall i | 0 <= i < |order| :: ids[order[i]] == Decimal(i)
  }

  lemma NumberedOnce(order: seq<Key>, ids: map<Key, string>)
    requires Numbered(order, ids)
    ensures forall i, j | 0 <= i < j < |order| :: order[i] != order[j]
  {
    forall i, j | 0 <= i < j < |order| ensures order[i] != order[j] { DecimalIsInjective(i, j); }
  }

  /** No two objects share an id. */
  lemma IdsAreDistinct(order: seq<Key>, ids: map<Key, string>, j: Key, k: Key)
    requires Numbered(order, ids) && j in ids && k in ids && ids[j] == ids[k]
    ensures j == k
  {
    var a :| 0 <= a < |order| && order[a] == j;
    var b :| 0 <= b < |order| && order[b] == k;
    DecimalIsInjective(a, b);
  }

  lemma {:induction false} NumberedIsSmall(order: seq<Key>, keys: set<Key>)
    requires forall i, j | 0 <= i < j < |order| :: order[i] != order[j]
    requires forall k | k in order :: k in keys
    ensures |order| <= |keys|
  {
    if order != [] {
      var n := |order| - 1;
      forall k | k in order[..n] ensures k in keys - {order[n]} {}
      NumberedIsSmall(order[..n], keys - {order[n]});
    }
  }

  lemma NumberedNext(order: seq<Key>, ids: map<Key, string>, k: Key)
    requires Numbered(order, ids) && k !in ids
    ensures |ids| == |order| && Numbered(order + [k], ids[k := Decimal(|ids|)])
  {
    NumberedOnce(order, ids);
    NumberedSize(order, ids.Keys);
  }

  lemma {:induction false} NumberedSize(order: seq<Key>, keys: set<Key>)
    requires forall i, j | 0 <= i < j < |order| :: order[i] != order[j]
    requires forall k :: k in keys <==> k in order
    ensures |keys| == |order|
  {
    if order == [] {
      assert keys == {};
    } else {
      var n := |order| - 1;
      assert order == order[..n] + [order[n]];
      NumberedSize(order[..n], keys - {order[n]});
      assert keys == keys - {order[n]} + {order[n]};
    }
  }

  lemma NumberedGrows(order: seq<Key>, ids: map<Key, string>, more: seq<Key>, moreIds: map<Key, string>)
    requires Numbered(order, ids) && Numbered(more, moreIds) && order <= more
    ensures Included(ids, moreIds)
  {
    forall k | k in ids ensures k in moreIds && moreIds[k] == ids[k] {
      var i :| 0 <= i < |order| && order[i] == k;
      assert more[i] == k;
    }
  }
}
