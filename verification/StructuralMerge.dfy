/**
  Making an old collection of objects look like a new one in place: common objects are overwritten and
  keep their identity, the others are deleted or moved.
 */
module StructuralMerge {
  import opened Basics

  type Columns = map<string, int>

  /** An object; what it holds is left open, but for its identity. */
  class Item<C> {
    var content: C

    constructor (content: C)
      ensures this.content == content
    {
      this.content := content;
    }
  }

  class List<C> {
    var items: seq<Item<C>>

    constructor (items: seq<Item<C>>)
      ensures this.items == items
    {
      this.items := items;
    }
  }

  class Dict<C> {
    var entries: map<string, Item<C>>

    constructor (entries: map<string, Item<C>>)
      ensures this.entries == entries
    {
      this.entries := entries;
    }
  }

  // ---- Columns -----------------------------------------------------------------------------------

  /** What is to be copied: the columns of the class that are not excluded. */
  datatype Spec = Spec(props: seq<string>, excluded: set<string>)

  predicate Copied(s: Spec, n: string) { n in s.props && n !in s.excluded }

  function Overlaid(s: Spec, a: Columns, b: Columns): Columns {
    map n | n in a.Keys + b.Keys && (n in a || Copied(s, n)) :: if n in b && Copied(s, n) then b[n] else a[n]
  }

  /** Column by column: an excluded column, and one that the new object lacks, stays as it was. */
  lemma OverlaidMeans(props: seq<string>, excluded: set<string>, a: Columns, b: Columns, n: string)
    ensures var r := Overlaid(Spec(props, excluded), a, b);
      && (n in b && n in props && n !in excluded ==> n in r && r[n] == b[n])
      && (n !in b || n !in props || n in excluded ==> (n in r <==> n in a) && (n in a ==> r[n] == a[n]))
  {
  }

  /** Doing it again changes nothing, whether the object was overwritten or is the new one itself. */
  lemma OverlaidTwice(s: Spec, a: Columns, b: Columns)
    ensures Overlaid(s, Overlaid(s, a, b), b) == Overlaid(s, a, b) && Overlaid(s, b, b) == b
  {
  }

  /** An object of the same columns, all of them copied, becomes equal to the new one. */
  lemma OverlaidIsNew(s: Spec, a: Columns, b: Columns)
    requires a.Keys == b.Keys
    ensures Overlaid(s, a, b) == b <==> forall n | n in a && !Copied(s, n) :: a[n] == b[n]
  {
    assert Overlaid(s, a, b).Keys == a.Keys;
    if Overlaid(s, a, b) == b {
      forall n | n in a && !Copied(s, n) ensures a[n] == b[n] { assert Overlaid(s, a, b)[n] == a[n]; }
    }
  }

  /** `_update_columns`. */
  method UpdateColumns(s: Spec, old_: Item<Columns>, new_: Item<Columns>)
    modifies old_
    ensures old_.content == Overlaid(s, old(old_.content), old(new_.content))
  {
    ghost var a, b := old_.content, new_.content;
    for i := 0 to |s.props|
      invariant old_.content == Overlaid(Spec(s.props[..i], s.excluded), a, b)
      invariant new_ != old_ ==> new_.content == b
      invariant new_ == old_ ==> old_.content == a
    {
      var n := s.props[i];
      assert s.props[..i + 1] == s.props[..i] + [n];
      if n !in s.excluded && n in new_.content { old_.content := old_.content[n := new_.content[n]]; }
    }
    assert s.props[..|s.props|] == s.props;
  }

  // ---- Any update --------------------------------------------------------------------------------

  /**
    An update function changes the old object only, to something that depends on the two contents alone:
    for `_update_columns` that is `Overlaid`, for others it may go into nested collections.
   */
  method UpdateValue<C>(update: (C, C) -> C, old_: Item<C>, new_: Item<C>)
    modifies old_
    ensures old_.content == update(old(old_.content), old(new_.content))
  {
    old_.content := update(old_.content, new_.content);
  }

  // ---- Lists by position -------------------------------------------------------------------------

  ghost predicate Distinct<T>(s: seq<T>) { forall i, j | 0 <= i < j < |s| :: s[i] != s[j] }

  ghost predicate Disjoint<T>(a: seq<T>, b: seq<T>) { forall i, j | 0 <= i < |a| && 0 <= j < |b| :: a[i] != b[j] }

  function Min(a: nat, b: nat): nat { if a < b then a else b }

  method UpdateCommon<C>(update: (C, C) -> C, olds: seq<Item<C>>, news: seq<Item<C>>)
    requires Distinct(olds) && Disjoint(olds, news)
    modifies set x | x in olds
    ensures forall i | 0 <= i < |olds| ::
      olds[i].content == if i < |news| then update(old(olds[i].content), old(news[i].content)) else old(olds[i].content)
  {
    for i := 0 to Min(|olds|, |news|)
      invariant forall j | 0 <= j < i :: olds[j].content == update(old(olds[j].content), old(news[j].content))
      invariant forall j | i <= j < |olds| :: olds[j].content == old(olds[j].content)
      invariant forall j | 0 <= j < |news| :: news[j].content == old(news[j].content)
    {
      UpdateValue(update, olds[i], news[i]);
    }
  }

  /**
    `_update_list`: position by position, the old objects stay and are updated from the new ones;
    the rest of the new list moves, in order, and leaves it.
   */
  method UpdateList<C>(update: (C, C) -> C, old_: List<C>, new_: List<C>)
    requires old_ != new_ && Distinct(old_.items) && Disjoint(old_.items, new_.items)
    modifies old_, new_, set x | x in old_.items
    ensures |old_.items| == |old(new_.items)|
    ensures forall i | 0 <= i < |old_.items| ::
      old_.items[i] == if i < |old(old_.items)| then old(old_.items)[i] else old(new_.items)[i]
    ensures new_.items == old(new_.items)[..Min(|old(old_.items)|, |old(new_.items)|)]
    ensures forall i | 0 <= i < Min(|old(old_.items)|, |old(new_.items)|) ::
      old_.items[i].content == update(old(old_.items[i].content), old(new_.items[i].content))
    ensures forall i | 0 <= i < |old(new_.items)| :: old(new_.items)[i].content == old(new_.items[i].content)
  {
    var oldLen, newLen := |old_.items|, |new_.items|;
    UpdateCommon(update, old_.items, new_.items);
    old_.items := old_.items[..Min(oldLen, newLen)];
    if oldLen < newLen { MoveTail(old_, new_, oldLen); }
  }

  method MoveTail<C>(old_: List<C>, new_: List<C>, oldLen: nat)
    requires old_ != new_ && |old_.items| == oldLen < |new_.items|
    modifies old_, new_
    ensures old_.items == old(old_.items) + old(new_.items)[oldLen..] && new_.items == old(new_.items)[..oldLen]
  {
    ghost var olds, news := old_.items, new_.items;
    for i := oldLen to |new_.items|
      invariant old_.items == olds + news[oldLen..i]
      invariant new_.items == news[..oldLen] + news[i..]
    {
      var temp := new_.items[oldLen];
      assert temp == news[i] && news[i..] == [temp] + news[i + 1..];
      new_.items := new_.items[..oldLen] + new_.items[oldLen + 1..];
      old_.items := old_.items + [temp];
    }
  }

  // ---- Dictionaries ------------------------------------------------------------------------------

  /** The objects of the result: the old one where there is one, or else the new one. */
  function Merged<C>(olds: map<string, Item<C>>, news: map<string, Item<C>>, preserve: bool): map<string, Item<C>> {
    map k | k in olds.Keys + news.Keys && (k in news || preserve) :: if k in olds then olds[k] else news[k]
  }

  /** The objects under keys that the other dictionary has too. */
  function Shared<C>(m: map<string, Item<C>>, other: map<string, Item<C>>): map<string, Item<C>> {
    map k | k in m && k in other :: m[k]
  }

  ghost predicate Injective<C>(m: map<string, Item<C>>) { forall j, k | j in m && k in m && m[j] == m[k] :: j == k }

  ghost predicate Apart<C>(olds: map<string, Item<C>>, news: map<string, Item<C>>) { olds.Values !! news.Values }

  /** The objects have these contents. */
  ghost predicate Have<C>(m: map<string, Item<C>>, contents: map<string, C>)
    reads m.Values
  {
    m.Keys == contents.Keys && forall k | k in m :: m[k].content == contents[k]
  }

  /** The contents of the old objects once those under the given keys were overwritten. */
  function Overwritten<C>(update: (C, C) -> C, olds: map<string, C>, news: map<string, C>,
                          done: set<string>): map<string, C> {
    map k | k in olds :: if k in news && k in done then update(olds[k], news[k]) else olds[k]
  }

  /** The contents of the merged objects. */
  function MergedContents<C>(update: (C, C) -> C, olds: map<string, C>, news: map<string, C>,
                             preserve: bool): map<string, C> {
    map k | k in olds.Keys + news.Keys && (k in news || preserve) ::
      if k in olds && k in news then update(olds[k], news[k]) else if k in olds then olds[k] else news[k]
  }

  lemma MergedHave<C>(update: (C, C) -> C, olds: map<string, Item<C>>, news: map<string, Item<C>>,
                      oldContents: map<string, C>, newContents: map<string, C>, preserve: bool)
    requires olds.Keys == oldContents.Keys && Have(news, newContents)
    requires Have(olds, Overwritten(update, oldContents, newContents, oldContents.Keys))
    ensures Have(Merged(olds, news, preserve), MergedContents(update, oldContents, newContents, preserve))
  {
    var m := Merged(olds, news, preserve);
    forall k | k in m ensures m[k].content == MergedContents(update, oldContents, newContents, preserve)[k] {}
  }

  /** One shared key. */
  method UpdateShared<C>(update: (C, C) -> C, o: Item<C>, n: Item<C>, ghost olds: map<string, Item<C>>,
                         ghost news: map<string, Item<C>>,
                      ghost key: string, ghost oldContents: map<string, C>, ghost newContents: map<string, C>)
    requires key in olds && key in news && o == olds[key] && n == news[key] && Injective(olds) && Apart(olds, news)
    requires Have(olds, oldContents) && Have(news, newContents)
    modifies o
    ensures Have(olds, oldContents[key := update(oldContents[key], newContents[key])]) && Have(news, newContents)
  {
    assert o in olds.Values && n in news.Values;
    UpdateValue(update, o, n);
    forall k | k in news ensures news[k] != o { assert news[k] in news.Values; }
  }

  /** The dictionaries when the given keys are left. */
  function OldSoFar<C>(olds: map<string, Item<C>>, news: map<string, Item<C>>, left: set<string>): map<string, Item<C>> {
    map k | k in olds.Keys + news.Keys && (if k in left then k in olds else k in news) ::
      if k in olds then olds[k] else news[k]
  }

  function NewSoFar<C>(olds: map<string, Item<C>>, news: map<string, Item<C>>, left: set<string>): map<string, Item<C>> {
    map k | k in news && (k in left || k in olds) :: news[k]
  }

  lemma NextSoFar<C>(olds: map<string, Item<C>>, news: map<string, Item<C>>, left: set<string>, key: string)
    requires key in left && left <= olds.Keys + news.Keys
    ensures var o, n, rest := OldSoFar(olds, news, left), NewSoFar(olds, news, left), left - {key};
      && (key in n <==> key in news) && (key in o <==> key in olds)
      && (key in n && key !in o ==> OldSoFar(olds, news, rest) == o[key := n[key]] && NewSoFar(olds, news, rest) == n - {key})
      && (key in n && key in o ==> OldSoFar(olds, news, rest) == o && NewSoFar(olds, news, rest) == n)
      && (key !in n ==> OldSoFar(olds, news, rest) == o - {key} && NewSoFar(olds, news, rest) == n)
  {
  }

  lemma NextDone<C>(update: (C, C) -> C, olds: map<string, C>, news: map<string, C>, left: set<string>, key: string)
    requires key in left
    ensures var now := Overwritten(update, olds, news, olds.Keys - left);
      Overwritten(update, olds, news, olds.Keys - (left - {key})) ==
      if key in olds && key in news then now[key := update(now[key], news[key])] else now
  {
  }

  lemma SoFarAtEnds<C>(update: (C, C) -> C, olds: map<string, Item<C>>, news: map<string, Item<C>>,
                    oldContents: map<string, C>, newContents: map<string, C>)
    requires olds.Keys == oldContents.Keys
    ensures var all := olds.Keys + news.Keys;
      && OldSoFar(olds, news, all) == olds && NewSoFar(olds, news, all) == news
      && Overwritten(update, oldContents, newContents, oldContents.Keys - all) == oldContents
    ensures OldSoFar(olds, news, {}) == Merged(olds, news, false) && NewSoFar(olds, news, {}) == Shared(news, olds)
    ensures Overwritten(update, oldContents, newContents, oldContents.Keys - {}) == Overwritten(update, oldContents, newContents, oldContents.Keys)
  {
    assert oldContents.Keys - {} == oldContents.Keys;
  }

  /** `_update_dict`, whatever the order of the keys. */
  method UpdateDict<C>(update: (C, C) -> C, old_: Dict<C>, new_: Dict<C>,
                    ghost oldContents: map<string, C>, ghost newContents: map<string, C>)
    requires old_ != new_ && Injective(old_.entries) && Apart(old_.entries, new_.entries)
    requires Have(old_.entries, oldContents) && Have(new_.entries, newContents)
    modifies old_, new_, old_.entries.Values
    ensures old_.entries == Merged(old(old_.entries), old(new_.entries), false)
    ensures new_.entries == Shared(old(new_.entries), old(old_.entries))
    ensures Have(old(old_.entries), Overwritten(update, oldContents, newContents, oldContents.Keys))
    ensures Have(old(new_.entries), newContents)
    ensures Have(old_.entries, MergedContents(update, oldContents, newContents, false))
  {
    ghost var olds, news := old_.entries, new_.entries;
    var left := old_.entries.Keys + new_.entries.Keys;
    SoFarAtEnds(update, olds, news, oldContents, newContents);
    while left != {}
      invariant left <= olds.Keys + news.Keys
      invariant old_.entries == OldSoFar(olds, news, left) && new_.entries == NewSoFar(olds, news, left)
      invariant Have(olds, Overwritten(update, oldContents, newContents, oldContents.Keys - left)) && Have(news, newContents)
      decreases left
    {
      var key :| key in left;
      UpdateKey(update, old_, new_, key, olds, news, left, oldContents, newContents);
      left := left - {key};
    }
    MergedHave(update, olds, news, oldContents, newContents, false);
  }

  method UpdateKey<C>(update: (C, C) -> C, old_: Dict<C>, new_: Dict<C>, key: string, ghost olds: map<string,
                      Item<C>>, ghost news: map<string, Item<C>>,
                   ghost left: set<string>, ghost oldContents: map<string, C>, ghost newContents: map<string, C>)
    requires old_ != new_ && Injective(olds) && Apart(olds, news) && key in left && left <= olds.Keys + news.Keys
    requires old_.entries == OldSoFar(olds, news, left) && new_.entries == NewSoFar(olds, news, left)
    requires Have(olds, Overwritten(update, oldContents, newContents, oldContents.Keys - left)) && Have(news, newContents)
    modifies old_, new_, olds.Values
    ensures old_.entries == OldSoFar(olds, news, left - {key}) && new_.entries == NewSoFar(olds, news, left - {key})
    ensures Have(olds, Overwritten(update, oldContents, newContents, oldContents.Keys - (left - {key}))) && Have(news, newContents)
  {
    NextSoFar(olds, news, left, key);
    NextDone(update, oldContents, newContents, left, key);
    if key in old_.entries && key in new_.entries {
      assert olds[key] in olds.Values;
      UpdateShared(update, old_.entries[key], new_.entries[key], olds, news, key,
                   Overwritten(update, oldContents, newContents, oldContents.Keys - left), newContents);
    } else {
      MoveOrDelete(old_, new_, key);
    }
  }

  /** A key that only one of the dictionaries has. */
  method MoveOrDelete<C>(old_: Dict<C>, new_: Dict<C>, key: string)
    requires old_ != new_ && (key in old_.entries <==> key !in new_.entries)
    modifies old_, new_
    ensures key in old(new_.entries) ==>
      old_.entries == old(old_.entries)[key := old(new_.entries)[key]] && new_.entries == old(new_.entries) - {key}
    ensures key !in old(new_.entries) ==> old_.entries == old(old_.entries) - {key} && new_.entries == old(new_.entries)
  {
    if key in new_.entries {
      var temp := new_.entries[key];
      new_.entries := new_.entries - {key};
      old_.entries := old_.entries[key := temp];
    } else {
      old_.entries := old_.entries - {key};
    }
  }

  // ---- Lists by key ------------------------------------------------------------------------------

  function SetOf<T>(s: seq<T>): set<T> { set x | x in s }

  /** `list.remove`. */
  function Removed<T(==)>(s: seq<T>, x: T): seq<T>
    requires x in s
  {
    if s[0] == x then s[1..] else [s[0]] + Removed(s[1..], x)
  }

  function Without<T(==)>(s: seq<T>, gone: set<T>): seq<T> {
    if s == [] then [] else (if s[0] in gone then [] else [s[0]]) + Without(s[1..], gone)
  }

  lemma {:induction false} WithoutIsFilter<T>(s: seq<T>, gone: set<T>)
    ensures forall x :: x in Without(s, gone) <==> x in s && x !in gone
    ensures Distinct(s) ==> Distinct(Without(s, gone))
  {
    if s != [] {
      WithoutIsFilter(s[1..], gone);
      assert s == [s[0]] + s[1..];
    }
  }

  lemma {:induction false} WithoutNone<T>(s: seq<T>, gone: set<T>)
    requires forall x | x in gone :: x !in s
    ensures Without(s, gone) == s
  {
    if s != [] {
      assert s[0] in s && forall x | x in s[1..] :: x in s;
      WithoutNone(s[1..], gone);
    }
  }

  lemma {:induction false} RemovedFromFirst<T>(a: seq<T>, b: seq<T>, x: T)
    requires x in a
    ensures Removed(a + b, x) == Removed(a, x) + b
  {
    assert (a + b)[0] == a[0] && (a + b)[1..] == a[1..] + b;
    if a[0] != x {
      RemovedFromFirst(a[1..], b, x);
      ConcatIsAssociative([a[0]], Removed(a[1..], x), b);
    }
  }

  lemma RemovedCons<T>(h: T, t: seq<T>, x: T)
    ensures Removed([x] + t, x) == t
    ensures h != x && x in t ==> Removed([h] + t, x) == [h] + Removed(t, x)
  {
    assert ([h] + t)[1..] == t && ([x] + t)[1..] == t;
  }

  lemma {:induction false} RemovedIsWithout<T>(s: seq<T>, gone: set<T>, x: T)
    requires Distinct(s) && x in s && x !in gone
    ensures x in Without(s, gone) && Removed(Without(s, gone), x) == Without(s, gone + {x})
  {
    var rest := s[1..];
    RemovedCons(s[0], Without(rest, gone), x);
    if s[0] == x {
      SameWithout(rest, gone, x);
    } else {
      RemovedIsWithout(rest, gone, x);
      assert s[0] in gone ==> Without(s, gone) == Without(rest, gone);
    }
  }

  lemma {:induction false} SameWithout<T>(s: seq<T>, gone: set<T>, x: T)
    requires x !in s
    ensures Without(s, gone + {x}) == Without(s, gone)
  {
    if s != [] {
      assert s[0] in s && (x in s[1..] ==> x in s);
      SameWithout(s[1..], gone, x);
    }
  }

  /** The objects that are removed, and those that are moved, once only the keys in `left` are left. */
  function Gone<C>(olds: map<string, Item<C>>, news: map<string, Item<C>>, left: set<string>, preserve: bool): set<Item<C>> {
    if preserve then {} else set k | k in olds && k !in news && k !in left :: olds[k]
  }

  function Moved<C>(olds: map<string, Item<C>>, news: map<string, Item<C>>, left: set<string>): set<Item<C>> {
    set k | k in news && k !in olds && k !in left :: news[k]
  }

  /** The lists at that point: what is not removed, in order, then what is moved. */
  ghost predicate SoFar<C>(olds: map<string, Item<C>>, news: map<string, Item<C>>, left: set<string>, preserve: bool,
                        oldItems: seq<Item<C>>, newItems: seq<Item<C>>, moved: seq<Item<C>>, now: seq<Item<C>>, rest: seq<Item<C>>) {
    && now == Without(oldItems, Gone(olds, news, left, preserve)) + moved
    && Distinct(moved) && SetOf(moved) == Moved(olds, news, left)
    && rest == Without(newItems, Moved(olds, news, left))
  }

  /** The dictionary is the keyed view of the list. */
  ghost predicate ViewOf<C>(m: map<string, Item<C>>, items: seq<Item<C>>) {
    Injective(m) && Distinct(items) && SetOf(items) == m.Values
  }

  lemma SoFarMove<C>(olds: map<string, Item<C>>, news: map<string, Item<C>>, left: set<string>, preserve: bool,
                  oldItems: seq<Item<C>>, newItems: seq<Item<C>>, moved: seq<Item<C>>, now: seq<Item<C>>, rest: seq<Item<C>>, key: string)
    requires SoFar(olds, news, left, preserve, oldItems, newItems, moved, now, rest) && ViewOf(news, newItems)
    requires key in left && key in news && key !in olds
    ensures news[key] in rest
    ensures SoFar(olds, news, left - {key}, preserve, oldItems, newItems, moved + [news[key]],
                  now + [news[key]], Removed(rest, news[key]))
  {
    var x := news[key];
    assert x in news.Values && x !in Moved(olds, news, left);
    assert Moved(olds, news, left - {key}) == Moved(olds, news, left) + {x};
    assert Gone(olds, news, left - {key}, preserve) == Gone(olds, news, left, preserve);
    RemovedIsWithout(newItems, Moved(olds, news, left), x);
    ConcatIsAssociative(Without(oldItems, Gone(olds, news, left, preserve)), moved, [x]);
  }

  lemma SoFarRemove<C>(olds: map<string, Item<C>>, news: map<string, Item<C>>, left: set<string>,
                    oldItems: seq<Item<C>>, newItems: seq<Item<C>>, moved: seq<Item<C>>, now: seq<Item<C>>, rest: seq<Item<C>>, key: string)
    requires SoFar(olds, news, left, false, oldItems, newItems, moved, now, rest) && ViewOf(olds, oldItems)
    requires key in left && key in olds && key !in news
    ensures olds[key] in now
    ensures SoFar(olds, news, left - {key}, false, oldItems, newItems, moved, Removed(now, olds[key]), rest)
  {
    var x := olds[key];
    assert x in olds.Values && x !in Gone(olds, news, left, false);
    assert Moved(olds, news, left - {key}) == Moved(olds, news, left);
    assert Gone(olds, news, left - {key}, false) == Gone(olds, news, left, false) + {x};
    RemovedIsWithout(oldItems, Gone(olds, news, left, false), x);
    RemovedFromFirst(Without(oldItems, Gone(olds, news, left, false)), moved, x);
  }

  lemma SoFarKeep<C>(olds: map<string, Item<C>>, news: map<string, Item<C>>, left: set<string>, preserve: bool,
                  oldItems: seq<Item<C>>, newItems: seq<Item<C>>, moved: seq<Item<C>>, now: seq<Item<C>>, rest: seq<Item<C>>, key: string)
    requires SoFar(olds, news, left, preserve, oldItems, newItems, moved, now, rest)
    requires key in left && key in olds && (key in news || preserve)
    ensures SoFar(olds, news, left - {key}, preserve, oldItems, newItems, moved, now, rest)
  {
    assert Moved(olds, news, left - {key}) == Moved(olds, news, left);
    assert Gone(olds, news, left - {key}, preserve) == Gone(olds, news, left, preserve);
  }

  lemma MergedIsInjective<C>(olds: map<string, Item<C>>, news: map<string, Item<C>>, preserve: bool)
    requires Injective(olds) && Injective(news) && Apart(olds, news)
    ensures Injective(Merged(olds, news, preserve))
  {
    forall j, k | j in olds && k in news ensures olds[j] != news[k] {
      assert olds[j] in olds.Values && news[k] in news.Values;
    }
  }

  lemma MergedValues<C>(olds: map<string, Item<C>>, news: map<string, Item<C>>, preserve: bool)
    requires Injective(olds)
    ensures Merged(olds, news, preserve).Values == olds.Values - Gone(olds, news, {}, preserve) + Moved(olds, news, {})
  {
    var m, gone := Merged(olds, news, preserve), Gone(olds, news, {}, preserve);
    forall x | x in olds.Values - gone ensures x in m.Values {
      var k :| k in olds && olds[k] == x;
      assert m[k] == x;
    }
    forall x | x in Moved(olds, news, {}) ensures x in m.Values {
      var k :| k in news && k !in olds && news[k] == x;
      assert m[k] == x;
    }
  }

  lemma ConcatIsDistinct<C>(a: seq<Item<C>>, b: seq<Item<C>>)
    requires Distinct(a) && Distinct(b) && SetOf(a) !! SetOf(b)
    ensures Distinct(a + b) && SetOf(a + b) == SetOf(a) + SetOf(b)
  {
    forall i, j | 0 <= i < j < |a + b| ensures (a + b)[i] != (a + b)[j] {
      if i < |a| <= j { assert a[i] in SetOf(a) && b[j - |a|] in SetOf(b); }
    }
  }

  /** At the end, the list has exactly the objects of the merged dictionary, each once. */
  lemma SoFarAll<C>(olds: map<string, Item<C>>, news: map<string, Item<C>>, preserve: bool,
                 oldItems: seq<Item<C>>, newItems: seq<Item<C>>, moved: seq<Item<C>>, now: seq<Item<C>>, rest: seq<Item<C>>)
    requires SoFar(olds, news, {}, preserve, oldItems, newItems, moved, now, rest)
    requires ViewOf(olds, oldItems) && ViewOf(news, newItems) && Apart(olds, news)
    ensures ViewOf(Merged(olds, news, preserve), now)
  {
    var gone := Gone(olds, news, {}, preserve);
    WithoutIsFilter(oldItems, gone);
    assert SetOf(Without(oldItems, gone)) == olds.Values - gone;
    assert Moved(olds, news, {}) <= news.Values;
    MergedIsInjective(olds, news, preserve);
    MergedValues(olds, news, preserve);
    ConcatIsDistinct(Without(oldItems, gone), moved);
  }

  ghost predicate DistinctKeys<C>(items: seq<Item<C>>, key: C -> string)
    reads SetOf(items)
  {
    forall i, j | 0 <= i < j < |items| :: key(items[i].content) != key(items[j].content)
  }

  /** Every object is under its key. */
  ghost predicate Keyed<C>(m: map<string, Item<C>>, key: C -> string)
    reads m.Values
  {
    forall k | k in m :: key(m[k].content) == k
  }

  /** `dict((key(v), v) for v in items)`. */
  method KeyedView<C>(items: seq<Item<C>>, key: C -> string) returns (m: map<string, Item<C>>)
    requires DistinctKeys(items, key)
    ensures ViewOf(m, items) && Keyed(m, key)
  {
    m := map[];
    for i := 0 to |items|
      invariant forall k | k in m :: exists j | 0 <= j < i :: key(items[j].content) == k && m[k] == items[j]
      invariant forall j | 0 <= j < i :: key(items[j].content) in m && m[key(items[j].content)] == items[j]
    {
      m := m[key(items[i].content) := items[i]];
    }
    ViewIsWhole(m, items, key);
  }

  lemma ViewIsWhole<C>(m: map<string, Item<C>>, items: seq<Item<C>>, key: C -> string)
    requires DistinctKeys(items, key)
    requires forall k | k in m :: exists j | 0 <= j < |items| :: key(items[j].content) == k && m[k] == items[j]
    requires forall j | 0 <= j < |items| :: key(items[j].content) in m && m[key(items[j].content)] == items[j]
    ensures ViewOf(m, items) && Keyed(m, key)
  {
    forall x | x in SetOf(items) ensures x in m.Values {
      var j :| 0 <= j < |items| && items[j] == x;
      assert m[key(items[j].content)] == x;
    }
    forall i, j | 0 <= i < j < |items| ensures items[i] != items[j] {
      assert key(items[i].content) != key(items[j].content);
    }
  }

  /** The keys of a list say what its keyed view is. */
  lemma KeyedViewIsUnique<C>(m: map<string, Item<C>>, n: map<string, Item<C>>, items: seq<Item<C>>, key: C -> string)
    requires ViewOf(m, items) && Keyed(m, key) && ViewOf(n, items) && Keyed(n, key)
    ensures m == n
  {
    forall k | k in m ensures k in n && n[k] == m[k] {
      assert m[k] in m.Values && m[k] in n.Values;
      var j :| j in n && n[j] == m[k];
    }
    forall k | k in n ensures k in m {
      assert n[k] in n.Values && n[k] in m.Values;
      var j :| j in m && m[j] == n[k];
    }
  }

  lemma KeysAreDistinct<C>(m: map<string, Item<C>>, items: seq<Item<C>>, key: C -> string)
    requires ViewOf(m, items) && Keyed(m, key)
    ensures DistinctKeys(items, key)
  {
    forall i, j | 0 <= i < j < |items| ensures key(items[i].content) != key(items[j].content) {
      assert items[i] in SetOf(items) && items[j] in SetOf(items);
      var k :| k in m && m[k] == items[i];
      var l :| l in m && m[l] == items[j];
    }
  }

  /**
    `_update_list_with_key`, whatever the order of the keys: the list ends up with exactly the objects of
    the merged dictionary, the old ones first and in their order; shared ones keep their identity and are
    overwritten; what was moved leaves the new list. `olds` and `news` are the lists seen as dictionaries,
    which takes keys that are distinct.
   */
  method UpdateListWithKey<C>(update: (C, C) -> C, old_: List<C>, new_: List<C>, key: C -> string, preserve: bool,
                           ghost olds: map<string, Item<C>>, ghost news: map<string, Item<C>>,
                           ghost oldContents: map<string, C>, ghost newContents: map<string, C>)
    returns (ghost moved: seq<Item<C>>)
    requires old_ != new_ && ViewOf(olds, old_.items) && ViewOf(news, new_.items) && Apart(olds, news)
    requires Keyed(olds, key) && Keyed(news, key) && Have(olds, oldContents) && Have(news, newContents)
    modifies old_, new_, olds.Values
    ensures ViewOf(Merged(olds, news, preserve), old_.items)
    ensures SoFar(olds, news, {}, preserve, old(old_.items), old(new_.items), moved, old_.items, new_.items)
    ensures Have(olds, Overwritten(update, oldContents, newContents, oldContents.Keys)) && Have(news, newContents)
    ensures Have(Merged(olds, news, preserve), MergedContents(update, oldContents, newContents, preserve))
  {
    KeysAreDistinct(olds, old_.items, key);
    KeysAreDistinct(news, new_.items, key);
    var oldDict := KeyedView(old_.items, key);
    var newDict := KeyedView(new_.items, key);
    KeyedViewIsUnique(olds, oldDict, old_.items, key);
    KeyedViewIsUnique(news, newDict, new_.items, key);
    moved := MergeByKey(update, old_, new_, oldDict, newDict, preserve, oldContents, newContents);
    SoFarAll(olds, news, preserve, old(old_.items), old(new_.items), moved, old_.items, new_.items);
    MergedHave(update, olds, news, oldContents, newContents, preserve);
  }

  method MergeByKey<C>(update: (C, C) -> C, old_: List<C>, new_: List<C>, olds: map<string, Item<C>>,
                       news: map<string, Item<C>>, preserve: bool,
                    ghost oldContents: map<string, C>, ghost newContents: map<string, C>)
    returns (ghost moved: seq<Item<C>>)
    requires old_ != new_ && ViewOf(olds, old_.items) && ViewOf(news, new_.items) && Apart(olds, news)
    requires Have(olds, oldContents) && Have(news, newContents)
    modifies old_, new_, olds.Values
    ensures SoFar(olds, news, {}, preserve, old(old_.items), old(new_.items), moved, old_.items, new_.items)
    ensures Have(olds, Overwritten(update, oldContents, newContents, oldContents.Keys)) && Have(news, newContents)
  {
    moved := [];
    ghost var oldItems, newItems := old_.items, new_.items;
    var left := olds.Keys + news.Keys;
    SoFarNone(olds, news, preserve, oldItems, newItems);
    SoFarAtEnds(update, olds, news, oldContents, newContents);
    while left != {}
      invariant left <= olds.Keys + news.Keys
      invariant SoFar(olds, news, left, preserve, oldItems, newItems, moved, old_.items, new_.items)
      invariant Have(olds, Overwritten(update, oldContents, newContents, oldContents.Keys - left)) && Have(news, newContents)
      decreases left
    {
      var k :| k in left;
      moved := MergeKey(update, old_, new_, olds, news, left, preserve, oldItems, newItems, moved, k, oldContents, newContents);
      left := left - {k};
    }
  }

  method MergeKey<C>(update: (C, C) -> C, old_: List<C>, new_: List<C>, olds: map<string, Item<C>>, news: map<string,
                     Item<C>>, ghost left: set<string>,
                  preserve: bool, ghost oldItems: seq<Item<C>>, ghost newItems: seq<Item<C>>, ghost moved: seq<Item<C>>, k: string,
                  ghost oldContents: map<string, C>, ghost newContents: map<string, C>)
    returns (ghost moved': seq<Item<C>>)
    requires old_ != new_ && ViewOf(olds, oldItems) && ViewOf(news, newItems) && Apart(olds, news)
    requires k in left && left <= olds.Keys + news.Keys
    requires SoFar(olds, news, left, preserve, oldItems, newItems, moved, old_.items, new_.items)
    requires Have(olds, Overwritten(update, oldContents, newContents, oldContents.Keys - left)) && Have(news, newContents)
    modifies old_, new_, olds.Values
    ensures SoFar(olds, news, left - {k}, preserve, oldItems, newItems, moved', old_.items, new_.items)
    ensures Have(olds, Overwritten(update, oldContents, newContents, oldContents.Keys - (left - {k}))) && Have(news, newContents)
  {
    NextDone(update, oldContents, newContents, left, k);
    if k in olds && k in news {
      SoFarKeep(olds, news, left, preserve, oldItems, newItems, moved, old_.items, new_.items, k);
      assert olds[k] in olds.Values;
      UpdateShared(update, olds[k], news[k], olds, news, k,
                   Overwritten(update, oldContents, newContents, oldContents.Keys - left), newContents);
      moved' := moved;
    } else {
      moved' := MoveOrRemove(old_, new_, olds, news, left, preserve, oldItems, newItems, moved, k);
    }
  }

  /** A key that only one of the lists has. */
  method MoveOrRemove<C>(old_: List<C>, new_: List<C>, olds: map<string, Item<C>>, news: map<string, Item<C>>,
                         ghost left: set<string>,
                      preserve: bool, ghost oldItems: seq<Item<C>>, ghost newItems: seq<Item<C>>, ghost moved: seq<Item<C>>, k: string)
    returns (ghost moved': seq<Item<C>>)
    requires old_ != new_ && ViewOf(olds, oldItems) && ViewOf(news, newItems)
    requires k in left && (k in olds <==> k !in news)
    requires SoFar(olds, news, left, preserve, oldItems, newItems, moved, old_.items, new_.items)
    modifies old_, new_
    ensures SoFar(olds, news, left - {k}, preserve, oldItems, newItems, moved', old_.items, new_.items)
  {
    moved' := moved;
    if k in news {
      SoFarMove(olds, news, left, preserve, oldItems, newItems, moved, old_.items, new_.items, k);
      var temp := news[k];
      new_.items := Removed(new_.items, temp);
      old_.items := old_.items + [temp];
      moved' := moved + [temp];
    } else if !preserve {
      SoFarRemove(olds, news, left, oldItems, newItems, moved, old_.items, new_.items, k);
      old_.items := Removed(old_.items, olds[k]);
    } else {
      SoFarKeep(olds, news, left, preserve, oldItems, newItems, moved, old_.items, new_.items, k);
    }
  }

  lemma SoFarNone<C>(olds: map<string, Item<C>>, news: map<string, Item<C>>, preserve: bool, oldItems: seq<Item<C>>,
                     newItems: seq<Item<C>>)
    ensures SoFar(olds, news, olds.Keys + news.Keys, preserve, oldItems, newItems, [], oldItems, newItems)
  {
    var left := olds.Keys + news.Keys;
    assert Gone(olds, news, left, preserve) == {} && Moved(olds, news, left) == {};
    WithoutNone(oldItems, {});
    WithoutNone(newItems, {});
    assert oldItems + [] == oldItems;
  }

  /** Updating again from the same contents changes none, of the overwritten objects and of the moved ones. */
  lemma MergedContentsTwice<C>(update: (C, C) -> C, olds: map<string, C>, news: map<string, C>, preserve: bool)
    requires forall k | k in olds && k in news :: update(update(olds[k], news[k]), news[k]) == update(olds[k], news[k])
    requires forall k | k in news :: update(news[k], news[k]) == news[k]
    ensures var once := MergedContents(update, olds, news, preserve);
      MergedContents(update, once, news, preserve) == once
  {
  }

  /** So it is for columns. */
  lemma ColumnsTwice(s: Spec, olds: map<string, Columns>, news: map<string, Columns>, preserve: bool)
    ensures var update := (a, b) => Overlaid(s, a, b);
      var once := MergedContents(update, olds, news, preserve);
      MergedContents(update, once, news, preserve) == once
  {
    var update := (a, b) => Overlaid(s, a, b);
    forall k | k in news ensures update(news[k], news[k]) == news[k] { OverlaidTwice(s, news[k], news[k]); }
    forall k | k in olds && k in news ensures update(update(olds[k], news[k]), news[k]) == update(olds[k], news[k]) {
      OverlaidTwice(s, olds[k], news[k]);
    }
    MergedContentsTwice(update, olds, news, preserve);
  }

  /** Updating again from objects under the same keys keeps every object in its place. */
  lemma MergedAgain<C>(olds: map<string, Item<C>>, news: map<string, Item<C>>, again: map<string, Item<C>>, preserve: bool)
    requires again.Keys == news.Keys
    ensures Merged(Merged(olds, news, preserve), again, preserve) == Merged(olds, news, preserve)
  {
  }

  /** But an update takes the objects that it moves out of its source: from that, the next one deletes them. */
  lemma AgainFromSameSource<C>(olds: map<string, Item<C>>, news: map<string, Item<C>>)
    ensures Merged(Merged(olds, news, false), Shared(news, olds), false) == Shared(olds, news)
  {
  }
}
