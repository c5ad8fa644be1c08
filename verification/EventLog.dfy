/**
  The log of everything a publisher was ever given, and what its bounded caches and its answers to
  reconnecting clients are as functions of that log.
 */
module EventLog {
  import opened Basics

  datatype Record = Record(key: int, event: Option<string>, text: string)

  type Log = seq<Record>

  function KeyOf(r: Record): int { r.key }

  predicate Gets(dropped: set<string>, event: Option<string>) { event.None? || event.value !in dropped }

  /** The messages of one type. */
  function OfType(log: Log, event: Option<string>): Log {
    if log == [] then [] else (if log[0].event == event then [log[0]] else []) + OfType(log[1..], event)
  }

  /** The messages of the types that a client gets. */
  function Kept(log: Log, dropped: set<string>): Log {
    if log == [] then [] else (if Gets(dropped, log[0].event) then [log[0]] else []) + Kept(log[1..], dropped)
  }

  function Since(log: Log, last: int): Log {
    if log == [] then [] else (if last < log[0].key then [log[0]] else []) + Since(log[1..], last)
  }

  function Texts(log: Log): seq<string> { seq(|log|, i requires 0 <= i < |log| => log[i].text) }

  function LastN<T>(s: seq<T>, n: nat): seq<T> { if |s| <= n then s else s[|s| - n..] }

  /** Appending to a `deque(maxlen=n)`. */
  function Push<T>(s: seq<T>, x: T, n: nat): seq<T> {
    if n == 0 then [] else if |s| == n then s[1..] + [x] else s + [x]
  }

  lemma PushIsLastN<T>(s: seq<T>, x: T, n: nat)
    ensures Push(LastN(s, n), x, n) == LastN(s + [x], n)
  {
    if n != 0 && |s| >= n { assert LastN(s, n)[1..] == s[|s| - n + 1..]; }
  }

  // ---- Filters -----------------------------------------------------------------------------------

  lemma {:induction false} OfTypeAppend(a: Log, b: Log, event: Option<string>)
    ensures OfType(a + b, event) == OfType(a, event) + OfType(b, event)
  {
    if a == [] {
      assert a + b == b;
    } else {
      OfTypeAppend(a[1..], b, event);
      assert (a + b)[1..] == a[1..] + b && (a + b)[0] == a[0];
      ConcatIsAssociative(if a[0].event == event then [a[0]] else [], OfType(a[1..], event), OfType(b, event));
    }
  }

  lemma {:induction false} KeptAppend(a: Log, b: Log, dropped: set<string>)
    ensures Kept(a + b, dropped) == Kept(a, dropped) + Kept(b, dropped)
  {
    if a == [] {
      assert a + b == b;
    } else {
      KeptAppend(a[1..], b, dropped);
      assert (a + b)[1..] == a[1..] + b && (a + b)[0] == a[0];
      ConcatIsAssociative(if Gets(dropped, a[0].event) then [a[0]] else [], Kept(a[1..], dropped), Kept(b, dropped));
    }
  }

  lemma {:induction false} SinceAppend(a: Log, b: Log, last: int)
    ensures Since(a + b, last) == Since(a, last) + Since(b, last)
  {
    if a == [] {
      assert a + b == b;
    } else {
      SinceAppend(a[1..], b, last);
      assert (a + b)[1..] == a[1..] + b && (a + b)[0] == a[0];
      ConcatIsAssociative(if last < a[0].key then [a[0]] else [], Since(a[1..], last), Since(b, last));
    }
  }

  lemma {:induction false} OfTypeIsFilter(log: Log, event: Option<string>)
    ensures forall r :: r in OfType(log, event) <==> r in log && r.event == event
    ensures Increasing(log, KeyOf) ==> Increasing(OfType(log, event), KeyOf)
  {
    if log != [] {
      OfTypeIsFilter(log[1..], event);
      assert log == [log[0]] + log[1..];
      FilterIsIncreasing(log, OfType(log[1..], event));
    }
  }

  lemma {:induction false} KeptIsFilter(log: Log, dropped: set<string>)
    ensures forall r :: r in Kept(log, dropped) <==> r in log && Gets(dropped, r.event)
    ensures Increasing(log, KeyOf) ==> Increasing(Kept(log, dropped), KeyOf)
  {
    if log != [] {
      KeptIsFilter(log[1..], dropped);
      assert log == [log[0]] + log[1..];
      FilterIsIncreasing(log, Kept(log[1..], dropped));
    }
  }

  /** What a client gets: the messages without a type, and those whose type is not dropped. */
  lemma KeptMeans(log: Log, dropped: set<string>, r: Record)
    ensures r in Kept(log, dropped) <==> r in log && forall d | d in dropped :: r.event != Some(d)
  {
    KeptIsFilter(log, dropped);
  }

  lemma {:induction false} SinceIsFilter(log: Log, last: int)
    ensures forall r :: r in Since(log, last) <==> r in log && last < r.key
    ensures Increasing(log, KeyOf) ==> Increasing(Since(log, last), KeyOf)
  {
    if log != [] {
      SinceIsFilter(log[1..], last);
      assert log == [log[0]] + log[1..];
      FilterIsIncreasing(log, Since(log[1..], last));
    }
  }

  lemma FilterIsIncreasing(log: Log, rest: Log)
    requires log != [] && forall r | r in rest :: r in log[1..]
    ensures Increasing(log, KeyOf) ==> Increasing(log[1..], KeyOf)
    ensures Increasing(log, KeyOf) && Increasing(rest, KeyOf) ==> Increasing([log[0]] + rest, KeyOf)
  {
    if Increasing(log, KeyOf) {
      forall r | r in rest ensures log[0].key < r.key {
        var i :| 0 <= i < |log[1..]| && log[1..][i] == r;
        assert KeyOf(log[0]) < KeyOf(log[i + 1]);
      }
      forall i, j | 0 <= i < j < |log[1..]| ensures KeyOf(log[1..][i]) < KeyOf(log[1..][j]) {
        assert KeyOf(log[i + 1]) < KeyOf(log[j + 1]);
      }
    }
  }

  lemma {:induction false} OfTypeOfKept(log: Log, dropped: set<string>, event: Option<string>)
    requires Gets(dropped, event)
    ensures OfType(Kept(log, dropped), event) == OfType(log, event)
  {
    if log != [] {
      OfTypeOfKept(log[1..], dropped, event);
      OfTypeAppend(if Gets(dropped, log[0].event) then [log[0]] else [], Kept(log[1..], dropped), event);
      assert OfType([log[0]], event) == if log[0].event == event then [log[0]] else [] by {
        assert [log[0]][1..] == [];
      }
    }
  }

  lemma {:induction false} KeptTwice(log: Log, dropped: set<string>)
    ensures Kept(Kept(log, dropped), dropped) == Kept(log, dropped)
  {
    if log != [] {
      KeptTwice(log[1..], dropped);
      KeptAppend(if Gets(dropped, log[0].event) then [log[0]] else [], Kept(log[1..], dropped), dropped);
      assert Gets(dropped, log[0].event) ==> Kept([log[0]], dropped) == [log[0]] by { assert [log[0]][1..] == []; }
    }
  }

  // ---- The types seen so far, in the order of their first message --------------------------------

  function Types(log: Log): seq<Option<string>> {
    if log == [] then [] else WithType(Types(log[..|log| - 1]), log[|log| - 1].event)
  }

  /** A key order of a dictionary after `setdefault`. */
  function WithType(types: seq<Option<string>>, event: Option<string>): seq<Option<string>> {
    if event in types then types else types + [event]
  }

  function KeptTypes(types: seq<Option<string>>, dropped: set<string>): seq<Option<string>> {
    if types == [] then [] else
      var n := |types| - 1;
      KeptTypes(types[..n], dropped) + if Gets(dropped, types[n]) then [types[n]] else []
  }

  predicate Distinct<T(==)>(s: seq<T>) { forall i, j | 0 <= i < j < |s| :: s[i] != s[j] }

  lemma {:induction false} TypesAreDistinct(log: Log)
    ensures Distinct(Types(log))
    ensures forall e :: e in Types(log) <==> exists i | 0 <= i < |log| :: log[i].event == e
  {
    if log != [] { TypesAreDistinct(log[..|log| - 1]); }
  }

  lemma {:induction false} KeptTypesIsFilter(types: seq<Option<string>>, dropped: set<string>)
    ensures forall e :: e in KeptTypes(types, dropped) <==> e in types && Gets(dropped, e)
    ensures Distinct(types) ==> Distinct(KeptTypes(types, dropped))
  {
    if types != [] { KeptTypesIsFilter(types[..|types| - 1], dropped); }
  }

  lemma KeptTypesStep(types: seq<Option<string>>, event: Option<string>, dropped: set<string>)
    ensures KeptTypes(WithType(types, event), dropped)
         == if Gets(dropped, event) then WithType(KeptTypes(types, dropped), event) else KeptTypes(types, dropped)
  {
    KeptTypesIsFilter(types, dropped);
    assert (types + [event])[..|types|] == types;
  }

  lemma TypesSnoc(log: Log, r: Record)
    ensures Types(log + [r]) == WithType(Types(log), r.event)
  {
    assert (log + [r])[..|log|] == log;
  }

  lemma {:induction false} TypesOfKept(log: Log, dropped: set<string>)
    ensures Types(Kept(log, dropped)) == KeptTypes(Types(log), dropped)
  {
    if log != [] {
      var a, r := log[..|log| - 1], log[|log| - 1];
      assert log == a + [r] && |a| < |log|;
      TypesOfKept(a, dropped);
      TypesOfKeptSnoc(a, r, dropped);
    }
  }

  lemma TypesOfKeptSnoc(log: Log, r: Record, dropped: set<string>)
    requires Types(Kept(log, dropped)) == KeptTypes(Types(log), dropped)
    ensures Types(Kept(log + [r], dropped)) == KeptTypes(Types(log + [r]), dropped)
  {
    KeptSnoc(log, r, dropped);
    TypesSnoc(log, r);
    TypesSnoc(Kept(log, dropped), r);
    KeptTypesStep(Types(log), r.event, dropped);
  }

  lemma KeptSnoc(log: Log, r: Record, dropped: set<string>)
    ensures Kept(log + [r], dropped) == if Gets(dropped, r.event) then Kept(log, dropped) + [r] else Kept(log, dropped)
  {
    KeptAppend(log, [r], dropped);
    assert [r][1..] == [];
  }

  lemma OfTypeSnoc(log: Log, r: Record, event: Option<string>)
    ensures OfType(log + [r], event) == if r.event == event then OfType(log, event) + [r] else OfType(log, event)
  {
    OfTypeAppend(log, [r], event);
    assert [r][1..] == [];
  }

  // ---- What the caches no longer have ------------------------------------------------------------

  /** The messages of a type that its cache let go. */
  function Evicted(log: Log, event: Option<string>, size: nat): Log {
    var all := OfType(log, event);
    if |all| <= size then [] else all[..|all| - size]
  }

  function Cache(log: Log, event: Option<string>, size: nat): Log { LastN(OfType(log, event), size) }

  lemma CacheHasTheRest(log: Log, event: Option<string>, size: nat)
    ensures OfType(log, event) == Evicted(log, event, size) + Cache(log, event, size)
  {
  }

  /** The newest key that a type's cache let go, if any. */
  function Watermark(log: Log, event: Option<string>, size: nat): Option<int> {
    var gone := Evicted(log, event, size);
    if gone == [] then None else Some(gone[|gone| - 1].key)
  }

  /** The caches of these types have every message newer than this. */
  function CompleteSince(created: int, marks: seq<Option<int>>): int {
    if marks == [] then created else
      var n := |marks| - 1;
      var rest := CompleteSince(created, marks[..n]);
      if marks[n].Some? && rest < marks[n].value then marks[n].value else rest
  }

  function Watermarks(log: Log, types: seq<Option<string>>, size: nat): seq<Option<int>> {
    seq(|types|, i requires 0 <= i < |types| => Watermark(log, types[i], size))
  }

  function Caches(log: Log, types: seq<Option<string>>, size: nat): seq<Log> {
    seq(|types|, i requires 0 <= i < |types| => Cache(log, types[i], size))
  }

  lemma {:induction false} CompleteSinceIsMaximum(created: int, marks: seq<Option<int>>, x: int)
    ensures CompleteSince(created, marks) <= x
       <==> created <= x && forall i | 0 <= i < |marks| && marks[i].Some? :: marks[i].value <= x
  {
    if marks != [] { CompleteSinceIsMaximum(created, marks[..|marks| - 1], x); }
  }
}
