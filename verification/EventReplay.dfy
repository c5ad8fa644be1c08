/**
  What a reconnecting client is sent, as a function of the whole log, and what that means: nothing is
  lost or sent twice, and messages of the types it does not get leave no trace.
 */
module EventReplay {
  import opened Basics
  import opened EventLog
  import Hex

  // ---- Merging caches ----------------------------------------------------------------------------

  function Total(caches: seq<Log>): nat {
    if caches == [] then 0 else Total(caches[..|caches| - 1]) + |caches[|caches| - 1]|
  }

  /** The first of the first n caches whose oldest message has the least key. */
  function LeastHead(caches: seq<Log>, n: nat): (r: Option<nat>)
    requires n <= |caches|
    ensures r.None? ==> forall i | 0 <= i < n :: caches[i] == []
    ensures r.Some? ==> r.value < n && caches[r.value] != []
    ensures r.Some? ==> forall i | 0 <= i < n && caches[i] != [] :: caches[r.value][0].key <= caches[i][0].key
    ensures r.Some? ==> forall i | 0 <= i < r.value && caches[i] != [] :: caches[r.value][0].key < caches[i][0].key
  {
    if n == 0 then None else
      var r := LeastHead(caches, n - 1);
      if caches[n - 1] == [] then r
      else if r.None? || caches[n - 1][0].key < caches[r.value][0].key then Some(n - 1) else r
  }

  lemma {:induction false} TotalDecreases(caches: seq<Log>, i: nat)
    requires i < |caches| && caches[i] != []
    ensures Total(caches[i := caches[i][1..]]) == Total(caches) - 1
  {
    var n := |caches| - 1;
    var less := caches[i := caches[i][1..]];
    if i == n {
      assert less[..n] == caches[..n];
    } else {
      assert less[..n] == caches[..n][i := caches[i][1..]];
      TotalDecreases(caches[..n], i);
    }
  }

  /** `heapq.merge` by key: the least head first, the first cache first among equals. */
  function Merged(caches: seq<Log>): Log
    decreases Total(caches)
  {
    var least := LeastHead(caches, |caches|);
    if least.None? then [] else
      var i := least.value;
      TotalDecreases(caches, i);
      [caches[i][0]] + Merged(caches[i := caches[i][1..]])
  }

  ghost predicate InOne(caches: seq<Log>, r: Record) { exists i | 0 <= i < |caches| :: r in caches[i] }

  lemma {:induction false} MergedIsAll(caches: seq<Log>, r: Record)
    ensures r in Merged(caches) <==> InOne(caches, r)
    decreases Total(caches)
  {
    var least := LeastHead(caches, |caches|);
    if least.Some? {
      var i := least.value;
      var rest := caches[i := caches[i][1..]];
      TotalDecreases(caches, i);
      MergedIsAll(rest, r);
      assert caches[i] == [caches[i][0]] + caches[i][1..];
      if InOne(rest, r) {
        var j :| 0 <= j < |rest| && r in rest[j];
        assert r in caches[j];
      }
      if InOne(caches, r) && r != caches[i][0] {
        var j :| 0 <= j < |caches| && r in caches[j];
        assert r in rest[j];
      }
    }
  }

  ghost predicate OtherKeys(a: Log, b: Log) {
    forall x, y | x in a && y in b :: KeyOf(x) != KeyOf(y)
  }

  ghost predicate Apart(caches: seq<Log>) {
    && (forall i | 0 <= i < |caches| :: Increasing(caches[i], KeyOf))
    && forall i, j | 0 <= i < j < |caches| :: OtherKeys(caches[i], caches[j])
  }

  lemma TailIsIncreasing(s: Log)
    requires s != [] && Increasing(s, KeyOf)
    ensures Increasing(s[1..], KeyOf) && forall r | r in s[1..] :: r in s && s[0].key < r.key
  {
    FilterIsIncreasing(s, s[1..]);
    forall r | r in s[1..] ensures r in s && s[0].key < r.key {
      var i :| 0 <= i < |s[1..]| && s[1..][i] == r;
      assert KeyOf(s[0]) < KeyOf(s[i + 1]);
    }
  }

  lemma ApartNext(caches: seq<Log>, i: nat)
    requires Apart(caches) && LeastHead(caches, |caches|) == Some(i)
    ensures Apart(caches[i := caches[i][1..]])
  {
    TailIsIncreasing(caches[i]);
    var rest := caches[i := caches[i][1..]];
    assert forall j, r | 0 <= j < |rest| && r in rest[j] :: r in caches[j];
    forall j, k | 0 <= j < k < |rest| ensures OtherKeys(rest[j], rest[k]) {
      assert OtherKeys(caches[j], caches[k]);
    }
  }

  lemma {:induction false} HeadIsLeast(caches: seq<Log>, i: nat, j: nat, r: Record)
    requires Apart(caches) && LeastHead(caches, |caches|) == Some(i)
    requires j < |caches| && r in if j == i then caches[i][1..] else caches[j]
    ensures caches[i][0].key < r.key
  {
    if j == i {
      TailIsIncreasing(caches[i]);
    } else {
      FirstIsLeast(caches[j], r);
      KeysDiffer(caches, i, j, r);
    }
  }

  lemma FirstIsLeast(s: Log, r: Record)
    requires Increasing(s, KeyOf) && r in s
    ensures s[0].key <= r.key
  {
    var k :| 0 <= k < |s| && s[k] == r;
    if k != 0 { assert KeyOf(s[0]) < KeyOf(s[k]); }
  }

  lemma KeysDiffer(caches: seq<Log>, i: nat, j: nat, r: Record)
    requires Apart(caches) && i < |caches| && j < |caches| && i != j && caches[i] != [] && r in caches[j]
    ensures caches[i][0].key != r.key
  {
    assert caches[i][0] in caches[i];
    assert if i < j then OtherKeys(caches[i], caches[j]) else OtherKeys(caches[j], caches[i]);
    assert KeyOf(caches[i][0]) != KeyOf(r);
  }

  lemma ConsIsIncreasing(r: Record, rest: Log)
    requires Increasing(rest, KeyOf) && forall x | x in rest :: r.key < x.key
    ensures Increasing([r] + rest, KeyOf)
  {
    var all := [r] + rest;
    forall i, j | 0 <= i < j < |all| ensures KeyOf(all[i]) < KeyOf(all[j]) {
      assert all[j] in rest;
    }
  }

  lemma {:induction false} MergedIsIncreasing(caches: seq<Log>)
    requires Apart(caches)
    ensures Increasing(Merged(caches), KeyOf)
    decreases Total(caches)
  {
    var least := LeastHead(caches, |caches|);
    if least.Some? {
      var i := least.value;
      var rest := caches[i := caches[i][1..]];
      TotalDecreases(caches, i);
      ApartNext(caches, i);
      MergedIsIncreasing(rest);
      forall r | r in Merged(rest) ensures caches[i][0].key < r.key {
        MergedIsAll(rest, r);
        var j :| 0 <= j < |rest| && r in rest[j];
        HeadIsLeast(caches, i, j, r);
      }
      ConsIsIncreasing(caches[i][0], Merged(rest));
    }
  }

  // ---- The answer to a client that gives its last id ---------------------------------------------

  const PlainReinit := "event:reinit\n\n"

  const LoudReinit := "event:reinit\ndata:\n\n"

  function SharedReply(size: nat, log: Log, last: int): seq<string> {
    var cache := LastN(log, size);
    if cache != [] && last >= cache[0].key then Texts(Since(cache, last)) else [PlainReinit]
  }

  /** A client that does not get some types is answered from the caches of the others. */
  function ReplyFrom(created: int, size: nat, log: Log, types: seq<Option<string>>, last: int): seq<string> {
    if last >= CompleteSince(created, Watermarks(log, types, size))
    then Texts(Since(Merged(Caches(log, types, size)), last))
    else [LoudReinit]
  }

  function SomeReply(created: int, size: nat, log: Log, last: int, dropped: set<string>): seq<string> {
    ReplyFrom(created, size, log, KeptTypes(Types(log), dropped), last)
  }

  function Reply(created: int, size: nat, log: Log, lastId: Option<string>, dropped: set<string>): seq<string> {
    if lastId.None? || !Hex.IsId(lastId.value) then []
    else if dropped != {} then SomeReply(created, size, log, Hex.Key(lastId.value), dropped)
    else SharedReply(size, log, Hex.Key(lastId.value))
  }

  /** Everything a client that came when the log was `before` has been sent once `after` was put too. */
  function Received(created: int, size: nat, before: Log, after: Log, lastId: Option<string>,
                    dropped: set<string>): seq<string> {
    Reply(created, size, before, lastId, dropped) + Texts(Kept(after, dropped))
  }

  predicate AskedToReinit(created: int, size: nat, log: Log, last: int, dropped: set<string>) {
    if dropped != {} then last < CompleteSince(created, Watermarks(log, KeptTypes(Types(log), dropped), size))
    else LastN(log, size) == [] || last < LastN(log, size)[0].key
  }

  // ---- Dropped types leave no trace --------------------------------------------------------------

  lemma SameParts(log: Log, dropped: set<string>, types: seq<Option<string>>, size: nat)
    requires forall i | 0 <= i < |types| :: Gets(dropped, types[i])
    ensures Watermarks(log, types, size) == Watermarks(Kept(log, dropped), types, size)
    ensures Caches(log, types, size) == Caches(Kept(log, dropped), types, size)
  {
    forall i | 0 <= i < |types|
      ensures OfType(Kept(log, dropped), types[i]) == OfType(log, types[i])
    {
      OfTypeOfKept(log, dropped, types[i]);
    }
  }

  lemma {:induction false} SomeReplyOfKept(created: int, size: nat, log: Log, last: int, dropped: set<string>)
    ensures SomeReply(created, size, log, last, dropped) == SomeReply(created, size, Kept(log, dropped), last, dropped)
    ensures dropped != {} ==> (AskedToReinit(created, size, log, last, dropped) <==>
                               AskedToReinit(created, size, Kept(log, dropped), last, dropped))
  {
    var types := KeptTypes(Types(log), dropped);
    TypesOfKept(log, dropped);
    TypesOfKept(Kept(log, dropped), dropped);
    KeptTwice(log, dropped);
    KeptTypesIsFilter(Types(log), dropped);
    forall i | 0 <= i < |types| ensures Gets(dropped, types[i]) { assert types[i] in types; }
    SameParts(log, dropped, types, size);
  }

  /**
    What a client that does not get some types receives, and whether it is asked to reinit, depend on
    the messages of the types it gets alone, whatever the clock did.
   */
  lemma DroppedTypesLeaveNoTrace(created: int, size: nat, before: Log, after: Log, before': Log, after': Log,
                                 lastId: Option<string>, dropped: set<string>)
    requires dropped != {}
    requires Kept(before, dropped) == Kept(before', dropped) && Kept(after, dropped) == Kept(after', dropped)
    ensures Received(created, size, before, after, lastId, dropped)
         == Received(created, size, before', after', lastId, dropped)
    ensures forall last :: AskedToReinit(created, size, before, last, dropped)
                      <==> AskedToReinit(created, size, before', last, dropped)
  {
    forall last
      ensures SomeReply(created, size, before, last, dropped) == SomeReply(created, size, before', last, dropped)
      ensures AskedToReinit(created, size, before, last, dropped)
         <==> AskedToReinit(created, size, before', last, dropped)
    {
      SomeReplyOfKept(created, size, before, last, dropped);
      SomeReplyOfKept(created, size, before', last, dropped);
    }
  }

  /** The types that a stream served as of a freeze, or one served live, does not get. */
  function DroppedEvents(freezeAt: Option<int>): set<string> { if freezeAt.Some? then {"score"} else {} }

  /** A frozen stream is the same whatever scores were announced, and however many. */
  lemma {:induction false} FrozenStreamHidesScores(created: int, size: nat, before: Log, after: Log, before': Log, after': Log,
                                lastId: Option<string>, freezeAt: int)
    requires Kept(before, {"score"}) == Kept(before', {"score"}) && Kept(after, {"score"}) == Kept(after', {"score"})
    ensures Received(created, size, before, after, lastId, DroppedEvents(Some(freezeAt)))
         == Received(created, size, before', after', lastId, DroppedEvents(Some(freezeAt)))
    ensures Some("score") !in Types(Kept(before, {"score"})) && Some("score") !in Types(Kept(after, {"score"}))
  {
    DroppedTypesLeaveNoTrace(created, size, before, after, before', after', lastId, {"score"});
    TypesOfKept(before, {"score"});
    TypesOfKept(after, {"score"});
    KeptTypesIsFilter(Types(before), {"score"});
    KeptTypesIsFilter(Types(after), {"score"});
  }

  // ---- When a client is asked to reinit ----------------------------------------------------------

  /** A message that the client gets, newer than its last one, is in no cache any more. */
  ghost predicate Missed(log: Log, size: nat, last: int, dropped: set<string>, r: Record) {
    Gets(dropped, r.event) && last < r.key && r in Evicted(log, r.event, size)
  }

  lemma EvictedIsOld(log: Log, event: Option<string>, size: nat, r: Record)
    requires Increasing(log, KeyOf) && r in Evicted(log, event, size)
    ensures Watermark(log, event, size).Some? && r.key <= Watermark(log, event, size).value
    ensures r in log && r.event == event
  {
    OfTypeIsFilter(log, event);
    var all, gone := OfType(log, event), Evicted(log, event, size);
    var i :| 0 <= i < |gone| && gone[i] == r;
    assert r == all[i] && r in all;
    if i < |gone| - 1 { assert KeyOf(all[i]) < KeyOf(all[|gone| - 1]); }
  }

  /** The type of a message that some cache let go is known. */
  lemma {:induction false} TypeIsKept(log: Log, event: Option<string>, dropped: set<string>)
    requires Gets(dropped, event) && OfType(log, event) != []
    ensures event in KeptTypes(Types(log), dropped)
  {
    OfTypeIsFilter(log, event);
    var r := OfType(log, event)[0];
    assert r in OfType(log, event);
    var i :| 0 <= i < |log| && log[i] == r;
    TypesAreDistinct(log);
    KeptTypesIsFilter(Types(log), dropped);
  }

  lemma WatermarkIsEvicted(log: Log, event: Option<string>, size: nat) returns (r: Record)
    requires Watermark(log, event, size).Some?
    ensures r in Evicted(log, event, size) && r.key == Watermark(log, event, size).value && r.event == event
  {
    var all, gone := OfType(log, event), Evicted(log, event, size);
    r := gone[|gone| - 1];
    assert r == all[|gone| - 1];
    OfTypeIsFilter(log, event);
  }

  /** If asked, then the client is older than the publisher or did miss something, even if the clock jumped. */
  lemma ReinitIsNeeded(created: int, size: nat, log: Log, last: int, dropped: set<string>) returns (missed: Option<Record>)
    requires dropped != {} && AskedToReinit(created, size, log, last, dropped)
    ensures last < created || (missed.Some? && Missed(log, size, last, dropped, missed.value))
  {
    var types := KeptTypes(Types(log), dropped);
    var marks := Watermarks(log, types, size);
    CompleteSinceIsMaximum(created, marks, last);
    missed := None;
    if created <= last {
      var i :| 0 <= i < |marks| && marks[i].Some? && last < marks[i].value;
      var r := WatermarkIsEvicted(log, types[i], size);
      KeptTypesIsFilter(Types(log), dropped);
      assert types[i] in types;
      missed := Some(r);
    }
  }

  /** With a clock that only goes forward, it is asked if and only if that is so. */
  lemma ReinitIffMissed(created: int, size: nat, log: Log, last: int, dropped: set<string>)
    requires dropped != {} && Increasing(log, KeyOf)
    ensures AskedToReinit(created, size, log, last, dropped)
       <==> last < created || exists r :: Missed(log, size, last, dropped, r)
  {
    var types := KeptTypes(Types(log), dropped);
    var marks := Watermarks(log, types, size);
    CompleteSinceIsMaximum(created, marks, last);
    if r :| Missed(log, size, last, dropped, r) {
      EvictedIsOld(log, r.event, size, r);
      TypeIsKept(log, r.event, dropped);
      var i :| 0 <= i < |types| && types[i] == r.event;
      assert marks[i] == Watermark(log, types[i], size);
    }
    if AskedToReinit(created, size, log, last, dropped) {
      var missed := ReinitIsNeeded(created, size, log, last, dropped);
    }
  }

  // ---- Whole-run delivery ------------------------------------------------------------------------

  lemma CacheIsPart(log: Log, event: Option<string>, size: nat)
    requires Increasing(log, KeyOf)
    ensures Increasing(Cache(log, event, size), KeyOf)
    ensures forall r | r in Cache(log, event, size) :: r in log && r.event == event
  {
    OfTypeIsFilter(log, event);
    CacheHasTheRest(log, event, size);
    var all, gone := OfType(log, event), Evicted(log, event, size);
    forall i, j | 0 <= i < j < |Cache(log, event, size)|
      ensures KeyOf(Cache(log, event, size)[i]) < KeyOf(Cache(log, event, size)[j])
    {
      assert KeyOf(all[|gone| + i]) < KeyOf(all[|gone| + j]);
    }
  }

  lemma OtherTypesHaveOtherKeys(log: Log, a: Log, b: Log, event: Option<string>, event': Option<string>)
    requires Increasing(log, KeyOf) && event != event'
    requires (forall r | r in a :: r in log && r.event == event) && (forall r | r in b :: r in log && r.event == event')
    ensures OtherKeys(a, b)
  {
    forall x, y | x in a && y in b ensures KeyOf(x) != KeyOf(y) {
      var k :| 0 <= k < |log| && log[k] == x;
      var l :| 0 <= l < |log| && log[l] == y;
      assert k < l || l < k;
    }
  }

  lemma {:induction false} CachesAreApart(log: Log, types: seq<Option<string>>, size: nat)
    requires Increasing(log, KeyOf) && Distinct(types)
    ensures Apart(Caches(log, types, size))
  {
    var caches := Caches(log, types, size);
    forall i | 0 <= i < |caches| ensures Increasing(caches[i], KeyOf) { CacheIsPart(log, types[i], size); }
    forall i, j | 0 <= i < j < |caches| ensures OtherKeys(caches[i], caches[j]) {
      CacheIsPart(log, types[i], size);
      CacheIsPart(log, types[j], size);
      OtherTypesHaveOtherKeys(log, caches[i], caches[j], types[i], types[j]);
    }
  }

  lemma {:induction false} NewerIsCached(created: int, size: nat, log: Log, last: int, dropped: set<string>, r: Record)
    requires dropped != {} && Increasing(log, KeyOf) && !AskedToReinit(created, size, log, last, dropped)
    requires last < r.key
    ensures InOne(Caches(log, KeptTypes(Types(log), dropped), size), r) <==> r in Kept(log, dropped)
  {
    var types := KeptTypes(Types(log), dropped);
    var caches := Caches(log, types, size);
    KeptIsFilter(log, dropped);
    OfTypeIsFilter(log, r.event);
    KeptTypesIsFilter(Types(log), dropped);
    if InOne(caches, r) {
      var i :| 0 <= i < |caches| && r in caches[i];
      CacheHasTheRest(log, types[i], size);
      OfTypeIsFilter(log, types[i]);
      assert types[i] in types;
    }
    if r in Kept(log, dropped) {
      ReinitIffMissed(created, size, log, last, dropped);
      assert !Missed(log, size, last, dropped, r);
      CacheHasTheRest(log, r.event, size);
      TypeIsKept(log, r.event, dropped);
      var i :| 0 <= i < |types| && types[i] == r.event;
      assert r in caches[i];
    }
  }

  lemma {:induction false} SomeReplyIsComplete(created: int, size: nat, log: Log, last: int, dropped: set<string>)
    requires dropped != {} && Increasing(log, KeyOf) && !AskedToReinit(created, size, log, last, dropped)
    ensures SomeReply(created, size, log, last, dropped) == Texts(Since(Kept(log, dropped), last))
  {
    var types := KeptTypes(Types(log), dropped);
    var caches := Caches(log, types, size);
    TypesAreDistinct(log);
    KeptTypesIsFilter(Types(log), dropped);
    CachesAreApart(log, types, size);
    MergedIsIncreasing(caches);
    KeptIsFilter(log, dropped);
    var sent, due := Since(Merged(caches), last), Since(Kept(log, dropped), last);
    SinceIsFilter(Merged(caches), last);
    SinceIsFilter(Kept(log, dropped), last);
    forall r: Record | last < r.key ensures r in Merged(caches) <==> r in Kept(log, dropped) {
      NewerIsCached(created, size, log, last, dropped, r);
      MergedIsAll(caches, r);
    }
    IncreasingListIsUnique(sent, due, KeyOf);
  }

  lemma {:induction false} KeptOfNothingDropped(log: Log)
    ensures Kept(log, {}) == log
  {
    if log != [] { KeptOfNothingDropped(log[1..]); }
  }

  lemma {:induction false} SinceOfOld(log: Log, last: int)
    requires forall r | r in log :: r.key <= last
    ensures Since(log, last) == []
  {
    if log != [] { assert log[0] in log; SinceOfOld(log[1..], last); }
  }

  lemma {:induction false} SinceOfNew(log: Log, last: int)
    requires forall r | r in log :: last < r.key
    ensures Since(log, last) == log
  {
    if log != [] { assert log[0] in log; SinceOfNew(log[1..], last); }
  }

  lemma {:induction false} SinceIsShorter(log: Log, last: int, r: Record)
    requires r in log && r.key <= last
    ensures |Since(log, last)| < |log|
  {
    if r == log[0] { SinceIsNotLonger(log[1..], last); } else { SinceIsShorter(log[1..], last, r); }
  }

  lemma {:induction false} SinceIsNotLonger(log: Log, last: int)
    ensures |Since(log, last)| <= |log|
  {
    if log != [] { SinceIsNotLonger(log[1..], last); }
  }

  lemma OldPartIsOld(log: Log, n: nat, last: int)
    requires Increasing(log, KeyOf) && n < |log| && log[n].key <= last
    ensures Since(log, last) == Since(log[n..], last)
  {
    assert log == log[..n] + log[n..];
    SinceAppend(log[..n], log[n..], last);
    forall r | r in log[..n] ensures r.key <= last {
      var i :| 0 <= i < n && log[i] == r;
      assert KeyOf(log[i]) < KeyOf(log[n]);
    }
    SinceOfOld(log[..n], last);
  }

  lemma {:induction false} SharedReplyIsComplete(created: int, size: nat, log: Log, last: int)
    requires Increasing(log, KeyOf) && !AskedToReinit(created, size, log, last, {})
    ensures SharedReply(size, log, last) == Texts(Since(Kept(log, {}), last))
  {
    KeptOfNothingDropped(log);
    var cache := LastN(log, size);
    assert cache == log[|log| - |cache|..];
    OldPartIsOld(log, |log| - |cache|, last);
  }

  lemma TextsAppend(a: Log, b: Log)
    ensures Texts(a + b) == Texts(a) + Texts(b)
  {
  }

  /**
    Whole-run delivery: a client that was not asked to reinit has been sent, by the replay and then live,
    exactly the messages of its types that were ever put after its last one, in that order, if and only
    if its last id is not ahead of the clock.
   */
  lemma {:induction false} DeliveryIsExact(created: int, size: nat, before: Log, after: Log, lastId: string, dropped: set<string>)
    requires Increasing(before, KeyOf) && Hex.IsId(lastId)
    requires !AskedToReinit(created, size, before, Hex.Key(lastId), dropped)
    ensures Received(created, size, before, after, Some(lastId), dropped)
         == Texts(Since(Kept(before + after, dropped), Hex.Key(lastId)))
       <==> forall r | r in Kept(after, dropped) :: Hex.Key(lastId) < r.key
  {
    var last := Hex.Key(lastId);
    var old_, new_ := Kept(before, dropped), Kept(after, dropped);
    if dropped == {} { SharedReplyIsComplete(created, size, before, last); }
    else { SomeReplyIsComplete(created, size, before, last, dropped); }
    KeptAppend(before, after, dropped);
    SinceAppend(old_, new_, last);
    TextsAppend(Since(old_, last), Since(new_, last));
    if r :| r in new_ && r.key <= last {
      SinceIsShorter(new_, last, r);
    } else {
      SinceOfNew(new_, last);
    }
  }

  /** In particular when the id is that of a message the client was once sent. */
  lemma {:induction false} DeliveryAfterOwnMessage(created: int, size: nat, before: Log, after: Log, n: nat, dropped: set<string>)
    requires Increasing(before + after, KeyOf)
    requires exists i | 0 <= i < |before| :: before[i].key == n
    requires !AskedToReinit(created, size, before, n, dropped)
    ensures Received(created, size, before, after, Some(Hex.Hexadecimal(n)), dropped)
         == Texts(Since(Kept(before + after, dropped), n))
  {
    var all := before + after;
    var k :| 0 <= k < |before| && before[k].key == n;
    forall i, j | 0 <= i < j < |before| ensures KeyOf(before[i]) < KeyOf(before[j]) {
      assert KeyOf(all[i]) < KeyOf(all[j]);
    }
    Hex.IdIsReadBack(n);
    KeptIsFilter(after, dropped);
    forall r | r in Kept(after, dropped) ensures n < r.key {
      var j :| 0 <= j < |after| && after[j] == r;
      assert KeyOf(all[k]) < KeyOf(all[|before| + j]);
    }
    DeliveryIsExact(created, size, before, after, Hex.Hexadecimal(n), dropped);
  }

  /** The messages that the shared cache let go. */
  function Forgotten(log: Log, size: nat): Log { log[..|log| - |LastN(log, size)|] }

  /**
    Without dropped types, a client is asked to reinit though nothing it missed is gone exactly when its
    id is older than the oldest cached message but not older than the newest forgotten one.
   */
  lemma {:induction false} NeedlessReinitIff(created: int, size: nat, log: Log, last: int)
    requires Increasing(log, KeyOf)
    ensures var cache, gone := LastN(log, size), Forgotten(log, size);
      AskedToReinit(created, size, log, last, {}) && (forall r | r in gone :: r.key <= last) <==>
      (cache == [] || last < cache[0].key) && (gone == [] || gone[|gone| - 1].key <= last)
  {
    var gone := Forgotten(log, size);
    if gone != [] {
      assert gone[|gone| - 1] in gone;
      forall r | r in gone ensures r.key <= gone[|gone| - 1].key {
        var i :| 0 <= i < |gone| && gone[i] == r;
        if i < |gone| - 1 { assert KeyOf(log[i]) < KeyOf(log[|gone| - 1]); }
      }
    }
  }

  /** For instance when nothing was ever put. */
  lemma ReinitThoughNothingMissed(created: int, size: nat, last: int)
    ensures AskedToReinit(created, size, [], last, {}) && Forgotten([], size) == []
  {
  }

  /**
    Everything a client is sent that the delivery does not cover: without an id that can be read it is
    only what is put from now on, and with one that is too old it is a request to reinit before that.
   */
  lemma {:induction false} OtherwiseReceived(created: int, size: nat, before: Log, after: Log, lastId: Option<string>, dropped: set<string>)
    ensures lastId == None || !Hex.IsId(lastId.value) ==>
      Received(created, size, before, after, lastId, dropped) == Texts(Kept(after, dropped))
    ensures lastId.Some? && Hex.IsId(lastId.value) && AskedToReinit(created, size, before, Hex.Key(lastId.value), dropped) ==>
      Received(created, size, before, after, lastId, dropped) ==
      (if dropped == {} then ["event:reinit\n\n"] else ["event:reinit\ndata:\n\n"]) + Texts(Kept(after, dropped))
  {
    assert [] + Texts(Kept(after, dropped)) == Texts(Kept(after, dropped));
  }

  /** A stream that is served live gets every message, and one that is served as of a freeze all but the scores. */
  lemma StreamsMean(log: Log, freezeAt: Option<int>)
    ensures freezeAt == None ==> Kept(log, DroppedEvents(freezeAt)) == log
    ensures freezeAt != None ==> forall r :: r in Kept(log, DroppedEvents(freezeAt)) <==> r in log && r.event != Some("score")
  {
    KeptOfNothingDropped(log);
    if freezeAt.Some? { forall r ensures r in Kept(log, {"score"}) <==> r in log && r.event != Some("score") { KeptMeans(log, {"score"}, r); } }
  }
}
