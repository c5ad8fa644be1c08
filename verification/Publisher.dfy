/** The broadcast of server-sent events: bounded caches, and one queue for every client. */
module Publisher {
  import opened Basics
  import opened EventLog
  import opened EventReplay
  import EventFormat
  import Hex

  // ---- The caches as functions of the log --------------------------------------------------------

  /**
    The shared cache, the cache of every type (a dictionary with its insertion order) and the key of the
    newest message that each of those let go.
   */
  datatype Contents = Contents(shared: Log, order: seq<Option<string>>, byEvent: map<Option<string>, Log>,
                               evicted: map<Option<string>, int>)

  /** What a publisher that was given this log must hold. */
  ghost predicate Holds(c: Contents, size: nat, log: Log) {
    match c case Contents(shared, order, byEvent, evicted) =>
      && shared == LastN(log, size)
      && order == Types(log)
      && (forall e :: e in byEvent <==> e in Types(log))
      && (forall e {:trigger Cache(log, e, size)} | e in byEvent :: byEvent[e] == Cache(log, e, size))
      && forall e {:trigger Watermark(log, e, size)} :: Watermark(log, e, size) == if e in evicted then Some(evicted[e]) else None
  }

  lemma HoldsNothing(size: nat)
    ensures Holds(Contents([], [], map[], map[]), size, [])
  {
  }

  function CacheOf(c: Contents, event: Option<string>): Log { if event in c.byEvent then c.byEvent[event] else [] }

  function Noted(c: Contents, size: nat, r: Record): map<Option<string>, int> {
    var cache := CacheOf(c, r.event);
    if |cache| != size then c.evicted
    else c.evicted[r.event := if cache != [] then cache[0].key else r.key]
  }

  function Stored(c: Contents, size: nat, r: Record): Contents {
    Contents(Push(c.shared, r, size), WithType(c.order, r.event),
             c.byEvent[r.event := Push(CacheOf(c, r.event), r, size)], Noted(c, size, r))
  }

  lemma {:induction false} UnseenType(log: Log, event: Option<string>)
    requires event !in Types(log)
    ensures OfType(log, event) == []
  {
    if log != [] {
      var n := |log| - 1;
      UnseenType(log[..n], event);
      assert log == log[..n] + [log[n]];
      OfTypeSnoc(log[..n], log[n], event);
    }
  }

  lemma CacheIsHeld(c: Contents, size: nat, log: Log, event: Option<string>)
    requires Holds(c, size, log)
    ensures CacheOf(c, event) == Cache(log, event, size)
  {
    if event !in c.byEvent { UnseenType(log, event); }
  }

  lemma WatermarkIsHeld(c: Contents, size: nat, log: Log, event: Option<string>)
    requires Holds(c, size, log)
    ensures Watermark(log, event, size) == if event in c.evicted then Some(c.evicted[event]) else None
  {
  }

  lemma SharedIsHeld(c: Contents, size: nat, log: Log)
    requires Holds(c, size, log)
    ensures c.shared == LastN(log, size)
  {
  }

  lemma CachesStep(log: Log, types: seq<Option<string>>, i: nat, size: nat)
    requires i < |types|
    ensures Caches(log, types[..i + 1], size) == Caches(log, types[..i], size) + [Cache(log, types[i], size)]
    ensures Watermarks(log, types[..i + 1], size) == Watermarks(log, types[..i], size) + [Watermark(log, types[i], size)]
  {
  }

  lemma TypesAreHeld(c: Contents, size: nat, log: Log, dropped: set<string>)
    requires Holds(c, size, log)
    ensures c.order == Types(log) && forall e | e in KeptTypes(c.order, dropped) :: e in c.byEvent
  {
    KeptTypesIsFilter(c.order, dropped);
  }

  lemma WatermarkNext(log: Log, r: Record, size: nat, event: Option<string>)
    ensures Watermark(log + [r], event, size) ==
      if event != r.event || |Cache(log, event, size)| != size then Watermark(log, event, size)
      else if size == 0 then Some(r.key) else Some(Cache(log, event, size)[0].key)
  {
    OfTypeSnoc(log, r, event);
  }

  lemma CacheNext(log: Log, r: Record, size: nat, event: Option<string>)
    ensures Cache(log + [r], event, size) ==
      if event == r.event then Push(Cache(log, event, size), r, size) else Cache(log, event, size)
  {
    OfTypeSnoc(log, r, event);
    PushIsLastN(OfType(log, event), r, size);
  }

  lemma TypesNext(log: Log, r: Record)
    ensures Types(log + [r]) == WithType(Types(log), r.event)
  {
    assert (log + [r])[..|log|] == log;
  }

  lemma HoldsNext(c: Contents, size: nat, log: Log, r: Record)
    requires Holds(c, size, log)
    ensures Holds(Stored(c, size, r), size, log + [r])
  {
    var all, n := log + [r], Stored(c, size, r);
    PushIsLastN(log, r, size);
    TypesNext(log, r);
    CacheIsHeld(c, size, log, r.event);
    forall e | e in n.byEvent ensures n.byEvent[e] == Cache(all, e, size) { CacheNext(log, r, size, e); }
    forall e ensures Watermark(all, e, size) == if e in n.evicted then Some(n.evicted[e]) else None {
      WatermarkNext(log, r, size, e);
    }
  }

  // ---- Clients -----------------------------------------------------------------------------------

  class Queue {
    var items: seq<string>
    /** Everything that was ever put, and how much of it was taken out. */
    ghost var sent: seq<string>
    ghost var taken: seq<string>
    /** How many messages the publisher had been given when the client came, and the id it gave. */
    ghost const since: nat
    ghost const lastId: Option<string>

    ghost predicate Ok() reads this { taken + items == sent }

    constructor (ghost since: nat, ghost lastId: Option<string>)
      ensures items == sent == taken == [] && this.since == since && this.lastId == lastId
    {
      items, sent, taken := [], [], [];
      this.since, this.lastId := since, lastId;
    }

    method Put(text: string)
      requires Ok()
      modifies this
      ensures Ok() && items == old(items) + [text] && sent == old(sent) + [text] && taken == old(taken)
    {
      items, sent := items + [text], sent + [text];
      assert taken + items == (taken + old(items)) + [text];
    }
  }

  class Subscriber {
    const queue: Queue

    constructor (queue: Queue)
      ensures this.queue == queue
    {
      this.queue := queue;
    }

    /** Waits until there is something to take (the precondition), then takes all there is. */
    method Get() returns (batch: seq<string>)
      requires queue.Ok() && queue.items != []
      modifies queue
      ensures queue.Ok() && queue.items == [] && queue.sent == old(queue.sent)
      ensures batch == old(queue.items) && queue.taken == old(queue.taken) + batch
    {
      batch := [];
      while queue.items != []
        invariant queue.Ok() && queue.sent == old(queue.sent)
        invariant batch + queue.items == old(queue.items) && queue.taken == old(queue.taken) + batch
        decreases |queue.items|
      {
        var text := queue.items[0];
        TakeFirst(queue.taken, old(queue.taken), batch, queue.items);
        batch, queue.items, queue.taken := batch + [text], queue.items[1..], queue.taken + [text];
      }
    }
  }

  lemma TakeFirst(taken: seq<string>, before: seq<string>, batch: seq<string>, items: seq<string>)
    requires items != []
    ensures (batch + [items[0]]) + items[1..] == batch + items
    ensures (taken + [items[0]]) + items[1..] == taken + items
    ensures (before + batch) + [items[0]] == before + (batch + [items[0]])
  {
    assert items == [items[0]] + items[1..];
  }

  twostate predicate Got(q: Queue, dropped: set<string>, r: Record)
    reads q
  {
    var more := if Gets(dropped, r.event) then [r.text] else [];
    q.Ok() && q.items == old(q.items) + more && q.sent == old(q.sent) + more && q.taken == old(q.taken)
  }

  /** Sends a message to all the clients that get its type, in any order. */
  method Broadcast(subQueues: map<Queue, set<string>>, r: Record)
    requires forall q | q in subQueues :: q.Ok()
    modifies subQueues.Keys
    ensures forall q | q in subQueues :: Got(q, subQueues[q], r)
  {
    var left := subQueues.Keys;
    while left != {}
      invariant left <= subQueues.Keys
      invariant forall q | q in left :: unchanged(q)
      invariant forall q | q in subQueues && q !in left :: Got(q, subQueues[q], r)
      decreases left
    {
      var q :| q in left;
      if Gets(subQueues[q], r.event) { q.Put(r.text); }
      left := left - {q};
    }
  }

  // ---- The publisher -----------------------------------------------------------------------------

  /** A client has been sent what it is due and no more. */
  ghost predicate Served(created: int, size: nat, log: Log, since: nat, lastId: Option<string>, dropped: set<string>,
                         sent: seq<string>) {
    since <= |log| && sent == Received(created, size, log[..since], log[since..], lastId, dropped)
  }

  lemma KeptTextsSnoc(log: Log, r: Record, dropped: set<string>)
    ensures Texts(Kept(log + [r], dropped))
         == Texts(Kept(log, dropped)) + if Gets(dropped, r.event) then [r.text] else []
  {
    KeptSnoc(log, r, dropped);
    TextsAppend(Kept(log, dropped), [r]);
  }

  lemma ServedNext(created: int, size: nat, log: Log, since: nat, lastId: Option<string>, dropped: set<string>,
                   sent: seq<string>, r: Record)
    requires Served(created, size, log, since, lastId, dropped, sent)
    ensures Served(created, size, log + [r], since, lastId, dropped,
                   sent + if Gets(dropped, r.event) then [r.text] else [])
  {
    var all, more := log + [r], if Gets(dropped, r.event) then [r.text] else [];
    assert all[..since] == log[..since] && all[since..] == log[since..] + [r];
    KeptTextsSnoc(log[since..], r, dropped);
    ConcatIsAssociative(Reply(created, size, log[..since], lastId, dropped), Texts(Kept(log[since..], dropped)), more);
  }

  lemma {:induction false} ServedFirst(created: int, size: nat, log: Log, lastId: Option<string>, dropped: set<string>)
    ensures Served(created, size, log, |log|, lastId, dropped, Reply(created, size, log, lastId, dropped))
  {
    assert log[..|log|] == log && log[|log|..] == [];
    assert Kept(log[|log|..], dropped) == [];
  }

  class Publisher {
    const size: nat
    const created: nat
    var cache: Log
    var types: seq<Option<string>>
    var cacheByEvent: map<Option<string>, Log>
    var evicted: map<Option<string>, int>
    var subQueues: map<Queue, set<string>>
    ghost var log: Log

    ghost function Caches(): Contents reads this { Contents(cache, types, cacheByEvent, evicted) }

    ghost predicate Valid()
      reads this, subQueues.Keys
    {
      && Holds(Caches(), size, log)
      && forall q | q in subQueues ::
           q.Ok() && Served(created, size, log, q.since, q.lastId, subQueues[q], q.sent)
    }

    constructor (size: nat, now: nat)
      ensures Valid() && this.size == size && created == now && log == [] && subQueues == map[]
    {
      this.size, created := size, now;
      cache, types, cacheByEvent, evicted, subQueues, log := [], [], map[], map[], map[], [];
      HoldsNothing(size);
    }

    /** The caches after one more message. */
    method Store(r: Record)
      modifies this`cache, this`types, this`cacheByEvent, this`evicted, this`log
      ensures log == old(log) + [r] && Caches() == Stored(old(Caches()), size, r)
    {
      cache := Push(cache, r, size);
      var known := if r.event in cacheByEvent then cacheByEvent[r.event] else [];
      types := WithType(types, r.event);
      if |known| == size { evicted := evicted[r.event := if known != [] then known[0].key else r.key]; }
      cacheByEvent := cacheByEvent[r.event := Push(known, r, size)];
      log := log + [r];
    }

    method Keep(r: Record)
      requires Holds(Caches(), size, log)
      modifies this`cache, this`types, this`cacheByEvent, this`evicted, this`log
      ensures log == old(log) + [r] && Holds(Caches(), size, log)
    {
      HoldsNext(Caches(), size, log, r);
      Store(r);
    }

    /** `put`: an event name that cannot be printed is refused before anything changes. */
    method Put(now: nat, event: Option<string>, data: Option<string>) returns (ok: bool)
      requires Valid()
      modifies this`cache, this`types, this`cacheByEvent, this`evicted, this`log, subQueues.Keys
      ensures Valid()
      ensures ok <==> EventFormat.Formatted(Hex.Hexadecimal(now), event, data).Some?
      ensures ok ==>
        var r := Record(now, event, EventFormat.Formatted(Hex.Hexadecimal(now), event, data).value);
        log == old(log) + [r] && forall q | q in subQueues :: Got(q, subQueues[q], r)
      ensures !ok ==> unchanged(this) && forall q | q in subQueues :: unchanged(q)
    {
      var text := EventFormat.FormatEvent(Hex.Hexadecimal(now), event, data);
      if text.None? { return false; }
      Dispatch(Record(now, event, text.value));
      ok := true;
    }

    method Dispatch(r: Record)
      requires Valid()
      modifies this`cache, this`types, this`cacheByEvent, this`evicted, this`log, subQueues.Keys
      ensures Valid() && log == old(log) + [r]
      ensures forall q | q in subQueues :: Got(q, subQueues[q], r)
    {
      Keep(r);
      Broadcast(subQueues, r);
      forall q | q in subQueues ensures Served(created, size, log, q.since, q.lastId, subQueues[q], q.sent) {
        ServedNext(created, size, old(log), q.since, q.lastId, subQueues[q], old(q.sent), r);
        assert Got(q, subQueues[q], r);
      }
    }

    /** `get_subscriber`. */
    method GetSubscriber(lastId: Option<string>, dropped: set<string>) returns (s: Subscriber)
      requires Valid()
      modifies this`subQueues
      ensures Valid() && fresh(s) && fresh(s.queue) && subQueues == old(subQueues)[s.queue := dropped]
      ensures s.queue.since == |log| && s.queue.lastId == lastId
      ensures s.queue.items == Reply(created, size, log, lastId, dropped)
    {
      var queue := new Queue(|log|, lastId);
      Replay(queue, lastId, dropped);
      ServedFirst(created, size, log, lastId, dropped);
      subQueues := subQueues[queue := dropped];
      s := new Subscriber(queue);
    }

    method Replay(queue: Queue, lastId: Option<string>, dropped: set<string>)
      requires Holds(Caches(), size, log) && queue.Ok() && queue.items == queue.sent == []
      modifies queue
      ensures queue.Ok() && queue.items == queue.sent == Reply(created, size, log, lastId, dropped)
    {
      SharedIsHeld(Caches(), size, log);
      if lastId.Some? && Hex.IsId(lastId.value) {
        var last := Hex.Key(lastId.value);
        if dropped != {} {
          ReplaySome(queue, last, dropped);
        } else if cache != [] && last >= cache[0].key {
          PutNewer(queue, cache, last);
        } else {
          queue.Put(PlainReinit);
        }
      }
    }

    method FetchCaches(kept: seq<Option<string>>) returns (caches: seq<Log>)
      requires Holds(Caches(), size, log) && forall i | 0 <= i < |kept| :: kept[i] in cacheByEvent
      ensures caches == EventLog.Caches(log, kept, size)
    {
      caches := [];
      for i := 0 to |kept|
        invariant caches == EventLog.Caches(log, kept[..i], size)
      {
        CacheIsHeld(Caches(), size, log, kept[i]);
        CachesStep(log, kept, i, size);
        caches := caches + [cacheByEvent[kept[i]]];
      }
      assert kept[..|kept|] == kept;
    }

    method FetchWatermarks(kept: seq<Option<string>>) returns (marks: seq<Option<int>>)
      requires Holds(Caches(), size, log)
      ensures marks == Watermarks(log, kept, size)
    {
      marks := [];
      for i := 0 to |kept|
        invariant marks == Watermarks(log, kept[..i], size)
      {
        WatermarkIsHeld(Caches(), size, log, kept[i]);
        CachesStep(log, kept, i, size);
        marks := marks + [if kept[i] in evicted then Some(evicted[kept[i]]) else None];
      }
      assert kept[..|kept|] == kept;
    }

    /** `_replay_some`. */
    method ReplaySome(queue: Queue, last: int, dropped: set<string>)
      requires Holds(Caches(), size, log) && queue.Ok() && queue.items == queue.sent == []
      modifies queue
      ensures queue.Ok() && queue.items == queue.sent == SomeReply(created, size, log, last, dropped)
    {
      var kept := KeepTypes(types, dropped);
      TypesAreHeld(Caches(), size, log, dropped);
      var caches := FetchCaches(kept);
      var marks := FetchWatermarks(kept);
      var completeSince := LatestOf(created, marks);
      if last >= completeSince {
        var all := MergeByKey(caches);
        PutNewer(queue, all, last);
      } else {
        queue.Put(LoudReinit);
      }
    }
  }

  /** Taking messages out of a queue is no concern of the publisher. */
  twostate lemma TakingKeepsValid(p: Publisher, q: Queue)
    requires old(p.Valid()) && unchanged(p) && q.Ok() && q.sent == old(q.sent)
    requires forall o | o in p.subQueues && o != q :: unchanged(o)
    ensures p.Valid()
  {
    assert forall o | o in p.subQueues :: old(o.Ok());
  }

  /** Whole-run delivery, for every client of a publisher in any state it can be in. */
  lemma {:induction false} ClientGetsEverything(p: Publisher, q: Queue)
    requires p.Valid() && q in p.subQueues && Increasing(p.log, KeyOf) && q.since <= |p.log|
    requires q.lastId.Some? && Hex.IsId(q.lastId.value)
    requires !AskedToReinit(p.created, p.size, p.log[..q.since], Hex.Key(q.lastId.value), p.subQueues[q])
    ensures q.taken + q.items == Texts(Since(Kept(p.log, p.subQueues[q]), Hex.Key(q.lastId.value)))
       <==> forall r | r in Kept(p.log[q.since..], p.subQueues[q]) :: Hex.Key(q.lastId.value) < r.key
  {
    ServedIsExact(p.created, p.size, p.log, q.since, q.lastId.value, p.subQueues[q], q.sent);
  }

  lemma {:induction false} ServedIsExact(created: int, size: nat, log: Log, since: nat, lastId: string,
                                         dropped: set<string>, sent: seq<string>)
    requires Served(created, size, log, since, Some(lastId), dropped, sent)
    requires Increasing(log, KeyOf) && Hex.IsId(lastId)
    requires !AskedToReinit(created, size, log[..since], Hex.Key(lastId), dropped)
    ensures sent == Texts(Since(Kept(log, dropped), Hex.Key(lastId)))
       <==> forall r | r in Kept(log[since..], dropped) :: Hex.Key(lastId) < r.key
  {
    PrefixIsIncreasing(log, since);
    SplitAt(log, since);
    ServedInParts(created, size, log, log[..since], log[since..], lastId, dropped);
  }

  lemma SplitAt(log: Log, n: nat)
    requires n <= |log|
    ensures log == log[..n] + log[n..]
  {
  }

  lemma {:induction false} ServedInParts(created: int, size: nat, log: Log, before: Log, after: Log, lastId: string,
                                         dropped: set<string>)
    requires log == before + after && Increasing(before, KeyOf) && Hex.IsId(lastId)
    requires !AskedToReinit(created, size, before, Hex.Key(lastId), dropped)
    ensures Received(created, size, before, after, Some(lastId), dropped) == Texts(Since(Kept(log, dropped), Hex.Key(lastId)))
       <==> forall r | r in Kept(after, dropped) :: Hex.Key(lastId) < r.key
  {
    DeliveryIsExact(created, size, before, after, lastId, dropped);
  }

  lemma PrefixIsIncreasing(log: Log, n: nat)
    requires Increasing(log, KeyOf) && n <= |log|
    ensures Increasing(log[..n], KeyOf)
  {
    forall i, j | 0 <= i < j < n ensures KeyOf(log[..n][i]) < KeyOf(log[..n][j]) {
      assert KeyOf(log[i]) < KeyOf(log[j]);
    }
  }

  method KeepTypes(types: seq<Option<string>>, dropped: set<string>) returns (kept: seq<Option<string>>)
    ensures kept == KeptTypes(types, dropped)
  {
    kept := [];
    for i := 0 to |types|
      invariant kept == KeptTypes(types[..i], dropped)
    {
      assert types[..i + 1][..i] == types[..i];
      if Gets(dropped, types[i]) { kept := kept + [types[i]]; }
    }
    assert types[..|types|] == types;
  }

  /** `max` of the creation time and the keys that are given. */
  method LatestOf(created: int, marks: seq<Option<int>>) returns (latest: int)
    ensures latest == CompleteSince(created, marks)
  {
    latest := created;
    for i := 0 to |marks|
      invariant latest == CompleteSince(created, marks[..i])
    {
      assert marks[..i + 1][..i] == marks[..i];
      if marks[i].Some? && latest < marks[i].value { latest := marks[i].value; }
    }
    assert marks[..|marks|] == marks;
  }

  /** `heapq.merge`. */
  method MergeByKey(caches: seq<Log>) returns (all: Log)
    ensures all == Merged(caches)
  {
    all := [];
    var left := caches;
    while true
      invariant all + Merged(left) == Merged(caches)
      decreases Total(left)
    {
      var least := LeastHead(left, |left|);
      if least.None? { assert Merged(left) == []; return; }
      var i := least.value;
      TotalDecreases(left, i);
      ConcatIsAssociative(all, [left[i][0]], Merged(left[i := left[i][1..]]));
      all, left := all + [left[i][0]], left[i := left[i][1..]];
    }
  }

  lemma NewerStep(messages: Log, i: nat, last: int)
    requires i < |messages|
    ensures Texts(Since(messages[..i + 1], last))
         == Texts(Since(messages[..i], last)) + if last < messages[i].key then [messages[i].text] else []
  {
    var s, r := messages[..i], messages[i];
    assert messages[..i + 1] == s + [r];
    SinceAppend(s, [r], last);
    assert [r][1..] == [];
    TextsAppend(Since(s, last), Since([r], last));
  }

  method PutNewer(queue: Queue, messages: Log, last: int)
    requires queue.Ok() && queue.items == queue.sent == []
    modifies queue
    ensures queue.Ok() && queue.items == queue.sent == Texts(Since(messages, last))
  {
    for i := 0 to |messages|
      invariant queue.Ok() && queue.items == queue.sent == Texts(Since(messages[..i], last))
    {
      NewerStep(messages, i, last);
      if messages[i].key > last { queue.Put(messages[i].text); }
    }
    assert messages[..|messages|] == messages;
  }
}
