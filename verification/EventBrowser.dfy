/** What a browser dispatches from all that a publisher sends it: the replay, the live messages and the pings. */
module EventBrowser {
  import opened Basics
  import opened EventFormat
  import opened EventParser
  import opened EventLog
  import opened EventReplay
  import Hex

  /** What `put` is called with, and when. */
  datatype Message = Message(key: nat, event: Option<string>, data: Option<string>)

  function ItemOf(m: Message): Item { Sent(Hex.Hexadecimal(m.key), m.event, m.data) }

  /** A name that `put` accepts, and nothing that the parser of a browser would alter. */
  predicate Plain(m: Message) { Printable(ItemOf(m)) && Readable(ItemOf(m)) }

  function RecordOf(m: Message): Record
    requires Printable(ItemOf(m))
  {
    Record(m.key, m.event, Wire(ItemOf(m)))
  }

  predicate AllPlain(ms: seq<Message>) { forall i | 0 <= i < |ms| :: Plain(ms[i]) }

  function LogOf(ms: seq<Message>): Log
    requires AllPlain(ms)
  {
    seq(|ms|, i requires 0 <= i < |ms| => RecordOf(ms[i]))
  }

  /** The messages of the types that a client gets, newer than its last one. */
  function Due(ms: seq<Message>, dropped: set<string>, last: int): seq<Message> {
    if ms == [] then [] else
      (if Gets(dropped, ms[0].event) && last < ms[0].key then [ms[0]] else []) + Due(ms[1..], dropped, last)
  }

  lemma {:induction false} DueIsPlain(ms: seq<Message>, dropped: set<string>, last: int)
    requires AllPlain(ms)
    ensures AllPlain(Due(ms, dropped, last))
  {
    if ms != [] { DueIsPlain(ms[1..], dropped, last); }
  }

  lemma LogOfTail(ms: seq<Message>)
    requires ms != [] && AllPlain(ms)
    ensures AllPlain(ms[1..]) && LogOf(ms)[0] == RecordOf(ms[0]) && LogOf(ms)[1..] == LogOf(ms[1..])
  {
  }

  lemma LogOfCons(m: Message, ms: seq<Message>)
    requires Plain(m) && AllPlain(ms)
    ensures AllPlain([m] + ms) && LogOf([m] + ms) == [RecordOf(m)] + LogOf(ms)
  {
  }

  lemma SinceOfKeptCons(log: Log, dropped: set<string>, last: int)
    requires log != []
    ensures Since(Kept(log, dropped), last) ==
      (if Gets(dropped, log[0].event) && last < log[0].key then [log[0]] else []) + Since(Kept(log[1..], dropped), last)
  {
    var first, rest := if Gets(dropped, log[0].event) then [log[0]] else [], Kept(log[1..], dropped);
    SinceAppend(first, rest, last);
    assert [log[0]][1..] == [];
  }

  lemma {:induction false} DueIsSince(ms: seq<Message>, dropped: set<string>, last: int)
    requires AllPlain(ms) && AllPlain(Due(ms, dropped, last))
    ensures Since(Kept(LogOf(ms), dropped), last) == LogOf(Due(ms, dropped, last))
  {
    if ms != [] {
      LogOfTail(ms);
      DueIsPlain(ms[1..], dropped, last);
      DueIsSince(ms[1..], dropped, last);
      SinceOfKeptCons(LogOf(ms), dropped, last);
      LogOfCons(ms[0], Due(ms[1..], dropped, last));
    }
  }

  // ---- Pings -------------------------------------------------------------------------------------

  /** The messages among the items, with the pings left out. */
  function Unpinged(items: seq<Item>): seq<Item> {
    if items == [] then [] else (if items[0].Ping? then [] else [items[0]]) + Unpinged(items[1..])
  }

  lemma {:induction false} PingsAreSilent(items: seq<Item>)
    ensures EventsOf(Unpinged(items)) == EventsOf(items)
  {
    if items != [] {
      PingsAreSilent(items[1..]);
      if items[0].Sent? {
        assert Unpinged(items)[1..] == Unpinged(items[1..]);
      } else {
        assert Unpinged(items) == Unpinged(items[1..]);
      }
    }
  }

  lemma {:induction false} UnpingedHasAll(items: seq<Item>, i: nat)
    requires i < |items| && items[i].Sent?
    ensures items[i] in Unpinged(items)
  {
    if i != 0 { UnpingedHasAll(items[1..], i - 1); }
  }

  function ItemsOf(ms: seq<Message>): seq<Item> { seq(|ms|, i requires 0 <= i < |ms| => ItemOf(ms[i])) }

  /** A stream with pings anywhere between the given messages. */
  predicate Carries(items: seq<Item>, ms: seq<Message>) { Unpinged(items) == ItemsOf(ms) }

  lemma CarriesPlain(items: seq<Item>, ms: seq<Message>)
    requires Carries(items, ms) && AllPlain(ms)
    ensures forall i | 0 <= i < |items| :: Printable(items[i]) && Readable(items[i])
  {
    forall i | 0 <= i < |items| ensures Printable(items[i]) && Readable(items[i]) {
      if items[i].Sent? {
        UnpingedHasAll(items, i);
        var j :| 0 <= j < |ms| && ItemsOf(ms)[j] == items[i];
        assert Plain(ms[j]);
      }
    }
  }

  /**
    A client that gave its last id and was not asked to reinit: whatever pings are mixed in, the browser
    dispatches exactly the events with data that were ever put after that id, of the types it gets, once
    each and in order.
   */
  lemma {:induction false} BrowserDispatchesAll(created: int, size: nat, before: seq<Message>, after: seq<Message>,
                                                lastId: string, dropped: set<string>, items: seq<Item>)
    requires AllPlain(before) && AllPlain(after) && AllPlain(before + after) && Hex.IsId(lastId)
    requires Increasing(LogOf(before), KeyOf) && !AskedToReinit(created, size, LogOf(before), Hex.Key(lastId), dropped)
    requires forall r | r in Kept(LogOf(after), dropped) :: Hex.Key(lastId) < r.key
    requires Carries(items, Due(before + after, dropped, Hex.Key(lastId)))
    ensures AllPlain(Due(before + after, dropped, Hex.Key(lastId)))
    ensures Received(created, size, LogOf(before), LogOf(after), Some(lastId), dropped)
         == Texts(LogOf(Due(before + after, dropped, Hex.Key(lastId))))
    ensures forall i | 0 <= i < |items| :: Printable(items[i])
    ensures Parse(Stream(items)).events == EventsOf(ItemsOf(Due(before + after, dropped, Hex.Key(lastId))))
  {
    DueIsPlain(before + after, dropped, Hex.Key(lastId));
    DueIsReceived(created, size, before, after, lastId, dropped);
    CarriedIsDispatched(items, Due(before + after, dropped, Hex.Key(lastId)));
  }

  lemma LogOfConcat(a: seq<Message>, b: seq<Message>)
    requires AllPlain(a) && AllPlain(b) && AllPlain(a + b)
    ensures LogOf(a + b) == LogOf(a) + LogOf(b)
  {
  }

  lemma {:induction false} DueIsReceived(created: int, size: nat, before: seq<Message>, after: seq<Message>,
                                         lastId: string, dropped: set<string>)
    requires AllPlain(before) && AllPlain(after) && AllPlain(before + after) && Hex.IsId(lastId)
    requires Increasing(LogOf(before), KeyOf) && !AskedToReinit(created, size, LogOf(before), Hex.Key(lastId), dropped)
    requires forall r | r in Kept(LogOf(after), dropped) :: Hex.Key(lastId) < r.key
    requires AllPlain(Due(before + after, dropped, Hex.Key(lastId)))
    ensures Received(created, size, LogOf(before), LogOf(after), Some(lastId), dropped)
         == Texts(LogOf(Due(before + after, dropped, Hex.Key(lastId))))
  {
    DeliveryIsExact(created, size, LogOf(before), LogOf(after), lastId, dropped);
    LogOfConcat(before, after);
    DueIsSince(before + after, dropped, Hex.Key(lastId));
  }

  lemma {:induction false} CarriedIsDispatched(items: seq<Item>, due: seq<Message>)
    requires AllPlain(due) && Carries(items, due)
    ensures forall i | 0 <= i < |items| :: Printable(items[i])
    ensures Parse(Stream(items)).events == EventsOf(ItemsOf(due))
  {
    CarriesPlain(items, due);
    StreamRoundTrip(items);
    PingsAreSilent(items);
  }

  // ---- The requests to reinit --------------------------------------------------------------------

  function Reinit(loud: bool): string { if loud then LoudReinit else PlainReinit }

  function ReinitData(loud: bool): Option<string> { if loud then Some("") else None }

  function ReinitBody(loud: bool): seq<string> { (if loud then DataLines(Lines("")) else []) + [""] }

  function ReinitLines(loud: bool): seq<string> { EventLine(Some("reinit")) + ReinitBody(loud) }

  lemma NoData()
    ensures Lines("") == [""] && DataLines(Lines("")) == ["data:"] && DataRead("") == ""
  {
    assert [""][1..] == [];
    assert "data:" + "" == "data:";
    assert Unspace([""]) == [""];
  }

  lemma TextOfReinit(loud: bool)
    ensures Text(ReinitLines(loud)) == Reinit(loud)
  {
    NoData();
    assert |"reinit"| != |"message"| && "event:" + "reinit" == "event:reinit";
    assert EventLine(Some("reinit")) == ["event:reinit"];
    var end: seq<string> := [""];
    assert end[1..] == [] && Text(end) == "\n";
    if loud {
      assert ReinitLines(loud) == ["event:reinit"] + (["data:"] + end);
      assert (["data:"] + end)[1..] == end && Text(["data:"] + end) == "data:\n\n";
      assert ReinitLines(loud)[1..] == ["data:"] + end;
    } else {
      assert ReinitLines(loud) == ["event:reinit"] + end;
      assert ReinitLines(loud)[1..] == end;
    }
  }

  lemma ReinitLinesAreOneLine(loud: bool)
    ensures forall i | 0 <= i < |ReinitLines(loud)| :: OneLine(ReinitLines(loud)[i])
  {
    NoData();
    assert OneLine("event:" + "reinit") && OneLine("data:") && OneLine("");
  }

  function AfterReinit(c: Client, loud: bool): Client {
    if loud then c.(events := c.events + [Event("reinit", "", c.id)]) else c
  }

  lemma ReadReinitLines(c: Client, loud: bool)
    requires Idle(c)
    ensures ReadLines(c, ReinitLines(loud)) == AfterReinit(c, loud)
  {
    var named := c.(name := "reinit");
    NameLine(c, "reinit");
    ReadOne(c, "event:" + "reinit");
    ReadAppend(c, EventLine(Some("reinit")), ReinitBody(loud));
    NoData();
    ReadBody(named, ReinitData(loud));
  }

  lemma ReadReinit(c: Client, loud: bool, rest: string)
    requires Idle(c)
    ensures Read(c, Reinit(loud) + rest) == Read(AfterReinit(c, loud), rest)
  {
    ReinitLinesAreOneLine(loud);
    ReadText(c, ReinitLines(loud), rest);
    TextOfReinit(loud);
    ReadReinitLines(c, loud);
  }

  /** The stream starts with a comment. */
  function WithComment(stream: string): string { Wire(Ping) + stream }

  lemma ParseWithComment(stream: string)
    ensures Parse(WithComment(stream)) == Read(NewClient, stream)
  {
    assert WithComment(stream)[0] == ':';
    ReadItem(NewClient, Ping, stream);
  }

  /** With a data line the browser dispatches the request, without one it does not; then come the live events. */
  lemma {:induction false} BrowserDispatchesReinit(loud: bool, items: seq<Item>)
    requires forall i | 0 <= i < |items| :: Printable(items[i])
    requires forall i | 0 <= i < |items| :: Readable(items[i])
    ensures Parse(WithComment(Reinit(loud) + Stream(items))).events
         == (if loud then [Event("reinit", "", "")] else []) + EventsOf(items)
  {
    ParseWithComment(Reinit(loud) + Stream(items));
    ReadReinit(NewClient, loud, Stream(items));
    ReadStream(AfterReinit(NewClient, loud), items);
    EventsAreReadBack(AfterReinit(NewClient, loud), items);
  }

  /** The ids of a publisher are read back as they are. */
  lemma IdsAreReadable(n: nat)
    ensures ReadableId(Hex.Hexadecimal(n))
  {
    Hex.HexadecimalIsReadBack(n);
    var s := Hex.Hexadecimal(n);
    assert forall i | 0 <= i < |s| :: s[i] != '\0' && s[i] != ' ' && s[i] != '\r' && s[i] != '\n';
  }
}
