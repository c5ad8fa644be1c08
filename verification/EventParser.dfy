/** What a client reads from a stream of events and pings. */
module EventParser {
  import opened Basics
  import opened EventFormat

  datatype Event = Event(name: string, data: string, lastEventId: string)

  /** The buffers of section 9.2.6, and the events dispatched so far. */
  datatype Client = Client(data: string, name: string, id: string, events: seq<Event>)

  function Unspaced(value: string): string {
    if value != [] && value[0] == ' ' then value[1..] else value
  }

  function Colon(line: string): nat
    ensures Colon(line) <= |line|
  {
    if line == [] || line[0] == ':' then 0 else 1 + Colon(line[1..])
  }

  function Field(c: Client, name: string, value: string): Client {
    if name == "event" then c.(name := value)
    else if name == "data" then c.(data := c.data + value + "\n")
    else if name == "id" then if '\0' in value then c else c.(id := value)
    else c
  }

  function Dispatch(c: Client): Client {
    if c.data == "" then c.(name := "") else
      var event := Event(if c.name == "" then "message" else c.name, c.data[..|c.data| - 1], c.id);
      Client("", "", c.id, c.events + [event])
  }

  function Line(c: Client, line: string): Client {
    if line == "" then Dispatch(c)
    else if line[0] == ':' then c
    else
      var i := Colon(line);
      if i < |line| then Field(c, line[..i], Unspaced(line[i + 1..])) else Field(c, line, "")
  }

  function ReadLines(c: Client, lines: seq<string>): Client
    decreases |lines|
  {
    if lines == [] then c else ReadLines(Line(c, lines[0]), lines[1..])
  }

  /** Only complete lines are processed; what is left at the end is discarded. */
  function Read(c: Client, stream: string): Client {
    var lines := Lines(stream);
    ReadLines(c, lines[..|lines| - 1])
  }

  const NewClient := Client("", "", "", [])

  /** The whole stream, without a leading byte order mark. */
  function Parse(stream: string): Client {
    Read(NewClient, if stream != [] && stream[0] == '\U{FEFF}' then stream[1..] else stream)
  }

  // ---- Reading one line after the other ----------------------------------------------------------

  lemma ReadFirst(c: Client, line: string, rest: string)
    requires OneLine(line)
    ensures Read(c, line + "\n" + rest) == Read(Line(c, line), rest)
  {
    LineComesOff(line, rest);
    var lines := Lines(rest);
    assert ([line] + lines)[..|lines|] == [line] + lines[..|lines| - 1];
  }

  lemma {:induction false} ReadText(c: Client, lines: seq<string>, rest: string)
    requires forall i | 0 <= i < |lines| :: OneLine(lines[i])
    ensures Read(c, Text(lines) + rest) == Read(ReadLines(c, lines), rest)
    decreases |lines|
  {
    if lines == [] {
      assert Text(lines) + rest == rest;
    } else {
      assert Text(lines) + rest == lines[0] + "\n" + (Text(lines[1..]) + rest);
      ReadFirst(c, lines[0], Text(lines[1..]) + rest);
      ReadText(Line(c, lines[0]), lines[1..], rest);
    }
  }

  lemma DataLine(c: Client, value: string)
    ensures Line(c, "data:" + value) == c.(data := c.data + Unspaced(value) + "\n")
  {
    assert "data:" + value == "data" + ":" + value;
    FieldLine(c, "data", value);
  }

  lemma NameLine(c: Client, value: string)
    ensures Line(c, "event:" + value) == c.(name := Unspaced(value))
  {
    assert "event:" + value == "event" + ":" + value;
    FieldLine(c, "event", value);
  }

  lemma IdLine(c: Client, value: string)
    ensures Line(c, "id:" + value) == c.(id := if '\0' in value then c.id else Unspaced(value))
  {
    assert "id:" + value == "id" + ":" + value;
    FieldLine(c, "id", value);
    UnspacedNul(value);
  }

  lemma FieldLine(c: Client, name: string, value: string)
    requires name in ["id", "event", "data"]
    ensures Line(c, name + ":" + value) == Field(c, name, Unspaced(value))
  {
    var line := name + ":" + value;
    ColonAfter(name, value);
    assert line[..|name|] == name && line[|name| + 1..] == value;
  }

  lemma {:induction false} ColonAfter(name: string, value: string)
    requires ':' !in name
    ensures Colon(name + ":" + value) == |name|
  {
    var line := name + ":" + value;
    if name != [] {
      assert line[0] == name[0] && line[1..] == name[1..] + ":" + value;
      ColonAfter(name[1..], value);
    }
  }

  // ---- One event ---------------------------------------------------------------------------------

  function Unspace(lines: seq<string>): seq<string> {
    if lines == [] then [] else [Unspaced(lines[0])] + Unspace(lines[1..])
  }

  lemma {:induction false} ReadAppend(c: Client, a: seq<string>, b: seq<string>)
    ensures ReadLines(c, a + b) == ReadLines(ReadLines(c, a), b)
    decreases |a|
  {
    if a == [] {
      assert a + b == b;
    } else {
      assert (a + b)[1..] == a[1..] + b;
      ReadAppend(Line(c, a[0]), a[1..], b);
    }
  }

  lemma {:induction false} ReadDataLines(c: Client, lines: seq<string>)
    ensures ReadLines(c, DataLines(lines)) == c.(data := c.data + Text(Unspace(lines)))
    decreases |lines|
  {
    if lines == [] {
      assert c.data + "" == c.data;
    } else {
      var d := c.(data := c.data + Unspaced(lines[0]) + "\n");
      DataLine(c, lines[0]);
      ReadCons(c, "data:" + lines[0], DataLines(lines[1..]));
      ReadDataLines(d, lines[1..]);
      assert Unspace(lines)[0] == Unspaced(lines[0]) && Unspace(lines)[1..] == Unspace(lines[1..]);
      Regroup(c.data, Unspaced(lines[0]), Text(Unspace(lines[1..])));
    }
  }

  lemma Regroup(a: string, b: string, c: string)
    ensures a + b + "\n" + c == a + (b + "\n" + c)
  {
  }

  lemma ReadCons(c: Client, line: string, rest: seq<string>)
    ensures ReadLines(c, [line] + rest) == ReadLines(Line(c, line), rest)
  {
    assert ([line] + rest)[1..] == rest;
  }

  lemma ReadOne(c: Client, line: string)
    ensures ReadLines(c, [line]) == Line(c, line)
  {
    assert ReadLines(Line(c, line), []) == Line(c, line);
    ReadCons(c, line, []);
    assert [line] + [] == [line];
  }

  /** What the client makes of the name of an event. */
  function NameRead(event: Option<string>): string {
    if event.None? || event.value == "message" || Unspaced(event.value) == "" then "message" else Unspaced(event.value)
  }

  function DataRead(data: string): string {
    UnspaceNonEmpty(Lines(data));
    Joined(Unspace(Lines(data)))
  }

  lemma UnspaceNonEmpty(lines: seq<string>)
    requires lines != []
    ensures Unspace(lines) != []
  {
  }

  lemma {:induction false} TextIsJoined(lines: seq<string>)
    requires lines != []
    ensures Text(lines) == Joined(lines) + "\n"
  {
    if |lines| > 1 { TextIsJoined(lines[1..]); }
  }

  /** Between two events. */
  predicate Idle(c: Client) { c.data == "" && c.name == "" }

  /** What reading one formatted event does to the client. */
  function AfterEvent(c: Client, id: string, event: Option<string>, data: Option<string>): Client {
    var d := c.(id := if '\0' in id then c.id else Unspaced(id));
    if data.None? then d else d.(events := d.events + [Event(NameRead(event), DataRead(data.value), d.id)])
  }

  lemma {:induction false} ReadHead(c: Client, id: string, event: Option<string>)
    requires Idle(c)
    ensures ReadLines(c, ["id:" + id] + EventLine(event)) ==
      c.(id := if '\0' in id then c.id else Unspaced(id),
         name := if event.Some? && event.value != "message" then Unspaced(event.value) else "")
  {
    IdLine(c, id);
    var d := Line(c, "id:" + id);
    ReadCons(c, "id:" + id, EventLine(event));
    if event.Some? && event.value != "message" {
      NameLine(d, event.value);
      ReadOne(d, "event:" + event.value);
    }
  }

  lemma UnspacedNul(s: string)
    ensures '\0' in Unspaced(s) <==> '\0' in s
  {
    if s != [] { assert s == [s[0]] + s[1..]; }
  }

  lemma ReadBody(c: Client, data: Option<string>)
    requires c.data == ""
    ensures var lines := (if data.Some? then DataLines(Lines(data.value)) else []) + [""];
      ReadLines(c, lines) ==
      if data.None? then c.(name := "") else
        Client("", "", c.id, c.events + [Event(if c.name == "" then "message" else c.name, DataRead(data.value), c.id)])
  {
    var body := if data.Some? then DataLines(Lines(data.value)) else [];
    ReadAppend(c, body, [""]);
    if data.Some? {
      var lines := Lines(data.value);
      ReadDataLines(c, lines);
      UnspaceNonEmpty(lines);
      TextIsJoined(Unspace(lines));
      var d := c.(data := Text(Unspace(lines)));
      assert c.data + Text(Unspace(lines)) == Text(Unspace(lines));
      assert d.data[..|d.data| - 1] == Joined(Unspace(lines));
      assert ReadLines(d, [""]) == Dispatch(d);
    }
  }

  lemma ReadEvent(c: Client, id: string, event: Option<string>, data: Option<string>)
    requires Idle(c)
    ensures ReadLines(c, EventLines(id, event, data)) == AfterEvent(c, id, event, data)
  {
    var head := ["id:" + id] + EventLine(event);
    var body := (if data.Some? then DataLines(Lines(data.value)) else []) + [""];
    assert EventLines(id, event, data) == head + body;
    ReadAppend(c, head, body);
    ReadHead(c, id, event);
    ReadBody(ReadLines(c, head), data);
  }

  // ---- A stream of events and pings --------------------------------------------------------------

  datatype Item = Ping | Sent(id: string, event: Option<string>, data: Option<string>)

  /** Formatting succeeds and the id stays on its line. */
  predicate Printable(item: Item) {
    item.Sent? ==> OneLine(item.id) && Formatted(item.id, item.event, item.data).Some?
  }

  function Wire(item: Item): string
    requires Printable(item)
  {
    match item
    case Ping => ":\n"
    case Sent(id, event, data) => Formatted(id, event, data).value
  }

  function Stream(items: seq<Item>): string
    requires forall i | 0 <= i < |items| :: Printable(items[i])
  {
    if items == [] then "" else Wire(items[0]) + Stream(items[1..])
  }

  function AfterItems(c: Client, items: seq<Item>): Client
    decreases |items|
  {
    if items == [] then c else
      var first := items[0];
      AfterItems(if first.Ping? then c else AfterEvent(c, first.id, first.event, first.data), items[1..])
  }

  lemma EventLinesAreOneLine(id: string, event: Option<string>, data: Option<string>)
    requires Printable(Sent(id, event, data))
    ensures forall i | 0 <= i < |EventLines(id, event, data)| :: OneLine(EventLines(id, event, data)[i])
  {
    if data.Some? {
      LinesAreOneLine(data.value);
      DataLinesAreOneLine(Lines(data.value));
    }
    var lines := EventLines(id, event, data);
    forall i | 0 <= i < |lines| ensures OneLine(lines[i]) {
      assert lines[i] == "id:" + id || lines[i] in EventLine(event) || lines[i] == ""
        || (data.Some? && lines[i] in DataLines(Lines(data.value)));
    }
  }

  lemma {:induction false} DataLinesAreOneLine(lines: seq<string>)
    requires forall i | 0 <= i < |lines| :: OneLine(lines[i])
    ensures forall l | l in DataLines(lines) :: OneLine(l)
  {
    if lines != [] { DataLinesAreOneLine(lines[1..]); }
  }

  lemma ReadItem(c: Client, item: Item, rest: string)
    requires Idle(c) && Printable(item)
    ensures Read(c, Wire(item) + rest) ==
      Read(if item.Ping? then c else AfterEvent(c, item.id, item.event, item.data), rest)
  {
    match item
    case Ping =>
      assert Wire(item) + rest == ":" + "\n" + rest;
      ReadFirst(c, ":", rest);
    case Sent(id, event, data) =>
      EventLinesAreOneLine(id, event, data);
      ReadText(c, EventLines(id, event, data), rest);
      ReadEvent(c, id, event, data);
  }

  /** Whatever the events, this is what a client reads from the stream. */
  lemma {:induction false} ReadStream(c: Client, items: seq<Item>)
    requires Idle(c) && forall i | 0 <= i < |items| :: Printable(items[i])
    ensures Read(c, Stream(items)) == AfterItems(c, items)
    decreases |items|
  {
    if items == [] {
      assert Lines("") == [""];
    } else {
      ReadItem(c, items[0], Stream(items[1..]));
      ReadStream(if items[0].Ping? then c else AfterEvent(c, items[0].id, items[0].event, items[0].data), items[1..]);
    }
  }

  // ---- When the client reads exactly what was sent -----------------------------------------------

  predicate LeadingSpace(s: string) { s != [] && s[0] == ' ' }

  function NameSent(event: Option<string>): string { if event.None? then "message" else event.value }

  lemma NameIsReadBack(event: Option<string>)
    ensures NameRead(event) == NameSent(event) <==>
      event.None? || event.value == "message" || (event.value != "" && !LeadingSpace(event.value))
  {
  }

  function TotalLength(lines: seq<string>): nat {
    if lines == [] then 0 else |lines[0]| + 1 + TotalLength(lines[1..])
  }

  lemma {:induction false} LengthOfText(lines: seq<string>)
    ensures |Text(lines)| == TotalLength(lines)
  {
    if lines != [] { LengthOfText(lines[1..]); }
  }

  lemma {:induction false} UnspacingShortens(lines: seq<string>)
    ensures TotalLength(Unspace(lines)) <= TotalLength(lines)
    ensures TotalLength(Unspace(lines)) == TotalLength(lines) <==> forall l | l in lines :: !LeadingSpace(l)
    ensures (forall l | l in lines :: !LeadingSpace(l)) ==> Unspace(lines) == lines
  {
    if lines != [] {
      assert lines == [lines[0]] + lines[1..];
      UnspacingShortens(lines[1..]);
      assert Unspace(lines)[1..] == Unspace(lines[1..]);
      assert (forall l | l in lines :: !LeadingSpace(l)) <==>
        !LeadingSpace(lines[0]) && forall l | l in lines[1..] :: !LeadingSpace(l) by {
        assert forall l :: l in lines <==> l == lines[0] || l in lines[1..];
      }
    }
  }

  /** The data comes back, with its line breaks turned into LF, exactly if no line starts with a space. */
  lemma DataIsReadBack(data: string)
    ensures DataRead(data) == Normalized(data) <==> forall l | l in Lines(data) :: !LeadingSpace(l)
  {
    var lines := Lines(data);
    JoinedLines(data);
    UnspacingShortens(lines);
    UnspaceNonEmpty(lines);
    TextIsJoined(lines);
    TextIsJoined(Unspace(lines));
    LengthOfText(lines);
    LengthOfText(Unspace(lines));
  }

  predicate ReadableId(id: string) { OneLine(id) && '\0' !in id && !LeadingSpace(id) }

  predicate Readable(item: Item) {
    match item
    case Ping => true
    case Sent(id, event, data) =>
      && ReadableId(id)
      && (event.None? || event.value == "message" || (event.value != "" && !LeadingSpace(event.value)))
      && (data.Some? ==> forall l | l in Lines(data.value) :: !LeadingSpace(l))
  }

  /** The event that an item is, if it has data. */
  function EventOf(item: Item): seq<Event> {
    if item.Sent? && item.data.Some? then [Event(NameSent(item.event), Normalized(item.data.value), item.id)] else []
  }

  function EventsOf(items: seq<Item>): seq<Event> {
    if items == [] then [] else EventOf(items[0]) + EventsOf(items[1..])
  }

  lemma EventIsReadBack(c: Client, item: Item)
    requires item.Sent? && Readable(item)
    ensures AfterEvent(c, item.id, item.event, item.data).events == c.events + EventOf(item)
  {
    NameIsReadBack(item.event);
    if item.data.Some? { DataIsReadBack(item.data.value); } else { assert c.events + [] == c.events; }
  }

  lemma {:induction false} EventsAreReadBack(c: Client, items: seq<Item>)
    requires forall i | 0 <= i < |items| :: Readable(items[i])
    ensures AfterItems(c, items).events == c.events + EventsOf(items)
    decreases |items|
  {
    if items == [] {
      assert c.events + [] == c.events;
    } else {
      var first := items[0];
      var d := if first.Ping? then c else AfterEvent(c, first.id, first.event, first.data);
      if first.Sent? { EventIsReadBack(c, first); } else { assert c.events + [] == c.events; }
      EventsAreReadBack(d, items[1..]);
      ConcatIsAssociative(c.events, EventOf(first), EventsOf(items[1..]));
    }
  }

  /** Printing then parsing: a mixed stream of events and pings yields exactly the events with data. */
  lemma {:induction false} StreamRoundTrip(items: seq<Item>)
    requires forall i | 0 <= i < |items| :: Printable(items[i])
    requires forall i | 0 <= i < |items| :: Readable(items[i])
    ensures Parse(Stream(items)).events == EventsOf(items)
  {
    StartsPlain(items);
    ReadStream(NewClient, items);
    EventsAreReadBack(NewClient, items);
  }

  lemma StartsPlain(items: seq<Item>)
    requires forall i | 0 <= i < |items| :: Printable(items[i])
    ensures Stream(items) == [] || Stream(items)[0] != '\U{FEFF}'
  {
    if items != [] {
      assert Wire(items[0])[0] == ':' || Wire(items[0])[0] == 'i';
    }
  }

  /** For a single event the conditions are exact. */
  lemma EventRoundTrip(item: Item)
    requires item.Sent? && item.data.Some? && Printable(item)
    ensures Parse(Stream([item])).events == EventsOf([item]) <==> Readable(item)
  {
    StartsPlain([item]);
    ReadStream(NewClient, [item]);
    NameIsReadBack(item.event);
    DataIsReadBack(item.data.value);
    assert EventsOf([item]) == [Event(NameSent(item.event), Normalized(item.data.value), item.id)];
    assert AfterItems(NewClient, [item]) == AfterEvent(NewClient, item.id, item.event, item.data);
    var id := if '\0' in item.id then "" else Unspaced(item.id);
    assert AfterEvent(NewClient, item.id, item.event, item.data).events
        == [Event(NameRead(item.event), DataRead(item.data.value), id)];
    assert id == item.id <==> '\0' !in item.id && !LeadingSpace(item.id);
  }
}
