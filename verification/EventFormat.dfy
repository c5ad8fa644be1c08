/**
  Server-sent events on the wire: what `format_event` prints, and what a browser reads back from it
  by sections 9.2.5 and 9.2.6 of the HTML Living Standard. Streams are sequences of characters here.
 */
module EventFormat {
  import opened Basics

  // ---- Lines -------------------------------------------------------------------------------------

  /** The pieces of a text between its line breaks, which are CRLF, LF or CR. */
  function Lines(s: string): (r: seq<string>)
    ensures |r| >= 1
  {
    if s == [] then [""]
    else if s[0] == '\r' then [""] + Lines(if |s| > 1 && s[1] == '\n' then s[2..] else s[1..])
    else if s[0] == '\n' then [""] + Lines(s[1..])
    else var rest := Lines(s[1..]); [[s[0]] + rest[0]] + rest[1..]
  }

  predicate OneLine(s: string) { '\r' !in s && '\n' !in s }

  /** The pieces put together again, with LF between them. */
  function Joined(lines: seq<string>): string
    requires lines != []
  {
    if |lines| == 1 then lines[0] else lines[0] + "\n" + Joined(lines[1..])
  }

  /** The lines with an LF after each. */
  function Text(lines: seq<string>): string {
    if lines == [] then "" else lines[0] + "\n" + Text(lines[1..])
  }

  /** Every line break becomes LF. */
  function Normalized(s: string): string {
    if s == [] then ""
    else if s[0] == '\r' then "\n" + Normalized(if |s| > 1 && s[1] == '\n' then s[2..] else s[1..])
    else [s[0]] + Normalized(s[1..])
  }

  lemma {:induction false} LinesAreOneLine(s: string)
    ensures forall i | 0 <= i < |Lines(s)| :: OneLine(Lines(s)[i])
    decreases |s|
  {
    if s != [] {
      if s[0] == '\r' && |s| > 1 && s[1] == '\n' { LinesAreOneLine(s[2..]); } else { LinesAreOneLine(s[1..]); }
    }
  }

  /** Splitting at the line breaks and joining with LF is turning each of them into LF. */
  lemma {:induction false} JoinedLines(s: string)
    ensures Joined(Lines(s)) == Normalized(s)
    decreases |s|
  {
    if s != [] {
      var rest := Lines(if s[0] == '\r' && |s| > 1 && s[1] == '\n' then s[2..] else s[1..]);
      JoinedLines(if s[0] == '\r' && |s| > 1 && s[1] == '\n' then s[2..] else s[1..]);
      if s[0] == '\r' || s[0] == '\n' {
        assert ([""] + rest)[1..] == rest;
      } else {
        var all := [[s[0]] + rest[0]] + rest[1..];
        assert all[1..] == rest[1..];
        if |rest| > 1 { assert [s[0]] + (rest[0] + "\n" + Joined(rest[1..])) == all[0] + "\n" + Joined(all[1..]); }
      }
    }
  }

  /** A terminated line comes off the front of a stream as one piece. */
  lemma {:induction false} LineComesOff(line: string, rest: string)
    requires OneLine(line)
    ensures Lines(line + "\n" + rest) == [line] + Lines(rest)
  {
    var s := line + "\n" + rest;
    if line == [] {
      assert s == "\n" + rest && s[1..] == rest;
    } else {
      assert s[0] == line[0] && s[1..] == line[1..] + "\n" + rest;
      LineComesOff(line[1..], rest);
      assert [line[0]] + line[1..] == line;
    }
  }

  // ---- The printer -------------------------------------------------------------------------------

  predicate LegalEvent(event: string) { '\r' !in event && '\n' !in event && ':' !in event }

  function EventLine(event: Option<string>): seq<string> {
    if event.Some? && event.value != "message" then ["event:" + event.value] else []
  }

  function DataLines(lines: seq<string>): seq<string> {
    if lines == [] then [] else ["data:" + lines[0]] + DataLines(lines[1..])
  }

  function EventLines(id: string, event: Option<string>, data: Option<string>): seq<string> {
    ["id:" + id] + EventLine(event) + (if data.Some? then DataLines(Lines(data.value)) else []) + [""]
  }

  /** The error case is an event name with an illegal character. */
  function Formatted(id: string, event: Option<string>, data: Option<string>): Option<string> {
    if event.Some? && event.value != "message" && !LegalEvent(event.value) then None
    else Some(Text(EventLines(id, event, data)))
  }

  /** A name is refused exactly for a colon or a line break in it, but that of the default is never looked at. */
  lemma RefusedIff(id: string, event: Option<string>, data: Option<string>)
    ensures Formatted(id, event, data) == None <==>
      event.Some? && event.value != "message" && exists i | 0 <= i < |event.value| :: event.value[i] in "\r\n:"
    ensures Formatted(id, Some("message"), data) == Formatted(id, None, data) != None
  {
    assert "\r\n:"[0] == '\r' && "\r\n:"[1] == '\n' && "\r\n:"[2] == ':';
  }

  lemma {:induction false} DataLinesAppend(a: seq<string>, l: string)
    ensures DataLines(a + [l]) == DataLines(a) + ["data:" + l]
  {
    if a != [] {
      assert (a + [l])[1..] == a[1..] + [l];
      DataLinesAppend(a[1..], l);
    }
  }

  lemma {:induction false} JoinedIsText(lines: seq<string>)
    ensures Joined(lines + ["\n"]) == Text(lines + [""])
  {
    if lines == [] {
      assert Text([""]) == "\n";
    } else {
      assert (lines + ["\n"])[1..] == lines[1..] + ["\n"] && (lines + [""])[1..] == lines[1..] + [""];
      JoinedIsText(lines[1..]);
    }
  }

  /** `format_event`: collects the lines, adds a final line feed and joins. */
  method FormatEvent(id: string, event: Option<string>, data: Option<string>) returns (r: Option<string>)
    ensures r == Formatted(id, event, data)
  {
    var result := ["id:" + id];
    if event.Some? && event.value != "message" {
      if !LegalEvent(event.value) { return None; }
      result := result + ["event:" + event.value];
    }
    ghost var head := result;
    if data.Some? {
      var lines := Lines(data.value);
      for i := 0 to |lines|
        invariant result == head + DataLines(lines[..i])
      {
        assert lines[..i + 1] == lines[..i] + [lines[i]];
        DataLinesAppend(lines[..i], lines[i]);
        result := result + ["data:" + lines[i]];
      }
      assert lines[..|lines|] == lines;
    }
    JoinedIsText(result);
    assert result + [""] == EventLines(id, event, data);
    r := Some(Joined(result + ["\n"]));
  }
}
