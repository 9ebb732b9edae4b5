/** Server-sent events: the agent host frames one JSON body per event, the page parses them back. */
module Sse {
  import opened Prelude
  import opened Text

  /** One event as the host writes it. */
  function Frame(body: string): string {
    "data: " + body + "\n\n"
  }

  function Stream(bodies: seq<string>): string {
    if bodies == [] then "" else Frame(bodies[0]) + Stream(bodies[1..])
  }

  /** Splits at every "\n\n", leftmost first. */
  function Blocks(s: string): (r: seq<string>)
    ensures |r| >= 1
  {
    if s == "" then [""]
    else if "\n\n" <= s then [""] + Blocks(s[2..])
    else
      var rest := Blocks(s[1..]);
      [[s[0]] + rest[0]] + rest[1..]
  }

  /** A line's payload, with at most one white space after the colon removed. */
  function Payload(line: string): string
    requires "data:" <= line
  {
    var rest := line[5..];
    if rest != "" && IsSpace(rest[0]) then rest[1..] else rest
  }

  function DataOf(line: string): seq<string> {
    if "data:" <= line then [Payload(line)] else []
  }

  function DataLines(lines: seq<string>): seq<string> {
    if lines == [] then [] else DataOf(lines[0]) + DataLines(lines[1..])
  }

  function DataBlocks(blocks: seq<string>): seq<string> {
    if blocks == [] then [] else DataLines(Split(blocks[0], '\n')) + DataBlocks(blocks[1..])
  }

  /** The payloads that decode to an event, in order; the others are skipped. */
  function Events<E>(payloads: seq<string>, decode: string -> Option<E>): seq<E> {
    if payloads == [] then []
    else (match decode(payloads[0]) case None => [] case Some(e) => [e]) + Events(payloads[1..], decode)
  }

  lemma {:induction false} EventsSplit<E>(a: seq<string>, b: seq<string>, decode: string -> Option<E>)
    ensures Events(a + b, decode) == Events(a, decode) + Events(b, decode)
  {
    if a == [] {
      assert a + b == b;
    } else {
      assert (a + b)[1..] == a[1..] + b;
      EventsSplit(a[1..], b, decode);
    }
  }

  lemma EventsOf<E>(payload: string, decode: string -> Option<E>)
    ensures Events([payload], decode) == match decode(payload) case None => [] case Some(e) => [e]
  {
  }

  /** What one line adds to the events. */
  function EventOf<E>(line: string, decode: string -> Option<E>): seq<E> {
    if "data:" <= line then
      match decode(Payload(line)) case None => [] case Some(e) => [e]
    else []
  }

  lemma {:induction false} DataLinesSplit(a: seq<string>, b: seq<string>)
    ensures DataLines(a + b) == DataLines(a) + DataLines(b)
  {
    if a == [] {
      assert a + b == b;
    } else {
      assert (a + b)[1..] == a[1..] + b;
      DataLinesSplit(a[1..], b);
    }
  }

  lemma NextLine<E>(lines: seq<string>, l: nat, decode: string -> Option<E>)
    requires l < |lines|
    ensures Events(DataLines(lines[..l + 1]), decode)
      == Events(DataLines(lines[..l]), decode) + EventOf(lines[l], decode)
  {
    var line: seq<string> := [lines[l]];
    assert lines[..l + 1] == lines[..l] + line && line[1..] == [];
    DataLinesSplit(lines[..l], line);
    EventsSplit(DataLines(lines[..l]), DataOf(lines[l]), decode);
    assert DataLines(line) == DataOf(lines[l]);
    if "data:" <= lines[l] {
      EventsOf(Payload(lines[l]), decode);
    }
  }

  /** The inner loop: every data line of one block that decodes adds an event. */
  method PushBlock<E>(lines: seq<string>, decode: string -> Option<E>) returns (out: seq<E>)
    ensures out == Events(DataLines(lines), decode)
  {
    out := [];
    for l := 0 to |lines|
      invariant out == Events(DataLines(lines[..l]), decode)
    {
      NextLine(lines, l, decode);
      if "data:" <= lines[l] {
        var e := decode(Payload(lines[l]));
        if e.Some? {
          out := out + [e.value];
        }
      }
    }
    assert lines[..|lines|] == lines;
  }

  lemma NextBlock<E>(out: seq<E>, blocks: seq<string>, b: nat, decode: string -> Option<E>)
    requires b < |blocks|
    ensures out + Events(DataBlocks(blocks[b..]), decode)
      == out + Events(DataLines(Split(blocks[b], '\n')), decode) + Events(DataBlocks(blocks[b + 1..]), decode)
  {
    assert blocks[b..][1..] == blocks[b + 1..] && blocks[b..][0] == blocks[b];
    EventsSplit(DataLines(Split(blocks[b], '\n')), DataBlocks(blocks[b + 1..]), decode);
  }

  /** Parses a whole body: blocks, then lines, then payloads. */
  method ParseSseBody<E>(body: string, decode: string -> Option<E>) returns (out: seq<E>)
    ensures out == Events(DataBlocks(Blocks(body)), decode)
  {
    var blocks := Blocks(body);
    out := [];
    assert blocks[0..] == blocks;
    for b := 0 to |blocks|
      invariant out + Events(DataBlocks(blocks[b..]), decode) == Events(DataBlocks(blocks), decode)
    {
      NextBlock(out, blocks, b, decode);
      var events := PushBlock(Split(blocks[b], '\n'), decode);
      out := out + events;
    }
  }

  /** Which lines carry data, and what: those that start with "data:", without it and without one white
      space character after it, if there is one. */
  lemma DataOfIs(line: string, text: string)
    ensures DataOf(line) == [text] <==>
      || (line == "data:" + text && (text == "" || !White(text[0])))
      || (|line| > 5 && White(line[5]) && line == "data:" + line[5..6] + text)
    ensures DataOf(line) == [] <==> |line| < 5 || line[..5] != "data:"
  {
    if "data:" <= line {
      assert line == "data:" + line[5..];
      if |line| > 5 {
        assert line[5..] == line[5..6] + line[6..] && line[5..][1..] == line[6..];
      }
    }
    if line == "data:" + text {
      assert line[5..] == text;
    }
    if |line| > 5 && line == "data:" + line[5..6] + text {
      assert line[6..] == text && line[..5] == "data:";
    }
  }

  // ---------- Blocks do not matter ----------

  /** The first block starts with the body's first line; the data of everything after that line is the
      same whether the body was cut into blocks or not. */
  ghost predicate SameData(s: string) {
    var block := Split(Blocks(s)[0], '\n');
    && block[0] == Split(s, '\n')[0]
    && DataLines(block[1..]) + DataBlocks(Blocks(s)[1..]) == DataLines(Split(s, '\n')[1..])
  }

  lemma SameDataMeans(s: string)
    requires SameData(s)
    ensures DataBlocks(Blocks(s)) == DataLines(Split(s, '\n'))
  {
    var block := Split(Blocks(s)[0], '\n');
    assert DataOf(block[0]) + DataLines(block[1..]) + DataBlocks(Blocks(s)[1..])
      == DataOf(block[0]) + (DataLines(block[1..]) + DataBlocks(Blocks(s)[1..]));
  }

  lemma {:induction false} AlwaysSameData(s: string)
    ensures SameData(s)
  {
    if s == "" {
    } else if "\n\n" <= s {
      AlwaysSameData(s[2..]);
      SameDataMeans(s[2..]);
      assert s[1..][1..] == s[2..] && s[1..][0] == '\n';
      assert Split(s, '\n') == [""] + ([""] + Split(s[2..], '\n'));
      assert Split(s, '\n')[1..][1..] == Split(s[2..], '\n');
      assert Blocks(s)[1..] == Blocks(s[2..]);
    } else {
      AlwaysSameData(s[1..]);
      SameDataMeans(s[1..]);
      var block := Blocks(s)[0];
      assert block[1..] == Blocks(s[1..])[0] && block[0] == s[0];
      assert Blocks(s)[1..] == Blocks(s[1..])[1..];
      if s[0] == '\n' {
        assert Split(block, '\n')[1..] == Split(block[1..], '\n');
        assert Split(s, '\n')[1..] == Split(s[1..], '\n');
      } else {
        assert Split(block, '\n')[1..] == Split(block[1..], '\n')[1..];
        assert Split(s, '\n')[1..] == Split(s[1..], '\n')[1..];
      }
    }
  }

  /** Cutting the body into blocks first neither hides nor invents a data line: what is parsed is the
      data lines of the body, whatever the body. */
  lemma BlocksAreLines(body: string)
    ensures DataBlocks(Blocks(body)) == DataLines(Split(body, '\n'))
  {
    AlwaysSameData(body);
    SameDataMeans(body);
  }

  // ---------- Round trip ----------

  lemma FrameThenRest(body: string, rest: string)
    requires '\n' !in body
    ensures DataLines(Split(Frame(body) + rest, '\n')) == [body] + DataLines(Split(rest, '\n'))
  {
    var line, tail := "data: " + body, Split(rest, '\n');
    assert Frame(body) + rest == line + ['\n'] + ("" + ['\n'] + rest);
    SplitFirst(line, "" + ['\n'] + rest, '\n');
    SplitFirst("", rest, '\n');
    assert ([line] + ([""] + tail))[1..] == [""] + tail && ([""] + tail)[1..] == tail;
    PayloadOf(body);
  }

  lemma {:induction false} StreamLines(bodies: seq<string>)
    requires forall i :: 0 <= i < |bodies| ==> '\n' !in bodies[i]
    ensures DataLines(Split(Stream(bodies), '\n')) == bodies
  {
    if bodies != [] {
      StreamLines(bodies[1..]);
      FrameThenRest(bodies[0], Stream(bodies[1..]));
    }
  }

  lemma PayloadOf(text: string)
    ensures DataOf("data: " + text) == [text]
  {
    assert ("data: " + text)[5..] == " " + text;
  }

  /** Framing loses nothing: parsing the frames of any newline-free bodies gives those that decode, in
      order. */
  lemma FramesRoundTrip<E>(bodies: seq<string>, decode: string -> Option<E>)
    requires forall i :: 0 <= i < |bodies| ==> '\n' !in bodies[i]
    ensures Events(DataBlocks(Blocks(Stream(bodies))), decode) == Events(bodies, decode)
  {
    BlocksAreLines(Stream(bodies));
    StreamLines(bodies);
  }

  function Encoded<E>(events: seq<E>, encode: E -> string): seq<string> {
    seq(|events|, i requires 0 <= i < |events| => encode(events[i]))
  }

  lemma {:induction false} DecodeEncoded<E>(events: seq<E>, encode: E -> string, decode: string -> Option<E>)
    requires forall i :: 0 <= i < |events| ==> decode(encode(events[i])) == Some(events[i])
    ensures Events(Encoded(events, encode), decode) == events
  {
    if events != [] {
      assert Encoded(events, encode)[1..] == Encoded(events[1..], encode);
      DecodeEncoded(events[1..], encode, decode);
    }
  }

  /** Events whose bodies decode back and hold no newline come out exactly as they went in. */
  lemma EventsRoundTrip<E>(events: seq<E>, encode: E -> string, decode: string -> Option<E>)
    requires forall i :: 0 <= i < |events| ==>
      decode(encode(events[i])) == Some(events[i]) && '\n' !in encode(events[i])
    ensures Events(DataBlocks(Blocks(Stream(Encoded(events, encode)))), decode) == events
  {
    FramesRoundTrip(Encoded(events, encode), decode);
    DecodeEncoded(events, encode, decode);
  }

  /** Framing any body keeps its first line and whichever later lines happen to start with "data:",
      each as an event of its own. */
  lemma RawFrame(body: string)
    ensures var lines := Split(body, '\n');
      DataBlocks(Blocks(Frame(body))) == [lines[0]] + DataLines(lines[1..])
  {
    BlocksAreLines(Frame(body));
    FrameLines(body);
    var lines := Split(body, '\n');
    RawLines(lines[0], lines[1..]);
  }

  lemma RawLines(first: string, tail: seq<string>)
    ensures DataLines(["data: " + first] + tail + ["", ""]) == [first] + DataLines(tail)
  {
    var all := ["data: " + first] + tail + ["", ""];
    PayloadOf(first);
    assert all[0] == "data: " + first && all[1..] == tail + ["", ""];
    DataLinesSplit(tail, ["", ""]);
    NoDataInBlanks();
  }

  lemma NoDataInBlanks()
    ensures DataLines(["", ""]) == []
  {
    assert ["", ""][1..] == [""];
  }

  /** A framed text comes back as itself exactly when it holds no newline. */
  lemma FrameFaithfulIff(body: string)
    ensures DataBlocks(Blocks(Frame(body))) == [body] <==> '\n' !in body
  {
    RawFrame(body);
    var lines := Split(body, '\n');
    if '\n' !in body {
      SplitPiece(body, '\n');
      assert lines[1..] == [];
    } else {
      assert '\n' !in lines[0] && ([lines[0]] + DataLines(lines[1..]))[0] == lines[0];
    }
  }

  lemma FrameLines(body: string)
    ensures var lines := Split(body, '\n');
      Split(Frame(body), '\n') == ["data: " + lines[0]] + lines[1..] + ["", ""]
  {
    SplitSuffix(body);
    var t := Split(body + "\n\n", '\n');
    assert Frame(body) == "data: " + (body + "\n\n");
    SplitPrefix("data: ", body + "\n\n");
  }

  lemma {:induction false} SplitSuffix(body: string)
    ensures Split(body + "\n\n", '\n') == Split(body, '\n') + ["", ""]
  {
    if body == "" {
      assert "" + "\n\n" == "\n\n" && "\n\n"[1..] == "\n" && "\n"[1..] == "";
      assert Split("\n", '\n') == ["", ""];
    } else {
      assert (body + "\n\n")[1..] == body[1..] + "\n\n";
      SplitSuffix(body[1..]);
    }
  }

  lemma {:induction false} SplitPrefix(prefix: string, s: string)
    requires '\n' !in prefix
    ensures Split(prefix + s, '\n') == [prefix + Split(s, '\n')[0]] + Split(s, '\n')[1..]
  {
    var lines := Split(s, '\n');
    if prefix == "" {
      assert prefix + s == s && prefix + lines[0] == lines[0];
      assert [lines[0]] + lines[1..] == lines;
    } else {
      assert (prefix + s)[1..] == prefix[1..] + s;
      SplitPrefix(prefix[1..], s);
      assert [prefix[0]] + (prefix[1..] + Split(s, '\n')[0]) == prefix + Split(s, '\n')[0];
    }
  }
}
