/** The reconnecting event-stream reader (frontend/src/useTicketStream.ts) against
    the replaying server (backend/src/supportguard/api/sse.py).  Text is a
    sequence of characters; `parse` stands for JSON.parse. */
module TicketStream {
  import opened Options

  // ----- splitting a text into frames -----

  predicate BreakAt(s: string, i: int) {
    0 <= i && i + 1 < |s| && s[i] == '\n' && s[i + 1] == '\n'
  }

  /** Position of the first blank line, |s| if there is none. */
  function FirstBreak(s: string): (i: nat)
    ensures i <= |s|
    ensures i < |s| ==> BreakAt(s, i)
    ensures forall j :: 0 <= j < i ==> !BreakAt(s, j)
  {
    if s == [] then 0
    else if BreakAt(s, 0) then 0
    else
      var i := FirstBreak(s[1..]);
      assert forall j :: 0 < j < |s| ==> (BreakAt(s, j) <==> BreakAt(s[1..], j - 1));
      i + 1
  }

  /** `s.split("\n\n")`. */
  function Split(s: string): (r: seq<string>)
    ensures r != []
    decreases |s|
  {
    var i := FirstBreak(s);
    if i == |s| then [s] else [s[..i]] + Split(s[i + 2..])
  }

  function Frames(s: string): seq<string> {
    var r := Split(s); r[..|r| - 1]
  }

  function Remainder(s: string): string {
    var r := Split(s); r[|r| - 1]
  }

  lemma BreakUnique(s: string, i: nat)
    requires BreakAt(s, i) && forall j :: 0 <= j < i ==> !BreakAt(s, j)
    ensures FirstBreak(s) == i
  {
  }

  /** More text never changes the frames already split off. */
  lemma {:induction false} SplitAppend(x: string, y: string)
    ensures Frames(x + y) == Frames(x) + Frames(Remainder(x) + y)
    ensures Remainder(x + y) == Remainder(Remainder(x) + y)
    decreases |x|
  {
    var i := FirstBreak(x);
    if i == |x| {
      assert Remainder(x) == x;
    } else {
      assert BreakAt(x + y, i);
      forall j | 0 <= j < i ensures !BreakAt(x + y, j) {
        assert !BreakAt(x, j);
      }
      BreakUnique(x + y, i);
      assert (x + y)[i + 2..] == x[i + 2..] + y;
      assert (x + y)[..i] == x[..i];
      SplitAppend(x[i + 2..], y);
      var a, b := Split(x[i + 2..]), Split(x[i + 2..] + y);
      assert Split(x) == [x[..i]] + a && Split(x + y) == [x[..i]] + b;
      assert Frames(x) == [x[..i]] + Frames(x[i + 2..]);
      assert Frames(x + y) == [x[..i]] + Frames(x[i + 2..] + y);
    }
  }

  // ----- one frame -----

  /** `sequence` is absent when `ticket_sequence` is not an integer. */
  datatype Event = Event(sequence: Option<int>, body: string)

  datatype Parse = Malformed | Parsed(event: Event)

  const DATA := "data: "

  function LineEnd(s: string): (i: nat)
    ensures i <= |s|
    ensures forall j :: 0 <= j < i ==> s[j] != '\n'
    ensures i < |s| ==> s[i] == '\n'
  {
    if s == [] || s[0] == '\n' then 0 else 1 + LineEnd(s[1..])
  }

  /** The first line of a frame that starts with "data: ", without that prefix. */
  function DataLine(frame: string): Option<string>
    decreases |frame|
  {
    var i := LineEnd(frame);
    if DATA <= frame[..i] then Some(frame[|DATA|..i])
    else if i == |frame| then None
    else DataLine(frame[i + 1..])
  }

  const MAX_BUFFERED_EVENTS := 64

  /** What the reader has taken in: its durable cursor, the bounded buffer, and
      every event it has accepted so far. */
  datatype Feed = Feed(cursor: int, buffer: seq<Event>, accepted: seq<Event>)

  datatype Handled = Handled(feed: Feed, progressed: bool, threw: bool)

  function Last(s: seq<Event>): seq<Event> {
    if |s| <= MAX_BUFFERED_EVENTS then s else s[|s| - MAX_BUFFERED_EVENTS..]
  }

  function AcceptEvent(f: Feed, e: Event): Feed
    requires e.sequence.Some?
  {
    Feed(e.sequence.value, Last(f.buffer + [e]), f.accepted + [e])
  }

  function HandleFrame(parse: string -> Parse, f: Feed, frame: string): Handled {
    var data := DataLine(frame);
    if data.None? then Handled(f, false, false)
    else
      var p := parse(data.value);
      if p.Malformed? then Handled(f, false, true)
      else if p.event.sequence.None? || p.event.sequence.value <= f.cursor then Handled(f, false, false)
      else Handled(AcceptEvent(f, p.event), true, false)
  }

  /** The `for (const frame of frames)` loop; an exception ends it. */
  function HandleFrames(parse: string -> Parse, f: Feed, frames: seq<string>): Handled {
    if frames == [] then Handled(f, false, false)
    else
      var h := HandleFrames(parse, f, frames[..|frames| - 1]);
      if h.threw then h
      else
        var k := HandleFrame(parse, h.feed, frames[|frames| - 1]);
        Handled(k.feed, h.progressed || k.progressed, k.threw)
  }

  lemma {:induction false} HandleAppend(parse: string -> Parse, f: Feed, a: seq<string>, b: seq<string>)
    ensures var h := HandleFrames(parse, f, a);
      HandleFrames(parse, f, a + b) ==
        if h.threw then h
        else var k := HandleFrames(parse, h.feed, b); Handled(k.feed, h.progressed || k.progressed, k.threw)
    decreases |b|
  {
    if b == [] {
      assert a + b == a;
    } else {
      var n := |b| - 1;
      HandleAppend(parse, f, a, b[..n]);
      assert (a + b)[..|a + b| - 1] == a + b[..n];
    }
  }

  // ----- one connection -----

  function Concat(chunks: seq<string>): string {
    if chunks == [] then [] else Concat(chunks[..|chunks| - 1]) + chunks[|chunks| - 1]
  }

  /** Reading a connection chunk by chunk handles exactly the frames of its whole text. */
  method ReadConnection(parse: string -> Parse, start: Feed, chunks: seq<string>) returns (h: Handled)
    ensures h == HandleFrames(parse, start, Frames(Concat(chunks)))
  {
    h := Handled(start, false, false);
    var buffer := "";
    assert Frames("") == [] && Remainder("") == "";
    for i := 0 to |chunks|
      invariant buffer == Remainder(Concat(chunks[..i]))
      invariant h == HandleFrames(parse, start, Frames(Concat(chunks[..i])))
      invariant !h.threw
    {
      ghost var text := Concat(chunks[..i]);
      assert chunks[..i + 1][..i] == chunks[..i];
      SplitAppend(text, chunks[i]);
      buffer := buffer + chunks[i];
      var frames := Split(buffer);
      buffer := frames[|frames| - 1];
      frames := frames[..|frames| - 1];
      HandleAppend(parse, start, Frames(text), frames);
      var k := HandleEach(parse, h.feed, frames);
      h := Handled(k.feed, h.progressed || k.progressed, k.threw);
      if h.threw {
        ThrownStays(parse, start, chunks, i + 1);
        return;
      }
    }
    assert chunks[..|chunks|] == chunks;
  }

  method HandleEach(parse: string -> Parse, start: Feed, frames: seq<string>) returns (h: Handled)
    ensures h == HandleFrames(parse, start, frames)
  {
    h := Handled(start, false, false);
    for i := 0 to |frames|
      invariant h == HandleFrames(parse, start, frames[..i]) && !h.threw
    {
      assert frames[..i + 1][..i] == frames[..i];
      var k := HandleFrame(parse, h.feed, frames[i]);
      h := Handled(k.feed, h.progressed || k.progressed, k.threw);
      if h.threw {
        assert frames == frames[..i + 1] + frames[i + 1..];
        HandleAppend(parse, start, frames[..i + 1], frames[i + 1..]);
        return;
      }
    }
    assert frames[..|frames|] == frames;
  }

  /** Text after an exception is never looked at. */
  lemma {:induction false} ThrownStays(parse: string -> Parse, f: Feed, chunks: seq<string>, n: nat)
    requires n <= |chunks|
    requires HandleFrames(parse, f, Frames(Concat(chunks[..n]))).threw
    ensures HandleFrames(parse, f, Frames(Concat(chunks))) == HandleFrames(parse, f, Frames(Concat(chunks[..n])))
    decreases |chunks| - n
  {
    if n == |chunks| {
      assert chunks[..n] == chunks;
    } else {
      var text := Concat(chunks[..n]);
      assert chunks[..n + 1][..n] == chunks[..n];
      SplitAppend(text, chunks[n]);
      HandleAppend(parse, f, Frames(text), Frames(Remainder(text) + chunks[n]));
      ThrownStays(parse, f, chunks, n + 1);
    }
  }
}
