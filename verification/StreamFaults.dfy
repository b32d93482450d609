/** The reader against any server: refusals, broken frames, and what it accepts from
    whatever text arrives. */
module StreamFaults {
  import opened Options
  import opened TicketStream
  import opened StreamDelivery

  // ----- refusals -----

  /** A refusal ends the run where it stands; nothing that follows is tried. */
  lemma {:induction false} RefusalEnds(parse: string -> Parse, r: Run, before: seq<Attempt>, after: seq<Attempt>)
    requires Follow(parse, r, before).outcome == Following
    ensures var q := Follow(parse, r, before);
      Follow(parse, r, before + [Refused] + after) == Run(q.feed, q.failures, Stopped)
    decreases |after|
  {
    var all := before + [Refused] + after;
    if after == [] {
      assert all[..|all| - 1] == before;
    } else {
      RefusalEnds(parse, r, before, after[..|after| - 1]);
      assert all[..|all| - 1] == before + [Refused] + after[..|after| - 1];
    }
  }

  /** A run has stopped exactly when an attempt it came to was refused. */
  lemma {:induction false} StoppedIff(parse: string -> Parse, r: Run, attempts: seq<Attempt>)
    requires r.outcome == Following
    ensures Follow(parse, r, attempts).outcome == Stopped <==> exists i: nat :: RefusedAt(parse, r, attempts, i)
  {
    hide Step;
    if attempts != [] {
      var n := |attempts| - 1;
      var rest := attempts[..n];
      StoppedIff(parse, r, rest);
      StopsOnlyRefused(parse, Follow(parse, r, rest), attempts[n]);
      assert forall j :: 0 <= j <= n ==> rest[..j] == attempts[..j];
      assert forall j :: 0 <= j < n ==> rest[j] == attempts[j];
      if i: nat :| RefusedAt(parse, r, rest, i) {
        assert RefusedAt(parse, r, attempts, i);
      }
      if i: nat :| RefusedAt(parse, r, attempts, i) {
        if i < n {
          assert RefusedAt(parse, r, rest, i);
        }
      }
      if Follow(parse, r, rest).outcome == Following && attempts[n] == Refused {
        assert RefusedAt(parse, r, attempts, n);
      }
    }
  }

  ghost predicate RefusedAt(parse: string -> Parse, r: Run, attempts: seq<Attempt>, i: nat) {
    i < |attempts| && attempts[i] == Refused && Follow(parse, r, attempts[..i]).outcome == Following
  }

  lemma StopsOnlyRefused(parse: string -> Parse, q: Run, a: Attempt)
    ensures Step(parse, q, a).outcome == Stopped <==> a == Refused
  {
    hide HandleFrames;
  }

  // ----- broken frames -----

  /** A frame whose data line does not parse. */
  predicate Broken(parse: string -> Parse, frame: string) {
    DataLine(frame).Some? && parse(DataLine(frame).value).Malformed?
  }

  lemma FrameThrows(parse: string -> Parse, f: Feed, frame: string)
    ensures HandleFrame(parse, f, frame).threw <==> Broken(parse, frame)
    ensures Broken(parse, frame) ==> HandleFrame(parse, f, frame) == Handled(f, false, true)
  {
    hide DataLine, AcceptEvent;
  }

  /** A connection ends in an exception exactly when it brings a broken frame. */
  lemma {:induction false} ThrewIff(parse: string -> Parse, f: Feed, frames: seq<string>)
    ensures HandleFrames(parse, f, frames).threw <==> exists i: nat :: i < |frames| && Broken(parse, frames[i])
  {
    hide Broken, HandleFrame;
    if frames != [] {
      var n := |frames| - 1;
      var rest := frames[..n];
      ThrewIff(parse, f, rest);
      FrameThrows(parse, HandleFrames(parse, f, rest).feed, frames[n]);
      assert forall j :: 0 <= j < n ==> rest[j] == frames[j];
    }
  }

  ghost predicate FirstBroken(parse: string -> Parse, frames: seq<string>, i: nat) {
    i < |frames| && Broken(parse, frames[i]) && forall j :: 0 <= j < i ==> !Broken(parse, frames[j])
  }

  /** The first broken frame ends the connection; what came before it counts. */
  lemma {:induction false} BrokenEnds(parse: string -> Parse, f: Feed, frames: seq<string>, i: nat)
    requires FirstBroken(parse, frames, i)
    ensures HandleFrames(parse, f, frames) == HandleFrames(parse, f, frames[..i]).(threw := true)
    decreases |frames|
  {
    hide Broken, HandleFrame;
    var n := |frames| - 1;
    var rest := frames[..n];
    assert forall j :: 0 <= j < n ==> rest[j] == frames[j];
    if i < n {
      BrokenEnds(parse, f, rest, i);
      assert rest[..i] == frames[..i];
    } else {
      ThrewIff(parse, f, rest);
      FrameThrows(parse, HandleFrames(parse, f, rest).feed, frames[n]);
    }
  }

  /** A connection with a broken frame is a failing attempt however it ends; the events
      before that frame are kept. */
  lemma BrokenConnection(parse: string -> Parse, q: Run, chunks: seq<string>, timer: bool, ending: Ending, i: nat)
    requires FirstBroken(parse, Frames(Concat(chunks)), i)
    ensures var h := HandleFrames(parse, q.feed, Frames(Concat(chunks))[..i]);
      var s := Step(parse, q, Stream(chunks, timer, ending));
      && s.feed == h.feed && Fails(parse, q, Stream(chunks, timer, ending))
      && s.failures == (if h.progressed || timer then 0 else q.failures) + 1
      && s.outcome == if s.failures > 6 then Polling else Following
  {
    hide HandleFrames, Broken;
    BrokenEnds(parse, q.feed, Frames(Concat(chunks)), i);
  }

  // ----- what is accepted -----

  /** The sequence number a frame announces. */
  function Announced(parse: string -> Parse, frame: string): Option<int> {
    var data := DataLine(frame);
    if data.Some? && parse(data.value).Parsed? then parse(data.value).event.sequence else None
  }

  /** Frame n announces more than the cursor and every frame before it. */
  ghost predicate RecordAt(parse: string -> Parse, cursor: int, frames: seq<string>, n: nat) {
    && n < |frames| && Announced(parse, frames[n]).Some? && cursor < Announced(parse, frames[n]).value
    && forall j :: 0 <= j < n && Announced(parse, frames[j]).Some? ==>
      Announced(parse, frames[j]).value < Announced(parse, frames[n]).value
  }

  /** The events of the frames that exceed all before them. */
  ghost function Records(parse: string -> Parse, cursor: int, frames: seq<string>): seq<Event> {
    if frames == [] then []
    else
      var n := |frames| - 1;
      Records(parse, cursor, frames[..n])
      + if RecordAt(parse, cursor, frames, n) then [parse(DataLine(frames[n]).value).event] else []
  }

  ghost predicate AtLeast(parse: string -> Parse, cursor: int, frames: seq<string>) {
    forall j :: 0 <= j < |frames| && Announced(parse, frames[j]).Some? ==> Announced(parse, frames[j]).value <= cursor
  }

  /** The cursor is the greatest number announced so far, or where it started. */
  ghost predicate Greatest(parse: string -> Parse, start: int, cursor: int, frames: seq<string>) {
    && start <= cursor && AtLeast(parse, cursor, frames)
    && (cursor == start || exists j: nat :: j < |frames| && Announced(parse, frames[j]) == Some(cursor))
  }

  /** Without broken frames, the reader accepts exactly the records of the text, whatever the server sent. */
  lemma {:induction false} AcceptsRecords(parse: string -> Parse, f: Feed, frames: seq<string>)
    requires forall i :: 0 <= i < |frames| ==> !Broken(parse, frames[i])
    ensures var h := HandleFrames(parse, f, frames);
      && h.feed.accepted == f.accepted + Records(parse, f.cursor, frames)
      && Greatest(parse, f.cursor, h.feed.cursor, frames)
  {
    hide DataLine, Last;
    if frames != [] {
      var n := |frames| - 1;
      var rest := frames[..n];
      AcceptsRecords(parse, f, rest);
      ThrewIff(parse, f, rest);
      var cursor := HandleFrames(parse, f, rest).feed.cursor;
      RecordIff(parse, f.cursor, cursor, frames);
    }
  }

  lemma RecordIff(parse: string -> Parse, start: int, cursor: int, frames: seq<string>)
    requires frames != [] && Greatest(parse, start, cursor, frames[..|frames| - 1])
    ensures var n := |frames| - 1;
      var a := Announced(parse, frames[n]);
      && (RecordAt(parse, start, frames, n) <==> a.Some? && cursor < a.value)
      && Greatest(parse, start, if a.Some? && cursor < a.value then a.value else cursor, frames)
  {
    hide Announced;
    var n := |frames| - 1;
    var rest := frames[..n];
    assert forall j :: 0 <= j < n ==> rest[j] == frames[j];
    if cursor != start {
      var j: nat :| j < |rest| && Announced(parse, rest[j]) == Some(cursor);
      assert Announced(parse, frames[j]) == Some(cursor);
    }
  }

  /** Later sequence numbers are greater, and all are greater than the cursor. */
  ghost predicate Ascending(cursor: int, events: seq<Event>) {
    && (forall i :: 0 <= i < |events| ==> events[i].sequence.Some? && cursor < events[i].sequence.value)
    && (forall i, j :: 0 <= i < j < |events| ==> events[i].sequence.value < events[j].sequence.value)
  }

  function Newest(cursor: int, events: seq<Event>): int {
    if events == [] || events[|events| - 1].sequence.None? then cursor else events[|events| - 1].sequence.value
  }

  /** What one feed adds to another. */
  ghost predicate Grows(f: Feed, g: Feed, more: seq<Event>) {
    && g.accepted == f.accepted + more && Ascending(f.cursor, more) && g.cursor == Newest(f.cursor, more)
    && g.buffer == if more == [] then f.buffer else Last(f.buffer + more)
  }

  /** The last 64 events, or all if there are fewer. */
  lemma LastIs64(s: seq<Event>)
    ensures |Last(s)| == if |s| < 64 then |s| else 64
    ensures s == s[..|s| - |Last(s)|] + Last(s)
  {
  }

  lemma {:induction false} FramesGrow(parse: string -> Parse, f: Feed, frames: seq<string>) returns (more: seq<Event>)
    ensures Grows(f, HandleFrames(parse, f, frames).feed, more)
  {
    hide DataLine;
    more := [];
    if frames != [] {
      more := FramesGrow(parse, f, frames[..|frames| - 1]);
      var h := HandleFrames(parse, f, frames[..|frames| - 1]);
      if !h.threw {
        var k := HandleFrame(parse, h.feed, frames[|frames| - 1]);
        if k.progressed {
          var e := k.feed.accepted[|h.feed.accepted|];
          GrowsBy(f, h.feed, more, e);
          more := more + [e];
        }
      }
    }
  }

  lemma GrowsBy(f: Feed, g: Feed, more: seq<Event>, e: Event)
    requires Grows(f, g, more) && e.sequence.Some? && g.cursor < e.sequence.value
    ensures Grows(f, AcceptEvent(g, e), more + [e])
  {
    assert (f.accepted + more) + [e] == f.accepted + (more + [e]);
    LastTwice(f.buffer, more, e);
  }

  lemma LastTwice(a: seq<Event>, more: seq<Event>, e: Event)
    ensures Last((if more == [] then a else Last(a + more)) + [e]) == Last(a + (more + [e]))
  {
    var s := a + more;
    assert s + [e] == a + (more + [e]);
    assert more == [] ==> s == a;
  }

  /** Against any server and over any number of attempts, the reader accepts events of
      strictly ascending sequence numbers above its cursor, the cursor is the last one's,
      and the buffer the last 64. */
  lemma {:induction false} RunGrows(parse: string -> Parse, r: Run, attempts: seq<Attempt>) returns (more: seq<Event>)
    ensures Grows(r.feed, Follow(parse, r, attempts).feed, more)
  {
    hide Grows, Step;
    more := [];
    NothingGrows(r.feed);
    if attempts != [] {
      var n := |attempts| - 1;
      var q := Follow(parse, r, attempts[..n]);
      more := RunGrows(parse, r, attempts[..n]);
      if q.outcome == Following {
        var rest := StepGrows(parse, q, attempts[n]);
        GrowsOn(r.feed, q.feed, Step(parse, q, attempts[n]).feed, more, rest);
        more := more + rest;
      }
    }
  }

  lemma NothingGrows(f: Feed)
    ensures Grows(f, f, [])
  {
  }

  lemma StepGrows(parse: string -> Parse, q: Run, a: Attempt) returns (more: seq<Event>)
    ensures Grows(q.feed, Step(parse, q, a).feed, more)
  {
    hide Grows, HandleFrames, Frames, Concat;
    more := [];
    NothingGrows(q.feed);
    if a.Stream? {
      more := FramesGrow(parse, q.feed, Frames(Concat(a.chunks)));
    }
  }

  lemma {:induction false} GrowsOn(f: Feed, g: Feed, h: Feed, a: seq<Event>, b: seq<Event>)
    requires Grows(f, g, a) && Grows(g, h, b)
    ensures Grows(f, h, a + b)
  {
    hide Last;
    assert (f.accepted + a) + b == f.accepted + (a + b);
    AscendingJoin(f.cursor, a, b);
    if b == [] {
      assert a + b == a;
    } else if a == [] {
      assert a + b == b;
    } else {
      LastOfLast(f.buffer + a, b);
      assert (f.buffer + a) + b == f.buffer + (a + b);
    }
  }

  lemma AscendingJoin(cursor: int, a: seq<Event>, b: seq<Event>)
    requires Ascending(cursor, a) && Ascending(Newest(cursor, a), b)
    ensures Ascending(cursor, a + b) && Newest(cursor, a + b) == Newest(Newest(cursor, a), b)
  {
    if b == [] {
      assert a + b == a;
    }
  }

  // ----- the data line -----

  /** The characters from a to b are one line of the frame. */
  ghost predicate LineAt(frame: string, a: nat, b: nat) {
    && a <= b <= |frame| && (a == 0 || frame[a - 1] == '\n') && (b == |frame| || frame[b] == '\n')
    && forall j :: a <= j < b ==> frame[j] != '\n'
  }

  ghost predicate DataAt(frame: string, a: nat, b: nat) {
    LineAt(frame, a, b) && "data: " <= frame[a..b]
  }

  /** The line from a to b is the first with the prefix, and holds the data; without data there is none. */
  ghost predicate FirstData(frame: string, data: Option<string>, a: nat, b: nat) {
    match data
    case None => forall c: nat, d: nat :: !DataAt(frame, c, d)
    case Some(text) =>
      && DataAt(frame, a, b) && frame[a..b] == "data: " + text
      && forall c: nat, d: nat :: c < a ==> !DataAt(frame, c, d)
  }

  /** The data of a frame is that of its first line with the prefix. */
  lemma {:induction false} DataLineIsFirst(frame: string) returns (a: nat, b: nat)
    ensures FirstData(frame, DataLine(frame), a, b)
    decreases |frame|
  {
    hide FirstData;
    var i := LineEnd(frame);
    if DATA <= frame[..i] {
      a, b := 0, i;
      HeadData(frame);
    } else if i == |frame| {
      a, b := 0, i;
      NoData(frame);
    } else {
      a, b := DataLineIsFirst(frame[i + 1..]);
      TailLines(frame);
      ShiftedData(frame, i + 1, DataLine(frame[i + 1..]), a, b);
      a, b := a + i + 1, b + i + 1;
    }
  }

  lemma HeadData(frame: string)
    requires DATA <= frame[..LineEnd(frame)]
    ensures FirstData(frame, Some(frame[|DATA|..LineEnd(frame)]), 0, LineEnd(frame))
  {
    FirstLine(frame);
    assert frame[..LineEnd(frame)] == "data: " + frame[|DATA|..LineEnd(frame)];
    assert frame[0..LineEnd(frame)] == frame[..LineEnd(frame)];
  }

  lemma NoData(frame: string)
    requires !(DATA <= frame[..LineEnd(frame)]) && LineEnd(frame) == |frame|
    ensures FirstData(frame, None, 0, |frame|)
  {
    FirstLine(frame);
    assert frame[0..LineEnd(frame)] == frame[..LineEnd(frame)];
  }

  /** After a first line without data, the lines with data are those of the rest. */
  lemma TailLines(frame: string)
    requires LineEnd(frame) < |frame| && !(DATA <= frame[..LineEnd(frame)])
    ensures forall c: nat, d: nat :: DataAt(frame, c, d) <==> Shifted(frame, LineEnd(frame) + 1, c, d)
  {
    hide LineEnd, DataAt;
    forall c: nat, d: nat ensures DataAt(frame, c, d) <==> Shifted(frame, LineEnd(frame) + 1, c, d) {
      if c > LineEnd(frame) {
        LaterLine(frame, LineEnd(frame), c, d);
      } else {
        NoHeadData(frame, c, d);
      }
    }
  }

  ghost predicate Shifted(frame: string, k: nat, c: nat, d: nat) {
    c >= k && d >= k && k <= |frame| && DataAt(frame[k..], c - k, d - k)
  }

  lemma ShiftedData(frame: string, k: nat, data: Option<string>, a: nat, b: nat)
    requires k <= |frame| && FirstData(frame[k..], data, a, b)
    requires forall c: nat, d: nat :: DataAt(frame, c, d) <==> Shifted(frame, k, c, d)
    ensures FirstData(frame, data, a + k, b + k)
  {
    hide DataAt;
    var rest := frame[k..];
    if data.Some? {
      InRange(rest, a, b);
      assert rest[a..b] == frame[a + k..b + k];
      assert DataAt(frame, a + k, b + k);
    }
  }

  lemma NoHeadData(frame: string, c: nat, d: nat)
    requires !(DATA <= frame[..LineEnd(frame)]) && c <= LineEnd(frame)
    ensures !DataAt(frame, c, d)
  {
    FirstLine(frame);
    assert frame[0..LineEnd(frame)] == frame[..LineEnd(frame)];
  }

  lemma InRange(frame: string, a: nat, b: nat)
    requires DataAt(frame, a, b)
    ensures a <= b <= |frame|
  {
  }

  /** A line that starts no later than the first line ends is the first line. */
  lemma FirstLine(frame: string)
    ensures LineAt(frame, 0, LineEnd(frame))
    ensures forall c: nat, d: nat :: c <= LineEnd(frame) && LineAt(frame, c, d) ==> c == 0 && d == LineEnd(frame)
  {
  }

  lemma LaterLine(frame: string, i: nat, c: nat, d: nat)
    requires i < |frame| && frame[i] == '\n' && c > i
    ensures DataAt(frame, c, d) <==> d > i && DataAt(frame[i + 1..], c - i - 1, d - i - 1)
  {
    var rest := frame[i + 1..];
    if d > i && d <= |frame| && c <= d {
      assert rest[c - i - 1..d - i - 1] == frame[c..d];
    }
  }
}
