/** Whole runs of the reader: bounded retry, and exactly-once in-order delivery
    from a server that replays its log after the Last-Event-ID it is given. */
module StreamDelivery {
  import opened Options
  import opened TicketStream

  // ----- the follow loop -----

  /** `Aborted`: the request was aborted and the read loop left without an exception. */
  datatype Ending = Closed | ReadFailed | Aborted

  /** What one turn of the loop meets.  `timer`: a stability timer fired in it, its own or
      one that an aborted attempt left running. */
  datatype Attempt =
    | FetchFailed(timer: bool)
    | Refused  // status 401, 403, 404 or 422
    | Unavailable(timer: bool)  // any other status that is not ok, or no body
    | Stream(chunks: seq<string>, timer: bool, ending: Ending)

  datatype Outcome = Following | Stopped | Polling

  datatype Run = Run(feed: Feed, failures: nat, outcome: Outcome)

  const MAX_FAILURES := 6

  function Fail(feed: Feed, failures: nat): Run {
    Run(feed, failures + 1, if failures + 1 > MAX_FAILURES then Polling else Following)
  }

  function Step(parse: string -> Parse, r: Run, a: Attempt): Run {
    match a
    case FetchFailed(timer) => Fail(r.feed, if timer then 0 else r.failures)
    case Unavailable(timer) => Fail(r.feed, if timer then 0 else r.failures)
    case Refused => r.(outcome := Stopped)
    case Stream(chunks, timer, ending) =>
      var h := HandleFrames(parse, r.feed, Frames(Concat(chunks)));
      var failures := if h.progressed || timer then 0 else r.failures;
      if h.threw || ending != Aborted then Fail(h.feed, failures) else Run(h.feed, failures, Following)
  }

  function Follow(parse: string -> Parse, r: Run, attempts: seq<Attempt>): Run {
    if attempts == [] then r
    else
      var q := Follow(parse, r, attempts[..|attempts| - 1]);
      if q.outcome != Following then q else Step(parse, q, attempts[|attempts| - 1])
  }

  class Follower {
    const parse: string -> Parse
    var cursor: int
    var failures: nat
    var buffer: seq<Event>
    var outcome: Outcome
    var accepted: seq<Event>  // every event handed on so far

    ghost function State(): Run
      reads this
    {
      Run(Feed(cursor, buffer, accepted), failures, outcome)
    }

    /** `cursor` is what readCursor found: never negative. */
    constructor (parse: string -> Parse, cursor: int, buffer: seq<Event>)
      requires 0 <= cursor
      ensures this.parse == parse && State() == Run(Feed(cursor, buffer, []), 0, Following)
    {
      this.parse, this.cursor, this.buffer := parse, cursor, buffer;
      failures, outcome, accepted := 0, Following, [];
    }

    method TakeFeed(h: Handled, timer: bool)
      modifies this`cursor, this`buffer, this`accepted, this`failures
      ensures State() == Run(h.feed, if h.progressed || timer then 0 else old(failures), outcome)
    {
      cursor, buffer, accepted := h.feed.cursor, h.feed.buffer, h.feed.accepted;
      if h.progressed || timer {
        failures := 0;
      }
    }

    method CountFailure()
      modifies this`failures, this`outcome
      requires outcome == Following
      ensures State() == Fail(old(State()).feed, old(failures))
    {
      failures := failures + 1;
      if failures > MAX_FAILURES {
        outcome := Polling;
      }
    }

    /** `follow`, against any sequence of connection attempts. */
    method FollowAll(attempts: seq<Attempt>)
      requires outcome == Following && failures <= MAX_FAILURES
      modifies this
      ensures State() == Follow(parse, old(State()), attempts)
    {
      ghost var start := State();
      var i := 0;
      while i < |attempts| && outcome == Following
        invariant i <= |attempts|
        invariant State() == Follow(parse, start, attempts[..i])
      {
        assert attempts[..i + 1][..i] == attempts[..i];
        match attempts[i] {
          case FetchFailed(timer) =>
            TakeFeed(Handled(Feed(cursor, buffer, accepted), false, false), timer);
            CountFailure();
          case Unavailable(timer) =>
            TakeFeed(Handled(Feed(cursor, buffer, accepted), false, false), timer);
            CountFailure();
          case Refused => outcome := Stopped;
          case Stream(chunks, timer, ending) =>
            var h := ReadConnection(parse, Feed(cursor, buffer, accepted), chunks);
            TakeFeed(h, timer);
            if h.threw || ending != Aborted {
              CountFailure();
            }
        }
        i := i + 1;
      }
      FollowEnded(parse, start, attempts, i);
    }
  }

  lemma {:induction false} FollowEnded(parse: string -> Parse, r: Run, attempts: seq<Attempt>, n: nat)
    requires n <= |attempts|
    requires n == |attempts| || Follow(parse, r, attempts[..n]).outcome != Following
    ensures Follow(parse, r, attempts) == Follow(parse, r, attempts[..n])
    decreases |attempts| - n
  {
    if n == |attempts| {
      assert attempts[..n] == attempts;
    } else {
      assert attempts[..n + 1][..n] == attempts[..n];
      FollowEnded(parse, r, attempts, n + 1);
    }
  }

  // ----- bounded retry -----

  predicate Fails(parse: string -> Parse, q: Run, a: Attempt) {
    || a.FetchFailed? || a.Unavailable?
    || (a.Stream? && (a.ending != Aborted || HandleFrames(parse, q.feed, Frames(Concat(a.chunks))).threw))
  }

  /** An event was accepted, or a connection was stable. */
  predicate Recovers(parse: string -> Parse, q: Run, a: Attempt) {
    !a.Refused? && (a.timer || Step(parse, q, a).feed.accepted != q.feed.accepted)
  }

  /** The failing attempts from the k-th on. */
  function FailuresFrom(parse: string -> Parse, r: Run, attempts: seq<Attempt>, k: nat): nat {
    if |attempts| <= k then 0
    else
      var n := |attempts| - 1;
      var failed := Fails(parse, Follow(parse, r, attempts[..n]), attempts[n]);
      FailuresFrom(parse, r, attempts[..n], k) + if failed then 1 else 0
  }

  /** After the k-th attempt nothing was accepted and no connection was stable. */
  ghost predicate Undisturbed(parse: string -> Parse, r: Run, attempts: seq<Attempt>, k: nat) {
    forall j :: k < j < |attempts| ==> !Recovers(parse, Follow(parse, r, attempts[..j]), attempts[j])
  }

  lemma {:induction false} ProgressIsAcceptance(parse: string -> Parse, f: Feed, frames: seq<string>)
    ensures var h := HandleFrames(parse, f, frames);
      && |f.accepted| <= |h.feed.accepted|
      && (h.progressed <==> h.feed.accepted != f.accepted) && (h.progressed <==> |h.feed.accepted| > |f.accepted|)
  {
    hide DataLine, Last;
    if frames != [] {
      ProgressIsAcceptance(parse, f, frames[..|frames| - 1]);
    }
  }

  /** One attempt: the count starts over if it recovers, and grows if it fails. */
  lemma StepCounts(parse: string -> Parse, q: Run, a: Attempt)
    requires q.outcome == Following && q.failures <= MAX_FAILURES
    ensures var s := Step(parse, q, a);
      && s.failures == (if Recovers(parse, q, a) then 0 else q.failures) + (if Fails(parse, q, a) then 1 else 0)
      && (s.outcome == Polling <==> s.failures > MAX_FAILURES)
      && s.failures <= MAX_FAILURES + 1
  {
    hide HandleFrames, Frames, Concat;
    if a.Stream? {
      ProgressIsAcceptance(parse, q.feed, Frames(Concat(a.chunks)));
    }
  }

  lemma PrefixFollows(parse: string -> Parse, r: Run, attempts: seq<Attempt>)
    requires attempts != [] && Follow(parse, r, attempts).outcome == Following
    ensures Follow(parse, r, attempts[..|attempts| - 1]).outcome == Following
  {
  }

  lemma UndisturbedStep(parse: string -> Parse, r: Run, attempts: seq<Attempt>, k: nat)
    requires attempts != [] && k < |attempts|
    ensures var n := |attempts| - 1;
      Undisturbed(parse, r, attempts, k) <==>
        && Undisturbed(parse, r, attempts[..n], k)
        && (k < n ==> !Recovers(parse, Follow(parse, r, attempts[..n]), attempts[n]))
  {
    hide Recovers, Follow;
    var n := |attempts| - 1;
    assert forall j :: 0 <= j < n ==> attempts[..n][..j] == attempts[..j] && attempts[..n][j] == attempts[j];
  }

  /** The count is that of the failing attempts since the last recovery. */
  lemma {:induction false} CountSinceRecovery(parse: string -> Parse, r: Run, attempts: seq<Attempt>) returns (k: nat)
    requires r.outcome == Following && r.failures == 0
    requires attempts != [] ==> Follow(parse, r, attempts[..|attempts| - 1]).outcome == Following
    ensures Undisturbed(parse, r, attempts, k)
    ensures Follow(parse, r, attempts).failures == FailuresFrom(parse, r, attempts, k) <= MAX_FAILURES + 1
    ensures Follow(parse, r, attempts).outcome == Following ==> Follow(parse, r, attempts).failures <= MAX_FAILURES
  {
    hide Step, Recovers, Fails;
    k := 0;
    if attempts != [] {
      var n := |attempts| - 1;
      var q := Follow(parse, r, attempts[..n]);
      if n > 0 {
        PrefixFollows(parse, r, attempts[..n]);
      }
      k := CountSinceRecovery(parse, r, attempts[..n]);
      StepCounts(parse, q, attempts[n]);
      if Recovers(parse, q, attempts[n]) || k >= |attempts| {
        k := n;
        NoneBefore(parse, r, attempts[..n], n);
      }
      UndisturbedStep(parse, r, attempts, k);
    }
  }

  lemma NoneBefore(parse: string -> Parse, r: Run, attempts: seq<Attempt>, k: nat)
    requires |attempts| <= k
    ensures FailuresFrom(parse, r, attempts, k) == 0 && Undisturbed(parse, r, attempts, k)
  {
  }

  /** Whatever undisturbed stretch is taken, the count is at least its failing attempts. */
  lemma {:induction false} CountAtLeast(parse: string -> Parse, r: Run, attempts: seq<Attempt>, k: nat)
    requires r.outcome == Following && r.failures == 0
    requires attempts != [] ==> Follow(parse, r, attempts[..|attempts| - 1]).outcome == Following
    requires Undisturbed(parse, r, attempts, k)
    ensures Follow(parse, r, attempts).failures >= FailuresFrom(parse, r, attempts, k)
  {
    hide Step, Recovers, Fails;
    if k < |attempts| {
      var n := |attempts| - 1;
      var q := Follow(parse, r, attempts[..n]);
      if n > 0 {
        PrefixFollows(parse, r, attempts[..n]);
      }
      UndisturbedStep(parse, r, attempts, k);
      var _ := CountSinceRecovery(parse, r, attempts[..n]);
      StepCounts(parse, q, attempts[n]);
      if k < n {
        CountAtLeast(parse, r, attempts[..n], k);
      } else {
        NoneBefore(parse, r, attempts[..n], k);
      }
    }
  }

  /** Polling starts exactly when seven attempts have failed with nothing accepted and no
      stable connection after the first of them. */
  lemma PollingIsSevenFailures(parse: string -> Parse, r: Run, attempts: seq<Attempt>)
    requires r.outcome == Following && r.failures == 0
    requires attempts != [] && Follow(parse, r, attempts[..|attempts| - 1]).outcome == Following
    ensures Follow(parse, r, attempts).outcome == Polling <==>
      exists k: nat :: Undisturbed(parse, r, attempts, k) && FailuresFrom(parse, r, attempts, k) == MAX_FAILURES + 1
  {
    hide Step, Recovers, Fails, FailuresFrom, Undisturbed;
    var n := |attempts| - 1;
    if n > 0 {
      PrefixFollows(parse, r, attempts[..n]);
    }
    var _ := CountSinceRecovery(parse, r, attempts[..n]);
    StepCounts(parse, Follow(parse, r, attempts[..n]), attempts[n]);
    var k := CountSinceRecovery(parse, r, attempts);
    if j: nat :| Undisturbed(parse, r, attempts, j) && FailuresFrom(parse, r, attempts, j) == MAX_FAILURES + 1 {
      CountAtLeast(parse, r, attempts, j);
    }
  }

  /** A server that never answers is tried seven times. */
  lemma {:induction false} UnansweredPolls(parse: string -> Parse, r: Run, attempts: seq<Attempt>)
    requires r.outcome == Following && r.failures == 0
    requires forall i :: 0 <= i < |attempts| ==> attempts[i] == FetchFailed(false) || attempts[i] == Unavailable(false)
    ensures Follow(parse, r, attempts) ==
      if |attempts| <= MAX_FAILURES then Run(r.feed, |attempts|, Following)
      else Run(r.feed, MAX_FAILURES + 1, Polling)
  {
    if attempts != [] {
      UnansweredPolls(parse, r, attempts[..|attempts| - 1]);
    }
  }

  // ----- the server -----

  /** A heartbeat or one event of the log. */
  datatype Sent = Heartbeat | Update(event: Event)

  /** A frame body ends where its blank line starts. */
  predicate Framed(body: string) {
    FirstBreak(body + "\n\n") == |body|
  }

  /** What `encode` must do: frame every item, keep heartbeats free of data, and
      let the reader parse back the event. */
  ghost predicate Faithful(parse: string -> Parse, encode: Sent -> string, items: seq<Sent>) {
    forall i :: 0 <= i < |items| ==>
      && Framed(encode(items[i]))
      && match items[i]
         case Heartbeat => DataLine(encode(items[i])) == None
         case Update(e) => DataLine(encode(items[i])).Some? && parse(DataLine(encode(items[i])).value) == Parsed(e)
  }

  function Bodies(encode: Sent -> string, items: seq<Sent>): seq<string> {
    if items == [] then [] else [encode(items[0])] + Bodies(encode, items[1..])
  }

  function ServerText(encode: Sent -> string, items: seq<Sent>): string {
    if items == [] then "" else encode(items[0]) + "\n\n" + ServerText(encode, items[1..])
  }

  function Events(items: seq<Sent>): seq<Event> {
    if items == [] then []
    else if items[0].Update? then [items[0].event] + Events(items[1..])
    else Events(items[1..])
  }

  /** How many items a text of this length holds completely, blank line included. */
  function Whole(encode: Sent -> string, items: seq<Sent>, length: nat): (n: nat)
    ensures n <= |items|
  {
    if items == [] || length < |encode(items[0])| + 2 then 0
    else 1 + Whole(encode, items[1..], length - |encode(items[0])| - 2)
  }

  /** They fit, and one more does not. */
  lemma {:induction false} WholeIsMost(encode: Sent -> string, items: seq<Sent>, length: nat)
    ensures var n := Whole(encode, items, length);
      && |ServerText(encode, items[..n])| <= length
      && (n < |items| ==> length < |ServerText(encode, items[..n + 1])|)
    decreases |items|
  {
    var n := Whole(encode, items, length);
    if items != [] {
      assert n < |items| ==> items[..n + 1][1..] == items[1..][..n];
      if n > 0 {
        WholeIsMost(encode, items[1..], length - |encode(items[0])| - 2);
        assert items[..n][1..] == items[1..][..n - 1];
      }
    }
  }

  /** Cutting the server's text anywhere leaves the frames of exactly the items it holds completely. */
  lemma {:induction false} PrefixFrames(encode: Sent -> string, items: seq<Sent>, text: string)
    requires forall i :: 0 <= i < |items| ==> Framed(encode(items[i]))
    requires text <= ServerText(encode, items)
    ensures Frames(text) == Bodies(encode, items[..Whole(encode, items, |text|)])
    decreases |items|
  {
    if items == [] {
      assert text == "";
    } else {
      var head := encode(items[0]) + "\n\n";
      assert ServerText(encode, items) == head + ServerText(encode, items[1..]);
      if |text| < |head| {
        NoBreakInside(head, text);
        assert Frames(text) == [];
      } else {
        var rest := text[|head|..];
        assert text == head + rest;
        HeadBreak(head, rest, |encode(items[0])|);
        assert text[|encode(items[0])| + 2..] == rest;
        assert text[..|encode(items[0])|] == encode(items[0]);
        assert rest <= ServerText(encode, items[1..]);
        PrefixFrames(encode, items[1..], rest);
        var m := Whole(encode, items[1..], |rest|);
        assert items[..m + 1][1..] == items[1..][..m];
        assert Split(text) == [encode(items[0])] + Split(rest);
      }
    }
  }

  lemma NoBreakInside(head: string, text: string)
    requires text <= head && |text| < |head| && |head| >= 2 && FirstBreak(head) == |head| - 2
    ensures FirstBreak(text) == |text|
  {
    forall j | 0 <= j < |text| ensures !BreakAt(text, j) {
      if j + 1 < |text| {
        assert !BreakAt(head, j);
      }
    }
  }

  lemma HeadBreak(head: string, rest: string, i: nat)
    requires |head| == i + 2 && FirstBreak(head) == i
    ensures FirstBreak(head + rest) == i
  {
    assert BreakAt(head, i) && BreakAt(head + rest, i);
    forall j | 0 <= j < i ensures !BreakAt(head + rest, j) {
      assert !BreakAt(head, j);
    }
    BreakUnique(head + rest, i);
  }

  // ----- the log -----

  /** Sequence numbers strictly increase along the log. */
  ghost predicate Ordered(log: seq<Event>) {
    && (forall i :: 0 <= i < |log| ==> log[i].sequence.Some?)
    && (forall i, j :: 0 <= i < j < |log| ==> log[i].sequence.value < log[j].sequence.value)
  }

  /** The part of the log after `cursor`. */
  function After(log: seq<Event>, cursor: int): seq<Event> {
    if log == [] then []
    else if log[0].sequence.Some? && log[0].sequence.value <= cursor then After(log[1..], cursor)
    else log
  }

  lemma {:induction false} AfterShape(log: seq<Event>, cursor: int)
    requires Ordered(log)
    ensures Ordered(After(log, cursor))
    ensures forall i :: 0 <= i < |After(log, cursor)| ==> After(log, cursor)[i].sequence.value > cursor
  {
    if log != [] && log[0].sequence.value <= cursor {
      AfterShape(log[1..], cursor);
    }
  }

  /** Asking again after having taken n events skips exactly those. */
  lemma {:induction false} AfterTaken(log: seq<Event>, cursor: int, n: nat)
    requires Ordered(log) && 0 < n <= |After(log, cursor)|
    requires forall i :: 0 <= i < |After(log, cursor)| ==> After(log, cursor)[i].sequence.Some?
    ensures After(log, After(log, cursor)[n - 1].sequence.value) == After(log, cursor)[n..]
    decreases |log|
  {
    var rest := After(log, cursor);
    var taken := rest[n - 1].sequence.value;
    if log[0].sequence.value <= cursor {
      AfterShape(log, cursor);
      AfterTaken(log[1..], cursor, n);
    } else {
      AfterInside(log, n);
    }
  }

  lemma {:induction false} AfterInside(log: seq<Event>, n: nat)
    requires Ordered(log) && 0 < n <= |log|
    ensures After(log, log[n - 1].sequence.value) == log[n..]
    decreases n
  {
    if n == 1 {
      assert log[1..] == [] || log[1].sequence.value > log[0].sequence.value;
    } else {
      AfterInside(log[1..], n - 1);
      assert log[1..][n - 1..] == log[n..];
    }
  }

  // ----- delivery -----

  /** Handling frames of in-order, newer events accepts every one of them. */
  lemma {:induction false} HandleUpdates(parse: string -> Parse, encode: Sent -> string, f: Feed, items: seq<Sent>)
    requires Faithful(parse, encode, items)
    requires Newer(Events(items), f.cursor)
    ensures var h := HandleFrames(parse, f, Bodies(encode, items));
      && !h.threw
      && h.feed == Took(f, Events(items))
      && (h.progressed <==> Events(items) != [])
    decreases |items|
  {
    if items != [] {
      var body, tail := encode(items[0]), Bodies(encode, items[1..]);
      assert Faithful(parse, encode, items[1..]) by {
        assert forall i :: 0 <= i < |items| - 1 ==> items[1..][i] == items[i + 1];
      }
      var k := HandleFrame(parse, f, body);
      HandleAppend(parse, f, [body], tail);
      assert HandleFrames(parse, f, [body]) == k by {
        assert [body][..0] == [];
      }
      if items[0].Update? {
        NewerTail(items[0].event, Events(items[1..]), f.cursor);
        assert k == Handled(AcceptEvent(f, items[0].event), true, false);
        HandleUpdates(parse, encode, k.feed, items[1..]);
        TookOne(f, items[0].event, Events(items[1..]));
      } else {
        assert k == Handled(f, false, false);
        HandleUpdates(parse, encode, f, items[1..]);
      }
    }
  }

  /** Strictly increasing, and all after `cursor`. */
  ghost predicate Newer(events: seq<Event>, cursor: int) {
    Ordered(events) && forall i :: 0 <= i < |events| ==> events[i].sequence.value > cursor
  }

  lemma NewerTail(e: Event, rest: seq<Event>, cursor: int)
    requires Newer([e] + rest, cursor)
    ensures e.sequence.Some? && e.sequence.value > cursor && Newer(rest, e.sequence.value)
  {
    assert ([e] + rest)[0] == e;
    assert forall i :: 0 <= i < |rest| ==> ([e] + rest)[i + 1] == rest[i];
  }

  /** The feed after accepting `events`. */
  function Took(f: Feed, events: seq<Event>): Feed
    requires forall i :: 0 <= i < |events| ==> events[i].sequence.Some?
  {
    Feed(if events == [] then f.cursor else events[|events| - 1].sequence.value,
         if events == [] then f.buffer else Last(f.buffer + events),
         f.accepted + events)
  }

  lemma TookOne(f: Feed, e: Event, events: seq<Event>)
    requires e.sequence.Some? && forall i :: 0 <= i < |events| ==> events[i].sequence.Some?
    ensures Took(AcceptEvent(f, e), events) == Took(f, [e] + events)
  {
    if events != [] {
      LastOfLast(f.buffer + [e], events);
      assert f.buffer + [e] + events == f.buffer + ([e] + events);
    }
    assert f.accepted + [e] + events == f.accepted + ([e] + events);
  }

  lemma LastOfLast(a: seq<Event>, b: seq<Event>)
    ensures Last(Last(a) + b) == Last(a + b)
  {
    if |a| > MAX_BUFFERED_EVENTS {
      assert Last(Last(a) + b) == Last(a + b);
    }
  }

  /** The chunks are a cut of what the server sends after `cursor`: `items`, the events of
      the log after it, in order, with heartbeats anywhere. */
  ghost predicate Serves(parse: string -> Parse, encode: Sent -> string, log: seq<Event>, cursor: int,
                         chunks: seq<string>, items: seq<Sent>)
  {
    && Faithful(parse, encode, items)
    && Events(items) <= After(log, cursor)
    && Concat(chunks) <= ServerText(encode, items)
  }

  /** Every attempt of the run meets an honest server, asked with the cursor of that moment;
      `served` lists what it sends. */
  ghost predicate HonestRun(parse: string -> Parse, encode: Sent -> string, log: seq<Event>, r: Run,
                            attempts: seq<Attempt>, served: seq<seq<Sent>>) {
    && |served| == |attempts|
    && forall k :: 0 <= k < |attempts| && attempts[k].Stream? ==>
      Serves(parse, encode, log, Follow(parse, r, attempts[..k]).feed.cursor, attempts[k].chunks, served[k])
  }

  /** The events whose frames arrive completely in one attempt. */
  function Arrived(encode: Sent -> string, a: Attempt, items: seq<Sent>): seq<Event> {
    if a.Stream? then Events(items[..Whole(encode, items, |Concat(a.chunks)|)]) else []
  }

  /** The events that arrive completely in a run, attempt by attempt. */
  function Received(parse: string -> Parse, encode: Sent -> string, r: Run, attempts: seq<Attempt>,
                    served: seq<seq<Sent>>): seq<Event>
    requires |served| == |attempts|
  {
    if attempts == [] then []
    else
      var m := |attempts| - 1;
      Received(parse, encode, r, attempts[..m], served[..m])
      + if Follow(parse, r, attempts[..m]).outcome == Following then Arrived(encode, attempts[m], served[m]) else []
  }

  /** `n` events of the log after the starting cursor have been taken, each once and in order. */
  ghost predicate Delivered(log: seq<Event>, start: Feed, feed: Feed, n: nat) {
    && n <= |After(log, start.cursor)|
    && feed.accepted == After(log, start.cursor)[..n]
    && feed.buffer == (if n == 0 then start.buffer else Last(start.buffer + feed.accepted))
    && After(log, feed.cursor) == After(log, start.cursor)[n..]
  }

  lemma {:induction false} EventsPrefix(items: seq<Sent>, n: nat)
    requires n <= |items|
    ensures Events(items[..n]) <= Events(items)
    decreases n
  {
    if n > 0 {
      EventsPrefix(items[1..], n - 1);
      assert items[..n][1..] == items[1..][..n - 1];
    }
  }

  lemma NewerPrefix(log: seq<Event>, cursor: int, events: seq<Event>)
    requires Ordered(log) && events <= After(log, cursor)
    ensures Newer(events, cursor)
  {
    AfterShape(log, cursor);
    assert forall i :: 0 <= i < |events| ==> events[i] == After(log, cursor)[i];
  }

  /** One honest connection, however chunked and wherever cut, takes the next events of the
      log: exactly those whose frames arrived completely. */
  lemma ConnectionDelivers(parse: string -> Parse, encode: Sent -> string, log: seq<Event>, f: Feed,
                           chunks: seq<string>, items: seq<Sent>)
    requires Ordered(log) && Serves(parse, encode, log, f.cursor, chunks, items)
    ensures var events := Events(items[..Whole(encode, items, |Concat(chunks)|)]);
      && events <= After(log, f.cursor) && Newer(events, f.cursor)
      && HandleFrames(parse, f, Frames(Concat(chunks))) == Handled(Took(f, events), events != [], false)
  {
    hide Split, Concat, HandleFrames;
    PrefixFrames(encode, items, Concat(chunks));
    var n := Whole(encode, items, |Concat(chunks)|);
    EventsPrefix(items, n);
    NewerPrefix(log, f.cursor, Events(items[..n]));
    assert Faithful(parse, encode, items[..n]);
    HandleUpdates(parse, encode, f, items[..n]);
  }

  lemma TookDelivers(log: seq<Event>, start: Feed, f: Feed, n: nat, events: seq<Event>)
    requires Ordered(log) && Delivered(log, start, f, n)
    requires events <= After(log, f.cursor) && Newer(events, f.cursor)
    ensures Delivered(log, start, Took(f, events), n + |events|)
  {
    hide After, Last, Newer;
    if events != [] {
      CursorMoves(log, f.cursor, events);
      TakeMore(After(log, start.cursor), n, events);
      LastOfMore(start.buffer, f.accepted, events);
    } else {
      assert f.accepted + events == f.accepted;
    }
  }

  lemma CursorMoves(log: seq<Event>, cursor: int, events: seq<Event>)
    requires Ordered(log) && events != [] && events <= After(log, cursor) && Newer(events, cursor)
    ensures After(log, events[|events| - 1].sequence.value) == After(log, cursor)[|events|..]
  {
    hide After;
    AfterShape(log, cursor);
    AfterTaken(log, cursor, |events|);
  }

  lemma TakeMore(all: seq<Event>, n: nat, events: seq<Event>)
    requires n <= |all| && events <= all[n..]
    ensures n + |events| <= |all| && all[..n] + events == all[..n + |events|]
    ensures all[n..][|events|..] == all[n + |events|..]
  {
    assert forall i :: 0 <= i < |events| ==> events[i] == all[n..][i];
  }

  lemma LastOfMore(buffer: seq<Event>, taken: seq<Event>, events: seq<Event>)
    ensures Last(Last(buffer + taken) + events) == Last(buffer + (taken + events))
    ensures taken == [] ==> Last(buffer + events) == Last(buffer + (taken + events))
  {
    LastOfLast(buffer + taken, events);
    assert buffer + taken + events == buffer + (taken + events);
    assert taken == [] ==> buffer + taken == buffer;
  }

  /** One attempt against an honest server takes what arrives in it. */
  lemma StepDelivers(parse: string -> Parse, encode: Sent -> string, log: seq<Event>, start: Feed, q: Run, n: nat,
                     a: Attempt, items: seq<Sent>)
    requires Ordered(log) && Delivered(log, start, q.feed, n)
    requires a.Stream? ==> Serves(parse, encode, log, q.feed.cursor, a.chunks, items)
    ensures var events := Arrived(encode, a, items);
      && Delivered(log, start, Step(parse, q, a).feed, n + |events|)
      && Step(parse, q, a).feed.accepted == q.feed.accepted + events
  {
    hide HandleFrames, Delivered, Serves, After, Newer, Frames, Concat;
    if a.Stream? {
      ConnectionDelivers(parse, encode, log, q.feed, a.chunks, items);
      var events := Arrived(encode, a, items);
      TookDelivers(log, start, q.feed, n, events);
      TookAccepts(q.feed, events);
    }
  }

  lemma TookAccepts(f: Feed, events: seq<Event>)
    requires Newer(events, f.cursor)
    ensures Took(f, events).accepted == f.accepted + events
  {
  }

  /** Exactly-once, in-order delivery over every run: whatever the chunking, the cuts and
      the number of reconnections, the accepted events are exactly those that arrived
      completely, each once, and are a strictly increasing prefix of the log after the
      starting cursor; the buffer holds the last 64. */
  lemma {:induction false} RunDelivers(parse: string -> Parse, encode: Sent -> string, log: seq<Event>, r: Run,
                                       attempts: seq<Attempt>, served: seq<seq<Sent>>)
    requires Ordered(log) && r.feed.accepted == []
    requires HonestRun(parse, encode, log, r, attempts, served)
    ensures var received := Received(parse, encode, r, attempts, served);
      && Follow(parse, r, attempts).feed.accepted == received
      && Delivered(log, r.feed, Follow(parse, r, attempts).feed, |received|)
      && Newer(received, r.feed.cursor)
  {
    hide Step, After, Newer, Last, Serves, Arrived;
    if attempts != [] {
      var m := |attempts| - 1;
      var q := Follow(parse, r, attempts[..m]);
      assert HonestRun(parse, encode, log, r, attempts[..m], served[..m]) by {
        assert forall k :: 0 <= k < m ==> attempts[..m][..k] == attempts[..k] && attempts[..m][k] == attempts[k];
      }
      RunDelivers(parse, encode, log, r, attempts[..m], served[..m]);
      if q.outcome == Following {
        StepDelivers(parse, encode, log, r.feed, q, |q.feed.accepted|, attempts[m], served[m]);
      }
    }
    NewerPrefix(log, r.feed.cursor, Follow(parse, r, attempts).feed.accepted);
  }

  /** One connection that brings everything the server has completes the delivery: nothing
      of the log after the starting cursor is missing. */
  lemma CaughtUp(parse: string -> Parse, encode: Sent -> string, log: seq<Event>, r: Run, attempts: seq<Attempt>,
                 served: seq<seq<Sent>>)
    requires Ordered(log) && r.feed.accepted == [] && attempts != []
    requires HonestRun(parse, encode, log, r, attempts, served)
    requires var m := |attempts| - 1;
      var q := Follow(parse, r, attempts[..m]);
      && q.outcome == Following && attempts[m].Stream? && Concat(attempts[m].chunks) == ServerText(encode, served[m])
      && Events(served[m]) == After(log, q.feed.cursor)
    ensures Follow(parse, r, attempts).feed.accepted == After(log, r.feed.cursor)
  {
    hide Step, Newer, Last, Serves, Frames;
    var m := |attempts| - 1;
    var q := Follow(parse, r, attempts[..m]);
    assert HonestRun(parse, encode, log, r, attempts[..m], served[..m]) by {
      assert forall k :: 0 <= k < m ==> attempts[..m][..k] == attempts[..k] && attempts[..m][k] == attempts[k];
    }
    RunDelivers(parse, encode, log, r, attempts[..m], served[..m]);
    RunDelivers(parse, encode, log, r, attempts, served);
    AllWhole(encode, served[m]);
    assert served[m][..|served[m]|] == served[m];
    var n := |q.feed.accepted|;
    assert After(log, q.feed.cursor) == After(log, r.feed.cursor)[n..];
    assert q.feed.accepted + After(log, r.feed.cursor)[n..] == After(log, r.feed.cursor);
  }

  lemma {:induction false} AllWhole(encode: Sent -> string, items: seq<Sent>)
    ensures Whole(encode, items, |ServerText(encode, items)|) == |items|
    decreases |items|
  {
    if items != [] {
      AllWhole(encode, items[1..]);
    }
  }

  // ----- the real encoder -----

  predicate OneLine(s: string) {
    forall i :: 0 <= i < |s| ==> s[i] != '\n'
  }

  /** The body `encode_event` puts before the blank line. */
  function EncodedBody(id: string, kind: string, json: string): string {
    "id: " + id + "\nevent: " + kind + "\ndata: " + json
  }

  lemma LineOf(line: string, rest: string)
    requires OneLine(line)
    ensures LineEnd(line + "\n" + rest) == |line|
    ensures LineEnd(line) == |line|
  {
    var s := line + "\n" + rest;
    assert forall j :: 0 <= j < |line| ==> s[j] == line[j];
    assert s[|line|] == '\n';
  }

  lemma SkipLine(line: string, rest: string)
    requires OneLine(line) && line != "" && line[0] != 'd'
    ensures DataLine(line + "\n" + rest) == DataLine(rest)
  {
    var s := line + "\n" + rest;
    LineOf(line, rest);
    assert s[..|line|] == line && s[|line| + 1..] == rest;
  }

  lemma TakeLine(json: string)
    requires OneLine(json)
    ensures DataLine("data: " + json) == Some(json)
  {
    var s := "data: " + json;
    assert OneLine(s);
    LineOf(s, "");
    assert s[..|s|] == s && s[|DATA|..|s|] == json;
  }

  /** `encode_event` and the heartbeat frame what the reader needs: single-line
      fields give one framed body whose data line is the JSON text. */
  lemma EncoderIsFramed(id: string, kind: string, json: string)
    requires OneLine(id) && OneLine(kind) && OneLine(json)
    ensures Framed(EncodedBody(id, kind, json))
    ensures DataLine(EncodedBody(id, kind, json)) == Some(json)
    ensures Framed(": heartbeat") && DataLine(": heartbeat") == None
  {
    hide DataLine, Framed;
    var a, b, c := "id: " + id, "event: " + kind, "data: " + json;
    assert EncodedBody(id, kind, json) == a + "\n" + (b + "\n" + c);
    SkipLine(a, b + "\n" + c);
    SkipLine(b, c);
    TakeLine(json);
    FramedBody(a, b, c);
    OneLineFramed(": heartbeat");
    OtherLine(": heartbeat");
  }

  lemma OtherLine(line: string)
    requires OneLine(line) && line != "" && line[0] != 'd'
    ensures DataLine(line) == None
  {
    LineOf(line, "");
    assert line[..|line|] == line;
  }

  lemma OneLineFramed(s: string)
    requires OneLine(s)
    ensures Framed(s)
  {
    var t := s + "\n\n";
    assert BreakAt(t, |s|);
    forall j | 0 <= j < |s| ensures !BreakAt(t, j) {
      assert t[j] == s[j];
    }
    BreakUnique(t, |s|);
  }

  lemma FramedBody(a: string, b: string, c: string)
    requires OneLine(a) && OneLine(b) && OneLine(c) && b != "" && c != ""
    ensures Framed(a + "\n" + (b + "\n" + c))
  {
    var s := a + "\n" + (b + "\n" + c);
    var t := s + "\n\n";
    assert BreakAt(t, |s|);
    forall j | 0 <= j < |s| ensures !BreakAt(t, j) {
      if j < |a| {
        assert t[j] == a[j];
      } else if j == |a| {
        assert t[j + 1] == b[0];
      } else if j < |a| + 1 + |b| {
        assert t[j] == b[j - |a| - 1];
      } else if j == |a| + 1 + |b| {
        assert t[j + 1] == c[0];
      } else {
        assert t[j] == c[j - |a| - |b| - 2];
      }
    }
    BreakUnique(t, |s|);
  }
}
