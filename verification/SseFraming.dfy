/** Cutting a streamed response into events, chunk by chunk. */
module SseFraming {
  import opened Wrappers

  newtype Byte = b: int | 0 <= b < 256

  type Bytes = seq<Byte>

  const CR: Byte := 13
  const LF: Byte := 10
  const LF_LF: Bytes := [LF, LF]
  const CRLF_CRLF: Bytes := [CR, LF, CR, LF]

  // ----- finding the next event -----

  predicate At(b: Bytes, i: int, needle: Bytes) {
    0 <= i && i + |needle| <= |b| && b[i..i + |needle|] == needle
  }

  function FindFrom(b: Bytes, needle: Bytes, from: nat): (r: Option<nat>)
    ensures r.Some? ==> from <= r.value && At(b, r.value, needle) && forall j :: from <= j < r.value ==> !At(b, j, needle)
    ensures r.None? ==> forall j :: from <= j ==> !At(b, j, needle)
    decreases |b| - from
  {
    if from + |needle| > |b| then None
    else if b[from..from + |needle|] == needle then Some(from)
    else if from == |b| then None
    else FindFrom(b, needle, from + 1)
  }

  datatype Found = Found(event: Bytes, drainTo: nat)

  function NextEvent(b: Bytes): Option<Found> {
    match (FindFrom(b, LF_LF, 0), FindFrom(b, CRLF_CRLF, 0))
    case (Some(i), Some(j)) => if i <= j then Some(Found(b[..i], i + 2)) else Some(Found(b[..j], j + 4))
    case (Some(i), None) => Some(Found(b[..i], i + 2))
    case (None, Some(j)) => Some(Found(b[..j], j + 4))
    case (None, None) => None
  }

  /** An event ends at `e`. */
  predicate EndsAt(b: Bytes, e: int) {
    At(b, e - 2, LF_LF) || At(b, e - 4, CRLF_CRLF)
  }

  /** Blank lines of either kind do not overlap so that one starts first and the other ends first. */
  lemma FirstStartIsFirstEnd(b: Bytes, i: nat, j: nat)
    requires At(b, i, LF_LF) && At(b, j, CRLF_CRLF)
    ensures i < j ==> i + 2 < j + 4
    ensures j < i ==> j + 4 <= i + 1
    ensures i != j
  {
    assert b[i] == b[i..i + 2][0] && b[i + 1] == b[i..i + 2][1];
    var blank := b[j..j + 4];
    assert b[j] == blank[0] && b[j + 1] == blank[1] && b[j + 2] == blank[2] && b[j + 3] == blank[3];
  }

  lemma NoneBefore(b: Bytes, needle: Bytes)
    ensures forall j :: j < 0 ==> !At(b, j, needle)
  {
  }

  lemma BlankAt(b: Bytes, i: nat, needle: Bytes)
    requires At(b, i, needle)
    ensures i + |needle| <= |b| && b[..i + |needle|] == b[..i] + needle
  {
  }

  /** The code looks for the earliest start; that is the earliest end, so no byte after it matters. */
  lemma NextEventIsFirstEnd(b: Bytes)
    ensures match NextEvent(b)
            case None => forall e :: !EndsAt(b, e)
            case Some(Found(event, e)) =>
              && 2 <= e <= |b| && EndsAt(b, e) && (forall d :: d < e ==> !EndsAt(b, d))
              && (b[..e] == event + LF_LF || b[..e] == event + CRLF_CRLF)
  {
    hide At, FindFrom;
    var lf, crlf := FindFrom(b, LF_LF, 0), FindFrom(b, CRLF_CRLF, 0);
    assert |LF_LF| == 2 && |CRLF_CRLF| == 4;
    if lf.Some? && crlf.Some? {
      FirstStartIsFirstEnd(b, lf.value, crlf.value);
    }
    NoneBefore(b, LF_LF);
    NoneBefore(b, CRLF_CRLF);
    if lf.Some? {
      BlankAt(b, lf.value, LF_LF);
      assert EndsAt(b, lf.value + 2);
    }
    if crlf.Some? {
      BlankAt(b, crlf.value, CRLF_CRLF);
      assert EndsAt(b, crlf.value + 4);
    }
  }

  lemma EndsAtExtended(a: Bytes, b: Bytes, e: int)
    requires e <= |a|
    ensures EndsAt(a + b, e) <==> EndsAt(a, e)
  {
    if 2 <= e {
      assert (a + b)[e - 2..e] == a[e - 2..e];
    }
    if 4 <= e {
      assert (a + b)[e - 4..e] == a[e - 4..e];
    }
  }

  lemma FirstEndDecides(b: Bytes, c: Bytes, e: nat)
    requires NextEvent(b).Some? && NextEvent(b).value.drainTo == e
    requires NextEvent(c).Some? && NextEvent(c).value.drainTo == e
    requires e <= |b| && e <= |c| && b[..e] == c[..e]
    ensures NextEvent(b) == NextEvent(c)
  {
    NextEventIsFirstEnd(b);
    NextEventIsFirstEnd(c);
    var x, y := NextEvent(b).value.event, NextEvent(c).value.event;
    assert forall z: Bytes :: (z + LF_LF)[|z + LF_LF| - 2] == LF && (z + CRLF_CRLF)[|z + CRLF_CRLF| - 2] == CR;
    assert b[..e][e - 2] == c[..e][e - 2];
    if b[..e] == x + LF_LF {
      assert x == b[..e][..e - 2] && y == c[..e][..e - 2];
    } else {
      assert x == b[..e][..e - 4] && y == c[..e][..e - 4];
    }
  }

  /** An event found in what has arrived is the one found in whatever arrives in the end. */
  lemma NextEventOfMore(a: Bytes, b: Bytes)
    requires NextEvent(a).Some?
    ensures NextEvent(a + b) == NextEvent(a)
    ensures NextEvent(a).value.drainTo <= |a|
  {
    hide NextEvent, EndsAt;
    NextEventIsFirstEnd(a);
    NextEventIsFirstEnd(a + b);
    var e := NextEvent(a).value.drainTo;
    EndsAtExtended(a, b, e);
    var f := NextEvent(a + b).value.drainTo;
    EndsAtExtended(a, b, f);
    assert (a + b)[..e] == a[..e];
    FirstEndDecides(a, a + b, e);
  }

  // ----- reading a response -----

  /** What became of one event: go on, stop because the reply is done, or fail. */
  datatype Verdict = More | Done | Failed

  /** Decoding an event and handling its data; the handler may depend on every event before. */
  type Handler = seq<Bytes> -> Verdict

  datatype Reading = Reading(buffer: Bytes, events: seq<Bytes>, verdict: Verdict)

  /** Takes events off the buffer until none is whole. */
  function Drain(buffer: Bytes, events: seq<Bytes>, h: Handler): Reading
    decreases |buffer|
  {
    NextEventIsFirstEnd(buffer);
    match NextEvent(buffer)
    case None => Reading(buffer, events, More)
    case Some(Found(event, drainTo)) =>
      match h(events + [event])
      case Failed => Reading(buffer, events + [event], Failed)
      case Done => Reading(buffer[drainTo..], events + [event], Done)
      case More => Drain(buffer[drainTo..], events + [event], h)
  }

  predicate AsciiSpace(b: Byte) {
    b == 32 || b == 9 || b == LF || b == 12 || b == CR
  }

  /** The end of the response: what is left in the buffer is an event too, unless it is blank. */
  function AtEnd(r: Reading, h: Handler): (seq<Bytes>, bool) {
    if r.verdict != More then (r.events, r.verdict == Done)
    else if forall b <- r.buffer :: AsciiSpace(b) then (r.events, true)
    else (r.events + [r.buffer], h(r.events + [r.buffer]) != Failed)
  }

  function Concat(chunks: seq<Bytes>): Bytes {
    if chunks == [] then [] else Concat(chunks[..|chunks| - 1]) + chunks[|chunks| - 1]
  }

  /** Draining what came first and then the rest is draining it all at once. */
  lemma {:induction false} DrainInTwo(a: Bytes, b: Bytes, events: seq<Bytes>, h: Handler)
    ensures var r := Drain(a, events, h);
            if r.verdict == More then Drain(a + b, events, h) == Drain(r.buffer + b, r.events, h)
            else Drain(a + b, events, h).verdict == r.verdict && Drain(a + b, events, h).events == r.events
    decreases |a|
  {
    hide NextEvent;
    if NextEvent(a).Some? {
      NextEventOfMore(a, b);
      NextEventIsFirstEnd(a);
      var Found(event, e) := NextEvent(a).value;
      assert (a + b)[e..] == a[e..] + b;
      if h(events + [event]) == More {
        DrainInTwo(a[e..], b, events + [event], h);
      }
    }
  }

  lemma ConcatThen(a: seq<Bytes>, c: Bytes)
    ensures Concat([]) == [] && Concat(a + [c]) == Concat(a) + c
  {
    assert (a + [c])[..|a|] == a;
  }

  lemma Regroup<T>(a: seq<T>, b: seq<T>, c: seq<T>)
    ensures a + (b + c) == (a + b) + c && a + [] == a
  {
  }

  lemma LastOf<T>(s: seq<T>)
    requires s != []
    ensures s == s[..|s| - 1] + [s[|s| - 1]]
  {
  }

  lemma ConcatSplit(a: seq<Bytes>, b: seq<Bytes>)
    ensures Concat(a + b) == Concat(a) + Concat(b)
    decreases |b|
  {
    hide *;
    ConcatThen(a, []);
    Regroup(a, [], []);
    Regroup(Concat(a), [], []);
    if b != [] {
      var front, last := b[..|b| - 1], b[|b| - 1];
      LastOf(b);
      Regroup(a, front, [last]);
      ConcatSplit(a, front);
      ConcatThen(a + front, last);
      ConcatThen(front, last);
      Regroup(Concat(a), Concat(front), last);
    }
  }

  /** Once reading has stopped within the first chunks, later ones change nothing. */
  lemma WholeAfter(chunks: seq<Bytes>, i: nat, h: Handler)
    requires i < |chunks| && Drain(Concat(chunks[..i + 1]), [], h).verdict != More
    ensures var r := Drain(Concat(chunks[..i + 1]), [], h);
            AtEnd(Drain(Concat(chunks), [], h), h) == AtEnd(r, h)
  {
    hide Drain;
    assert chunks == chunks[..i + 1] + chunks[i + 1..];
    ConcatSplit(chunks[..i + 1], chunks[i + 1..]);
    DrainInTwo(Concat(chunks[..i + 1]), Concat(chunks[i + 1..]), [], h);
  }

  // ----- what framing means -----

  datatype Frame = Frame(event: Bytes, delimiter: Bytes)

  function Flatten(frames: seq<Frame>): Bytes {
    if frames == [] then [] else frames[0].event + frames[0].delimiter + Flatten(frames[1..])
  }

  /** A frame ends with a blank line, and no earlier part of it does. */
  ghost predicate FrameOk(f: Frame) {
    && (f.delimiter == LF_LF || f.delimiter == CRLF_CRLF)
    && forall e :: e < |f.event + f.delimiter| ==> !EndsAt(f.event + f.delimiter, e)
  }

  ghost predicate FramingOf(b: Bytes, frames: seq<Frame>, rest: Bytes) {
    Flatten(frames) + rest == b && (forall f <- frames :: FrameOk(f)) && forall e :: !EndsAt(rest, e)
  }

  function EventsOf(frames: seq<Frame>): (events: seq<Bytes>)
    ensures |events| == |frames| && forall i :: 0 <= i < |frames| ==> events[i] == frames[i].event
  {
    seq(|frames|, i requires 0 <= i < |frames| => frames[i].event)
  }

  /** The history of events up to and with the first `k` of the frames. */
  function Upto(events: seq<Bytes>, frames: seq<Frame>, k: nat): seq<Bytes>
    requires k <= |frames|
  {
    events + EventsOf(frames[..k])
  }

  /** Draining delivers the events of any cutting of the bytes into frames that are as short as can be, from
      the first on, and stops with the first that the handler does not ask to go on from.  If there is none
      it has delivered all of them and keeps exactly the rest: no byte is lost, repeated or moved. */
  lemma {:induction false} DrainIsFraming(b: Bytes, frames: seq<Frame>, rest: Bytes, events: seq<Bytes>, h: Handler)
    requires FramingOf(b, frames, rest)
    ensures var r := Drain(b, events, h);
            if forall k :: 0 < k <= |frames| ==> h(Upto(events, frames, k)) == More
            then r == Reading(rest, Upto(events, frames, |frames|), More)
            else exists k :: 0 < k <= |frames| && Stops(events, frames, h, k) && r.events == Upto(events, frames, k)
                             && r.verdict == h(r.events)
    decreases |frames|
  {
    hide NextEvent, EndsAt;
    NextEventIsFirstEnd(b);
    assert frames[..|frames|] == frames;
    if frames == [] {
      assert b == rest;
      assert events + EventsOf([]) == events;
    } else {
      var f := frames[0];
      var first := f.event + f.delimiter;
      var tail := Flatten(frames[1..]) + rest;
      assert b == first + tail;
      FrameIsNext(f, tail);
      assert b[|first|..] == tail;
      UptoFirst(events, frames);
      if h(events + [f.event]) == More {
        DrainIsFraming(tail, frames[1..], rest, events + [f.event], h);
        hide Drain, FramingOf, Flatten, Upto;
        LaterStops(events, frames, h);
      } else {
        assert Stops(events, frames, h, 1);
      }
    }
  }

  /** The handler goes on from the first frames before `k`, and not from the one at `k`. */
  ghost predicate Stops(events: seq<Bytes>, frames: seq<Frame>, h: Handler, k: nat)
    requires 0 < k <= |frames|
  {
    h(Upto(events, frames, k)) != More && forall j :: 0 < j < k ==> h(Upto(events, frames, j)) == More
  }

  lemma UptoFirst(events: seq<Bytes>, frames: seq<Frame>)
    requires frames != []
    ensures Upto(events, frames, 1) == events + [frames[0].event]
    ensures forall k :: 1 <= k <= |frames| ==>
              Upto(events, frames, k) == Upto(events + [frames[0].event], frames[1..], k - 1)
  {
    forall k | 1 <= k <= |frames|
      ensures Upto(events, frames, k) == Upto(events + [frames[0].event], frames[1..], k - 1)
    {
      assert frames[..k] == [frames[0]] + frames[1..][..k - 1];
      assert EventsOf(frames[..k]) == [frames[0].event] + EventsOf(frames[1..][..k - 1]);
    }
  }

  /** Past the first frame, stopping is stopping among the others. */
  lemma LaterStops(events: seq<Bytes>, frames: seq<Frame>, h: Handler)
    requires frames != [] && h(Upto(events, frames, 1)) == More
    ensures var later := events + [frames[0].event];
            && ((forall k :: 0 < k <= |frames| ==> h(Upto(events, frames, k)) == More) <==>
                forall k :: 0 < k <= |frames[1..]| ==> h(Upto(later, frames[1..], k)) == More)
            && forall k :: 0 < k <= |frames[1..]| && Stops(later, frames[1..], h, k) ==>
                 Stops(events, frames, h, k + 1) && Upto(later, frames[1..], k) == Upto(events, frames, k + 1)
  {
    hide Upto;
    UptoFirst(events, frames);
    var later, others := events + [frames[0].event], frames[1..];
    assert forall k :: 0 < k <= |others| ==> Upto(later, others, k) == Upto(events, frames, k + 1);
  }

  lemma FrameIsNext(f: Frame, tail: Bytes)
    requires FrameOk(f)
    ensures NextEvent(f.event + f.delimiter + tail) == Some(Found(f.event, |f.event + f.delimiter|))
  {
    hide NextEvent, EndsAt;
    var first := f.event + f.delimiter;
    FrameEnds(f);
    NextEventIsFirstEnd(first);
    var Found(event, e) := NextEvent(first).value;
    assert first[..e] == first;
    assert |event| == |f.event| by {
      assert first[|first| - 2] == f.delimiter[|f.delimiter| - 2];
      assert forall z: Bytes :: (z + LF_LF)[|z + LF_LF| - 2] == LF && (z + CRLF_CRLF)[|z + CRLF_CRLF| - 2] == CR;
    }
    assert event == first[..|event|] == f.event;
    NextEventOfMore(first, tail);
  }

  lemma FrameEnds(f: Frame)
    requires f.delimiter == LF_LF || f.delimiter == CRLF_CRLF
    ensures EndsAt(f.event + f.delimiter, |f.event + f.delimiter|)
  {
    var first := f.event + f.delimiter;
    assert first[|f.event|..|f.event| + |f.delimiter|] == f.delimiter;
  }

  /** Every byte string can be cut in that way. */
  lemma {:induction false} FramingExists(b: Bytes) returns (frames: seq<Frame>, rest: Bytes)
    ensures FramingOf(b, frames, rest)
    decreases |b|
  {
    hide NextEvent, EndsAt;
    NextEventIsFirstEnd(b);
    if NextEvent(b).None? {
      frames, rest := [], b;
    } else {
      var Found(event, e) := NextEvent(b).value;
      var f := Frame(event, if b[..e] == event + LF_LF then LF_LF else CRLF_CRLF);
      forall d | d < e ensures !EndsAt(b[..e], d) {
        EndsAtExtended(b[..e], b[e..], d);
        assert b[..e] + b[e..] == b;
      }
      var later;
      later, rest := FramingExists(b[e..]);
      frames := [f] + later;
      assert Flatten(frames) == b[..e] + Flatten(later);
      assert b == b[..e] + b[e..];
    }
  }

  // ----- reading to the end -----

  /** The bytes of ASCII white space: tab, line feed, form feed, carriage return, space. */
  const WHITE: Bytes := [9, 10, 12, 13, 32]

  /** What reading a response of these frames and this rest has to deliver.  If the handler goes on from every
      event, that is all of them, and then the rest if it is not blank; the outcome is bad if the handler fails
      on it.  If not, it is the events up to the first that the handler does not go on from, and the outcome
      is bad if it fails on that one. */
  ghost predicate Delivers(frames: seq<Frame>, rest: Bytes, h: Handler, events: seq<Bytes>, ok: bool) {
    if forall k :: 0 < k <= |frames| ==> h(Upto([], frames, k)) == More then
      if exists b <- rest :: b !in WHITE then
        events == EventsOf(frames) + [rest] && (ok <==> h(events) != Failed)
      else
        events == EventsOf(frames) && ok
    else
      exists k :: 0 < k <= |frames| && Stops([], frames, h, k) && events == EventsOf(frames[..k]) && (ok <==> h(events) != Failed)
  }

  lemma AtEndDelivers(b: Bytes, frames: seq<Frame>, rest: Bytes, h: Handler)
    requires FramingOf(b, frames, rest)
    ensures var (events, ok) := AtEnd(Drain(b, [], h), h); Delivers(frames, rest, h, events, ok)
  {
    DrainIsFraming(b, frames, rest, [], h);
    hide Drain, FramingOf, EventsOf;
    assert frames[..|frames|] == frames;
    forall k | 0 < k <= |frames| ensures Upto([], frames, k) == EventsOf(frames[..k]) {
      assert [] + EventsOf(frames[..k]) == EventsOf(frames[..k]);
    }
    assert [] + EventsOf(frames) == EventsOf(frames);
  }

  /** The events handed over, and the outcome, are those of the whole response in one piece: they do not
      depend on how it was split into chunks.  They are the events of the cutting into frames, and what is
      left at the end. */
  method ReadEvents(chunks: seq<Bytes>, h: Handler) returns (events: seq<Bytes>, ok: bool)
    ensures (events, ok) == AtEnd(Drain(Concat(chunks), [], h), h)
    ensures forall frames, rest :: FramingOf(Concat(chunks), frames, rest) ==> Delivers(frames, rest, h, events, ok)
  {
    hide NextEvent, FramingOf, Delivers;
    forall frames, rest | FramingOf(Concat(chunks), frames, rest)
      ensures var (all, fine) := AtEnd(Drain(Concat(chunks), [], h), h); Delivers(frames, rest, h, all, fine)
    {
      AtEndDelivers(Concat(chunks), frames, rest, h);
    }
    var buffer: Bytes := [];
    events := [];
    assert Concat(chunks[..0]) == [];
    NextEventIsFirstEnd([]);
    for i := 0 to |chunks|
      invariant Drain(Concat(chunks[..i]), [], h) == Reading(buffer, events, More)
    {
      var before := Concat(chunks[..i]);
      DrainInTwo(before, chunks[i], [], h);
      assert chunks[..i + 1][..i] == chunks[..i];
      assert Concat(chunks[..i + 1]) == before + chunks[i];
      buffer := buffer + chunks[i];
      ghost var now := Drain(before + chunks[i], [], h);
      var next := NextEvent(buffer);
      while next.Some?
        invariant next == NextEvent(buffer)
        invariant Drain(buffer, events, h) == now
        decreases |buffer|
      {
        NextEventIsFirstEnd(buffer);
        var verdict := h(events + [next.value.event]);
        events := events + [next.value.event];
        if verdict == Failed {
          WholeAfter(chunks, i, h);
          return events, false;
        }
        buffer := buffer[next.value.drainTo..];
        if verdict == Done {
          WholeAfter(chunks, i, h);
          return events, true;
        }
        next := NextEvent(buffer);
      }
    }
    assert chunks[..|chunks|] == chunks;
    if exists b <- buffer :: !AsciiSpace(b) {
      events := events + [buffer];
      return events, h(events) != Failed;
    }
    return events, true;
  }
}
