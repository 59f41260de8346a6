/** The journal reader and writer are inverse to each other, also across a cut at any byte. */
module JournalTheorems {
  import opened Common
  import opened Replay
  import opened Journal

  lemma AcceptedEventsInRange(plan: Digest, n: int, events: seq<Event>)
    requires Replayed(plan, n, events).Some?
    ensures AllInRange(events)
  {
    if events != [] {
      var front := events[..|events| - 1];
      AcceptedEventsInRange(plan, n, front);
      forall k | 0 <= k < |events| ensures InRange(events[k]) {
        assert k < |front| ==> front[k] == events[k];
      }
    }
  }

  lemma {:induction false} EncodedFrame(hash: Hasher, events: seq<Event>, k: nat)
    requires AllInRange(events) && k < |events|
    ensures Chunk(Encoded(hash, events), k) == FrameBytes(hash, k + 1, events[k], Head(hash, events[..k]))
    decreases |events|
  {
    hide FrameBytes, IsFrame;
    var front := events[..|events| - 1];
    var raw, prior := Encoded(hash, events), Encoded(hash, front);
    if k < |front| {
      EncodedFrame(hash, front, k);
      assert Chunk(raw, k) == Chunk(prior, k) && front[..k] == events[..k];
    } else {
      assert InRange(events[k]);
      assert Chunk(raw, k) == raw[|prior|..];
    }
  }

  lemma {:induction false} EncodedPrefix(hash: Hasher, events: seq<Event>, k: nat)
    requires AllInRange(events) && k <= |events|
    ensures Encoded(hash, events[..k]) <= Encoded(hash, events)
    decreases |events|
  {
    hide FrameBytes, Head;
    if k == |events| {
      assert events[..k] == events;
    } else {
      var front := events[..|events| - 1];
      assert front[..k] == events[..k];
      EncodedPrefix(hash, front, k);
    }
  }

  /** Reading the frames of `events`, whatever follows them, replays `events`. */
  lemma {:induction false} ReadEncodedFrames(hash: Hasher, plan: Digest, n: int, events: seq<Event>, raw: Bytes, k: nat)
    requires Replayed(plan, n, events).Some? && AllInRange(events) && k <= |events| <= MAX_COUNTER
    requires Encoded(hash, events) <= raw && FRAME * k <= |raw|
    requires Replayed(plan, n, events[..k]).Some?
    ensures ReadFrames(hash, plan, raw, n, k)
            == Some(Position(Replayed(plan, n, events[..k]).value, Head(hash, events[..k])))
    decreases k
  {
    hide FrameBytes, Accept, Step, Encoded;
    if k > 0 {
      RunPrefix(plan, Initial(n), events, k - 1);
      assert events[..k][..k - 1] == events[..k - 1];
      ReadEncodedFrames(hash, plan, n, events, raw, k - 1);
      EncodedFrame(hash, events, k - 1);
      assert Chunk(raw, k - 1) == Chunk(Encoded(hash, events), k - 1);
      assert InRange(events[k - 1]);
      AcceptIffFrame(hash, Chunk(raw, k - 1), k - 1, Head(hash, events[..k - 1]), events[k - 1]);
    }
  }

  /** Round trip, with any torn tail shorter than a frame behind it. */
  lemma RoundTrip(hash: Hasher, plan: Digest, n: int, events: seq<Event>, tail: Bytes)
    requires Replayed(plan, n, events).Some? && |events| <= MAX_COUNTER && |tail| < FRAME
    ensures AllInRange(events) && AllPackable(events)
    ensures Journaled(hash, plan, Encoded(hash, events) + tail, n) == Some((Replayed(plan, n, events).value, tail))
  {
    hide FrameBytes, Accept, Step, Run, Head, Encoded, ReadFrames;
    AcceptedEventsInRange(plan, n, events);
    InRangeIsPackable(events);
    var raw := Encoded(hash, events) + tail;
    assert |raw| / FRAME == |events| && events[..|events|] == events;
    ReadEncodedFrames(hash, plan, n, events, raw, |events|);
  }

  /** A crash may cut the journal anywhere: the events of the whole frames before the cut are replayed, and
      the bytes after them are returned as they are. */
  lemma CutAnywhere(hash: Hasher, plan: Digest, n: int, events: seq<Event>, cut: nat)
    requires Replayed(plan, n, events).Some? && |events| <= MAX_COUNTER
    requires AllInRange(events) && cut <= |Encoded(hash, events)|
    ensures var whole := cut / FRAME; var raw := Encoded(hash, events);
      && Replayed(plan, n, events[..whole]).Some?
      && Journaled(hash, plan, raw[..cut], n)
         == Some((Replayed(plan, n, events[..whole]).value, raw[FRAME * whole..cut]))
  {
    hide FrameBytes, Accept, Step, Head, Run, ReadFrames, Encoded, Journaled;
    var whole, raw := cut / FRAME, Encoded(hash, events);
    RunPrefix(plan, Initial(n), events, whole);
    EncodedPrefix(hash, events, whole);
    var tail := raw[FRAME * whole..cut];
    assert raw[..cut] == Encoded(hash, events[..whole]) + tail;
    RoundTrip(hash, plan, n, events[..whole], tail);
  }

  /** The events that the first `k` frames of an accepted byte string decode to. */
  ghost function DecodedEvents(hash: Hasher, plan: Digest, raw: Bytes, n: int, k: nat): seq<Event>
    requires FRAME * k <= |raw|
  {
    if k == 0 then []
    else
      DecodedEvents(hash, plan, raw, n, k - 1) +
      match ReadFrames(hash, plan, raw, n, k - 1)
      case None => []
      case Some(at) =>
        match Accept(hash, Chunk(raw, k - 1), k - 1, at.head)
        case None => []
        case Some(e) => [e]
  }

  /** What the first frames of a byte string were read as. */
  ghost predicate ReadAs(hash: Hasher, plan: Digest, raw: Bytes, n: int, k: nat, events: seq<Event>)
    requires FRAME * k <= |raw|
  {
    && ReadFrames(hash, plan, raw, n, k).Some? && |events| == k <= MAX_COUNTER && AllInRange(events)
    && Replayed(plan, n, events) == Some(ReadFrames(hash, plan, raw, n, k).value.image)
    && Head(hash, events) == ReadFrames(hash, plan, raw, n, k).value.head
    && Encoded(hash, events) == raw[..FRAME * k]
  }

  /** The frame of one more event is encoded and replayed after the others. */
  lemma OneMoreEvent(hash: Hasher, plan: Digest, n: int, front: seq<Event>, e: Event)
    requires AllInRange(front) && InRange(e)
    ensures var events, f := front + [e], FrameBytes(hash, |front| + 1, e, Head(hash, front));
      && AllInRange(events) && Encoded(hash, events) == Encoded(hash, front) + f && Head(hash, events) == hash(f)
      && Replayed(plan, n, events)
         == match Replayed(plan, n, front) case None => None case Some(s) => Step(plan, s, e)
  {
    hide FrameBytes, Step;
    var events := front + [e];
    assert events[..|front|] == front && events[|front|] == e;
  }

  /** Reading one frame more reads one event more. */
  lemma OneMoreFrame(hash: Hasher, plan: Digest, raw: Bytes, n: int, k: nat, front: seq<Event>, e: Event)
    requires FRAME * (k + 1) <= |raw| && ReadAs(hash, plan, raw, n, k, front)
    requires ReadFrames(hash, plan, raw, n, k + 1).Some?
    requires Accept(hash, Chunk(raw, k), k, ReadFrames(hash, plan, raw, n, k).value.head) == Some(e)
    ensures ReadAs(hash, plan, raw, n, k + 1, front + [e])
  {
    hide FrameBytes, Accept, Step, Encoded, Head, Run, Replayed;
    var f := Chunk(raw, k);
    AcceptedEventInRange(hash, f, k, Head(hash, front));
    AcceptIffFrame(hash, f, k, Head(hash, front), e);
    OneMoreEvent(hash, plan, n, front, e);
    assert raw[..FRAME * (k + 1)] == raw[..FRAME * k] + f;
  }

  lemma ReadFramesStep(hash: Hasher, plan: Digest, raw: Bytes, n: int, k: nat)
    requires FRAME * (k + 1) <= |raw| && ReadFrames(hash, plan, raw, n, k + 1).Some?
    ensures ReadFrames(hash, plan, raw, n, k).Some?
    ensures Accept(hash, Chunk(raw, k), k, ReadFrames(hash, plan, raw, n, k).value.head).Some?
    ensures DecodedEvents(hash, plan, raw, n, k + 1) == DecodedEvents(hash, plan, raw, n, k)
            + [Accept(hash, Chunk(raw, k), k, ReadFrames(hash, plan, raw, n, k).value.head).value]
  {
    hide Accept, Step;
  }

  lemma NothingRead(hash: Hasher, plan: Digest, raw: Bytes, n: int)
    ensures ReadAs(hash, plan, raw, n, 0, DecodedEvents(hash, plan, raw, n, 0))
  {
  }

  lemma {:induction false} AcceptedFramesAreEncoding(hash: Hasher, plan: Digest, raw: Bytes, n: int, k: nat)
    requires FRAME * k <= |raw| && ReadFrames(hash, plan, raw, n, k).Some?
    ensures ReadAs(hash, plan, raw, n, k, DecodedEvents(hash, plan, raw, n, k))
  {
    hide ReadAs, ReadFrames, DecodedEvents, Accept;
    if k == 0 {
      NothingRead(hash, plan, raw, n);
    } else {
      ReadFramesStep(hash, plan, raw, n, k - 1);
      AcceptedFramesAreEncoding(hash, plan, raw, n, k - 1);
      var e := Accept(hash, Chunk(raw, k - 1), k - 1, ReadFrames(hash, plan, raw, n, k - 1).value.head).value;
      OneMoreFrame(hash, plan, raw, n, k - 1, DecodedEvents(hash, plan, raw, n, k - 1), e);
    }
  }

  /** The byte strings the reader accepts are exactly the encodings of accepted event lists of fewer than
      2^63 events with less than one frame of anything behind them. */
  lemma AcceptedIffEncoding(hash: Hasher, plan: Digest, raw: Bytes, n: int, s: Image, tail: Bytes)
    ensures Journaled(hash, plan, raw, n) == Some((s, tail)) <==>
      |tail| < FRAME && exists events: seq<Event> ::
        && |events| <= MAX_COUNTER && Replayed(plan, n, events) == Some(s)
        && AllInRange(events) && raw == Encoded(hash, events) + tail
  {
    hide FrameBytes, Accept, Step;
    var full := |raw| / FRAME;
    if Journaled(hash, plan, raw, n) == Some((s, tail)) {
      AcceptedFramesAreEncoding(hash, plan, raw, n, full);
      var events := DecodedEvents(hash, plan, raw, n, full);
      assert raw == Encoded(hash, events) + tail;
    }
    forall events: seq<Event> |
      && |tail| < FRAME && |events| <= MAX_COUNTER && Replayed(plan, n, events) == Some(s)
      && AllInRange(events) && raw == Encoded(hash, events) + tail
      ensures Journaled(hash, plan, raw, n) == Some((s, tail))
    {
      RoundTrip(hash, plan, n, events, tail);
    }
  }

  /** Two accepted event lists of fewer than 2^63 events with the same bytes are the same list. */
  lemma {:induction false} EncodingIsInjective(hash: Hasher, a: seq<Event>, b: seq<Event>)
    requires AllInRange(a) && AllInRange(b) && |a| <= MAX_COUNTER && |b| <= MAX_COUNTER
    requires Encoded(hash, a) == Encoded(hash, b)
    ensures a == b
    decreases |a|
  {
    hide FrameBytes, Accept, Encoded, Head;
    if a != [] {
      var k := |a| - 1;
      EncodedPrefix(hash, a, k);
      EncodedPrefix(hash, b, k);
      EncodingIsInjective(hash, a[..k], b[..k]);
      assert InRange(a[k]) && InRange(b[k]);
      EncodedFrame(hash, a, k);
      EncodedFrame(hash, b, k);
      var f := Chunk(Encoded(hash, a), k);
      AcceptIffFrame(hash, f, k, Head(hash, a[..k]), a[k]);
      AcceptIffFrame(hash, f, k, Head(hash, b[..k]), b[k]);
      assert a == a[..k] + [a[k]] && b == b[..k] + [b[k]];
    }
  }

  // ----- What the hash chain binds

  function FrameAt(hash: Hasher, events: seq<Event>, k: nat): Bytes
    requires AllInRange(events) && k < |events|
  {
    FrameBytes(hash, k + 1, events[k], Head(hash, events[..k]))
  }

  /** No two different frames of these lists share a digest, and none has the digest before the first frame. */
  predicate ChainsApart(hash: Hasher, a: seq<Event>, b: seq<Event>)
    requires AllInRange(a) && AllInRange(b)
  {
    && (forall i, j :: 0 <= i < |a| && 0 <= j < |b| && hash(FrameAt(hash, a, i)) == hash(FrameAt(hash, b, j)) ==>
          FrameAt(hash, a, i) == FrameAt(hash, b, j))
    && (forall i :: 0 <= i < |a| ==> hash(FrameAt(hash, a, i)) != ZERO)
    && (forall j :: 0 <= j < |b| ==> hash(FrameAt(hash, b, j)) != ZERO)
  }

  /** A frame tells its place, its event and the digest before it. */
  lemma FrameTells(hash: Hasher, i: nat, a: Event, before: Digest, j: nat, b: Event, before': Digest)
    requires InRange(a) && InRange(b) && i < MAX_COUNTER && j < MAX_COUNTER
    requires FrameBytes(hash, i + 1, a, before) == FrameBytes(hash, j + 1, b, before')
    ensures i == j && a == b && before == before'
  {
    hide FrameBytes, Decode;
    var f := FrameBytes(hash, i + 1, a, before);
    AcceptIffFrame(hash, f, i, before, a);
    AcceptIffFrame(hash, f, j, before', b);
  }

  lemma FrontFrames(hash: Hasher, events: seq<Event>, n: nat)
    requires AllInRange(events) && n <= |events|
    ensures forall i :: 0 <= i < n ==> FrameAt(hash, events[..n], i) == FrameAt(hash, events, i)
  {
    hide FrameBytes, Head;
    forall i | 0 <= i < n ensures FrameAt(hash, events[..n], i) == FrameAt(hash, events, i) {
      assert events[..n][..i] == events[..i];
    }
  }

  lemma FrontsApart(hash: Hasher, a: seq<Event>, b: seq<Event>)
    requires AllInRange(a) && AllInRange(b) && a != [] && b != [] && ChainsApart(hash, a, b)
    ensures ChainsApart(hash, a[..|a| - 1], b[..|b| - 1])
  {
    hide FrameAt;
    FrontFrames(hash, a, |a| - 1);
    FrontFrames(hash, b, |b| - 1);
  }

  /** The digest of the last frame binds the whole list of events, its length and its order included. */
  lemma {:induction false} HeadBindsEvents(hash: Hasher, a: seq<Event>, b: seq<Event>)
    requires AllInRange(a) && AllInRange(b) && |a| <= MAX_COUNTER && |b| <= MAX_COUNTER
    requires ChainsApart(hash, a, b) && Head(hash, a) == Head(hash, b)
    ensures a == b
    decreases |a|
  {
    hide FrameBytes;
    if a != [] && b != [] {
      var i, j := |a| - 1, |b| - 1;
      assert FrameAt(hash, a, i) == FrameAt(hash, b, j);
      assert InRange(a[i]) && InRange(b[j]);
      FrameTells(hash, i, a[i], Head(hash, a[..i]), j, b[j], Head(hash, b[..j]));
      FrontsApart(hash, a, b);
      HeadBindsEvents(hash, a[..i], b[..j]);
      assert a == a[..i] + [a[i]] && b == b[..j] + [b[j]];
    } else {
      assert a != [] ==> Head(hash, a) == hash(FrameAt(hash, a, |a| - 1));
      assert b != [] ==> Head(hash, b) == hash(FrameAt(hash, b, |b| - 1));
    }
  }

  /** The digest at the end of the whole frames of a byte string, as its reader carries it. */
  function FinalHead(hash: Hasher, plan: Digest, raw: Bytes, n: int): Digest
    requires Journaled(hash, plan, raw, n).Some?
  {
    ReadFrames(hash, plan, raw, n, |raw| / FRAME).value.head
  }

  /** No two different frames of these byte strings share a digest, and none has the digest before the first frame. */
  predicate FramesApart(hash: Hasher, a: Bytes, b: Bytes) {
    && (forall i, j :: 0 <= i < |a| / FRAME && 0 <= j < |b| / FRAME && hash(Chunk(a, i)) == hash(Chunk(b, j)) ==>
          Chunk(a, i) == Chunk(b, j))
    && (forall i :: 0 <= i < |a| / FRAME ==> hash(Chunk(a, i)) != ZERO)
    && (forall j :: 0 <= j < |b| / FRAME ==> hash(Chunk(b, j)) != ZERO)
  }

  /** The events of an accepted byte string, and its frames. */
  lemma ReadFully(hash: Hasher, plan: Digest, raw: Bytes, n: int) returns (events: seq<Event>)
    requires Journaled(hash, plan, raw, n).Some?
    ensures ReadAs(hash, plan, raw, n, |raw| / FRAME, events)
    ensures forall k :: 0 <= k < |events| ==> FrameAt(hash, events, k) == Chunk(raw, k)
  {
    hide ReadFrames, ReadFrame, Head, Encoded, FrameBytes;
    events := DecodedEvents(hash, plan, raw, n, |raw| / FRAME);
    AcceptedFramesAreEncoding(hash, plan, raw, n, |raw| / FRAME);
    forall k | 0 <= k < |events| ensures FrameAt(hash, events, k) == Chunk(raw, k) {
      EncodedFrame(hash, events, k);
      assert Chunk(Encoded(hash, events), k) == Chunk(raw, k);
    }
  }

  /** Of two accepted journals, for whatever plans, that end in the same digest, neither was altered, reordered,
      shortened or extended against the other. */
  lemma HeadBindsJournal(hash: Hasher, plan: Digest, n: int, a: Bytes, plan': Digest, n': int, b: Bytes)
    requires Journaled(hash, plan, a, n).Some? && Journaled(hash, plan', b, n').Some?
    requires FramesApart(hash, a, b) && FinalHead(hash, plan, a, n) == FinalHead(hash, plan', b, n')
    ensures |a| / FRAME == |b| / FRAME && a[..FRAME * (|a| / FRAME)] == b[..FRAME * (|b| / FRAME)]
  {
    hide FrameAt, Chunk, Encoded, Head, Replayed, ReadFrames;
    var events := ReadFully(hash, plan, a, n);
    var events' := ReadFully(hash, plan', b, n');
    HeadBindsEvents(hash, events, events');
  }
}
