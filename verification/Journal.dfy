/**
 The byte form of the recovery journal: 256-byte MCLOG002 frames, each carrying the hash of the
 frame before it, and the reader that stops at a torn tail.
 */
module Journal {
  import opened Common
  import opened BigEndian
  import opened Replay

  const FRAME := 256
  const MAX_COUNTER := 0x7fff_ffff_ffff_ffff
  const MAGIC: Bytes := [77, 67, 76, 79, 71, 48, 48, 50]  // "MCLOG002"
  const ROOT_ID: Bytes := Fill(1, 16)
  const OPERATION_ID: Bytes := Fill(2, 16)
  const EPOCH := 1
  const TOKEN := 2
  const GENERATION := 3

  // ----- One frame

  /** The fields of a frame, with the bytes of each at the offset the wire layout gives it. */
  ghost predicate IsFrame(hash: Hasher, raw: Bytes, sequence: nat, e: Event, previous: Bytes,
                          epoch: nat, token: nat, generation: nat)
    requires e.kind >= 0 && e.index >= 0
  {
    && |raw| == FRAME
    && raw[..8] == MAGIC
    && raw[8..16] == Pack(sequence, 8)
    && raw[16..18] == Pack(e.kind, 2)
    && raw[18..24] == Fill(0, 6)
    && raw[24..40] == ROOT_ID
    && raw[40..56] == OPERATION_ID
    && raw[56..64] == Pack(epoch, 8)
    && raw[64..72] == Pack(token, 8)
    && raw[72..80] == Pack(e.index, 8)
    && raw[80..88] == Pack(generation, 8)
    && raw[88..120] == e.obj
    && raw[120..152] == previous
    && raw[152..224] == Fill(0, 72)
    && raw[224..] == hash(raw[..224])
  }

  /** What struct.pack_into accepts: an unsigned value that fits its field. */
  predicate Packable(sequence: int, e: Event, epoch: int, token: int, generation: int) {
    && 0 <= sequence < 0x1_0000_0000_0000_0000 && 0 <= e.kind < 0x1_0000
    && 0 <= e.index < 0x1_0000_0000_0000_0000 && 0 <= epoch < 0x1_0000_0000_0000_0000
    && 0 <= token < 0x1_0000_0000_0000_0000 && 0 <= generation < 0x1_0000_0000_0000_0000
  }

  /** The bytes of a frame before its event object. */
  function FrameStart(sequence: nat, e: Event, epoch: nat, token: nat, generation: nat): (s: Bytes)
    requires e.kind >= 0 && e.index >= 0
    ensures |s| == 88
  {
    MAGIC + Pack(sequence, 8) + Pack(e.kind, 2) + Fill(0, 6) + ROOT_ID + OPERATION_ID
    + Pack(epoch, 8) + Pack(token, 8) + Pack(e.index, 8) + Pack(generation, 8)
  }

  /** Python's b[from:to] = value on a byte array, which grows or shrinks with the value. */
  function Splice(b: Bytes, from: nat, to: nat, value: Bytes): Bytes
    requires from <= to <= |b|
  {
    b[..from] + value + b[to..]
  }

  /** A frame, assigned field after field; the digest replaces everything from byte 224 on. */
  function FrameOf(hash: Hasher, sequence: nat, e: Event, previous: Bytes,
                   epoch: nat, token: nat, generation: nat): Bytes
    requires e.kind >= 0 && e.index >= 0
  {
    var b := FrameStart(sequence, e, epoch, token, generation) + Fill(0, 168);
    var linked := Splice(Splice(b, 88, 120, e.obj), 120, 152, previous);
    var body := linked[..Min(224, |linked|)];
    body + hash(body)
  }

  lemma FrameBody(sequence: nat, e: Event, previous: Bytes, epoch: nat, token: nat, generation: nat)
    requires e.kind >= 0 && e.index >= 0 && |e.obj| == 32 && |previous| == 32
    ensures var start := FrameStart(sequence, e, epoch, token, generation);
      var linked := Splice(Splice(start + Fill(0, 168), 88, 120, e.obj), 120, 152, previous);
      |linked| == FRAME && linked[..224] == start + e.obj + previous + Fill(0, 72)
  {
    hide FrameStart;
    var start := FrameStart(sequence, e, epoch, token, generation);
    var b := start + Fill(0, 168);
    assert Splice(b, 88, 120, e.obj) == start + e.obj + Fill(0, 136);
    assert Splice(start + e.obj + Fill(0, 136), 120, 152, previous) == start + e.obj + previous + Fill(0, 104);
  }

  /** Assigns the next field of a buffer whose rest is still zero. */
  method Put(b: array<Byte>, offset: nat, value: Bytes, ghost done: Bytes)
    requires offset + |value| <= b.Length && |done| == offset
    requires b[..] == done + Fill(0, b.Length - offset)
    modifies b
    ensures b[..] == done + value + Fill(0, b.Length - offset - |value|)
  {
    forall i | 0 <= i < |value| {
      b[offset + i] := value[i];
    }
  }

  /** Fills a 256-byte buffer in place, then links and seals it; None is struct's range error. */
  method Frame(hash: Hasher, sequence: int, e: Event, previous: Bytes, epoch: int, token: int, generation: int)
    returns (r: Option<Bytes>)
    ensures r == if Packable(sequence, e, epoch, token, generation)
                 then Some(FrameOf(hash, sequence, e, previous, epoch, token, generation)) else None
  {
    hide Pack;
    if sequence < 0 || sequence > 0xffff_ffff_ffff_ffff || e.kind < 0 || e.kind > 65535
       || e.index < 0 || e.index > 0xffff_ffff_ffff_ffff || epoch < 0 || epoch > 0xffff_ffff_ffff_ffff
       || token < 0 || token > 0xffff_ffff_ffff_ffff || generation < 0 || generation > 0xffff_ffff_ffff_ffff {
      return None;
    }
    var b := new Byte[FRAME](_ => 0);
    ghost var done := [];
    assert b[..] == done + Fill(0, FRAME);
    Put(b, 0, MAGIC, done);
    done := done + MAGIC;
    Put(b, 8, Pack(sequence, 8), done);
    done := done + Pack(sequence, 8);
    Put(b, 16, Pack(e.kind, 2), done);
    done := done + Pack(e.kind, 2);
    Put(b, 18, Fill(0, 1), done);
    done := done + Fill(0, 6);
    assert b[..] == done + Fill(0, 232);
    Put(b, 24, ROOT_ID, done);
    done := done + ROOT_ID;
    Put(b, 40, OPERATION_ID, done);
    done := done + OPERATION_ID;
    Put(b, 56, Pack(epoch, 8), done);
    done := done + Pack(epoch, 8);
    Put(b, 64, Pack(token, 8), done);
    done := done + Pack(token, 8);
    Put(b, 72, Pack(e.index, 8), done);
    done := done + Pack(e.index, 8);
    Put(b, 80, Pack(generation, 8), done);
    done := done + Pack(generation, 8);
    assert [] + MAGIC == MAGIC;
    assert b[..] == FrameStart(sequence, e, epoch, token, generation) + Fill(0, 168);
    var raw := b[..];
    raw := Splice(raw, 88, 120, e.obj);
    raw := Splice(raw, 120, 152, previous);
    var body := raw[..Min(224, |raw|)];
    return Some(body + hash(body));
  }

  lemma FrameOfIsFrame(hash: Hasher, sequence: nat, e: Event, previous: Bytes,
                       epoch: nat, token: nat, generation: nat)
    requires e.kind >= 0 && e.index >= 0 && |e.obj| == 32 && |previous| == 32
    ensures IsFrame(hash, FrameOf(hash, sequence, e, previous, epoch, token, generation),
                    sequence, e, previous, epoch, token, generation)
  {
    hide Pack;
    FrameBody(sequence, e, previous, epoch, token, generation);
    var raw := FrameOf(hash, sequence, e, previous, epoch, token, generation);
    hide Splice;
    var body := raw[..224];
    assert body == FrameStart(sequence, e, epoch, token, generation) + e.obj + previous + Fill(0, 72);
    assert raw[224..] == hash(body);
    assert raw[..8] == MAGIC;
    assert raw[8..16] == Pack(sequence, 8);
    assert raw[16..18] == Pack(e.kind, 2);
    assert raw[18..24] == Fill(0, 6);
    assert raw[24..40] == ROOT_ID;
    assert raw[40..56] == OPERATION_ID;
    assert raw[56..64] == Pack(epoch, 8);
    assert raw[64..72] == Pack(token, 8);
    assert raw[72..80] == Pack(e.index, 8);
    assert raw[80..88] == Pack(generation, 8);
    assert raw[88..120] == e.obj;
    assert raw[120..152] == previous;
    assert raw[152..224] == Fill(0, 72);
  }

  /** The frame with the default epoch, token and generation. */
  function FrameBytes(hash: Hasher, sequence: nat, e: Event, previous: Digest): (f: Bytes)
    requires e.kind >= 0 && e.index >= 0
    ensures |e.obj| == 32 ==> |f| == FRAME
  {
    FrameOf(hash, sequence, e, previous, EPOCH, TOKEN, GENERATION)
  }

  /** A frame has one byte form. */
  lemma FrameUnique(hash: Hasher, a: Bytes, b: Bytes, sequence: nat, e: Event, previous: Bytes,
                    epoch: nat, token: nat, generation: nat)
    requires e.kind >= 0 && e.index >= 0
    requires IsFrame(hash, a, sequence, e, previous, epoch, token, generation)
    requires IsFrame(hash, b, sequence, e, previous, epoch, token, generation)
    ensures a == b
  {
    Split(a);
    Split(b);
    assert a[..224] == b[..224];
    assert a == a[..224] + a[224..] && b == b[..224] + b[224..];
  }

  lemma Split(a: Bytes)
    requires |a| == FRAME
    ensures a[..224] == a[..8] + a[8..16] + a[16..18] + a[18..24] + a[24..40] + a[40..56] + a[56..64] + a[64..72]
                        + a[72..80] + a[80..88] + a[88..120] + a[120..152] + a[152..224]
  {
  }

  /** Every frame opens with "MCLOG002" and names the same root, operation, epoch, token and generation. */
  lemma FrameIsOurs(hash: Hasher, sequence: nat, e: Event, previous: Digest)
    requires e.kind >= 0 && e.index >= 0 && |e.obj| == 32
    ensures var f := FrameBytes(hash, sequence, e, previous);
      && |f| == 256 && f[..8] == [0x4d, 0x43, 0x4c, 0x4f, 0x47, 0x30, 0x30, 0x32]
      && (forall i :: 24 <= i < 40 ==> f[i] == 1) && (forall i :: 40 <= i < 56 ==> f[i] == 2)
      && f[56..64] == Fill(0, 7) + [1] && f[64..72] == Fill(0, 7) + [2] && f[80..88] == Fill(0, 7) + [3]
  {
    FrameOfIsFrame(hash, sequence, e, previous, EPOCH, TOKEN, GENERATION);
    hide FrameBytes, Pack;
    PackSmall(EPOCH, 8);
    PackSmall(TOKEN, 8);
    PackSmall(GENERATION, 8);
    var f := FrameBytes(hash, sequence, e, previous);
    assert forall i :: 24 <= i < 40 ==> f[i] == f[24..40][i - 24];
    assert forall i :: 40 <= i < 56 ==> f[i] == f[40..56][i - 40];
  }

  // ----- Reading one frame

  datatype Decoded = Decoded(sequence: nat, epoch: nat, token: nat, index: nat, generation: nat,
                             event: Event, previous: Bytes)

  function Decode(hash: Hasher, raw: Bytes): Option<Decoded> {
    if |raw| != FRAME || raw[..8] != MAGIC || raw[224..] != hash(raw[..224]) then None
    else if raw[19..24] != Fill(0, 5) || raw[152..224] != Fill(0, 72) || raw[18] != 0 then None
    else
      var d := Decoded(Unpack(raw[8..16]), Unpack(raw[56..64]), Unpack(raw[64..72]), Unpack(raw[72..80]),
                       Unpack(raw[80..88]), Event(Unpack(raw[16..18]), Unpack(raw[72..80]), raw[88..120]),
                       raw[120..152]);
      if d.sequence > MAX_COUNTER || d.epoch > MAX_COUNTER || d.token > MAX_COUNTER || d.index > MAX_COUNTER
         || d.generation > MAX_COUNTER || d.sequence == 0 then None
      else if raw[24..40] == Fill(0, 16) || raw[40..56] == Fill(0, 16) then None
      else Some(d)
  }

  /** What `journal` demands of frame `k` beyond `decode`: its place in the chain and the plan's identities. */
  function Accept(hash: Hasher, f: Bytes, k: nat, head: Bytes): Option<Event> {
    match Decode(hash, f)
    case None => None
    case Some(d) =>
      if d.sequence != k + 1 || d.previous != head || d.epoch != EPOCH || d.token != TOKEN
         || d.generation != GENERATION then None
      else if f[24..40] != ROOT_ID || f[40..56] != OPERATION_ID then None
      else Some(d.event)
  }

  lemma AcceptedIsFrame(hash: Hasher, f: Bytes, k: nat, head: Bytes)
    requires Accept(hash, f, k, head).Some?
    ensures k < MAX_COUNTER
    ensures IsFrame(hash, f, k + 1, Accept(hash, f, k, head).value, head, EPOCH, TOKEN, GENERATION)
  {
    PackUnpack(f[8..16]);
    PackUnpack(f[16..18]);
    PackUnpack(f[56..64]);
    PackUnpack(f[64..72]);
    PackUnpack(f[72..80]);
    PackUnpack(f[80..88]);
    assert f[18..24] == [f[18]] + f[19..24];
  }

  /** Any frame decodes to what was put in, as long as its sequence is positive and all numbers are below 2^63. */
  lemma DecodeFrame(hash: Hasher, f: Bytes, sequence: nat, e: Event, previous: Bytes,
                    epoch: nat, token: nat, generation: nat)
    requires Packable(sequence, e, epoch, token, generation)
    requires IsFrame(hash, f, sequence, e, previous, epoch, token, generation)
    ensures Decode(hash, f) ==
            if && 0 < sequence < 0x8000_0000_0000_0000 && epoch < 0x8000_0000_0000_0000
               && token < 0x8000_0000_0000_0000 && e.index < 0x8000_0000_0000_0000
               && generation < 0x8000_0000_0000_0000
            then Some(Decoded(sequence, epoch, token, e.index, generation, e, previous)) else None
  {
    assert 0x1_0000 == Capacity(2) && 0x1_0000_0000_0000_0000 == Capacity(8) by { Capacities(); }
    UnpackPack(sequence, 8);
    UnpackPack(e.kind, 2);
    UnpackPack(epoch, 8);
    UnpackPack(token, 8);
    UnpackPack(e.index, 8);
    UnpackPack(generation, 8);
    hide Pack, Unpack, Capacity;
    assert f[18..24][0] == f[18] && f[18..24][1..] == f[19..24] && Fill(0, 6)[1..] == Fill(0, 5);
    assert f[24..40] != Fill(0, 16) && f[40..56] != Fill(0, 16) by {
      assert ROOT_ID[0] != Fill(0, 16)[0] && OPERATION_ID[0] != Fill(0, 16)[0];
    }
    assert e == Event(e.kind, e.index, f[88..120]);
  }

  /** A frame that names no root, or no operation, never decodes, whatever its digest. */
  lemma BlankIsRefused(hash: Hasher, f: Bytes)
    requires |f| == FRAME
    requires (forall i :: 24 <= i < 40 ==> f[i] == 0) || (forall i :: 40 <= i < 56 ==> f[i] == 0)
    ensures Decode(hash, f).None?
  {
    assert f[24..40] == Fill(0, 16) || f[40..56] == Fill(0, 16);
  }

  lemma FrameIsAccepted(hash: Hasher, f: Bytes, k: nat, head: Bytes, e: Event)
    requires 0 <= e.kind < 0x1_0000 && 0 <= e.index <= MAX_COUNTER && k < MAX_COUNTER
    requires IsFrame(hash, f, k + 1, e, head, EPOCH, TOKEN, GENERATION)
    ensures Accept(hash, f, k, head) == Some(e)
  {
    hide Decode;
    DecodeFrame(hash, f, k + 1, e, head, EPOCH, TOKEN, GENERATION);
  }

  /** A frame is accepted at place `k` exactly when it is, byte for byte, the frame of its event there. */
  lemma AcceptIffFrame(hash: Hasher, f: Bytes, k: nat, head: Digest, e: Event)
    requires 0 <= e.kind < 0x1_0000 && 0 <= e.index <= MAX_COUNTER && |e.obj| == 32
    ensures Accept(hash, f, k, head) == Some(e) <==> k < MAX_COUNTER && f == FrameBytes(hash, k + 1, e, head)
  {
    FrameOfIsFrame(hash, k + 1, e, head, EPOCH, TOKEN, GENERATION);
    if Accept(hash, f, k, head) == Some(e) {
      AcceptedIsFrame(hash, f, k, head);
      FrameUnique(hash, f, FrameBytes(hash, k + 1, e, head), k + 1, e, head, EPOCH, TOKEN, GENERATION);
    }
    if k < MAX_COUNTER && f == FrameBytes(hash, k + 1, e, head) {
      FrameIsAccepted(hash, f, k, head, e);
    }
  }

  lemma AcceptedEventInRange(hash: Hasher, f: Bytes, k: nat, head: Bytes)
    requires Accept(hash, f, k, head).Some?
    ensures var e := Accept(hash, f, k, head).value;
      0 <= e.kind < 0x1_0000 && 0 <= e.index <= MAX_COUNTER && |e.obj| == 32
  {
    Capacities();
    PackUnpack(f[16..18]);
  }

  // ----- Whole journals

  function Chunk(raw: Bytes, k: nat): Bytes
    requires FRAME * (k + 1) <= |raw|
  {
    raw[FRAME * k..FRAME * (k + 1)]
  }

  datatype Position = Position(image: Image, head: Digest)

  /** Where reading stands after the first `k` whole frames; None when one of them was rejected. */
  function ReadFrames(hash: Hasher, plan: Digest, raw: Bytes, n: int, k: nat): Option<Position>
    requires FRAME * k <= |raw|
  {
    if k == 0 then Some(Position(Initial(n), ZERO))
    else match ReadFrames(hash, plan, raw, n, k - 1)
      case None => None
      case Some(at) => ReadFrame(hash, plan, Chunk(raw, k - 1), k - 1, at)
  }

  function ReadFrame(hash: Hasher, plan: Digest, f: Bytes, k: nat, at: Position): Option<Position> {
    match Accept(hash, f, k, at.head)
    case None => None
    case Some(e) =>
      match Step(plan, at.image, e)
      case None => None
      case Some(s) => Some(Position(s, hash(f)))
  }

  /** The replayed image and the torn tail left after the last whole frame. */
  function Journaled(hash: Hasher, plan: Digest, raw: Bytes, n: int): Option<(Image, Bytes)> {
    var full := |raw| / FRAME;
    match ReadFrames(hash, plan, raw, n, full)
    case None => None
    case Some(at) => Some((at.image, raw[FRAME * full..]))
  }

  lemma {:induction false} RejectedStaysRejected(hash: Hasher, plan: Digest, raw: Bytes, n: int, k: nat, m: nat)
    requires k <= m && FRAME * m <= |raw| && ReadFrames(hash, plan, raw, n, k).None?
    ensures ReadFrames(hash, plan, raw, n, m).None?
  {
    hide ReadFrame;
    if k < m {
      RejectedStaysRejected(hash, plan, raw, n, k, m - 1);
    }
  }

  /** The source's `journal` loop. */
  method ReadJournal(hash: Hasher, plan: Digest, raw: Bytes, n: int) returns (r: Option<(Image, Bytes)>)
    ensures r == Journaled(hash, plan, raw, n)
  {
    hide Accept, Step;
    var s, head, full := Initial(n), ZERO, |raw| / FRAME;
    for k := 0 to full
      invariant ReadFrames(hash, plan, raw, n, k) == Some(Position(s, head))
    {
      var f := Chunk(raw, k);
      match ReadFrame(hash, plan, f, k, Position(s, head)) {
        case None =>
          RejectedStaysRejected(hash, plan, raw, n, k + 1, full);
          return None;
        case Some(at) => s, head := at.image, at.head;
      }
    }
    return Some((s, raw[FRAME * full..]));
  }

  predicate InRange(e: Event) {
    0 <= e.kind < 0x1_0000 && 0 <= e.index <= MAX_COUNTER && |e.obj| == 32
  }

  predicate AllInRange(events: seq<Event>) {
    forall k :: 0 <= k < |events| ==> InRange(events[k])
  }

  /** Events without negative numbers. */
  predicate Natural(events: seq<Event>) {
    forall k :: 0 <= k < |events| ==> events[k].kind >= 0 && events[k].index >= 0
  }

  /** The hash that the frame after `events` must carry. */
  function Head(hash: Hasher, events: seq<Event>): Digest
    requires Natural(events)
  {
    if events == [] then ZERO
    else
      var last := |events| - 1;
      hash(FrameBytes(hash, |events|, events[last], Head(hash, events[..last])))
  }

  function Encoded(hash: Hasher, events: seq<Event>): (data: Bytes)
    requires Natural(events)
    ensures AllInRange(events) ==> |data| == FRAME * |events|
  {
    hide FrameBytes;
    if events == [] then []
    else
      var last := |events| - 1;
      assert AllInRange(events) ==> InRange(events[last]) && AllInRange(events[..last]);
      Encoded(hash, events[..last]) + FrameBytes(hash, |events|, events[last], Head(hash, events[..last]))
  }

  /** Every frame's numbers fit their fields. */
  predicate AllPackable(events: seq<Event>) {
    forall k :: 0 <= k < |events| ==> Packable(k + 1, events[k], EPOCH, TOKEN, GENERATION)
  }

  /** The source's `encode_journal` loop; None is the packing error of some frame. */
  method EncodeJournal(hash: Hasher, events: seq<Event>) returns (r: Option<Bytes>)
    ensures r == if AllPackable(events) then Some(Encoded(hash, events)) else None
  {
    hide FrameOf;
    var data: Bytes, previous := [], ZERO;
    for k := 0 to |events|
      invariant AllPackable(events[..k]) && Natural(events[..k])
      invariant data == Encoded(hash, events[..k]) && previous == Head(hash, events[..k])
    {
      assert events[..k + 1][..k] == events[..k];
      var f := Frame(hash, k + 1, events[k], previous, EPOCH, TOKEN, GENERATION);
      if f.None? {
        return None;
      }
      data := data + f.value;
      previous := hash(f.value);
    }
    assert events[..|events|] == events;
    return Some(data);
  }

  /** The events of an accepted run of fewer than 2^63 can all be packed. */
  lemma InRangeIsPackable(events: seq<Event>)
    requires AllInRange(events) && |events| <= MAX_COUNTER
    ensures AllPackable(events)
  {
  }
}
