/**
 What reconstruction from several replicas finds, as functions of what the replicas return: the chunk
 chosen, the bad reads counted, the bytes recovered and the report.
 */
module Cohort {
  import opened Common
  import opened Paths
  import opened Manifest

  datatype ReadResult = Read(bytes: Bytes) | Unreadable(error: string)

  /** What each chunk file of one replica yields; a chunk that is not listed has no file. */
  type Replica = map<Digest, ReadResult>

  function ReadChunk(r: Replica, ch: Digest): ReadResult {
    if ch !in r then Unreadable("FileNotFoundError")
    else if r[ch].Read? && |r[ch].bytes| > CHUNK then Unreadable("Invalid")
    else r[ch]
  }

  /** The replica's file for this digest holds these bytes. */
  predicate Has(r: Replica, ch: Digest, b: Bytes) {
    ch in r && r[ch] == Read(b)
  }

  /** A chunk file is read whole exactly when it is there, readable and at most 64 KiB long. */
  lemma ReadIff(r: Replica, ch: Digest, b: Bytes)
    ensures ReadChunk(r, ch) == Read(b) <==> Has(r, ch, b) && |b| <= 65536
    ensures ReadChunk(r, ch).Unreadable? <==> !exists c :: Has(r, ch, c) && |c| <= 65536
  {
    assert ch in r && r[ch].Read? ==> Has(r, ch, r[ch].bytes);
  }

  /** The replica holds the chunk as it should be. */
  predicate Supplies(hash: Hasher, r: Replica, ch: Digest, size: int) {
    ch in r && r[ch].Read? && |r[ch].bytes| == size <= 65536 && hash(r[ch].bytes) == ch
  }

  /** Some replica holds the chunk as it should be. */
  predicate Supplied(hash: Hasher, replicas: seq<Replica>, ch: Digest, size: int) {
    exists r :: r in replicas && Supplies(hash, r, ch, size)
  }

  lemma SuppliesIff(hash: Hasher, r: Replica, ch: Digest, size: int)
    ensures Supplies(hash, r, ch, size) <==> IsIntact(hash, r, ch, size)
  {
  }

  function ExpectedSize(i: Entry, k: nat): int {
    Min(CHUNK, i.size - k * CHUNK)
  }

  datatype Bad = Bad(replica: nat, chunk: Digest, error: string)

  // ----- One chunk, over all replicas

  predicate IsIntact(hash: Hasher, r: Replica, ch: Digest, size: int) {
    var got := ReadChunk(r, ch);
    got.Read? && |got.bytes| == size && hash(got.bytes) == ch
  }

  /** The chunk as the first intact replica has it. */
  function Select(hash: Hasher, replicas: seq<Replica>, ch: Digest, size: int): Option<Bytes> {
    if replicas == [] then None
    else
      var last := |replicas| - 1;
      match Select(hash, replicas[..last], ch, size)
      case Some(b) => Some(b)
      case None => if IsIntact(hash, replicas[last], ch, size) then Some(ReadChunk(replicas[last], ch).bytes) else None
  }

  /** One line for every replica that could not supply the chunk. */
  function BadReads(hash: Hasher, replicas: seq<Replica>, ch: Digest, size: int): seq<Bad> {
    if replicas == [] then []
    else
      var last := |replicas| - 1;
      var got := ReadChunk(replicas[last], ch);
      BadReads(hash, replicas[..last], ch, size) +
      if IsIntact(hash, replicas[last], ch, size) then []
      else [Bad(last, ch, if got.Read? then "digest-or-length" else got.error)]
  }

  /** The wrong bytes that replicas returned for the chunk, in the order of reading. */
  function WrongReads(hash: Hasher, replicas: seq<Replica>, ch: Digest, size: int): seq<Bytes> {
    if replicas == [] then []
    else
      var last := |replicas| - 1;
      var got := ReadChunk(replicas[last], ch);
      WrongReads(hash, replicas[..last], ch, size) +
      if got.Read? && !IsIntact(hash, replicas[last], ch, size) then [got.bytes] else []
  }

  // ----- One object, chunk by chunk up to the first that no replica has

  datatype Progress = Progress(bytes: Bytes, intact: bool)

  function Recover(hash: Hasher, replicas: seq<Replica>, i: Entry, k: nat): Progress
    requires k <= |i.chunks|
  {
    if k == 0 then Progress([], true)
    else
      var before := Recover(hash, replicas, i, k - 1);
      if !before.intact then before
      else match Select(hash, replicas, i.chunks[k - 1], ExpectedSize(i, k - 1))
        case None => before.(intact := false)
        case Some(b) => Progress(before.bytes + b, true)
  }

  function ObjectBad(hash: Hasher, replicas: seq<Replica>, i: Entry, k: nat): seq<Bad>
    requires k <= |i.chunks|
  {
    if k == 0 then []
    else
      ObjectBad(hash, replicas, i, k - 1) +
      if Recover(hash, replicas, i, k - 1).intact
      then BadReads(hash, replicas, i.chunks[k - 1], ExpectedSize(i, k - 1)) else []
  }

  function ObjectWrong(hash: Hasher, replicas: seq<Replica>, i: Entry, k: nat): seq<Bytes>
    requires k <= |i.chunks|
  {
    if k == 0 then []
    else
      ObjectWrong(hash, replicas, i, k - 1) +
      if Recover(hash, replicas, i, k - 1).intact
      then WrongReads(hash, replicas, i.chunks[k - 1], ExpectedSize(i, k - 1)) else []
  }

  predicate Verified(hash: Hasher, replicas: seq<Replica>, i: Entry) {
    var got := Recover(hash, replicas, i, |i.chunks|);
    got.intact && |got.bytes| == i.size && hash(got.bytes) == i.sha256
  }

  // ----- All objects

  datatype Verdict = Verdict(path: string, verified: bool)

  datatype Report = Report(anchor: Digest, node: string, generation: int, complete: bool, pending: seq<string>,
                           objects: seq<Verdict>, badCount: nat, bad: seq<Bad>)

  const MAX_LISTED := 256

  function FirstBad(bad: seq<Bad>): seq<Bad> {
    bad[..Min(MAX_LISTED, |bad|)]
  }

  function Verdicts(hash: Hasher, replicas: seq<Replica>, objects: seq<Entry>): seq<Verdict> {
    seq(|objects|, k requires 0 <= k < |objects| => Verdict(objects[k].path, Verified(hash, replicas, objects[k])))
  }

  function AllBad(hash: Hasher, replicas: seq<Replica>, objects: seq<Entry>): seq<Bad> {
    if objects == [] then []
    else
      var last := objects[|objects| - 1];
      AllBad(hash, replicas, objects[..|objects| - 1]) + ObjectBad(hash, replicas, last, |last.chunks|)
  }

  function AllWrong(hash: Hasher, replicas: seq<Replica>, objects: seq<Entry>): seq<Bytes> {
    if objects == [] then []
    else
      var last := objects[|objects| - 1];
      AllWrong(hash, replicas, objects[..|objects| - 1]) + ObjectWrong(hash, replicas, last, |last.chunks|)
  }

  // ----- What is read early stays at the front

  lemma {:induction false} WrongReadsFront(hash: Hasher, replicas: seq<Replica>, n: nat, ch: Digest, size: int)
    requires n <= |replicas|
    ensures WrongReads(hash, replicas[..n], ch, size) <= WrongReads(hash, replicas, ch, size)
    decreases |replicas|
  {
    hide IsIntact;
    if n == |replicas| {
      assert replicas[..n] == replicas;
    } else {
      var front := replicas[..|replicas| - 1];
      assert front[..n] == replicas[..n];
      WrongReadsFront(hash, front, n, ch, size);
    }
  }

  lemma {:induction false} ObjectWrongFront(hash: Hasher, replicas: seq<Replica>, i: Entry, k: nat, n: nat)
    requires k <= n <= |i.chunks|
    ensures ObjectWrong(hash, replicas, i, k) <= ObjectWrong(hash, replicas, i, n)
    decreases n
  {
    hide WrongReads, Recover;
    if k < n {
      ObjectWrongFront(hash, replicas, i, k, n - 1);
    }
  }

  lemma {:induction false} AllWrongFront(hash: Hasher, replicas: seq<Replica>, objects: seq<Entry>, n: nat)
    requires n <= |objects|
    ensures AllWrong(hash, replicas, objects[..n]) <= AllWrong(hash, replicas, objects)
    decreases |objects|
  {
    hide ObjectWrong;
    if n == |objects| {
      assert objects[..n] == objects;
    } else {
      var front := objects[..|objects| - 1];
      assert front[..n] == objects[..n];
      AllWrongFront(hash, replicas, front, n);
    }
  }

  predicate Complete(hash: Hasher, replicas: seq<Replica>, objects: seq<Entry>) {
    forall k :: 0 <= k < |objects| ==> Verified(hash, replicas, objects[k])
  }

  function ReportOf(hash: Hasher, m: Manifest, anchor: Digest, replicas: seq<Replica>): Report {
    var bad := AllBad(hash, replicas, m.objects);
    Report(anchor, m.node, m.generation, Complete(hash, replicas, m.objects), m.pending,
           Verdicts(hash, replicas, m.objects), |bad|, FirstBad(bad))
  }

  // ----- Chunk arithmetic

  function SumExpected(i: Entry, k: nat): int {
    if k == 0 then 0 else SumExpected(i, k - 1) + ExpectedSize(i, k - 1)
  }

  /** The expected chunk sizes of an accepted object are each in 1..CHUNK and add up to its size. */
  lemma {:induction false} ExpectedSizes(i: Entry, k: nat)
    requires EntryValid(i) && k <= |i.chunks|
    ensures forall j :: 0 <= j < k ==> 1 <= ExpectedSize(i, j) <= CHUNK
    ensures SumExpected(i, k) == Min(k * CHUNK, i.size)
    ensures k == |i.chunks| ==> SumExpected(i, k) == i.size
  {
    hide Relative, AttributesValid;
    if k > 0 {
      ExpectedSizes(i, k - 1);
    }
  }

  lemma {:induction false} SelectedSize(hash: Hasher, replicas: seq<Replica>, ch: Digest, size: int)
    requires Select(hash, replicas, ch, size).Some?
    ensures var b := Select(hash, replicas, ch, size).value; |b| == size <= 65536 && hash(b) == ch
    ensures exists r :: r in replicas && Has(r, ch, Select(hash, replicas, ch, size).value)
  {
    var last := |replicas| - 1;
    if Select(hash, replicas[..last], ch, size).Some? {
      SelectedSize(hash, replicas[..last], ch, size);
      var r :| r in replicas[..last] && Has(r, ch, Select(hash, replicas, ch, size).value);
      assert r in replicas;
    } else {
      assert replicas[last] in replicas;
      SuppliesIff(hash, replicas[last], ch, size);
      ReadIff(replicas[last], ch, Select(hash, replicas, ch, size).value);
    }
  }

  lemma {:induction false} SomeIntactIffSelected(hash: Hasher, replicas: seq<Replica>, ch: Digest, size: int)
    ensures Select(hash, replicas, ch, size).Some? <==> Supplied(hash, replicas, ch, size)
  {
    hide IsIntact, Supplies;
    if replicas != [] {
      var front, last := replicas[..|replicas| - 1], replicas[|replicas| - 1];
      SuppliesIff(hash, last, ch, size);
      SomeIntactIffSelected(hash, front, ch, size);
      assert replicas == front + [last];
      assert forall r :: r in replicas <==> r in front || r == last;
    }
  }

  /** The chunks of an object are all at hand up to the k-th exactly when some replica supplies each of them. */
  lemma {:induction false} IntactIff(hash: Hasher, replicas: seq<Replica>, i: Entry, k: nat)
    requires k <= |i.chunks|
    ensures Recover(hash, replicas, i, k).intact <==>
      forall j :: 0 <= j < k ==> Supplied(hash, replicas, i.chunks[j], ExpectedSize(i, j))
  {
    hide Supplied, Select;
    if k > 0 {
      IntactIff(hash, replicas, i, k - 1);
      SomeIntactIffSelected(hash, replicas, i.chunks[k - 1], ExpectedSize(i, k - 1));
    }
  }

  /** What is read without being the chunk is exactly what replicas hold, in 64 KiB at most, that is not it. */
  lemma {:induction false} WrongReadsAre(hash: Hasher, replicas: seq<Replica>, ch: Digest, size: int, b: Bytes)
    ensures b in WrongReads(hash, replicas, ch, size) <==>
      && (|b| != size || hash(b) != ch) && |b| <= 65536
      && exists r :: r in replicas && Has(r, ch, b)
  {
    if replicas != [] {
      var front, last := replicas[..|replicas| - 1], replicas[|replicas| - 1];
      WrongReadsAre(hash, front, ch, size, b);
      ReadIff(last, ch, b);
      hide ReadChunk, Has;
      assert replicas == front + [last];
      assert forall r :: r in replicas <==> r in front || r == last;
    }
  }

  // ----- Round trip

  /** The k-th chunk of a content. */
  function ChunkOf(content: Bytes, k: nat): Bytes
    requires k * CHUNK <= |content|
  {
    content[k * CHUNK..Min((k + 1) * CHUNK, |content|)]
  }

  /** The entry describes this content: its size, its digest and the digest of each of its chunks. */
  predicate Describes(hash: Hasher, i: Entry, content: Bytes) {
    && i.size == |content| && i.sha256 == hash(content)
    && |i.chunks| == (|content| + CHUNK - 1) / CHUNK
    && forall k :: 0 <= k < |i.chunks| ==> i.chunks[k] == hash(ChunkOf(content, k))
  }

  /** Chunk k is whole in some replica, and no replica returns other bytes with the same digest. */
  ghost predicate ChunkSurvives(hash: Hasher, replicas: seq<Replica>, i: Entry, content: Bytes, k: nat)
    requires k < |i.chunks| && Describes(hash, i, content)
  {
    && (exists r :: r in replicas && Has(r, i.chunks[k], ChunkOf(content, k)))
    && forall r, b :: r in replicas && Has(r, i.chunks[k], b) && |b| <= 65536 && hash(b) == i.chunks[k] ==>
         b == ChunkOf(content, k)
  }

  lemma {:induction false} SurvivingPrefix(hash: Hasher, replicas: seq<Replica>, i: Entry, content: Bytes, k: nat)
    requires Describes(hash, i, content) && k <= |i.chunks|
    requires forall j :: 0 <= j < |i.chunks| ==> ChunkSurvives(hash, replicas, i, content, j)
    ensures Recover(hash, replicas, i, k) == Progress(content[..Min(k * CHUNK, |content|)], true)
  {
    if k > 0 {
      SurvivingPrefix(hash, replicas, i, content, k - 1);
      var ch, size, part := i.chunks[k - 1], ExpectedSize(i, k - 1), ChunkOf(content, k - 1);
      assert ChunkSurvives(hash, replicas, i, content, k - 1);
      assert |part| == size;
      var r :| r in replicas && Has(r, ch, part);
      assert Supplies(hash, r, ch, size);
      SomeIntactIffSelected(hash, replicas, ch, size);
      SelectedSize(hash, replicas, ch, size);
      assert Select(hash, replicas, ch, size) == Some(part);
      assert content[..Min(k * CHUNK, |content|)] == content[..(k - 1) * CHUNK] + part;
    }
  }

  /** If every chunk of the content survives somewhere, the object is verified and its bytes are the content. */
  lemma ObjectRoundTrip(hash: Hasher, replicas: seq<Replica>, i: Entry, content: Bytes)
    requires Describes(hash, i, content)
    requires forall j :: 0 <= j < |i.chunks| ==> ChunkSurvives(hash, replicas, i, content, j)
    ensures Recover(hash, replicas, i, |i.chunks|) == Progress(content, true)
    ensures Verified(hash, replicas, i)
  {
    SurvivingPrefix(hash, replicas, i, content, |i.chunks|);
    assert content[..|content|] == content;
  }
}
