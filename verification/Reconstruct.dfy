/**
 Reconstruction of a cohort into a private candidate directory. Every write may be cut off anywhere; the
 contracts say what the directory holds at each way out, whole or not.
 */
module Reconstruct {
  import opened Common
  import opened Paths
  import opened RecoveryIo
  import opened Evidence
  import opened Manifest
  import opened Cohort
  import opened Authentic

  datatype Top = IntentFile | ManifestFile | AnchorFile | ReportFile | ReadyFile

  function TopName(t: Top): string {
    match t
    case IntentFile => "intent.json"
    case ManifestFile => "manifest.json"
    case AnchorFile => "anchor.json"
    case ReportFile => "report.json"
    case ReadyFile => "candidate-ready.json"
  }

  function TopPlace(t: Top): Place {
    [TopName(t)]
  }

  const EVIDENCE := "evidence"
  const MAX_REPLICAS := 16

  // ----- Names in the candidate

  const HEX_DIGITS := "0123456789abcdef"

  function Hex(d: Bytes): string {
    seq(2 * |d|, i requires 0 <= i < 2 * |d| => HEX_DIGITS[if i % 2 == 0 then d[i / 2] / 16 else d[i / 2] % 16])
  }

  lemma HexPath(dir: string, d: Digest)
    requires PlainPart(dir) && NoSlash(dir)
    ensures Split(dir + "/" + Hex(d)) == [dir, Hex(d)]
    ensures Relative(dir + "/" + Hex(d))
  {
    var h := Hex(d);
    assert |h| == 64;
    forall c | c in h ensures PlainChar(c) && c != '/' && c != '\\' && c != '\0' {
      var i :| 0 <= i < |h| && h[i] == c;
      HexDigitPlain(if i % 2 == 0 then d[i / 2] / 16 else d[i / 2] % 16);
    }
    assert h != "." && h != "..";
    SplitPlain(h);
    SplitAtSlash(dir, h);
    PlainPartHasNoOdd(dir);
  }

  lemma HexDigitPlain(n: int)
    requires 0 <= n < 16
    ensures PlainChar(HEX_DIGITS[n]) && HEX_DIGITS[n] != '/' && HEX_DIGITS[n] != '\\' && HEX_DIGITS[n] != '\0'
  {
  }

  lemma PlainPartHasNoOdd(p: string)
    requires PlainPart(p)
    ensures '\\' !in p && '\0' !in p
  {
  }

  /** What a lower-case hexadecimal digit stands for; -1 for any other character. */
  function DigitValue(c: char): int {
    if '0' <= c <= '9' then c as int - '0' as int
    else if 'a' <= c <= 'f' then c as int - 'a' as int + 10
    else -1
  }

  /** The name spells the bytes, the high digit of each before the low one. */
  predicate Spells(name: string, d: Bytes) {
    && |name| == 2 * |d|
    && forall i :: 0 <= i < |d| ==>
         && DigitValue(name[2 * i]) >= 0 && DigitValue(name[2 * i + 1]) >= 0
         && 16 * DigitValue(name[2 * i]) + DigitValue(name[2 * i + 1]) == d[i]
  }

  lemma DigitIs(n: int)
    requires 0 <= n < 16
    ensures DigitValue(HEX_DIGITS[n]) == n
  {
  }

  lemma HexSpells(d: Bytes)
    ensures Spells(Hex(d), d)
  {
    var h := Hex(d);
    forall i | 0 <= i < |d|
      ensures DigitValue(h[2 * i]) == d[i] / 16 && DigitValue(h[2 * i + 1]) == d[i] % 16
    {
      assert (2 * i) / 2 == i && (2 * i + 1) / 2 == i;
      DigitIs(d[i] / 16);
      DigitIs(d[i] % 16);
    }
  }

  /** A name spells one byte string. */
  lemma SpellsOne(name: string, d: Bytes, e: Bytes)
    requires Spells(name, d) && Spells(name, e)
    ensures d == e
  {
    assert forall i :: 0 <= i < |d| ==> d[i] == e[i];
  }

  lemma HexIsInjective(d: Digest, e: Digest)
    requires Hex(d) == Hex(e)
    ensures d == e
  {
    HexSpells(d);
    HexSpells(e);
    SpellsOne(Hex(d), d, e);
  }

  /** In this directory stands a file whose name spells the digest and whose content is `b`. */
  ghost predicate StandsUnder(files: map<Place, Bytes>, dir: string, d: Digest, b: Bytes) {
    exists name :: Spells(name, d) && [dir, name] in files && files[[dir, name]] == b
  }

  function EvidencePath(hash: Hasher, b: Bytes): string {
    EVIDENCE + "/" + Hex(hash(b))
  }

  function EvidencePlace(hash: Hasher, b: Bytes): Place {
    [EVIDENCE, Hex(hash(b))]
  }

  lemma EvidenceSplits(hash: Hasher, b: Bytes)
    ensures Relative(EvidencePath(hash, b)) && Split(EvidencePath(hash, b)) == EvidencePlace(hash, b)
    ensures IsEvidence(EvidencePlace(hash, b)) && Above(EvidencePlace(hash, b)) == {[EVIDENCE]}
  {
    HexPath(EVIDENCE, hash(b));
    var p := EvidencePlace(hash, b);
    assert p[..1] == [EVIDENCE];
    assert Above(p) == {p[..1]};
  }

  function PayloadPath(path: string): string {
    PAYLOAD + "/" + path
  }

  function PayloadPlace(path: string): Place {
    [PAYLOAD] + Split(path)
  }

  // ----- What the candidate holds while payload is being written

  predicate IsEvidence(p: Place) {
    |p| == 2 && p[0] == EVIDENCE
  }

  /** Only the intent, the two inputs, payload and evidence exist: no report and no ready marker. */
  ghost predicate Layout(files: map<Place, Bytes>, dirs: set<Place>) {
    && (forall p :: p in files ==>
          || p in {TopPlace(IntentFile), TopPlace(ManifestFile), TopPlace(AnchorFile)}
          || IsEvidence(p)
          || (|p| >= 2 && p[0] == PAYLOAD))
    && (forall d :: d in dirs ==> d == [EVIDENCE] || (|d| >= 1 && d[0] == PAYLOAD))
  }

  /** The evidence directory holds exactly the kept chunks, each once, under their digests, within the bound. */
  ghost predicate Kept(hash: Hasher, files: map<Place, Bytes>, kept: seq<Bytes>, evidence: int) {
    && evidence == TotalLength(kept) <= EVIDENCE_LIMIT
    && (forall k :: 0 <= k < |kept| ==>
          |kept[k]| <= CHUNK && EvidencePlace(hash, kept[k]) in files && files[EvidencePlace(hash, kept[k])] == kept[k])
    && (forall j, k :: 0 <= j < k < |kept| ==> EvidencePlace(hash, kept[j]) != EvidencePlace(hash, kept[k]))
    && (forall p :: p in files && IsEvidence(p) ==> exists k :: 0 <= k < |kept| && p == EvidencePlace(hash, kept[k]))
  }

  ghost predicate Preserved(hash: Hasher, files: map<Place, Bytes>, wrong: seq<Bytes>) {
    forall b :: b in wrong ==> EvidencePlace(hash, b) in files && files[EvidencePlace(hash, b)] == b
  }

  /** Everything that was there still is, and what is new is evidence or one of `extra`. */
  ghost predicate Grown(before: map<Place, Bytes>, after: map<Place, Bytes>, extra: set<Place>) {
    && (forall p :: p in before ==> p in after && after[p] == before[p])
    && (forall p :: p in after ==> p in before || IsEvidence(p) || p in extra)
  }

  lemma KeptGrows(hash: Hasher, files: map<Place, Bytes>, kept: seq<Bytes>, evidence: nat, b: Bytes)
    requires Kept(hash, files, kept, evidence) && EvidencePlace(hash, b) !in files
    requires evidence + |b| <= EVIDENCE_LIMIT && |b| <= CHUNK
    ensures Kept(hash, files[EvidencePlace(hash, b) := b], kept + [b], evidence + |b|)
  {
    hide Hex;
    var place, more, after := EvidencePlace(hash, b), kept + [b], files[EvidencePlace(hash, b) := b];
    assert more[..|kept|] == kept;
    forall p | p in after && IsEvidence(p) ensures exists k :: 0 <= k < |more| && p == EvidencePlace(hash, more[k]) {
      if p == place {
        assert more[|kept|] == b;
      } else {
        var k :| 0 <= k < |kept| && p == EvidencePlace(hash, kept[k]);
        assert more[k] == kept[k];
      }
    }
    forall j, k | 0 <= j < k < |more| ensures EvidencePlace(hash, more[j]) != EvidencePlace(hash, more[k]) {
      assert EvidencePlace(hash, kept[j]) in files;
    }
  }

  lemma EvidenceKeepsLayout(files: map<Place, Bytes>, dirs: set<Place>, place: Place, b: Bytes, more: set<Place>)
    requires Layout(files, dirs) && IsEvidence(place) && more <= dirs + {[EVIDENCE]}
    ensures Layout(files, more) && Layout(files[place := b], more)
    ensures [EVIDENCE] !in files && place !in more
  {
  }

  lemma PreservedOne(hash: Hasher, files: map<Place, Bytes>, b: Bytes)
    requires EvidencePlace(hash, b) in files && files[EvidencePlace(hash, b)] == b
    ensures Preserved(hash, files, [b])
  {
  }

  lemma EvidenceGrows(files: map<Place, Bytes>, place: Place, b: Bytes)
    requires IsEvidence(place) && place !in files
    ensures Grown(files, files[place := b], {})
  {
  }

  lemma GrownReflexive(files: map<Place, Bytes>)
    ensures Grown(files, files, {})
  {
  }

  /** The evidence files are what is kept: under a digest stands the kept chunk with that digest, or nothing. */
  lemma KeptPlaces(hash: Hasher, files: map<Place, Bytes>, kept: seq<Bytes>, evidence: int, b: Bytes)
    requires Kept(hash, files, kept, evidence)
    ensures evidence == TotalLength(kept)
    ensures EvidencePlace(hash, b) in files <==> exists x :: x in kept && hash(x) == hash(b)
    ensures EvidencePlace(hash, b) in files ==>
      var there := files[EvidencePlace(hash, b)]; there in kept && |there| <= CHUNK && (there == b <==> b in kept)
  {
    hide Hex, TotalLength;
    var place := EvidencePlace(hash, b);
    if place in files {
      assert IsEvidence(place);
      var k :| 0 <= k < |kept| && place == EvidencePlace(hash, kept[k]);
      assert EvidencePlace(hash, kept[k])[1] == place[1];
      HexIsInjective(hash(kept[k]), hash(b));
      assert kept[k] in kept;
      if b in kept {
        var j :| 0 <= j < |kept| && kept[j] == b;
        assert EvidencePlace(hash, kept[j]) == place;
      }
    }
    if x :| x in kept && hash(x) == hash(b) {
      var k :| 0 <= k < |kept| && kept[k] == x;
      assert EvidencePlace(hash, kept[k]) == place;
    }
  }

  /** What charging a chunk amounts to, seen from the evidence files. */
  lemma ChargeByPlace(hash: Hasher, files: map<Place, Bytes>, kept: seq<Bytes>, evidence: int, b: Bytes)
    requires Kept(hash, files, kept, evidence)
    ensures evidence + |b| > EVIDENCE_LIMIT ==> Spilled(hash, kept, [b], EvidenceFull)
    ensures evidence + |b| <= EVIDENCE_LIMIT ==>
      var place := EvidencePlace(hash, b);
      if place !in files then Charged(hash, kept, [b], kept + [b])
      else |files[place]| <= CHUNK
           && if files[place] == b then Charged(hash, kept, [b], kept) else Spilled(hash, kept, [b], EvidenceCollision)
  {
    hide Kept, EvidencePlace, TotalLength, ChargeAll;
    KeptPlaces(hash, files, kept, evidence, b);
    ChargeOne(hash, kept, b);
  }

  /** Writes a chunk under its digest into the evidence directory, if nothing is there. */
  method WriteEvidence(hash: Hasher, out: Directory, b: Bytes) returns (r: Result<()>)
    requires out.Valid() && Layout(out.files, out.dirs)
    modifies out
    ensures out.Valid() && Layout(out.files, out.dirs)
    ensures Grown(old(out.files), out.files, {}) && old(out.dirs) <= out.dirs <= old(out.dirs) + {[EVIDENCE]}
    ensures r.Raised? ==> r.why == Exists || (r.why == Interrupted && !out.sound)
    ensures r.Ok? ==>
      EvidencePlace(hash, b) !in old(out.files) && out.files == old(out.files)[EvidencePlace(hash, b) := b]
    ensures r == Raised(Exists) ==> EvidencePlace(hash, b) in out.files && out.files == old(out.files)
  {
    hide Layout, Grown, Relative, Hex, Above, Directory.Valid, EvidencePlace, EvidencePath, IsEvidence;
    GrownReflexive(out.files);
    EvidenceSplits(hash, b);
    ghost var place, before := EvidencePlace(hash, b), out.files;
    r := out.WriteNew(EvidencePath(hash, b), b);
    EvidenceKeepsLayout(before, old(out.dirs), place, b, out.dirs);
    if out.files != before {
      ghost var n: nat :| n <= |b| && out.files == before[place := b[..n]];
      EvidenceKeepsLayout(before, old(out.dirs), place, b[..n], out.dirs);
      EvidenceGrows(before, place, b[..n]);
    }
    if r.Ok? {
      EvidenceGrows(before, place, b);
    }
  }

  /** Keeps one wrong chunk as evidence. */
  method Quarantine(hash: Hasher, out: Directory, b: Bytes, evidence: nat, ghost kept: seq<Bytes>)
    returns (r: Result<nat>, ghost kept': seq<Bytes>)
    requires out.Valid() && Layout(out.files, out.dirs) && Kept(hash, out.files, kept, evidence) && |b| <= CHUNK
    modifies out
    ensures out.Valid() && Layout(out.files, out.dirs)
    ensures Grown(old(out.files), out.files, {}) && old(out.dirs) <= out.dirs <= old(out.dirs) + {[EVIDENCE]}
    ensures r == Raised(Interrupted) ==> !out.sound
    ensures r.Raised? ==> r.why == Interrupted || Spilled(hash, kept, [b], r.why)
    ensures r.Ok? ==>
      Kept(hash, out.files, kept', r.value) && Preserved(hash, out.files, [b]) && Charged(hash, kept, [b], kept')
  {
    hide Layout, Kept, Grown, Relative, Directory.Valid, EvidencePlace, EvidencePath, Preserved, Charged, Spilled;
    kept' := kept;
    GrownReflexive(out.files);
    ChargeByPlace(hash, out.files, kept, evidence, b);
    if evidence + |b| > EVIDENCE_LIMIT {
      return Raised(EvidenceFull), kept';
    }
    ghost var before := out.files;
    var w := WriteEvidence(hash, out, b);
    if w.Ok? {
      KeptGrows(hash, before, kept, evidence, b);
      kept' := kept + [b];
      PreservedOne(hash, out.files, b);
      return Ok(evidence + |b|), kept';
    }
    if w.why != Exists {
      return Raised(Interrupted), kept';
    }
    EvidenceSplits(hash, b);
    var there := out.Read(EvidencePath(hash, b), CHUNK);
    if there.Raised? {
      return Raised(Interrupted), kept';
    }
    if there.value != b {
      return Raised(EvidenceCollision), kept';
    }
    PreservedOne(hash, out.files, b);
    return Ok(evidence), kept';
  }

  // ----- One chunk from all replicas

  /** The candidate is in good order before and between payload writes; there is none in verify-only mode. */
  ghost predicate InOrder(hash: Hasher, out: Directory?, kept: seq<Bytes>, evidence: int)
    reads out
  {
    out != null ==> out.Valid() && Layout(out.files, out.dirs) && Kept(hash, out.files, kept, evidence)
  }

  lemma GrownTwice(a: map<Place, Bytes>, b: map<Place, Bytes>, c: map<Place, Bytes>, extra: set<Place>)
    requires Grown(a, b, extra) && Grown(b, c, {})
    ensures Grown(a, c, extra)
  {
  }

  lemma PreservedGrows(hash: Hasher, before: map<Place, Bytes>, after: map<Place, Bytes>, extra: set<Place>,
                       wrong: seq<Bytes>)
    requires Preserved(hash, before, wrong) && Grown(before, after, extra)
    ensures Preserved(hash, after, wrong)
  {
  }

  /** The report's running count and its bounded list of bad reads. */
  datatype Tally = Tally(count: nat, bad: seq<Bad>)

  predicate Tallies(t: Tally, all: seq<Bad>) {
    t.count == |all| && t.bad == FirstBad(all)
  }

  function Note(t: Tally, line: Bad): (u: Tally)
    ensures forall all :: Tallies(t, all) ==> Tallies(u, all + [line])
  {
    Tally(t.count + 1, if |t.bad| < 256 then t.bad + [line] else t.bad)
  }

  /** What the next replica adds. */
  lemma NextReplica(hash: Hasher, replicas: seq<Replica>, n: nat, ch: Digest, size: int)
    requires n < |replicas|
    ensures var got := ReadChunk(replicas[n], ch); var intact := IsIntact(hash, replicas[n], ch, size);
      var before, after := replicas[..n], replicas[..n + 1];
      && intact == (got.Read? && |got.bytes| == size && hash(got.bytes) == ch)
      && (got.Read? ==> |got.bytes| <= CHUNK)
      && BadReads(hash, after, ch, size)
         == (if intact then BadReads(hash, before, ch, size)
             else BadReads(hash, before, ch, size)
                  + [Bad(n, ch, if got.Read? then "digest-or-length" else got.error)])
      && WrongReads(hash, after, ch, size)
         == (if got.Read? && !intact then WrongReads(hash, before, ch, size) + [got.bytes]
             else WrongReads(hash, before, ch, size))
      && Select(hash, after, ch, size)
         == if Select(hash, before, ch, size).None? && intact then Some(got.bytes) else Select(hash, before, ch, size)
  {
    assert replicas[..n + 1][..n] == replicas[..n];
  }

  /** Reads one chunk from every replica: keeps the first intact copy, lists every bad one, and quarantines every
      wrong one when there is a candidate to write to. */
  method GatherChunk(hash: Hasher, replicas: seq<Replica>, ch: Digest, size: int, out: Directory?,
                     evidence: nat, ghost kept: seq<Bytes>, tally: Tally, ghost all: seq<Bad>)
    returns (r: Result<Option<Bytes>>, evidence': nat, ghost kept': seq<Bytes>, tally': Tally)
    requires InOrder(hash, out, kept, evidence) && Tallies(tally, all)
    modifies out
    ensures out != null ==>
      && out.Valid() && Layout(out.files, out.dirs) && Grown(old(out.files), out.files, {})
      && old(out.dirs) <= out.dirs <= old(out.dirs) + {[EVIDENCE]}
    ensures r == Raised(Interrupted) ==> out != null && !out.sound
    ensures r.Raised? ==>
      out != null && (r.why == Interrupted || Spilled(hash, kept, WrongReads(hash, replicas, ch, size), r.why))
    ensures r.Ok? ==>
      && r.value == Select(hash, replicas, ch, size) && InOrder(hash, out, kept', evidence')
      && Tallies(tally', all + BadReads(hash, replicas, ch, size))
      && (out != null ==>
            && Preserved(hash, out.files, WrongReads(hash, replicas, ch, size))
            && Charged(hash, kept, WrongReads(hash, replicas, ch, size), kept'))
  {
    hide Charged, Spilled, ReadChunk;
    hide Layout, Kept, Grown, IsIntact, Preserved, Tallies, Select, BadReads, WrongReads, Above, Directory.Valid;
    var selected := None;
    evidence', kept', tally' := evidence, kept, tally;
    NoReplica(hash, ch, size);
    if out != null {
      GrownReflexive(out.files);
      NothingToPreserve(hash, out.files);
      ChargedNothing(hash, kept);
    }
    assert all + [] == all && replicas[..0] == [];
    for ri := 0 to |replicas|
      invariant InOrder(hash, out, kept', evidence')
      invariant out != null ==> Grown(old(out.files), out.files, {})
      invariant out != null ==> old(out.dirs) <= out.dirs <= old(out.dirs) + {[EVIDENCE]}
      invariant selected == Select(hash, replicas[..ri], ch, size)
      invariant Tallies(tally', all + BadReads(hash, replicas[..ri], ch, size))
      invariant out != null ==> Preserved(hash, out.files, WrongReads(hash, replicas[..ri], ch, size))
      invariant out != null ==> Charged(hash, kept, WrongReads(hash, replicas[..ri], ch, size), kept')
    {
      NextReplica(hash, replicas, ri, ch, size);
      ghost var sofar, wrong := BadReads(hash, replicas[..ri], ch, size), WrongReads(hash, replicas[..ri], ch, size);
      var got := ReadChunk(replicas[ri], ch);
      if got.Read? && |got.bytes| == size && hash(got.bytes) == ch {
        if selected.None? {
          selected := Some(got.bytes);
        }
        assert all + sofar == all + BadReads(hash, replicas[..ri + 1], ch, size);
      } else {
        if got.Read? && out != null {
          ghost var before := out.files;
          var q, k := Quarantine(hash, out, got.bytes, evidence', kept');
          GrownTwice(old(out.files), before, out.files, {});
          ChargedMore(hash, kept, wrong, kept', [got.bytes]);
          if q.Raised? {
            if q.why != Interrupted {
              WrongReadsFront(hash, replicas, ri + 1, ch, size);
              SpilledStays(hash, kept, wrong + [got.bytes], WrongReads(hash, replicas, ch, size), q.why);
            }
            return Raised(q.why), evidence', k, tally';
          }
          evidence', kept' := q.value, k;
          PreservedGrows(hash, before, out.files, {}, wrong);
          PreservedUnion(hash, out.files, wrong, [got.bytes]);
        }
        var line := Bad(ri, ch, if got.Read? then "digest-or-length" else got.error);
        assert (all + sofar) + [line] == all + BadReads(hash, replicas[..ri + 1], ch, size);
        tally' := Note(tally', line);
      }
    }
    assert replicas[..|replicas|] == replicas;
    return Ok(selected), evidence', kept', tally';
  }

  lemma NoReplica(hash: Hasher, ch: Digest, size: int)
    ensures Select(hash, [], ch, size) == None
    ensures BadReads(hash, [], ch, size) == [] && WrongReads(hash, [], ch, size) == []
  {
  }

  lemma NothingToPreserve(hash: Hasher, files: map<Place, Bytes>)
    ensures Preserved(hash, files, [])
  {
  }

  lemma PreservedUnion(hash: Hasher, files: map<Place, Bytes>, a: seq<Bytes>, b: seq<Bytes>)
    requires Preserved(hash, files, a) && Preserved(hash, files, b)
    ensures Preserved(hash, files, a + b)
  {
  }

  // ----- One object

  /** Nothing stands where the object's payload is to be created, nor as a file above it. */
  ghost predicate PayloadFree(files: map<Place, Bytes>, dirs: set<Place>, path: string) {
    && PayloadPlace(path) !in files && PayloadPlace(path) !in dirs
    && forall q :: q in Above(PayloadPlace(path)) ==> q !in files
  }

  predicate IsPayload(p: Place) {
    |p| >= 2 && p[0] == PAYLOAD
  }

  lemma PayloadIsNotEvidence(p: Place)
    requires IsPayload(p)
    ensures !IsEvidence(p) && p != [EVIDENCE]
    ensures p !in {TopPlace(IntentFile), TopPlace(ManifestFile), TopPlace(AnchorFile)}
  {
  }

  lemma EvidencePlaceIsEvidence(hash: Hasher, b: Bytes)
    ensures IsEvidence(EvidencePlace(hash, b))
  {
  }

  /** Between the writes of one object's payload: what was there before still is, and only that payload and
      evidence are new. */
  ghost predicate Partial(before: map<Place, Bytes>, dirs0: set<Place>, files: map<Place, Bytes>, dirs: set<Place>,
                          place: Place) {
    && Layout(files, dirs) && Grown(before, files, {place})
    && dirs0 <= dirs <= dirs0 + {[EVIDENCE]} + Above(place)
  }

  /** As Partial, with the payload and all evidence whole. */
  ghost predicate Holding(hash: Hasher, before: map<Place, Bytes>, dirs0: set<Place>, files: map<Place, Bytes>,
                          dirs: set<Place>, place: Place, kept: seq<Bytes>, evidence: int, wrong: seq<Bytes>,
                          bytes: Bytes) {
    && Partial(before, dirs0, files, dirs, place) && Kept(hash, files, kept, evidence)
    && Preserved(hash, files, wrong) && place in files && files[place] == bytes
  }

  lemma KeptBesidePayload(hash: Hasher, files: map<Place, Bytes>, place: Place, b: Bytes, kept: seq<Bytes>,
                          evidence: int)
    requires IsPayload(place) && Kept(hash, files, kept, evidence)
    ensures Kept(hash, files[place := b], kept, evidence)
  {
    hide IsEvidence, EvidencePlace, IsPayload;
    PayloadIsNotEvidence(place);
    forall k | 0 <= k < |kept| ensures EvidencePlace(hash, kept[k]) != place {
      EvidencePlaceIsEvidence(hash, kept[k]);
    }
  }

  lemma PreservedBesidePayload(hash: Hasher, files: map<Place, Bytes>, place: Place, b: Bytes, wrong: seq<Bytes>)
    requires IsPayload(place) && Preserved(hash, files, wrong)
    ensures Preserved(hash, files[place := b], wrong)
  {
    hide IsEvidence, EvidencePlace, IsPayload;
    PayloadIsNotEvidence(place);
    forall x | x in wrong ensures EvidencePlace(hash, x) != place {
      EvidencePlaceIsEvidence(hash, x);
    }
  }

  lemma PayloadDirs(dirs: set<Place>, place: Place, files: map<Place, Bytes>, more: set<Place>)
    requires IsPayload(place) && Layout(files, dirs) && more <= dirs + Above(place)
    ensures Layout(files, more)
  {
    forall d | d in Above(place) ensures |d| >= 1 && d[0] == PAYLOAD {
    }
  }

  lemma LayoutWithPayload(files: map<Place, Bytes>, dirs: set<Place>, place: Place, b: Bytes)
    requires IsPayload(place) && Layout(files, dirs)
    ensures Layout(files[place := b], dirs)
  {
    hide IsEvidence;
  }

  lemma AfterCreate(hash: Hasher, before: map<Place, Bytes>, dirs0: set<Place>, dirs: set<Place>, place: Place,
                    kept: seq<Bytes>, evidence: int)
    requires IsPayload(place) && Layout(before, dirs0) && Kept(hash, before, kept, evidence) && place !in before
    requires dirs0 <= dirs <= dirs0 + Above(place)
    ensures Partial(before, dirs0, before, dirs, place)
    ensures Holding(hash, before, dirs0, before[place := []], dirs, place, kept, evidence, [], [])
  {
    hide Layout, Kept, Above, IsPayload, IsEvidence;
    PayloadDirs(dirs0, place, before, dirs);
    LayoutWithPayload(before, dirs, place, []);
    KeptBesidePayload(hash, before, place, [], kept, evidence);
  }

  lemma PartialGrows(before: map<Place, Bytes>, dirs0: set<Place>, files: map<Place, Bytes>, dirs: set<Place>,
                     place: Place, files': map<Place, Bytes>, dirs': set<Place>)
    requires Partial(before, dirs0, files, dirs, place)
    requires Layout(files', dirs') && Grown(files, files', {}) && dirs <= dirs' <= dirs + {[EVIDENCE]}
    ensures Partial(before, dirs0, files', dirs', place)
  {
    hide Layout, Above, Grown;
    GrownTwice(before, files, files', {place});
  }

  lemma AfterGather(hash: Hasher, before: map<Place, Bytes>, dirs0: set<Place>, files: map<Place, Bytes>,
                    dirs: set<Place>, place: Place, kept: seq<Bytes>, evidence: int, wrong: seq<Bytes>, bytes: Bytes,
                    files': map<Place, Bytes>, dirs': set<Place>, kept': seq<Bytes>, evidence': int, wrong': seq<Bytes>)
    requires Holding(hash, before, dirs0, files, dirs, place, kept, evidence, wrong, bytes)
    requires Layout(files', dirs') && Grown(files, files', {}) && dirs <= dirs' <= dirs + {[EVIDENCE]}
    ensures Partial(before, dirs0, files', dirs', place)
    ensures Kept(hash, files', kept', evidence') && Preserved(hash, files', wrong') ==>
      Holding(hash, before, dirs0, files', dirs', place, kept', evidence', wrong + wrong', bytes)
  {
    hide Layout, Above, Grown, Kept, Preserved, Partial;
    PartialGrows(before, dirs0, files, dirs, place, files', dirs');
    PreservedGrows(hash, files, files', {}, wrong);
    PayloadUntouched(files, files', place);
    if Kept(hash, files', kept', evidence') && Preserved(hash, files', wrong') {
      PreservedUnion(hash, files', wrong, wrong');
    }
  }

  lemma PayloadUntouched(before: map<Place, Bytes>, after: map<Place, Bytes>, place: Place)
    requires Grown(before, after, {}) && place in before
    ensures place in after && after[place] == before[place]
  {
  }

  lemma AfterStore(hash: Hasher, before: map<Place, Bytes>, dirs0: set<Place>, files: map<Place, Bytes>,
                   dirs: set<Place>, place: Place, kept: seq<Bytes>, evidence: int, wrong: seq<Bytes>,
                   bytes: Bytes, more: Bytes)
    requires IsPayload(place) && place !in before
    requires Holding(hash, before, dirs0, files, dirs, place, kept, evidence, wrong, bytes)
    ensures Holding(hash, before, dirs0, files[place := more], dirs, place, kept, evidence, wrong, more)
  {
    hide Layout, Kept, Preserved, Above, IsPayload, IsEvidence;
    LayoutWithPayload(files, dirs, place, more);
    KeptBesidePayload(hash, files, place, more, kept, evidence);
    PreservedBesidePayload(hash, files, place, more, wrong);
  }

  /** What the next chunk adds while all before it were recovered. */
  lemma NextChunk(hash: Hasher, replicas: seq<Replica>, i: Entry, k: nat)
    requires k < |i.chunks| && Recover(hash, replicas, i, k).intact
    ensures var ch, size := i.chunks[k], ExpectedSize(i, k);
      var before := Recover(hash, replicas, i, k);
      && Recover(hash, replicas, i, k + 1) == (match Select(hash, replicas, ch, size)
           case None => before.(intact := false)
           case Some(b) => Progress(before.bytes + b, true))
      && ObjectBad(hash, replicas, i, k + 1) == ObjectBad(hash, replicas, i, k) + BadReads(hash, replicas, ch, size)
      && ObjectWrong(hash, replicas, i, k + 1) == ObjectWrong(hash, replicas, i, k) + WrongAt(hash, replicas, i, k)
  {
  }

  /** After the first unrecoverable chunk the remaining ones are not looked at. */
  lemma {:induction false} Stopped(hash: Hasher, replicas: seq<Replica>, i: Entry, k: nat, n: nat)
    requires k <= n <= |i.chunks| && !Recover(hash, replicas, i, k).intact
    ensures Recover(hash, replicas, i, n) == Recover(hash, replicas, i, k)
    ensures ObjectBad(hash, replicas, i, n) == ObjectBad(hash, replicas, i, k)
    ensures ObjectWrong(hash, replicas, i, n) == ObjectWrong(hash, replicas, i, k)
  {
    if k < n {
      Stopped(hash, replicas, i, k, n - 1);
    }
  }

  /** Creates the empty payload file. */
  method OpenPayload(hash: Hasher, path: string, out: Directory, ghost kept: seq<Bytes>, ghost evidence: int)
    returns (r: Result<()>)
    requires Relative(path) && InOrder(hash, out, kept, evidence) && PayloadFree(out.files, out.dirs, path)
    modifies out
    ensures out.Valid() && Partial(old(out.files), old(out.dirs), out.files, out.dirs, PayloadPlace(path))
    ensures r.Raised? ==> r.why in {Interrupted, BadPath}
    ensures r == Raised(Interrupted) ==> !out.sound
    ensures r == Raised(BadPath) <==> !Relative(PayloadPath(path))
    ensures r.Ok? ==>
      Holding(hash, old(out.files), old(out.dirs), out.files, out.dirs, PayloadPlace(path), kept, evidence, [], [])
  {
    hide Layout, Kept, Relative, Directory.Valid, Holding, Partial;
    ghost var before, dirs0, place := out.files, out.dirs, PayloadPlace(path);
    PayloadPathValid(path);
    var c := out.Create(PayloadPath(path));
    PlaceIsPayload(path);
    AfterCreate(hash, before, dirs0, out.dirs, place, kept, evidence);
    HoldingIsPartial(hash, before, dirs0, before[place := []], out.dirs, place, kept, evidence, [], []);
    if c.Raised? {
      return Raised(c.why);
    }
    return Ok(());
  }

  lemma PlaceIsPayload(path: string)
    ensures IsPayload(PayloadPlace(path)) && PayloadPlace(path) !in Above(PayloadPlace(path))
  {
  }

  lemma HoldingIsPartial(hash: Hasher, before: map<Place, Bytes>, dirs0: set<Place>, files: map<Place, Bytes>,
                         dirs: set<Place>, place: Place, kept: seq<Bytes>, evidence: int, wrong: seq<Bytes>,
                         bytes: Bytes)
    requires Holding(hash, before, dirs0, files, dirs, place, kept, evidence, wrong, bytes)
    ensures Partial(before, dirs0, files, dirs, place)
    ensures Kept(hash, files, kept, evidence) && Preserved(hash, files, wrong)
    ensures place in files && files[place] == bytes && Layout(files, dirs)
  {
  }

  /** Appends a recovered chunk to the payload. */
  method StorePayload(hash: Hasher, path: string, out: Directory, b: Bytes, ghost before: map<Place, Bytes>,
                      ghost dirs0: set<Place>, ghost kept: seq<Bytes>, ghost evidence: int, ghost wrong: seq<Bytes>,
                      ghost bytes: Bytes)
    returns (r: Result<()>)
    requires out.Valid() && PayloadPlace(path) !in before
    requires Holding(hash, before, dirs0, out.files, out.dirs, PayloadPlace(path), kept, evidence, wrong, bytes)
    modifies out
    ensures out.Valid() && Partial(before, dirs0, out.files, out.dirs, PayloadPlace(path))
    ensures r.Raised? ==> r.why == Interrupted && !out.sound
    ensures r.Ok? ==>
      Holding(hash, before, dirs0, out.files, out.dirs, PayloadPlace(path), kept, evidence, wrong, bytes + b)
  {
    hide Partial, Holding, Directory.Valid, PayloadPlace;
    ghost var place, files := PayloadPlace(path), out.files;
    HoldingIsPartial(hash, before, dirs0, files, out.dirs, place, kept, evidence, wrong, bytes);
    PlaceIsPayload(path);
    r := out.WriteAll(PayloadPlace(path), b);
    AfterStore(hash, before, dirs0, files, out.dirs, place, kept, evidence, wrong, bytes, out.files[place]);
    HoldingIsPartial(hash, before, dirs0, out.files, out.dirs, place, kept, evidence, wrong, out.files[place]);
  }

  /** The wrong bytes read for one chunk of an object. */
  function WrongAt(hash: Hasher, replicas: seq<Replica>, i: Entry, number: nat): seq<Bytes>
    requires number < |i.chunks|
  {
    WrongReads(hash, replicas, i.chunks[number], ExpectedSize(i, number))
  }

  /** Gathers the next chunk of an object and appends it to the payload when there is one; false means that no
      replica has the chunk. */
  method RecoverNext(hash: Hasher, replicas: seq<Replica>, i: Entry, number: nat, hashed: Bytes, out: Directory?,
                     evidence: nat, ghost kept: seq<Bytes>, tally: Tally, ghost all: seq<Bad>,
                     ghost before: map<Place, Bytes>, ghost dirs0: set<Place>)
    returns (r: Result<bool>, hashed': Bytes, evidence': nat, ghost kept': seq<Bytes>, tally': Tally)
    requires number < |i.chunks| && Recover(hash, replicas, i, number) == Progress(hashed, true)
    requires Tallies(tally, all + ObjectBad(hash, replicas, i, number)) && PayloadPlace(i.path) !in before
    requires out != null ==>
      && out.Valid()
      && Holding(hash, before, dirs0, out.files, out.dirs, PayloadPlace(i.path), kept, evidence,
                 ObjectWrong(hash, replicas, i, number), hashed)
    modifies out
    ensures out != null ==> out.Valid() && Partial(before, dirs0, out.files, out.dirs, PayloadPlace(i.path))
    ensures r == Raised(Interrupted) ==> out != null && !out.sound
    ensures r.Raised? ==>
      out != null && (r.why == Interrupted || Spilled(hash, kept, WrongAt(hash, replicas, i, number), r.why))
    ensures r.Ok? ==>
      && Recover(hash, replicas, i, number + 1) == Progress(hashed', r.value)
      && Tallies(tally', all + ObjectBad(hash, replicas, i, number + 1))
      && (out != null ==>
            && Holding(hash, before, dirs0, out.files, out.dirs, PayloadPlace(i.path), kept', evidence',
                       ObjectWrong(hash, replicas, i, number + 1), hashed')
            && Charged(hash, kept, WrongAt(hash, replicas, i, number), kept'))
  {
    hide Charged, Spilled;
    hide Layout, Kept, Grown, Preserved, Tallies, Recover, ObjectBad, ObjectWrong, Select, BadReads, WrongReads;
    hide Above, Directory.Valid, Partial, Holding, PayloadPlace, ExpectedSize;
    var ch, size := i.chunks[number], ExpectedSize(i, number);
    ghost var place, wrong := PayloadPlace(i.path), ObjectWrong(hash, replicas, i, number);
    ghost var wrong' := WrongReads(hash, replicas, ch, size);
    ghost var noted := all + ObjectBad(hash, replicas, i, number);
    ghost var files, dirs := if out == null then map[] else out.files, if out == null then {} else out.dirs;
    NextChunk(hash, replicas, i, number);
    hashed' := hashed;
    if out != null {
      HoldingIsPartial(hash, before, dirs0, files, dirs, place, kept, evidence, wrong, hashed);
    }
    var g;
    g, evidence', kept', tally' := GatherChunk(hash, replicas, ch, size, out, evidence, kept, tally, noted);
    if out != null {
      AfterGather(hash, before, dirs0, files, dirs, place, kept, evidence, wrong, hashed,
                  out.files, out.dirs, kept', evidence', wrong');
    }
    if g.Raised? {
      return Raised(g.why), hashed', evidence', kept', tally';
    }
    assert noted + BadReads(hash, replicas, ch, size) == all + ObjectBad(hash, replicas, i, number + 1);
    if g.value.None? {
      return Ok(false), hashed', evidence', kept', tally';
    }
    hashed' := hashed + g.value.value;
    if out != null {
      var w := StorePayload(hash, i.path, out, g.value.value, before, dirs0, kept', evidence', wrong + wrong', hashed);
      if w.Raised? {
        return Raised(w.why), hashed', evidence', kept', tally';
      }
    }
    return Ok(true), hashed', evidence', kept', tally';
  }

  /** Recovers one object chunk by chunk, writing its payload when there is a candidate. */
  method RecoverObject(hash: Hasher, replicas: seq<Replica>, i: Entry, out: Directory?,
                       evidence: nat, ghost kept: seq<Bytes>, tally: Tally, ghost all: seq<Bad>)
    returns (r: Result<bool>, evidence': nat, ghost kept': seq<Bytes>, tally': Tally)
    requires Relative(i.path) && InOrder(hash, out, kept, evidence) && Tallies(tally, all)
    requires out != null ==> PayloadFree(out.files, out.dirs, i.path)
    modifies out
    ensures out != null ==>
      out.Valid() && Partial(old(out.files), old(out.dirs), out.files, out.dirs, PayloadPlace(i.path))
    ensures r.Raised? ==> out != null
    ensures r.Raised? && r.why != Interrupted && r.why != BadPath ==>
      Spilled(hash, kept, ObjectWrong(hash, replicas, i, |i.chunks|), r.why)
    ensures r == Raised(Interrupted) ==> out != null && !out.sound
    ensures r == Raised(BadPath) <==> out != null && !Relative(PayloadPath(i.path))
    ensures r.Ok? ==>
      && r.value == Verified(hash, replicas, i) && Tallies(tally', all + ObjectBad(hash, replicas, i, |i.chunks|))
      && (out != null ==>
            && Holding(hash, old(out.files), old(out.dirs), out.files, out.dirs, PayloadPlace(i.path), kept', evidence',
                       ObjectWrong(hash, replicas, i, |i.chunks|), Recover(hash, replicas, i, |i.chunks|).bytes)
            && Charged(hash, kept, ObjectWrong(hash, replicas, i, |i.chunks|), kept'))
  {
    hide Charged, Spilled, WrongAt;
    hide Layout, Kept, Grown, Preserved, Tallies, Recover, ObjectBad, ObjectWrong;
    hide Above, Directory.Valid, Relative, Partial, Holding, InOrder;
    evidence', kept', tally' := evidence, kept, tally;
    ghost var before, dirs0 := if out == null then map[] else out.files, if out == null then {} else out.dirs;
    FirstChunk(hash, replicas, i);
    ChargedNothing(hash, kept);
    if out != null {
      var c := OpenPayload(hash, i.path, out, kept, evidence);
      if c.Raised? {
        return Raised(c.why), evidence', kept', tally';
      }
    }
    var hashed: Bytes, good := [], true;
    ghost var done := 0;
    assert all + [] == all;
    for number := 0 to |i.chunks|
      invariant done == number && good && Recover(hash, replicas, i, number) == Progress(hashed, true)
      invariant Tallies(tally', all + ObjectBad(hash, replicas, i, number))
      invariant out != null ==>
        && out.Valid()
        && Holding(hash, before, dirs0, out.files, out.dirs, PayloadPlace(i.path), kept', evidence',
                   ObjectWrong(hash, replicas, i, number), hashed)
        && Charged(hash, kept, ObjectWrong(hash, replicas, i, number), kept')
    {
      var g;
      NextChunk(hash, replicas, i, number);
      if out != null {
        ChargedMore(hash, kept, ObjectWrong(hash, replicas, i, number), kept', WrongAt(hash, replicas, i, number));
      }
      g, hashed, evidence', kept', tally' :=
        RecoverNext(hash, replicas, i, number, hashed, out, evidence', kept', tally', all, before, dirs0);
      if g.Raised? {
        if g.why != Interrupted {
          ObjectWrongFront(hash, replicas, i, number + 1, |i.chunks|);
          SpilledStays(hash, kept, ObjectWrong(hash, replicas, i, number + 1),
                       ObjectWrong(hash, replicas, i, |i.chunks|), g.why);
        }
        return Raised(g.why), evidence', kept', tally';
      }
      done := number + 1;
      if !g.value {
        good := false;
        break;
      }
    }
    if !good {
      Stopped(hash, replicas, i, done, |i.chunks|);
    }
    good := good && |hashed| == i.size && hash(hashed) == i.sha256;
    VerifiedMeans(hash, replicas, i);
    if out != null {
      HoldingIsPartial(hash, before, dirs0, out.files, out.dirs, PayloadPlace(i.path), kept', evidence',
                       ObjectWrong(hash, replicas, i, |i.chunks|), hashed);
      if {
        case !out.sound => return Raised(Interrupted), evidence', kept', tally';
        case true =>
      }
    }
    return Ok(good), evidence', kept', tally';
  }

  lemma FirstChunk(hash: Hasher, replicas: seq<Replica>, i: Entry)
    ensures Recover(hash, replicas, i, 0) == Progress([], true)
    ensures ObjectBad(hash, replicas, i, 0) == [] && ObjectWrong(hash, replicas, i, 0) == []
  {
  }

  lemma VerifiedMeans(hash: Hasher, replicas: seq<Replica>, i: Entry)
    ensures Verified(hash, replicas, i)
      <==> var got := Recover(hash, replicas, i, |i.chunks|);
           got.intact && |got.bytes| == i.size && hash(got.bytes) == i.sha256
  {
  }

  // ----- All objects

  /** The payload tree holds exactly the first `n` objects, each with what was recovered of it. */
  ghost predicate Placed(hash: Hasher, replicas: seq<Replica>, objects: seq<Entry>, n: nat,
                         files: map<Place, Bytes>, dirs: set<Place>)
    requires n <= |objects|
  {
    && (forall j :: 0 <= j < n ==>
          && PayloadPlace(objects[j].path) in files
          && files[PayloadPlace(objects[j].path)] == Recover(hash, replicas, objects[j], |objects[j].chunks|).bytes)
    && (forall p :: p in files && IsPayload(p) ==> exists j :: 0 <= j < n && p == PayloadPlace(objects[j].path))
    && (forall d :: d in dirs ==>
          d == [EVIDENCE] || exists j :: 0 <= j < n && d in Above(PayloadPlace(objects[j].path)))
  }

  lemma AboveIsAncestor(q: Place, p: string)
    requires q in Above(PayloadPlace(p))
    ensures q == [PAYLOAD] || (|q| >= 2 && q[0] == PAYLOAD && IsAncestor(q[1..], Split(p)))
  {
    var n :| 1 <= n < |PayloadPlace(p)| && q == PayloadPlace(p)[..n];
    assert q[1..] == Split(p)[..n - 1];
  }

  /** Whose payload a file is, or above whose payload a directory lies. */
  lemma PlacedFile(hash: Hasher, replicas: seq<Replica>, objects: seq<Entry>, n: nat,
                   files: map<Place, Bytes>, dirs: set<Place>, p: Place) returns (j: nat)
    requires n <= |objects| && Placed(hash, replicas, objects, n, files, dirs) && p in files && IsPayload(p)
    ensures j < n && p[1..] == Split(objects[j].path)
  {
    hide Recover, Above, Split;
    j :| 0 <= j < n && p == PayloadPlace(objects[j].path);
    assert p[1..] == Split(objects[j].path);
  }

  lemma PlacedDir(hash: Hasher, replicas: seq<Replica>, objects: seq<Entry>, n: nat,
                  files: map<Place, Bytes>, dirs: set<Place>, d: Place) returns (j: nat)
    requires n <= |objects| && Placed(hash, replicas, objects, n, files, dirs) && d in dirs && IsPayload(d)
    ensures j < n && IsAncestor(d[1..], Split(objects[j].path))
  {
    hide Recover, Above, Split, IsAncestor, PayloadPlace;
    PayloadIsNotEvidence(d);
    j :| 0 <= j < n && d in Above(PayloadPlace(objects[j].path));
    AboveIsAncestor(d, objects[j].path);
  }

  /** Because the manifest describes a tree, creating the payload of the next object hits no existing name and no
      file in the place of a directory. */
  lemma NextPayloadIsFree(hash: Hasher, replicas: seq<Replica>, m: Manifest, n: nat,
                          files: map<Place, Bytes>, dirs: set<Place>)
    requires WellFormed(m) && n < |m.objects| && Layout(files, dirs)
    requires Placed(hash, replicas, m.objects, n, files, dirs)
    ensures PayloadFree(files, dirs, m.objects[n].path)
  {
    hide WellFormed, Split, Above, IsAncestor, Placed;
    var path := m.objects[n].path;
    var place := PayloadPlace(path);
    PlaceIsPayload(path);
    assert place[1..] == Split(path);
    assert [PAYLOAD] !in files;
    hide PayloadPlace, Layout;
    if place in files {
      var j := PlacedFile(hash, replicas, m.objects, n, files, dirs, place);
      ManifestDescribesTree(m, j, n);
    }
    if place in dirs {
      var j := PlacedDir(hash, replicas, m.objects, n, files, dirs, place);
      ManifestDescribesTree(m, n, j);
    }
    forall q | q in Above(place) ensures q !in files {
      AboveIsAncestor(q, path);
      if q in files {
        var j := PlacedFile(hash, replicas, m.objects, n, files, dirs, q);
        ManifestDescribesTree(m, j, n);
      }
    }
  }

  lemma PlacedNext(hash: Hasher, replicas: seq<Replica>, objects: seq<Entry>, n: nat,
                   before: map<Place, Bytes>, dirs0: set<Place>, files: map<Place, Bytes>, dirs: set<Place>)
    requires n < |objects| && Placed(hash, replicas, objects, n, before, dirs0)
    requires var place := PayloadPlace(objects[n].path);
      && Partial(before, dirs0, files, dirs, place) && place in files
      && files[place] == Recover(hash, replicas, objects[n], |objects[n].chunks|).bytes
    ensures Placed(hash, replicas, objects, n + 1, files, dirs)
  {
    hide Above, PayloadPlace, Layout;
    var place := PayloadPlace(objects[n].path);
    forall p | p in files && IsPayload(p) ensures exists j :: 0 <= j < n + 1 && p == PayloadPlace(objects[j].path) {
      PayloadIsNotEvidence(p);
      if p in before {
        var j :| 0 <= j < n && p == PayloadPlace(objects[j].path);
      }
    }
    forall d | d in dirs && d != [EVIDENCE]
      ensures exists j :: 0 <= j < n + 1 && d in Above(PayloadPlace(objects[j].path))
    {
      if d in dirs0 {
        var j :| 0 <= j < n && d in Above(PayloadPlace(objects[j].path));
      }
    }
  }

  // ----- The way in and the way out

  lemma TopNamePlain(t: Top)
    ensures forall c :: c in TopName(t) ==> PlainChar(c) && c != '/' && c != '\\' && c != '\0'
    ensures 5 <= |TopName(t)| <= 20
  {
    match t {
      case IntentFile =>
      case ManifestFile =>
      case AnchorFile =>
      case ReportFile =>
      case ReadyFile =>
    }
  }

  lemma TopPath(t: Top)
    ensures Relative(TopName(t)) && Split(TopName(t)) == TopPlace(t) && Above(TopPlace(t)) == {}
  {
    hide PlainChar, Split, TopName;
    TopNamePlain(t);
    SplitPlain(TopName(t));
  }

  lemma TopPlacesDiffer()
    ensures forall a, b :: TopPlace(a) == TopPlace(b) ==> a == b
    ensures forall a :: |TopPlace(a)| == 1 && TopPlace(a) != [EVIDENCE] && TopPlace(a) != [PAYLOAD]
  {
    assert EVIDENCE[0] == 'e' && PAYLOAD[0] == 'p';
    forall a ensures TopName(a)[0] != 'e' && TopName(a)[0] != 'p' {
    }
    forall a, b | TopPlace(a) == TopPlace(b) ensures a == b {
      assert TopPlace(a)[0] == TopPlace(b)[0];
    }
  }

  /** The intent and the two inputs are in place, as the run began with them. */
  ghost predicate Opened(tools: Tools, files: map<Place, Bytes>, mraw: Bytes, eraw: Bytes, expected: Digest) {
    && TopPlace(IntentFile) in files && files[TopPlace(IntentFile)] == tools.canonicalIntent(expected)
    && TopPlace(ManifestFile) in files && files[TopPlace(ManifestFile)] == mraw
    && TopPlace(AnchorFile) in files && files[TopPlace(AnchorFile)] == eraw
  }

  /** Writes one of the top-level files; the name is new, so only an interruption can stop it. */
  method WriteTop(out: Directory, t: Top, b: Bytes) returns (r: Result<()>)
    requires out.Valid() && TopPlace(t) !in out.files && TopPlace(t) !in out.dirs
    modifies out
    ensures out.Valid() && out.dirs == old(out.dirs)
    ensures r.Ok? ==> out.files == old(out.files)[TopPlace(t) := b]
    ensures r.Raised? ==> r.why == Interrupted && !out.sound
    ensures out.files != old(out.files) ==>
      exists n: nat :: n <= |b| && out.files == old(out.files)[TopPlace(t) := b[..n]]
  {
    hide Relative, Split, Directory.Valid, Above, TopName, TopPlace;
    TopPath(t);
    r := out.WriteNew(TopName(t), b);
  }

  function InputFiles(tools: Tools, mraw: Bytes, eraw: Bytes, expected: Digest): map<Place, Bytes> {
    map[TopPlace(IntentFile) := tools.canonicalIntent(expected)]
    [TopPlace(ManifestFile) := mraw]
    [TopPlace(AnchorFile) := eraw]
  }

  lemma InputsOpen(tools: Tools, mraw: Bytes, eraw: Bytes, expected: Digest, replicas: seq<Replica>,
                   objects: seq<Entry>)
    ensures var files := InputFiles(tools, mraw, eraw, expected);
      && Opened(tools, files, mraw, eraw, expected) && Kept(tools.hash, files, [], 0)
      && Placed(tools.hash, replicas, objects, 0, files, {}) && Preserved(tools.hash, files, [])
  {
    hide TopPlace, IsEvidence, IsPayload, PayloadPlace;
    TopPlacesDiffer();
    forall t ensures !IsEvidence(TopPlace(t)) && !IsPayload(TopPlace(t)) {
      TopIsNotPayloadOrEvidence(t);
    }
  }

  lemma TopIsNotPayloadOrEvidence(t: Top)
    ensures !IsEvidence(TopPlace(t)) && !IsPayload(TopPlace(t))
  {
  }

  lemma InputKeepsLayout(files: map<Place, Bytes>, dirs: set<Place>, t: Top, b: Bytes)
    requires Layout(files, dirs) && t in {IntentFile, ManifestFile, AnchorFile}
    ensures Layout(files[TopPlace(t) := b], dirs)
  {
    hide TopName, IsEvidence;
  }

  method WriteInput(out: Directory, t: Top, b: Bytes) returns (r: Result<()>)
    requires out.Valid() && t in {IntentFile, ManifestFile, AnchorFile} && TopPlace(t) !in out.files && out.dirs == {}
    requires Layout(out.files, out.dirs)
    modifies out
    ensures out.Valid() && Layout(out.files, out.dirs) && out.dirs == {}
    ensures r.Ok? ==> out.files == old(out.files)[TopPlace(t) := b]
    ensures r.Raised? ==> r.why == Interrupted && !out.sound
  {
    hide Directory.Valid, Layout, TopPlace;
    ghost var before := out.files;
    r := WriteTop(out, t, b);
    InputKeepsLayout(before, {}, t, b);
    if out.files != before {
      ghost var n: nat :| n <= |b| && out.files == before[TopPlace(t) := b[..n]];
      InputKeepsLayout(before, {}, t, b[..n]);
    }
  }

  /** Opens an empty candidate: the intent first, then the two inputs. */
  method Open(tools: Tools, out: Directory, mraw: Bytes, eraw: Bytes, expected: Digest) returns (r: Result<()>)
    requires out.Valid() && out.IsEmpty()
    modifies out
    ensures out.Valid() && Layout(out.files, out.dirs)
    ensures r.Raised? ==> r.why == Interrupted && !out.sound
    ensures r.Ok? ==> out.dirs == {} && out.files == InputFiles(tools, mraw, eraw, expected)
  {
    hide Directory.Valid, TopPlace;
    TopPlacesDiffer();
    assert Layout(out.files, out.dirs);
    hide Layout;
    r := WriteInput(out, IntentFile, tools.canonicalIntent(expected));
    if r.Raised? {
      return;
    }
    r := WriteInput(out, ManifestFile, mraw);
    if r.Raised? {
      return;
    }
    r := WriteInput(out, AnchorFile, eraw);
  }

  // ----- The ready marker

  /** Everything a reconstruction starts from. */
  datatype Inputs = Inputs(trust: Trust, now: int, mraw: Bytes, eraw: Bytes, expected: Digest,
                           m: Manifest, a: Anchor, replicas: seq<Replica>)

  predicate InputsAccepted(tools: Tools, x: Inputs) {
    Accepted(tools, x.trust, x.expected, x.now, x.mraw, x.eraw, x.m, x.a)
  }

  function ReportFor(tools: Tools, x: Inputs): Report {
    ReportOf(tools.hash, x.m, x.expected, x.replicas)
  }

  function MarkerFor(tools: Tools, x: Inputs): Bytes {
    tools.canonicalMarker(Marker(x.expected, tools.hash(tools.canonicalReport(ReportFor(tools, x)))))
  }

  /** Every payload file is whole: it has the size and the digest the manifest gives it. */
  ghost predicate PayloadWhole(hash: Hasher, files: map<Place, Bytes>, objects: seq<Entry>) {
    forall k :: 0 <= k < |objects| ==>
      && PayloadPlace(objects[k].path) in files
      && |files[PayloadPlace(objects[k].path)]| == objects[k].size
      && hash(files[PayloadPlace(objects[k].path)]) == objects[k].sha256
  }

  /** Every wrong chunk that was read is kept under its own digest, and the evidence stays within its bound. */
  ghost predicate EvidenceWhole(hash: Hasher, files: map<Place, Bytes>, wrong: seq<Bytes>) {
    Preserved(hash, files, wrong) && exists kept, evidence :: Kept(hash, files, kept, evidence)
  }

  /** All that a ready marker stands for. */
  ghost predicate Reconstructed(tools: Tools, files: map<Place, Bytes>, x: Inputs) {
    && InputsAccepted(tools, x) && ReportFor(tools, x).complete
    && Opened(tools, files, x.mraw, x.eraw, x.expected)
    && TopPlace(ReportFile) in files && files[TopPlace(ReportFile)] == tools.canonicalReport(ReportFor(tools, x))
    && PayloadWhole(tools.hash, files, x.m.objects)
    && EvidenceWhole(tools.hash, files, AllWrong(tools.hash, x.replicas, x.m.objects))
  }

  ghost predicate ReadyFor(tools: Tools, files: map<Place, Bytes>, x: Inputs) {
    Reconstructed(tools, files, x) && TopPlace(ReadyFile) in files && files[TopPlace(ReadyFile)] <= MarkerFor(tools, x)
  }

  /** A ready marker, even one cut short, exists only on top of the whole reconstruction from these inputs. */
  ghost predicate ReadySafe(tools: Tools, files: map<Place, Bytes>, x: Inputs) {
    TopPlace(ReadyFile) in files ==> ReadyFor(tools, files, x)
  }

  lemma NoReadyYet(files: map<Place, Bytes>, dirs: set<Place>)
    requires Layout(files, dirs)
    ensures TopPlace(ReportFile) !in files && TopPlace(ReadyFile) !in files
    ensures TopPlace(ReportFile) !in dirs && TopPlace(ReadyFile) !in dirs
  {
    hide TopPlace;
    TopPlacesDiffer();
    assert forall t :: TopPlace(t) in dirs ==> TopPlace(t) == [TopPlace(t)[0]];
    assert TopPlace(ReadyFile) !in files;
  }

  lemma VerifiedPayload(hash: Hasher, replicas: seq<Replica>, objects: seq<Entry>, files: map<Place, Bytes>,
                        dirs: set<Place>)
    requires Placed(hash, replicas, objects, |objects|, files, dirs) && Complete(hash, replicas, objects)
    ensures PayloadWhole(hash, files, objects)
  {
    hide PayloadPlace, Recover, IsPayload, Above;
    forall k | 0 <= k < |objects|
      ensures PayloadPlace(objects[k].path) in files
      ensures |files[PayloadPlace(objects[k].path)]| == objects[k].size
      ensures hash(files[PayloadPlace(objects[k].path)]) == objects[k].sha256
    {
      assert Verified(hash, replicas, objects[k]);
    }
  }

  /** Writing the report or the marker leaves payload and evidence as they are. */
  lemma TopLeavesRest(hash: Hasher, files: map<Place, Bytes>, t: Top, b: Bytes, objects: seq<Entry>, wrong: seq<Bytes>)
    ensures PayloadWhole(hash, files, objects) ==> PayloadWhole(hash, files[TopPlace(t) := b], objects)
    ensures EvidenceWhole(hash, files, wrong) ==> EvidenceWhole(hash, files[TopPlace(t) := b], wrong)
  {
    hide TopPlace, IsEvidence, IsPayload, EvidencePlace, PayloadPlace, Hex;
    TopIsNotPayloadOrEvidence(t);
    forall p: string ensures PayloadPlace(p) != TopPlace(t) {
      PlaceIsPayload(p);
    }
    forall x ensures EvidencePlace(hash, x) != TopPlace(t) {
      EvidencePlaceIsEvidence(hash, x);
    }
    if EvidenceWhole(hash, files, wrong) {
      var kept, evidence :| Kept(hash, files, kept, evidence);
      assert Kept(hash, files[TopPlace(t) := b], kept, evidence);
    }
  }

  lemma MarkerOnTop(tools: Tools, x: Inputs, files: map<Place, Bytes>, marker: Bytes)
    requires Reconstructed(tools, files, x) && marker <= MarkerFor(tools, x)
    ensures ReadyFor(tools, files[TopPlace(ReadyFile) := marker], x)
  {
    hide TopPlace, PayloadWhole, EvidenceWhole, InputsAccepted, ReportFor, MarkerFor;
    TopPlacesDiffer();
    TopLeavesRest(tools.hash, files, ReadyFile, marker, x.m.objects, AllWrong(tools.hash, x.replicas, x.m.objects));
  }

  lemma ReportOnTop(tools: Tools, x: Inputs, files: map<Place, Bytes>)
    requires InputsAccepted(tools, x) && AllRecovered(tools, x, files)
    ensures ReportFor(tools, x).complete ==>
      Reconstructed(tools, files[TopPlace(ReportFile) := tools.canonicalReport(ReportFor(tools, x))], x)
  {
    hide TopPlace, PayloadWhole, EvidenceWhole, InputsAccepted, Verdicts, AllBad, AllWrong, Complete, PayloadRecovered;
    TopPlacesDiffer();
    TopLeavesRest(tools.hash, files, ReportFile, tools.canonicalReport(ReportFor(tools, x)), x.m.objects,
                  AllWrong(tools.hash, x.replicas, x.m.objects));
  }

  /** Writes the report and, when it is complete, the ready marker on top. */
  method Close(tools: Tools, out: Directory, ghost x: Inputs, report: Report, expected: Digest) returns (r: Result<()>)
    requires out.Valid() && Layout(out.files, out.dirs)
    requires InputsAccepted(tools, x) && report == ReportFor(tools, x) && expected == x.expected
    requires AllRecovered(tools, x, out.files)
    modifies out
    ensures out.Valid() && ReadySafe(tools, out.files, x)
    ensures r.Raised? ==> r.why == Interrupted && !out.sound
    ensures r.Ok? ==> Finished(tools, x, out.files)
  {
    hide Layout, TopPlace, InputsAccepted, ReportFor, Reconstructed, ReadyFor, Directory.Valid, AllRecovered;
    hide PayloadRecovered;
    TopPlacesDiffer();
    ghost var before := out.files;
    NoReadyYet(before, out.dirs);
    var body := tools.canonicalReport(report);
    PayloadStays(tools, x, before, ReportFile, body);
    r := WriteTop(out, ReportFile, body);
    if r.Raised? || !report.complete {
      return;
    }
    ghost var reported := out.files;
    ReportOnTop(tools, x, before);
    var marker := tools.canonicalMarker(Marker(expected, tools.hash(body)));
    r := WriteTop(out, ReadyFile, marker);
    if out.files != reported {
      ghost var n: nat :| n <= |marker| && out.files == reported[TopPlace(ReadyFile) := marker[..n]];
      MarkerOnTop(tools, x, reported, marker[..n]);
    }
    MarkerOnTop(tools, x, reported, marker);
    PayloadKept(tools, x, reported, ReadyFile, marker);
  }

  lemma PayloadStays(tools: Tools, x: Inputs, files: map<Place, Bytes>, t: Top, b: Bytes)
    requires AllRecovered(tools, x, files)
    ensures PayloadRecovered(tools.hash, x.replicas, x.m.objects, files[TopPlace(t) := b])
  {
    hide TopPlace, Opened, PayloadWhole, EvidenceWhole, PayloadPlace, Recover;
    PayloadKept(tools, x, files, t, b);
  }

  lemma PayloadKept(tools: Tools, x: Inputs, files: map<Place, Bytes>, t: Top, b: Bytes)
    requires PayloadRecovered(tools.hash, x.replicas, x.m.objects, files)
    ensures PayloadRecovered(tools.hash, x.replicas, x.m.objects, files[TopPlace(t) := b])
  {
    hide TopPlace, PayloadPlace, Recover;
    TopIsNotPayloadOrEvidence(t);
    forall p: string ensures PayloadPlace(p) != TopPlace(t) {
      PlaceIsPayload(p);
    }
  }

  // ----- The whole reconstruction

  /** The candidate between two objects. */
  ghost predicate Midway(tools: Tools, x: Inputs, n: nat, files: map<Place, Bytes>, dirs: set<Place>,
                         kept: seq<Bytes>, evidence: int)
    requires n <= |x.m.objects|
  {
    && Layout(files, dirs) && Opened(tools, files, x.mraw, x.eraw, x.expected)
    && Kept(tools.hash, files, kept, evidence)
    && Preserved(tools.hash, files, AllWrong(tools.hash, x.replicas, x.m.objects[..n]))
    && Placed(tools.hash, x.replicas, x.m.objects, n, files, dirs)
  }

  lemma MidwayNext(tools: Tools, x: Inputs, n: nat, files: map<Place, Bytes>, dirs: set<Place>, kept: seq<Bytes>,
                   evidence: int, files': map<Place, Bytes>, dirs': set<Place>, kept': seq<Bytes>, evidence': int)
    requires n < |x.m.objects| && Midway(tools, x, n, files, dirs, kept, evidence)
    requires var i := x.m.objects[n];
      Holding(tools.hash, files, dirs, files', dirs', PayloadPlace(i.path), kept', evidence',
              ObjectWrong(tools.hash, x.replicas, i, |i.chunks|), Recover(tools.hash, x.replicas, i, |i.chunks|).bytes)
    ensures Midway(tools, x, n + 1, files', dirs', kept', evidence')
  {
    hide Layout, Kept, Preserved, Placed, PayloadPlace, Recover, ObjectWrong, TopPlace;
    var i := x.m.objects[n];
    assert x.m.objects[..n + 1][..n] == x.m.objects[..n];
    PlacedNext(tools.hash, x.replicas, x.m.objects, n, files, dirs, files', dirs');
    PreservedGrows(tools.hash, files, files', {PayloadPlace(i.path)},
                   AllWrong(tools.hash, x.replicas, x.m.objects[..n]));
    PreservedUnion(tools.hash, files', AllWrong(tools.hash, x.replicas, x.m.objects[..n]),
                   ObjectWrong(tools.hash, x.replicas, i, |i.chunks|));
  }

  lemma MidwayStart(tools: Tools, x: Inputs, files: map<Place, Bytes>)
    requires files == InputFiles(tools, x.mraw, x.eraw, x.expected) && Layout(files, {})
    ensures Midway(tools, x, 0, files, {}, [], 0)
  {
    hide Layout, Kept, Preserved, Placed, TopPlace, Opened;
    InputsOpen(tools, x.mraw, x.eraw, x.expected, x.replicas, x.m.objects);
  }

  /** All objects are recovered as far as the replicas allow, and all evidence is kept. */
  ghost predicate AllRecovered(tools: Tools, x: Inputs, files: map<Place, Bytes>) {
    && Opened(tools, files, x.mraw, x.eraw, x.expected)
    && (Complete(tools.hash, x.replicas, x.m.objects) ==> PayloadWhole(tools.hash, files, x.m.objects))
    && EvidenceWhole(tools.hash, files, AllWrong(tools.hash, x.replicas, x.m.objects))
    && PayloadRecovered(tools.hash, x.replicas, x.m.objects, files)
  }

  /** Each payload file holds what the replicas yielded of its object. */
  ghost predicate PayloadRecovered(hash: Hasher, replicas: seq<Replica>, objects: seq<Entry>,
                                   files: map<Place, Bytes>) {
    forall k :: 0 <= k < |objects| ==>
      && PayloadPlace(objects[k].path) in files
      && files[PayloadPlace(objects[k].path)] == Recover(hash, replicas, objects[k], |objects[k].chunks|).bytes
  }

  lemma MidwayEnd(tools: Tools, x: Inputs, files: map<Place, Bytes>, dirs: set<Place>, kept: seq<Bytes>, evidence: int)
    requires Midway(tools, x, |x.m.objects|, files, dirs, kept, evidence)
    ensures AllRecovered(tools, x, files)
  {
    hide Layout, Kept, Preserved, TopPlace, PayloadWhole, Complete, Opened, AllWrong, PayloadPlace, Recover;
    hide IsPayload, Above;
    assert x.m.objects[..|x.m.objects|] == x.m.objects;
    if Complete(tools.hash, x.replicas, x.m.objects) {
      VerifiedPayload(tools.hash, x.replicas, x.m.objects, files, dirs);
    }
  }

  /** The candidate's content after a finished run. */
  ghost predicate Finished(tools: Tools, x: Inputs, files: map<Place, Bytes>) {
    && InputsAccepted(tools, x)
    && PayloadRecovered(tools.hash, x.replicas, x.m.objects, files)
    && TopPlace(ReportFile) in files && files[TopPlace(ReportFile)] == tools.canonicalReport(ReportFor(tools, x))
    && (TopPlace(ReadyFile) in files <==> ReportFor(tools, x).complete)
    && (ReportFor(tools, x).complete ==> ReadyFor(tools, files, x) && files[TopPlace(ReadyFile)] == MarkerFor(tools, x))
  }

  /** Object `n`, with the candidate in order before and after. */
  method RecoverNth(tools: Tools, ghost x: Inputs, m: Manifest, n: nat, replicas: seq<Replica>, out: Directory?,
                    evidence: nat, ghost kept: seq<Bytes>, tally: Tally)
    returns (r: Result<bool>, evidence': nat, ghost kept': seq<Bytes>, tally': Tally)
    requires n < |m.objects| && WellFormed(m) && m == x.m && replicas == x.replicas
    requires out != null ==> out.Valid() && Midway(tools, x, n, out.files, out.dirs, kept, evidence)
    requires Tallies(tally, AllBad(tools.hash, replicas, m.objects[..n]))
    modifies out
    ensures out != null ==> out.Valid() && Layout(out.files, out.dirs)
    ensures r.Raised? ==> out != null
    ensures r.Raised? && r.why != Interrupted && r.why != BadPath ==>
      Spilled(tools.hash, kept, ObjectWrong(tools.hash, replicas, m.objects[n], |m.objects[n].chunks|), r.why)
    ensures r == Raised(Interrupted) ==> out != null && !out.sound
    ensures r == Raised(BadPath) <==> out != null && !Relative(PayloadPath(m.objects[n].path))
    ensures r.Ok? ==>
      && r.value == Verified(tools.hash, replicas, m.objects[n])
      && Tallies(tally', AllBad(tools.hash, replicas, m.objects[..n + 1]))
      && (out != null ==>
            && Midway(tools, x, n + 1, out.files, out.dirs, kept', evidence')
            && Charged(tools.hash, kept, ObjectWrong(tools.hash, replicas, m.objects[n], |m.objects[n].chunks|), kept'))
  {
    hide Charged, Spilled, ObjectWrong;
    hide WellFormed, Layout, Midway, Holding, Partial, Directory.Valid, PayloadPath;
    hide Kept, Relative, Complete, Verified, AllBad, ObjectBad, Verdicts, PayloadPlace, PayloadFree, Tallies;
    var i := m.objects[n];
    ghost var files, dirs := if out == null then map[] else out.files, if out == null then {} else out.dirs;
    NextObject(tools.hash, replicas, m, n);
    if out != null {
      MidwayAllows(tools, x, n, files, dirs, kept, evidence);
    }
    r, evidence', kept', tally' :=
      RecoverObject(tools.hash, replicas, i, out, evidence, kept, tally, AllBad(tools.hash, replicas, m.objects[..n]));
    if out != null {
      PartialIsLaidOut(files, dirs, out.files, out.dirs, PayloadPlace(i.path));
      if r.Ok? {
        MidwayNext(tools, x, n, files, dirs, kept, evidence, out.files, out.dirs, kept', evidence');
      }
    }
  }

  predicate PathsFit(m: Manifest, n: nat)
    requires n <= |m.objects|
  {
    forall k :: 0 <= k < n ==> Relative(PayloadPath(m.objects[k].path))
  }

  /** The loop over all objects. */
  method RecoverAll(tools: Tools, ghost x: Inputs, m: Manifest, replicas: seq<Replica>, out: Directory?)
    returns (r: Result<(seq<Verdict>, bool, Tally)>)
    requires WellFormed(m) && m == x.m && replicas == x.replicas
    requires out != null ==> out.Valid() && Midway(tools, x, 0, out.files, out.dirs, [], 0)
    modifies out
    ensures out != null ==> out.Valid() && Layout(out.files, out.dirs)
    ensures r.Raised? ==> out != null
    ensures r.Raised? && r.why != Interrupted && r.why != BadPath ==>
      Spilled(tools.hash, [], AllWrong(tools.hash, replicas, m.objects), r.why)
    ensures r == Raised(Interrupted) ==> out != null && !out.sound
    ensures r == Raised(BadPath) ==> !PathsFit(m, |m.objects|)
    ensures r.Ok? ==>
      && r.value.0 == Verdicts(tools.hash, replicas, m.objects)
      && r.value.1 == Complete(tools.hash, replicas, m.objects)
      && Tallies(r.value.2, AllBad(tools.hash, replicas, m.objects))
      && (out != null ==>
            && PathsFit(m, |m.objects|) && AllRecovered(tools, x, out.files)
            && Fits(tools.hash, AllWrong(tools.hash, replicas, m.objects)))
  {
    hide Charged, Spilled, ObjectWrong, AllWrong, Fits, PathsFit;
    hide WellFormed, Layout, Midway, Directory.Valid, AllRecovered, PayloadPath;
    hide Relative, Complete, Verified, AllBad, ObjectBad, Verdicts, Tallies;
    ghost var kept: seq<Bytes> := [];
    var evidence, tally, verdicts: seq<Verdict>, complete := 0, Tally(0, []), [], true;
    NoObject(tools.hash, replicas, m);
    if out != null {
      MidwayIsLaidOut(tools, x, 0, out.files, out.dirs, kept, 0);
      ChargedNothing(tools.hash, []);
    }
    for n := 0 to |m.objects|
      invariant verdicts == Verdicts(tools.hash, replicas, m.objects[..n])
      invariant complete == Complete(tools.hash, replicas, m.objects[..n])
      invariant Tallies(tally, AllBad(tools.hash, replicas, m.objects[..n]))
      invariant out != null ==>
        && out.Valid() && Midway(tools, x, n, out.files, out.dirs, kept, evidence) && Layout(out.files, out.dirs)
        && PathsFit(m, n) && Charged(tools.hash, [], AllWrong(tools.hash, replicas, m.objects[..n]), kept)
    {
      var g;
      NextObject(tools.hash, replicas, m, n);
      NextPath(m, n);
      if out != null {
        ChargedMore(tools.hash, [], AllWrong(tools.hash, replicas, m.objects[..n]), kept,
                    ObjectWrong(tools.hash, replicas, m.objects[n], |m.objects[n].chunks|));
      }
      g, evidence, kept, tally := RecoverNth(tools, x, m, n, replicas, out, evidence, kept, tally);
      if g.Raised? {
        if g.why != Interrupted && g.why != BadPath {
          AllWrongFront(tools.hash, replicas, m.objects, n + 1);
          SpilledStays(tools.hash, [], AllWrong(tools.hash, replicas, m.objects[..n + 1]),
                       AllWrong(tools.hash, replicas, m.objects), g.why);
        }
        return Raised(g.why);
      }
      verdicts, complete := verdicts + [Verdict(m.objects[n].path, g.value)], complete && g.value;
    }
    assert m.objects[..|m.objects|] == m.objects;
    if out != null {
      MidwayEnd(tools, x, out.files, out.dirs, kept, evidence);
      ChargedFits(tools.hash, AllWrong(tools.hash, replicas, m.objects), kept);
    }
    return Ok((verdicts, complete, tally));
  }

  lemma NoObject(hash: Hasher, replicas: seq<Replica>, m: Manifest)
    ensures var none := m.objects[..0];
      && Verdicts(hash, replicas, none) == [] && Complete(hash, replicas, none)
      && Tallies(Tally(0, []), AllBad(hash, replicas, none)) && AllWrong(hash, replicas, none) == [] && PathsFit(m, 0)
  {
  }

  lemma MidwayIsLaidOut(tools: Tools, x: Inputs, n: nat, files: map<Place, Bytes>, dirs: set<Place>,
                        kept: seq<Bytes>, evidence: int)
    requires n <= |x.m.objects| && Midway(tools, x, n, files, dirs, kept, evidence)
    ensures Layout(files, dirs)
  {
  }

  /** What is handed to one attempt. */
  datatype Attempt = Attempt(trust: Trust, now: int, mraw: Bytes, eraw: Bytes, expected: Digest, replicas: seq<Replica>,
                             available: int)

  function InputsOf(at: Attempt, m: Manifest, a: Anchor): Inputs {
    Inputs(at.trust, at.now, at.mraw, at.eraw, at.expected, m, a, at.replicas)
  }

  predicate AcceptedAs(tools: Tools, at: Attempt, m: Manifest, a: Anchor) {
    InputsAccepted(tools, InputsOf(at, m, a))
  }

  /** The directory is sound and empty and has room, and the number of replicas is allowed. */
  predicate Prepared(out: Directory, at: Attempt, m: Manifest)
    reads out
  {
    out.sound && out.IsEmpty() && 1 <= |at.replicas| <= 16 && at.available >= TotalSize(m.objects) + 33_554_432
  }

  /** Every payload path is valid, and every wrong chunk that will be read can be kept. */
  predicate Recoverable(hash: Hasher, at: Attempt, m: Manifest) {
    PathsFit(m, |m.objects|) && Fits(hash, AllWrong(hash, at.replicas, m.objects))
  }

  /** Why an attempt on a candidate may fail. */
  predicate Explained(hash: Hasher, at: Attempt, m: Manifest, sound: bool, empty: bool, why: Failure) {
    || why == NotAuthentic
    || (why == BadReplicaCount && !(1 <= |at.replicas| <= 16))
    || (why == NotEmpty && !empty)
    || (why == NoCapacity && at.available < TotalSize(m.objects) + 33_554_432)
    || (why == Interrupted && !sound)
    || (why == BadPath && !PathsFit(m, |m.objects|))
    || Spilled(hash, [], AllWrong(hash, at.replicas, m.objects), why)
  }

  /** Authenticates, then recovers every object from the replicas, into `out` when there is a candidate. The inputs it
      worked from are those it was given with the one manifest and anchor that are accepted. Whatever stops it, a ready
      marker never stands on less than the whole reconstruction from these inputs, and a candidate that is not empty is
      not touched. In a prepared candidate it succeeds exactly when everything can be written. */
  method Reconstruct(tools: Tools, at: Attempt, out: Directory?) returns (r: Result<Report>, ghost x: Inputs)
    requires out != null ==> out.Valid()
    modifies out
    ensures out != null ==> out.Valid()
    ensures out != null && old(!out.IsEmpty()) ==> r.Raised? && unchanged(out)
    ensures x == InputsOf(at, x.m, x.a)
    ensures r == Raised(NotAuthentic) <==> forall m, a :: !AcceptedAs(tools, at, m, a)
    ensures forall m, a :: AcceptedAs(tools, at, m, a) ==> x.m == m && x.a == a
    ensures out != null && old(out.IsEmpty()) ==> ReadySafe(tools, out.files, x)
    ensures r.Ok? ==>
      && InputsAccepted(tools, x) && 1 <= |at.replicas| <= 16 && r.value == ReportFor(tools, x)
      && (out != null ==> Recoverable(tools.hash, at, x.m) && Finished(tools, x, out.files))
    ensures r == Raised(BadReplicaCount) <==>
      (exists m, a :: AcceptedAs(tools, at, m, a)) && !(1 <= |at.replicas| <= 16)
    ensures r.Raised? && out != null ==> Explained(tools.hash, at, x.m, out.sound, old(out.IsEmpty()), r.why)
    ensures r.Raised? && out == null ==> r.why in {NotAuthentic, BadReplicaCount}
    ensures out != null && r.Raised? && r.why in {NotAuthentic, BadReplicaCount, NoCapacity} ==> unchanged(out)
    ensures out != null && InputsAccepted(tools, x) && 1 <= |at.replicas| <= 16 && old(out.IsEmpty()) ==>
      (r == Raised(NoCapacity) <==> at.available < TotalSize(x.m.objects) + 33_554_432)
    ensures out != null && InputsAccepted(tools, x) && old(Prepared(out, at, x.m)) ==>
      (r.Ok? <==> Recoverable(tools.hash, at, x.m))
  {
    hide Accepted, WellFormed, Layout, Midway, TopPlace, Opened, ReadyFor, Holding, Partial, Directory.Valid, ReportFor;
    hide Placed, Kept, Relative, PayloadWhole, EvidenceWhole, Fits, Spilled, AllWrong, PathsFit, Finished;
    x := InputsOf(at, Manifest("", at.expected, 0, 0, "", "", [], Attributes(0, 0, 0, []), [], []),
                  Anchor("", 0, 0, at.expected, at.expected, 0, 0, ""));
    NothingReady();
    var auth := Authenticate(tools, at.mraw, at.eraw, at.trust, at.expected, at.now);
    if auth.None? {
      return Raised(NotAuthentic), x;
    }
    var m := auth.value.0;
    x := InputsOf(at, m, auth.value.1);
    OnlyAccepted(tools, at, m, auth.value.1);
    if !(1 <= |at.replicas| <= MAX_REPLICAS) {
      return Raised(BadReplicaCount), x;
    }
    if out != null {
      if !out.IsEmpty() {
        return Raised(NotEmpty), x;
      }
      var total := ValidateManifest(m);
      if at.available < total.value + 4 * LIMIT {
        return Raised(NoCapacity), x;
      }
      var begun := Open(tools, out, at.mraw, at.eraw, at.expected);
      NoReadyYet(out.files, out.dirs);
      if begun.Raised? {
        return Raised(begun.why), x;
      }
      MidwayStart(tools, x, out.files);
    }
    var g := RecoverAll(tools, x, m, at.replicas, out);
    if out != null {
      NoReadyYet(out.files, out.dirs);
    }
    if g.Raised? {
      if g.why != Interrupted && g.why != BadPath {
        SpilledDoesNotFit(tools.hash, AllWrong(tools.hash, at.replicas, m.objects), g.why);
      }
      return Raised(g.why), x;
    }
    var (verdicts, complete, tally) := g.value;
    var report := Report(at.expected, m.node, m.generation, complete, m.pending, verdicts, tally.count, tally.bad);
    ReportIs(tools, x, report);
    if out != null {
      var closed := Close(tools, out, x, report, at.expected);
      if closed.Raised? {
        return Raised(closed.why), x;
      }
    }
    return Ok(report), x;
  }

  lemma NothingReady()
    ensures forall tools, x :: ReadySafe(tools, map[], x)
  {
    hide ReadyFor;
  }

  /** One envelope and one manifest file yield one accepted pair. */
  lemma OnlyAccepted(tools: Tools, at: Attempt, m: Manifest, a: Anchor)
    requires AcceptedAs(tools, at, m, a)
    ensures WellFormed(m) && forall n, b :: AcceptedAs(tools, at, n, b) ==> n == m && b == a
  {
    hide WellFormed, TrustValid, AnchorValid, AnchorBinds, SignaturesGood;
  }

  /** Nothing wrong read, or little enough without collisions: then only the paths decide. */
  lemma RecoverableWhenFew(hash: Hasher, at: Attempt, m: Manifest)
    requires CollisionFree(hash, AllWrong(hash, at.replicas, m.objects))
    requires TotalLength(AllWrong(hash, at.replicas, m.objects)) <= 16_777_216
    ensures Recoverable(hash, at, m) <==> PathsFit(m, |m.objects|)
  {
    hide PathsFit, Fits, AllWrong;
    FewEnoughFit(hash, AllWrong(hash, at.replicas, m.objects));
  }

  lemma RecoverableWhenNoneWrong(hash: Hasher, at: Attempt, m: Manifest)
    requires AllWrong(hash, at.replicas, m.objects) == []
    ensures Recoverable(hash, at, m) <==> PathsFit(m, |m.objects|)
  {
    hide PathsFit, Fits, AllWrong;
    RecoverableWhenFew(hash, at, m);
  }

  /** Any number of attempts on one candidate, each possibly cut off anywhere: a ready marker there, even a torn one,
      stands for the whole reconstruction from the inputs of one of them. */
  method Attempts(tools: Tools, out: Directory, attempts: seq<Attempt>)
    requires out.Valid() && out.IsEmpty()
    modifies out
    ensures out.Valid()
    ensures TopPlace(ReadyFile) in out.files ==> SomeReady(tools, out.files, attempts)
  {
    hide Directory.Valid, ReadyFor, TopPlace, Accepted, WellFormed, Finished, ReportFor, Recoverable, Spilled;
    for n := 0 to |attempts|
      invariant out.Valid()
      invariant TopPlace(ReadyFile) in out.files ==> SomeReady(tools, out.files, attempts[..n])
    {
      ghost var was, fresh' := out.files, out.IsEmpty();
      var r, x := Reconstruct(tools, attempts[n], out);
      if TopPlace(ReadyFile) in out.files {
        if fresh' {
          assert attempts[..n + 1][n] == attempts[n];
          assert ReadyFor(tools, out.files, InputsOf(attempts[..n + 1][n], x.m, x.a));
        } else {
          MoreAttempts(tools, out.files, attempts, n);
        }
      }
    }
    assert attempts[..|attempts|] == attempts;
  }

  /** The marker stands for the inputs of one of these attempts. */
  ghost predicate SomeReady(tools: Tools, files: map<Place, Bytes>, attempts: seq<Attempt>) {
    exists k, m, a :: 0 <= k < |attempts| && ReadyFor(tools, files, InputsOf(attempts[k], m, a))
  }

  lemma MoreAttempts(tools: Tools, files: map<Place, Bytes>, attempts: seq<Attempt>, n: nat)
    requires n < |attempts| && SomeReady(tools, files, attempts[..n])
    ensures SomeReady(tools, files, attempts[..n + 1])
  {
    hide ReadyFor;
    var k, m, a :| 0 <= k < n && ReadyFor(tools, files, InputsOf(attempts[..n][k], m, a));
    assert attempts[..n + 1][k] == attempts[..n][k];
  }

  lemma NextObject(hash: Hasher, replicas: seq<Replica>, m: Manifest, n: nat)
    requires n < |m.objects| && WellFormed(m)
    ensures var i := m.objects[n]; var before, after := m.objects[..n], m.objects[..n + 1];
      && Relative(i.path)
      && AllBad(hash, replicas, after) == AllBad(hash, replicas, before) + ObjectBad(hash, replicas, i, |i.chunks|)
      && AllWrong(hash, replicas, after) ==
         AllWrong(hash, replicas, before) + ObjectWrong(hash, replicas, i, |i.chunks|)
      && (Complete(hash, replicas, after) <==> Complete(hash, replicas, before) && Verified(hash, replicas, i))
      && Verdicts(hash, replicas, after) ==
         Verdicts(hash, replicas, before) + [Verdict(i.path, Verified(hash, replicas, i))]
  {
    hide Verified, Relative, ObjectBad, ObjectWrong, AttributesValid, TreeShaped, StatePresent, HeaderValid;
    var before, after := m.objects[..n], m.objects[..n + 1];
    assert EntryValid(m.objects[n]);
    assert after[..n] == before && after == before + [m.objects[n]];
    assert forall k :: 0 <= k < n ==> after[k] == before[k];
  }

  lemma NextPath(m: Manifest, n: nat)
    requires n < |m.objects|
    ensures PathsFit(m, n + 1) <==> PathsFit(m, n) && Relative(PayloadPath(m.objects[n].path))
    ensures PathsFit(m, |m.objects|) ==> PathsFit(m, n + 1)
  {
    hide Relative, PayloadPath;
  }

  lemma MidwayAllows(tools: Tools, x: Inputs, n: nat, files: map<Place, Bytes>, dirs: set<Place>,
                     kept: seq<Bytes>, evidence: int)
    requires n < |x.m.objects| && WellFormed(x.m) && Midway(tools, x, n, files, dirs, kept, evidence)
    ensures Layout(files, dirs) && Kept(tools.hash, files, kept, evidence)
    ensures PayloadFree(files, dirs, x.m.objects[n].path)
  {
    hide WellFormed, Layout, Kept, PayloadFree, Placed, Opened, Preserved;
    NextPayloadIsFree(tools.hash, x.replicas, x.m, n, files, dirs);
  }

  lemma PartialIsLaidOut(before: map<Place, Bytes>, dirs0: set<Place>, files: map<Place, Bytes>, dirs: set<Place>,
                         place: Place)
    requires Partial(before, dirs0, files, dirs, place)
    ensures Layout(files, dirs)
  {
  }

  lemma ReportIs(tools: Tools, x: Inputs, report: Report)
    requires var bad := AllBad(tools.hash, x.replicas, x.m.objects);
      && report.anchor == x.expected && report.node == x.m.node && report.generation == x.m.generation
      && report.pending == x.m.pending && Tallies(Tally(report.badCount, report.bad), bad)
      && report.objects == Verdicts(tools.hash, x.replicas, x.m.objects)
      && report.complete == Complete(tools.hash, x.replicas, x.m.objects)
    ensures report == ReportFor(tools, x)
  {
  }

  // ----- What a ready marker stands for, file by file

  lemma PreservedStands(hash: Hasher, files: map<Place, Bytes>, wrong: seq<Bytes>)
    requires Preserved(hash, files, wrong)
    ensures forall b :: b in wrong ==> StandsUnder(files, "evidence", hash(b), b)
  {
    forall b | b in wrong ensures StandsUnder(files, "evidence", hash(b), b) {
      HexSpells(hash(b));
      assert EvidencePlace(hash, b) == ["evidence", Hex(hash(b))];
    }
  }

  /** Beside a ready marker stand the two inputs, every object under its path with the size and digest the manifest
      gives, and every wrong read under the name its digest spells; and some replica supplied every chunk. */
  lemma ReadyMeans(tools: Tools, files: map<Place, Bytes>, x: Inputs)
    requires ReadyFor(tools, files, x)
    ensures ["manifest.json"] in files && files[["manifest.json"]] == x.mraw
    ensures ["anchor.json"] in files && files[["anchor.json"]] == x.eraw
    ensures ["intent.json"] in files && ["report.json"] in files && ["candidate-ready.json"] in files
    ensures forall k :: 0 <= k < |x.m.objects| ==>
      var i, place := x.m.objects[k], ["payload"] + Split(x.m.objects[k].path);
      place in files && |files[place]| == i.size && tools.hash(files[place]) == i.sha256
    ensures forall b :: b in AllWrong(tools.hash, x.replicas, x.m.objects) ==>
      StandsUnder(files, "evidence", tools.hash(b), b)
    ensures forall k, j :: 0 <= k < |x.m.objects| && 0 <= j < |x.m.objects[k].chunks| ==>
      Supplied(tools.hash, x.replicas, x.m.objects[k].chunks[j], ExpectedSize(x.m.objects[k], j))
  {
    hide InputsAccepted, AllWrong, Supplied, StandsUnder, Preserved, Kept, Split, Recover;
    PreservedStands(tools.hash, files, AllWrong(tools.hash, x.replicas, x.m.objects));
    forall k, j | 0 <= k < |x.m.objects| && 0 <= j < |x.m.objects[k].chunks|
      ensures Supplied(tools.hash, x.replicas, x.m.objects[k].chunks[j], ExpectedSize(x.m.objects[k], j))
    {
      assert Verified(tools.hash, x.replicas, x.m.objects[k]);
      IntactIff(tools.hash, x.replicas, x.m.objects[k], |x.m.objects[k].chunks|);
    }
  }
}
