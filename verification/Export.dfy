/** Export of a closed source tree into a content-addressed store, and what reconstruction makes of it. */
module Export {
  import opened Common
  import opened Paths
  import opened RecoveryIo
  import opened Evidence
  import opened Manifest
  import opened Cohort
  import opened Authentic
  import opened Inventory
  import opened Inspect
  import opened Reconstruct

  const OBJECTS := "objects"

  /** What the caller asks for: the header of the manifest and each object's path, class and intended mode. */
  datatype Wanted = Wanted(path: string, kind: string, mode: int)

  datatype Spec = Spec(node: string, cohort: Digest, generation: int, trustEpoch: int, catalogPath: string,
                       checkpointPath: string, pending: seq<string>, objects: seq<Wanted>)

  function ObjectPath(ch: Digest): string {
    OBJECTS + "/" + Hex(ch)
  }

  function ObjectPlace(ch: Digest): Place {
    [OBJECTS, Hex(ch)]
  }

  lemma ObjectSplits(ch: Digest)
    ensures Relative(ObjectPath(ch)) && Split(ObjectPath(ch)) == ObjectPlace(ch)
  {
    HexPath(OBJECTS, ch);
  }

  /** The store holds the first `n` chunks of a content under their digests. */
  ghost predicate Stored(hash: Hasher, files: map<Place, Bytes>, content: Bytes, n: nat) {
    forall k :: 0 <= k < n && k * CHUNK <= |content| ==>
      && ObjectPlace(hash(ChunkOf(content, k))) in files
      && files[ObjectPlace(hash(ChunkOf(content, k)))] == ChunkOf(content, k)
  }

  /** What lies at a chunk's place stands under the name that its digest spells. */
  lemma ObjectStands(ch: Digest)
    ensures forall files: map<Place, Bytes> :: ObjectPlace(ch) in files ==>
      StandsUnder(files, "objects", ch, files[ObjectPlace(ch)])
  {
    HexSpells(ch);
    assert ObjectPlace(ch) == ["objects", Hex(ch)];
    hide Hex, Spells;
  }

  lemma StoredStands(hash: Hasher, files: map<Place, Bytes>, content: Bytes, n: nat)
    requires Stored(hash, files, content, n)
    ensures forall k :: 0 <= k < n && k * CHUNK <= |content| ==>
      StandsUnder(files, "objects", hash(ChunkOf(content, k)), ChunkOf(content, k))
  {
    hide ObjectPlace, StandsUnder, ChunkOf;
    forall k | 0 <= k < n && k * CHUNK <= |content|
      ensures StandsUnder(files, "objects", hash(ChunkOf(content, k)), ChunkOf(content, k))
    {
      ObjectStands(hash(ChunkOf(content, k)));
    }
  }

  /** Nothing that was in the store is changed or lost. */
  ghost predicate Grows(before: map<Place, Bytes>, after: map<Place, Bytes>) {
    forall p :: p in before ==> p in after && after[p] == before[p]
  }

  lemma StoredStays(hash: Hasher, before: map<Place, Bytes>, after: map<Place, Bytes>, content: Bytes, n: nat)
    requires Stored(hash, before, content, n) && Grows(before, after)
    ensures Stored(hash, after, content, n)
  {
  }

  /** The output holds nothing but these chunks, each under its digest. */
  ghost predicate HoldsOnly(hash: Hasher, files: map<Place, Bytes>, dirs: set<Place>, pool: iset<Bytes>) {
    && dirs <= {[OBJECTS]}
    && forall p :: p in files ==> files[p] in pool && p == ObjectPlace(hash(files[p]))
  }

  /** Chunks that can all be stored: short enough, and no two under one digest. */
  ghost predicate Storable(hash: Hasher, pool: iset<Bytes>) {
    && (forall x :: x in pool ==> |x| <= CHUNK)
    && forall x, y :: x in pool && y in pool && hash(x) == hash(y) ==> x == y
  }

  lemma PlacesDiffer(d: Digest, e: Digest)
    requires ObjectPlace(d) == ObjectPlace(e)
    ensures d == e
  {
    assert ObjectPlace(d)[1] == ObjectPlace(e)[1];
    HexIsInjective(d, e);
  }

  // ----- One object

  /** Reads up to a chunk from an open file, in as many short reads as it takes. */
  method ReadChunkAt(content: Bytes, at: nat) returns (b: Bytes)
    requires at < |content|
    ensures b == content[at..Min(at + CHUNK, |content|)]
  {
    var goal := Min(CHUNK, |content| - at);
    b := [];
    while |b| < goal
      invariant |b| <= goal && b == content[at..at + |b|]
      decreases goal - |b|
    {
      var n: nat :| 1 <= n <= goal - |b|;
      b := b + content[at + |b|..at + |b| + n];
    }
  }

  /** Writes a chunk under its digest, or finds the same bytes already there; `w` is how the writing went. */
  method StoreChunk(hash: Hasher, out: Directory, ch: Digest, b: Bytes, ghost pool: iset<Bytes>)
    returns (r: Result<()>, ghost w: Result<()>)
    requires out.Valid() && ch == hash(b)
    modifies out
    ensures out.Valid() && Grows(old(out.files), out.files)
    ensures r.Ok? ==> ObjectPlace(ch) in out.files && out.files[ObjectPlace(ch)] == b
    ensures r.Ok? ==> w.Ok? || w == Raised(Exists)
    ensures r.Ok? ==> StandsUnder(out.files, "objects", ch, b)
    ensures out.sound && old(HoldsOnly(hash, out.files, out.dirs, pool)) && Storable(hash, pool) && b in pool ==>
      r.Ok? && HoldsOnly(hash, out.files, out.dirs, pool)
  {
    hide Directory.Valid, Relative, Hex, Storable, HoldsOnly, ObjectPlace, Above, StandsUnder;
    ObjectSplits(ch);
    ObjectStands(ch);
    ObjectAbove(ch);
    ghost var only := HoldsOnly(hash, out.files, out.dirs, pool) && Storable(hash, pool) && b in pool;
    if only {
      ChunkPlaces(hash, out.files, out.dirs, pool, b);
    }
    var written := out.WriteNew(ObjectPath(ch), b);
    w := written;
    if written.Ok? {
      if only {
        ChunkAdded(hash, old(out.files), old(out.dirs), out.dirs, pool, b);
      }
      return Ok(()), w;
    }
    if written.why != Exists {
      return Raised(written.why), w;
    }
    var there := out.Read(ObjectPath(ch), CHUNK);
    if there.Raised? {
      return Raised(there.why), w;
    }
    return if there.value == b then Ok(()) else Raised(Failure.Mismatch), w;
  }

  /** In an output of chunks, nothing but the chunk itself can stand at its place, and no file above it. */
  lemma ChunkPlaces(hash: Hasher, files: map<Place, Bytes>, dirs: set<Place>, pool: iset<Bytes>, b: Bytes)
    requires HoldsOnly(hash, files, dirs, pool) && Storable(hash, pool) && b in pool
    ensures var p := ObjectPlace(hash(b)); p !in dirs + {[OBJECTS]} && (p in files ==> files[p] == b) && |b| <= CHUNK
    ensures [OBJECTS] !in files && forall d :: dirs <= d <= dirs + {[OBJECTS]} ==> HoldsOnly(hash, files, d, pool)
  {
    hide Hex;
    var p := ObjectPlace(hash(b));
    if p in files {
      PlacesDiffer(hash(b), hash(files[p]));
    }
  }

  lemma ChunkAdded(hash: Hasher, files: map<Place, Bytes>, dirs: set<Place>, more: set<Place>, pool: iset<Bytes>,
                   b: Bytes)
    requires HoldsOnly(hash, files, dirs, pool) && b in pool && dirs <= more <= dirs + {[OBJECTS]}
    ensures HoldsOnly(hash, files[ObjectPlace(hash(b)) := b], more, pool)
  {
    hide Hex, ObjectPlace;
  }

  lemma ObjectAbove(ch: Digest)
    ensures Above(ObjectPlace(ch)) == {[OBJECTS]}
  {
    hide Hex;
    var p := ObjectPlace(ch);
    assert p[..1] == [OBJECTS];
    assert Above(p) == {p[..1]};
  }

  ghost predicate ChunksIn(content: Bytes, pool: iset<Bytes>) {
    forall k: nat :: k * CHUNK < |content| ==> ChunkOf(content, k) in pool
  }

  lemma ChunkAt(content: Bytes, k: nat)
    requires k * CHUNK < |content|
    ensures ChunkOf(content, k) == content[k * CHUNK..Min(k * CHUNK + CHUNK, |content|)]
  {
  }

  lemma NothingStored(hash: Hasher, files: map<Place, Bytes>, content: Bytes)
    ensures Stored(hash, files, content, 0)
  {
  }

  lemma StoredNext(hash: Hasher, before: map<Place, Bytes>, after: map<Place, Bytes>, content: Bytes, n: nat)
    requires n * CHUNK <= |content| && Stored(hash, before, content, n) && Grows(before, after)
    requires var b := ChunkOf(content, n); ObjectPlace(hash(b)) in after && after[ObjectPlace(hash(b))] == b
    ensures Stored(hash, after, content, n + 1)
  {
    hide ChunkOf, ObjectPlace;
  }

  /** Copies one file into the store chunk by chunk, hashing the whole and each chunk. */
  method ExportContent(hash: Hasher, content: Bytes, out: Directory, ghost pool: iset<Bytes>)
    returns (r: Result<(Digest, seq<Digest>)>)
    requires out.Valid()
    modifies out
    ensures out.Valid() && Grows(old(out.files), out.files)
    ensures
      out.sound && old(HoldsOnly(hash, out.files, out.dirs, pool)) && Storable(hash, pool) && ChunksIn(content, pool)
      ==> r.Ok? && HoldsOnly(hash, out.files, out.dirs, pool)
    ensures r.Ok? ==>
      && r.value.0 == hash(content) && |r.value.1| == (|content| + CHUNK - 1) / CHUNK
      && (forall k :: 0 <= k < |r.value.1| ==> r.value.1[k] == hash(ChunkOf(content, k)))
      && Stored(hash, out.files, content, |r.value.1|)
  {
    hide Directory.Valid, Hex, ObjectPlace, HoldsOnly, Storable, Stored, ChunkOf;
    ghost var only := out.sound && HoldsOnly(hash, out.files, out.dirs, pool) && Storable(hash, pool)
                      && ChunksIn(content, pool);
    var count, hashed: Bytes, chunks: seq<Digest> := 0, [], [];
    NothingStored(hash, out.files, content);
    while count < |content|
      invariant out.Valid() && Grows(old(out.files), out.files)
      invariant count == Min(|chunks| * CHUNK, |content|) && hashed == content[..count]
      invariant |chunks| * CHUNK < |content| + CHUNK
      invariant forall k :: 0 <= k < |chunks| ==> chunks[k] == hash(ChunkOf(content, k))
      invariant Stored(hash, out.files, content, |chunks|)
      invariant only ==> HoldsOnly(hash, out.files, out.dirs, pool)
      decreases |content| - count
    {
      var b := ReadChunkAt(content, count);
      ChunkAt(content, |chunks|);
      var ch := hash(b);
      hashed, count := hashed + b, count + |b|;
      ghost var before := out.files;
      ghost var w;
      var s;
      s, w := StoreChunk(hash, out, ch, b, pool);
      if s.Raised? {
        return Raised(s.why);
      }
      StoredNext(hash, before, out.files, content, |chunks|);
      chunks := chunks + [ch];
    }
    assert hashed == content;
    return Ok((hash(hashed), chunks));
  }

  // ----- The whole source

  function WantedPaths(spec: Spec): seq<string> {
    seq(|spec.objects|, k requires 0 <= k < |spec.objects| => spec.objects[k].path)
  }

  predicate SpecValid(spec: Spec) {
    && Ident(spec.node) && 1 <= spec.generation <= MAX_INTEGER && 1 <= spec.trustEpoch <= MAX_INTEGER
    && 1 <= |spec.objects| <= MAX_OBJECTS
    && (forall k :: 0 <= k < |spec.objects| ==>
          Relative(spec.objects[k].path) && 0 <= spec.objects[k].mode <= 0x1ff && spec.objects[k].kind in KINDS)
    && Distinct(WantedPaths(spec))
  }

  /** The source's check of what was asked for, object by object, and then for a path that was asked for twice. */
  method CheckSpec(spec: Spec) returns (ok: bool)
    ensures ok <==> SpecValid(spec)
  {
    hide Ident, Relative;
    var named := CheckIdent(spec.node);
    if !named || !(0 < spec.generation < 0x8000_0000_0000_0000) || !(0 < spec.trustEpoch < 0x8000_0000_0000_0000)
       || |spec.objects| == 0 || |spec.objects| > 16_384 {
      return false;
    }
    var seen: set<string>, doubled := {}, false;
    for k := 0 to |spec.objects|
      invariant forall j :: 0 <= j < k ==> Relative(spec.objects[j].path) && 0 <= spec.objects[j].mode <= 0x1ff
      invariant forall j :: 0 <= j < k ==> spec.objects[j].kind in KINDS
      invariant seen == set j | 0 <= j < k :: spec.objects[j].path
      invariant doubled <==> exists i, j :: 0 <= i < j < k && spec.objects[i].path == spec.objects[j].path
    {
      var w := spec.objects[k];
      var relative := CheckRelative(w.path);
      if !relative || w.mode < 0 || w.mode > 511
         || !(w.kind in {"managed-file", "catalog", "checkpoint", "journal", "audit"}) {
        return false;
      }
      doubled := doubled || w.path in seen;
      seen := seen + {w.path};
    }
    assert doubled <==> !Distinct(WantedPaths(spec)) by {
      if !Distinct(WantedPaths(spec)) {
        var i, j :| 0 <= i < j < |spec.objects| && WantedPaths(spec)[i] == WantedPaths(spec)[j];
        assert spec.objects[i].path == spec.objects[j].path;
      }
      if doubled {
        var i, j :| 0 <= i < j < |spec.objects| && spec.objects[i].path == spec.objects[j].path;
        assert WantedPaths(spec)[i] == WantedPaths(spec)[j];
      }
    }
    ok := !doubled;
  }

  function ContentAt(t: Tree, path: string): Bytes {
    match Inventory.At(t, path)
    case Some(File(content, _)) => content
    case _ => []
  }

  /** The entry is the tree's file of that path, described chunk by chunk, and the store holds every chunk. */
  ghost predicate Exported(hash: Hasher, t: Tree, files: map<Place, Bytes>, i: Entry) {
    && Matches(hash, t, i) && Describes(hash, i, ContentAt(t, i.path))
    && Stored(hash, files, ContentAt(t, i.path), |i.chunks|)
  }

  lemma ExportedStays(hash: Hasher, t: Tree, before: map<Place, Bytes>, after: map<Place, Bytes>, i: Entry)
    requires Exported(hash, t, before, i) && Grows(before, after)
    ensures Exported(hash, t, after, i)
  {
    hide Matches, Describes;
    StoredStays(hash, before, after, ContentAt(t, i.path), |i.chunks|);
  }

  // ----- What an export has to be

  predicate SameHeader(spec: Spec, m: Manifest) {
    && m.node == spec.node && m.cohort == spec.cohort && m.generation == spec.generation
    && m.trustEpoch == spec.trustEpoch && m.catalogPath == spec.catalogPath
    && m.checkpointPath == spec.checkpointPath && m.pending == spec.pending
  }

  /** The caller asked for this path, class and mode. */
  predicate IsWanted(spec: Spec, i: Entry) {
    exists w :: w in spec.objects && w.path == i.path && w.kind == i.kind && w.mode == i.attributes.mode
  }

  predicate FromSpec(spec: Spec, m: Manifest) {
    && SameHeader(spec, m) && ObjectPaths(m) == Sort(WantedPaths(spec))
    && forall k :: 0 <= k < |m.objects| ==> IsWanted(spec, m.objects[k])
  }

  ghost predicate IsChunk(t: Tree, paths: seq<string>, x: Bytes) {
    exists k, j: nat :: 0 <= k < |paths| && IsChunkOf(ContentAt(t, paths[k]), j, x)
  }

  predicate IsChunkOf(content: Bytes, j: nat, x: Bytes) {
    j * CHUNK < |content| && x == ChunkOf(content, j)
  }

  /** All chunks of these files. */
  ghost function Pool(t: Tree, paths: seq<string>): iset<Bytes> {
    iset x | IsChunk(t, paths, x)
  }

  /** `m` is the manifest of this source that the caller asked for, and its chunks can all be stored. */
  ghost predicate Exportable(tools: Tools, t: Tree, spec: Spec, m: Manifest) {
    && SpecValid(spec) && FromSpec(spec, m) && Presentable(tools, m) && Exact(tools.hash, m, t)
    && (forall k :: 0 <= k < |m.objects| ==> Describes(tools.hash, m.objects[k], ContentAt(t, m.objects[k].path)))
    && Storable(tools.hash, Pool(t, ObjectPaths(m)))
  }

  /** An entry is determined by its path, its class and the source. */
  lemma EntryDetermined(hash: Hasher, t: Tree, i: Entry, j: Entry)
    requires Matches(hash, t, i) && Describes(hash, i, ContentAt(t, i.path))
    requires Matches(hash, t, j) && Describes(hash, j, ContentAt(t, j.path))
    requires i.path == j.path && i.kind == j.kind
    ensures i == j
  {
    hide ChunkOf, Inventory.At;
    assert i.chunks == j.chunks;
  }

  predicate FolderReadable(t: Tree, d: string) {
    && Inventory.At(t, d).Some? && Inventory.At(t, d).value.Folder?
    && XattrsValid(Inventory.At(t, d).value.attributes.xattrs)
  }

  /** Lists the directories with their attributes; an unreadable attribute list is refused. */
  method ExportFolders(t: Tree, folders: seq<string>) returns (r: Result<seq<Listed>>)
    requires forall d :: d in folders ==> Inventory.At(t, d).Some? && Inventory.At(t, d).value.Folder?
    ensures r.Ok? ==>
      && |r.value| == |folders|
      && forall k :: 0 <= k < |folders| ==> r.value[k].path == folders[k] && FolderMatches(t, r.value[k])
    ensures r.Ok? <==> forall k :: 0 <= k < |folders| ==> FolderReadable(t, folders[k])
  {
    hide XattrsValid, Inventory.At;
    var listed: seq<Listed> := [];
    for k := 0 to |folders|
      invariant |listed| == k
      invariant forall j :: 0 <= j < k ==> listed[j].path == folders[j] && FolderMatches(t, listed[j])
      invariant forall j :: 0 <= j < k ==> FolderReadable(t, folders[j])
    {
      assert folders[k] in folders;
      var attributes := Inventory.At(t, folders[k]).value.attributes;
      var readable := CheckXattrs(attributes.xattrs);
      if !readable {
        return Raised(Changed);
      }
      listed := listed + [Listed.Listed(folders[k], attributes)];
    }
    return Ok(listed);
  }

  /** The wanted object is there as wanted, and its chunks belong to the pool. */
  ghost predicate Fine(t: Tree, w: Wanted, limit: int, pool: iset<Bytes>) {
    match Inventory.At(t, w.path)
    case Some(File(content, attributes)) =>
      |content| <= limit && attributes.mode == w.mode && XattrsValid(attributes.xattrs) && ChunksIn(content, pool)
    case _ => false
  }

  /** Exports one wanted object. */
  method ExportObject(hash: Hasher, t: Tree, w: Wanted, limit: int, out: Directory, ghost pool: iset<Bytes>)
    returns (r: Result<Entry>)
    requires out.Valid()
    modifies out
    ensures out.Valid() && Grows(old(out.files), out.files)
    ensures r.Ok? ==> r.value.path == w.path && 0 <= r.value.size <= limit && Exported(hash, t, out.files, r.value)
    ensures r.Ok? ==> r.value.kind == w.kind && r.value.attributes.mode == w.mode
    ensures
      out.sound && old(HoldsOnly(hash, out.files, out.dirs, pool)) && Storable(hash, pool) && Fine(t, w, limit, pool)
      ==> r.Ok? && HoldsOnly(hash, out.files, out.dirs, pool)
  {
    hide XattrsValid, Inventory.At, Stored, Directory.Valid, HoldsOnly, Storable, ChunksIn, ChunkOf;
    var found := Inventory.At(t, w.path);
    if found.None? || !found.value.File? || |found.value.content| > limit {
      return Raised(NotFound);
    }
    var content, attributes := found.value.content, found.value.attributes;
    var readable := CheckXattrs(attributes.xattrs);
    if attributes.mode != w.mode || !readable {
      return Raised(Changed);
    }
    var c := ExportContent(hash, content, out, pool);
    if c.Raised? {
      return Raised(c.why);
    }
    return Ok(Entry(w.path, w.kind, attributes, |content|, c.value.0, c.value.1));
  }

  /** The files in this order are those of an exportable manifest. */
  ghost predicate Heads(tools: Tools, t: Tree, spec: Spec, order: seq<string>, goal: Manifest) {
    order == ObjectPaths(goal) && Exportable(tools, t, spec, goal)
  }

  /** Exports every object in path order; `goal` is the manifest this may be heading for. */
  method ExportObjects(tools: Tools, t: Tree, spec: Spec, order: seq<string>, out: Directory, ghost goal: Manifest)
    returns (r: Result<seq<Entry>>)
    requires out.Valid() && (forall p :: p in order ==> p in WantedPaths(spec)) && Distinct(WantedPaths(spec))
    modifies out
    ensures out.Valid() && Grows(old(out.files), out.files)
    ensures r.Ok? ==>
      && |r.value| == |order|
      && forall k :: 0 <= k < |order| ==>
           r.value[k].path == order[k] && Exported(tools.hash, t, out.files, r.value[k]) && IsWanted(spec, r.value[k])
    ensures
      out.sound && old(HoldsOnly(tools.hash, out.files, out.dirs, Pool(t, order))) && Heads(tools, t, spec, order, goal)
      ==> r == Ok(goal.objects) && HoldsOnly(tools.hash, out.files, out.dirs, Pool(t, order))
  {
    hide Exported, Directory.Valid, WantedPaths, HoldsOnly, Exportable, Fine, Pool, IsWanted;
    ghost var pool := Pool(t, order);
    ghost var heading := out.sound && HoldsOnly(tools.hash, out.files, out.dirs, pool)
                         && Heads(tools, t, spec, order, goal);
    var objects: seq<Entry>, total := [], 0;
    for k := 0 to |order|
      invariant |objects| == k && total <= MAX_TOTAL
      invariant out.Valid() && Grows(old(out.files), out.files)
      invariant forall j :: 0 <= j < k ==>
        objects[j].path == order[j] && Exported(tools.hash, t, out.files, objects[j]) && IsWanted(spec, objects[j])
      invariant heading ==>
        && HoldsOnly(tools.hash, out.files, out.dirs, pool) && k <= |goal.objects| && objects == goal.objects[..k]
        && total == TotalSize(goal.objects[..k])
    {
      assert order[k] in order;
      WantedAt(spec, order[k]);
      var w :| w in spec.objects && w.path == order[k];
      ghost var before := out.files;
      if heading {
        NextIsFine(tools, t, spec, goal, w, k);
      }
      var e := ExportObject(tools.hash, t, w, MAX_TOTAL - total, out, pool);
      if e.Raised? {
        return Raised(e.why);
      }
      forall j | 0 <= j < k ensures Exported(tools.hash, t, out.files, objects[j]) {
        ExportedStays(tools.hash, t, before, out.files, objects[j]);
      }
      Asked(spec, w, e.value);
      if heading {
        NextIsGoal(tools, t, spec, goal, w, k, e.value, out.files);
      }
      objects, total := objects + [e.value], total + e.value.size;
    }
    if heading {
      assert goal.objects[..|goal.objects|] == goal.objects;
    }
    return Ok(objects);
  }

  lemma Asked(spec: Spec, w: Wanted, e: Entry)
    requires w in spec.objects && w.path == e.path && w.kind == e.kind && w.mode == e.attributes.mode
    ensures IsWanted(spec, e)
  {
  }

  lemma SameWanted(spec: Spec, w: Wanted, i: Entry)
    requires Distinct(WantedPaths(spec)) && w in spec.objects && w.path == i.path && IsWanted(spec, i)
    ensures w.kind == i.kind && w.mode == i.attributes.mode
  {
    var v :| v in spec.objects && v.path == i.path && v.kind == i.kind && v.mode == i.attributes.mode;
    var a :| 0 <= a < |spec.objects| && spec.objects[a] == w;
    var b :| 0 <= b < |spec.objects| && spec.objects[b] == v;
    assert WantedPaths(spec)[a] == WantedPaths(spec)[b];
  }

  lemma ChunksInPool(t: Tree, paths: seq<string>, k: nat)
    requires k < |paths|
    ensures ChunksIn(ContentAt(t, paths[k]), Pool(t, paths))
  {
    hide ChunkOf, ContentAt;
    var content := ContentAt(t, paths[k]);
    forall j: nat | j * CHUNK < |content| ensures ChunkOf(content, j) in Pool(t, paths) {
      assert IsChunkOf(ContentAt(t, paths[k]), j, ChunkOf(content, j));
    }
  }

  lemma NextIsFine(tools: Tools, t: Tree, spec: Spec, goal: Manifest, w: Wanted, k: nat)
    requires Exportable(tools, t, spec, goal) && k < |goal.objects|
    requires w in spec.objects && w.path == ObjectPaths(goal)[k]
    ensures Storable(tools.hash, Pool(t, ObjectPaths(goal)))
    ensures Fine(t, w, MAX_TOTAL - TotalSize(goal.objects[..k]), Pool(t, ObjectPaths(goal)))
  {
    hide Storable, ChunksIn, Pool, HeaderValid, TreeShaped, StatePresent, XattrsValid, IsWanted, Lists, Relative, Sort;
    hide DirectoriesValid, Inventory.At, Describes, AttributesExact;
    var i, paths := goal.objects[k], ObjectPaths(goal);
    assert EntryValid(i) && Matches(tools.hash, t, i) && IsWanted(spec, i);
    SameWanted(spec, w, i);
    TotalsGrow(goal.objects, k + 1);
    assert goal.objects[..k + 1][..k] == goal.objects[..k];
    ChunksInPool(t, paths, k);
  }

  lemma NextIsGoal(tools: Tools, t: Tree, spec: Spec, goal: Manifest, w: Wanted, k: nat, e: Entry,
                   files: map<Place, Bytes>)
    requires Exportable(tools, t, spec, goal) && k < |goal.objects|
    requires w in spec.objects && w.path == ObjectPaths(goal)[k] && e.path == w.path && e.kind == w.kind
    requires Exported(tools.hash, t, files, e)
    ensures e == goal.objects[k] && goal.objects[..k + 1] == goal.objects[..k] + [e]
    ensures TotalSize(goal.objects[..k + 1]) == TotalSize(goal.objects[..k]) + e.size
  {
    hide Storable, ChunkOf, WellFormed, IsWanted, Lists, Sort, Matches, Describes, Stored;
    var i := goal.objects[k];
    assert IsWanted(spec, i) && Matches(tools.hash, t, i);
    SameWanted(spec, w, i);
    EntryDetermined(tools.hash, t, e, i);
    assert goal.objects[..k + 1][..k] == goal.objects[..k];
  }

  lemma WantedAt(spec: Spec, path: string)
    requires path in WantedPaths(spec)
    ensures exists w :: w in spec.objects && w.path == path
  {
    var k :| 0 <= k < |spec.objects| && WantedPaths(spec)[k] == path;
    assert spec.objects[k] in spec.objects;
  }

  /** What is known of a source before copying. */
  datatype Survey = Survey(order: seq<string>, folders: seq<string>, listed: seq<Listed>)

  ghost predicate Surveyed(t: Tree, spec: Spec, v: Survey) {
    && SpecValid(spec) && v.order == Sort(WantedPaths(spec)) && Lists(t, v.order, v.folders)
    && |v.listed| == |v.folders| && Ascending(v.folders)
    && forall k :: 0 <= k < |v.folders| ==> v.listed[k].path == v.folders[k] && FolderMatches(t, v.listed[k])
  }

  /** Checks what was asked for against the source and reads the directories. */
  method SurveySource(tools: Tools, t: Tree, spec: Spec, ghost goal: Manifest) returns (r: Result<Survey>)
    requires Named(t.entries)
    ensures r.Ok? ==> Surveyed(t, spec, r.value)
    ensures Exportable(tools, t, spec, goal) ==>
      r.Ok? && r.value.order == ObjectPaths(goal) && r.value.folders == DirPaths(goal)
  {
    hide SpecValid, Exportable, WantedPaths, Inventory.At, Lists, FolderMatches, FolderReadable, XattrsValid;
    if Exportable(tools, t, spec, goal) {
      GoalPasses(tools, t, spec, goal);
    }
    var asked := CheckSpec(spec);
    if !asked {
      return Raised(BadManifest);
    }
    var inventory := ClosedInventory(t);
    SortedListing(t);
    if inventory.None? || inventory.value.0 != Sort(WantedPaths(spec)) {
      return Raised(NotClosed);
    }
    var (order, folders) := inventory.value;
    var readable := CheckXattrs(t.root.xattrs);
    if !readable {
      return Raised(Changed);
    }
    ListedFolders(t, order, folders);
    var listed := ExportFolders(t, folders);
    return if listed.Ok? then Ok(Survey.Survey(order, folders, listed.value)) else Raised(listed.why);
  }

  predicate Presentable(tools: Tools, m: Manifest) {
    WellFormed(m) && |tools.canonicalManifest(m)| <= LIMIT
  }

  /** Validates the manifest that was put together, compares the source once more and writes it. */
  method Finish(tools: Tools, t: Tree, v: Survey, m: Manifest, out: Directory, ghost pool: iset<Bytes>)
    returns (r: Result<Manifest>)
    requires out.Valid() && Named(t.entries) && ObjectPaths(m) == v.order && DirPaths(m) == v.folders
    requires Lists(t, v.order, v.folders) && Ascending(v.order) && Ascending(v.folders)
    modifies out
    ensures out.Valid() && Grows(old(out.files), out.files)
    ensures r.Ok? ==>
      && r.value == m && Presentable(tools, m)
      && TopPlace(ManifestFile) in out.files && out.files[TopPlace(ManifestFile)] == tools.canonicalManifest(m)
    ensures out.sound && old(HoldsOnly(tools.hash, out.files, out.dirs, pool)) && Presentable(tools, m) ==> r.Ok?
  {
    hide WellFormed, HoldsOnly, TopName, Lists, Directory.Valid, Relative, Ascending;
    var total := ValidateManifest(m);
    if total.None? {
      return Raised(BadManifest);
    }
    WellFormedShape(m);
    InventoryIsExact(t, v.order, v.folders);
    var again := ClosedInventory(t);
    if again != Some((ObjectPaths(m), DirPaths(m))) {
      return Raised(NotClosed);
    }
    var raw := tools.canonicalManifest(m);
    if |raw| > LIMIT {
      return Raised(TooLarge);
    }
    var w := WriteManifest(tools.hash, out, raw, pool);
    return if w.Ok? then Ok(m) else Raised(w.why);
  }

  /** The unsigned offline export of a quiescent source. When it succeeds, the manifest is the one asked for, describes
      the source exactly, and the store holds every chunk it names. Into a sound empty directory it succeeds whenever
      there is such a manifest at all. */
  method ExportSource(tools: Tools, t: Tree, spec: Spec, out: Directory) returns (r: Result<Manifest>)
    requires out.Valid() && Named(t.entries)
    modifies out
    ensures out.Valid()
    ensures old(!out.IsEmpty()) ==> r.Raised? && unchanged(out)
    ensures r.Ok? ==>
      && Exportable(tools, t, spec, r.value)
      && (forall k :: 0 <= k < |r.value.objects| ==> Exported(tools.hash, t, out.files, r.value.objects[k]))
      && TopPlace(ManifestFile) in out.files && out.files[TopPlace(ManifestFile)] == tools.canonicalManifest(r.value)
    ensures r.Ok? ==> ChunksStand(tools.hash, out.files, t, r.value)
    ensures out.sound && old(out.IsEmpty()) ==> (r.Ok? <==> exists m :: Exportable(tools, t, spec, m))
  {
    hide WellFormed, SpecValid, Exported, Directory.Valid, Lists, FolderMatches, TopName, WantedPaths;
    hide Exportable, HoldsOnly, IsWanted, Ascending, ChunksStand;
    if !out.IsEmpty() {
      return Raised(NotEmpty);
    }
    ghost var goal := AGoal(tools, t, spec);
    var survey := SurveySource(tools, t, spec, goal);
    if survey.Raised? {
      return Raised(survey.why);
    }
    var v := survey.value;
    SurveyShape(t, spec, v);
    ghost var pool := Pool(t, v.order);
    EmptyHoldsOnly(tools.hash, pool);
    var objects := ExportObjects(tools, t, spec, v.order, out, goal);
    if objects.Raised? {
      return Raised(objects.why);
    }
    var m := Manifest(spec.node, spec.cohort, spec.generation, spec.trustEpoch, spec.catalogPath, spec.checkpointPath,
                      spec.pending, t.root, v.listed, objects.value);
    if out.sound && Exportable(tools, t, spec, goal) {
      GoalReached(tools, t, spec, goal, m);
    }
    assert ObjectPaths(m) == v.order && DirPaths(m) == v.folders;
    ghost var before := out.files;
    r := Finish(tools, t, v, m, out, pool);
    if r.Ok? {
      forall k | 0 <= k < |m.objects| ensures Exported(tools.hash, t, out.files, m.objects[k]) {
        ExportedStays(tools.hash, t, before, out.files, m.objects[k]);
      }
      Achieved(tools, t, spec, m, out.files);
      ExportStands(tools.hash, t, out.files, m);
    }
  }

  /** Every chunk of every object's content, 64 KiB each but the last, stands in the store under its digest's name. */
  ghost predicate ChunksStand(hash: Hasher, files: map<Place, Bytes>, t: Tree, m: Manifest) {
    forall k, j: nat :: 0 <= k < |m.objects| && j * 65536 < |ContentAt(t, m.objects[k].path)| ==>
      ChunkStands(hash, files, ContentAt(t, m.objects[k].path), j)
  }

  ghost predicate ChunkStands(hash: Hasher, files: map<Place, Bytes>, content: Bytes, j: nat)
    requires j * 65536 < |content|
  {
    var b := if (j + 1) * 65536 <= |content| then content[j * 65536..(j + 1) * 65536] else content[j * 65536..];
    StandsUnder(files, "objects", hash(b), b)
  }

  lemma ExportStands(hash: Hasher, t: Tree, files: map<Place, Bytes>, m: Manifest)
    requires forall k :: 0 <= k < |m.objects| ==> Exported(hash, t, files, m.objects[k])
    ensures ChunksStand(hash, files, t, m)
  {
    hide Matches, ContentAt, StandsUnder, Stored;
    forall k, j: nat | 0 <= k < |m.objects| && j * 65536 < |ContentAt(t, m.objects[k].path)|
      ensures ChunkStands(hash, files, ContentAt(t, m.objects[k].path), j)
    {
      var content := ContentAt(t, m.objects[k].path);
      assert Exported(hash, t, files, m.objects[k]);
      StoredStands(hash, files, content, |m.objects[k].chunks|);
      assert ChunkOf(content, j) ==
             if (j + 1) * 65536 <= |content| then content[j * 65536..(j + 1) * 65536] else content[j * 65536..];
    }
  }

  lemma SurveyShape(t: Tree, spec: Spec, v: Survey)
    requires Surveyed(t, spec, v)
    ensures Distinct(WantedPaths(spec)) && Ascending(v.order) && Ascending(v.folders)
    ensures forall p :: p in v.order ==> p in WantedPaths(spec)
  {
    hide Lists, FolderMatches;
    SortDistinct(WantedPaths(spec));
  }

  /** Some exportable manifest, if there is one. */
  lemma AGoal(tools: Tools, t: Tree, spec: Spec) returns (goal: Manifest)
    ensures forall m :: Exportable(tools, t, spec, m) ==> Exportable(tools, t, spec, goal)
  {
    hide Exportable;
    if m :| Exportable(tools, t, spec, m) {
      goal := m;
    } else {
      goal := *;
    }
  }

  /** A source with an exportable manifest passes every check that comes before the copying. */
  lemma GoalPasses(tools: Tools, t: Tree, spec: Spec, goal: Manifest)
    requires Named(t.entries) && Exportable(tools, t, spec, goal)
    ensures SpecValid(spec) && PathsValid(t.entries, "") && Count(t.entries) <= MAX_ENTRIES
    ensures Sort(Files(t.entries, "")) == Sort(WantedPaths(spec)) == ObjectPaths(goal)
    ensures Sort(Folders(t.entries, "")) == DirPaths(goal) && XattrsValid(t.root.xattrs)
    ensures forall k :: 0 <= k < |DirPaths(goal)| ==> FolderReadable(t, DirPaths(goal)[k])
  {
    hide SpecValid, Relative, XattrsValid, Storable, Describes, Matches, IsWanted, Lists, PathsValid, Sort, Files;
    hide Folders;
    hide ObjectsValid, TreeShaped, StatePresent, Ascending;
    WellFormedShape(goal);
    InventoryIsExact(t, ObjectPaths(goal), DirPaths(goal));
    assert AttributesValid(goal.root, 0xfff);
    forall k | 0 <= k < |DirPaths(goal)| ensures FolderReadable(t, DirPaths(goal)[k]) {
      assert AttributesValid(goal.directories[k].attributes, 0xfff) && FolderMatches(t, goal.directories[k]);
    }
  }

  /** What was put together is the exportable manifest. */
  lemma GoalReached(tools: Tools, t: Tree, spec: Spec, goal: Manifest, m: Manifest)
    requires Exportable(tools, t, spec, goal) && SameHeader(spec, m) && m.root == t.root && m.objects == goal.objects
    requires |m.directories| == |goal.directories|
    requires forall k :: 0 <= k < |m.directories| ==>
      m.directories[k].path == goal.directories[k].path && FolderMatches(t, m.directories[k])
    ensures m == goal && Presentable(tools, m)
  {
    hide SpecValid, WellFormed, Storable, Describes, Matches, IsWanted, Lists, Sort;
    forall k | 0 <= k < |m.directories| ensures m.directories[k] == goal.directories[k] {
      assert FolderMatches(t, goal.directories[k]);
    }
    assert m.directories == goal.directories;
  }

  lemma EmptyHoldsOnly(hash: Hasher, pool: iset<Bytes>)
    ensures HoldsOnly(hash, map[], {}, pool)
  {
  }

  /** Writes the manifest beside the chunks. */
  method WriteManifest(hash: Hasher, out: Directory, raw: Bytes, ghost pool: iset<Bytes>) returns (w: Result<()>)
    requires out.Valid()
    modifies out
    ensures out.Valid() && Grows(old(out.files), out.files)
    ensures w.Ok? ==> TopPlace(ManifestFile) in out.files && out.files[TopPlace(ManifestFile)] == raw
    ensures out.sound && old(HoldsOnly(hash, out.files, out.dirs, pool)) ==> w.Ok?
  {
    hide Relative, Split, Directory.Valid, Hex, TopName;
    TopPath(ManifestFile);
    ManifestApart();
    hide TopPlace, Above;
    w := out.WriteNew(TopName(ManifestFile), raw);
  }

  lemma ManifestApart()
    ensures TopPlace(ManifestFile) != [OBJECTS] && forall ch :: TopPlace(ManifestFile) != ObjectPlace(ch)
  {
    hide Hex;
    assert TopName(ManifestFile)[0] != OBJECTS[0];
    forall ch ensures TopPlace(ManifestFile) != ObjectPlace(ch) {
      assert |TopPlace(ManifestFile)| == 1 && |ObjectPlace(ch)| == 2;
    }
  }

  /** A finished export was exportable: storing all chunks has shown that no two of them collide. */
  lemma Achieved(tools: Tools, t: Tree, spec: Spec, m: Manifest, files: map<Place, Bytes>)
    requires SpecValid(spec) && FromSpec(spec, m) && Presentable(tools, m)
    requires Lists(t, ObjectPaths(m), DirPaths(m)) && AttributesExact(m, t)
    requires forall k :: 0 <= k < |m.objects| ==> Exported(tools.hash, t, files, m.objects[k])
    ensures Exportable(tools, t, spec, m)
  {
    hide SpecValid, FromSpec, WellFormed, Lists, AttributesExact, Describes, Matches, Stored;
    ExportedMatches(tools.hash, t, files, m);
    AllStored(tools.hash, t, files, m);
    StoredIsStorable(tools.hash, files, Pool(t, ObjectPaths(m)));
  }

  lemma AllStored(hash: Hasher, t: Tree, files: map<Place, Bytes>, m: Manifest)
    requires forall k :: 0 <= k < |m.objects| ==> Exported(hash, t, files, m.objects[k])
    ensures forall x :: x in Pool(t, ObjectPaths(m)) ==>
      |x| <= CHUNK && ObjectPlace(hash(x)) in files && files[ObjectPlace(hash(x))] == x
  {
    hide Matches, ContentAt, Hex;
    forall x | x in Pool(t, ObjectPaths(m))
      ensures |x| <= CHUNK && ObjectPlace(hash(x)) in files && files[ObjectPlace(hash(x))] == x
    {
      var k, j: nat :| 0 <= k < |m.objects| && IsChunkOf(ContentAt(t, ObjectPaths(m)[k]), j, x);
      var i := m.objects[k];
      assert Exported(hash, t, files, i);
      assert j < |i.chunks|;
    }
  }

  lemma StoredIsStorable(hash: Hasher, files: map<Place, Bytes>, pool: iset<Bytes>)
    requires forall x :: x in pool ==> |x| <= CHUNK && ObjectPlace(hash(x)) in files && files[ObjectPlace(hash(x))] == x
    ensures Storable(hash, pool)
  {
  }

  lemma ListedFolders(t: Tree, files: seq<string>, folders: seq<string>)
    requires Lists(t, files, folders)
    ensures forall d :: d in folders ==> Inventory.At(t, d).Some? && Inventory.At(t, d).value.Folder?
  {
  }

  lemma ExportedMatches(hash: Hasher, t: Tree, files: map<Place, Bytes>, m: Manifest)
    requires forall k :: 0 <= k < |m.objects| ==> Exported(hash, t, files, m.objects[k])
    ensures forall k :: 0 <= k < |m.objects| ==>
      Matches(hash, t, m.objects[k]) && Describes(hash, m.objects[k], ContentAt(t, m.objects[k].path))
  {
  }

  // ----- Round trip

  /** Every chunk of every object is whole in some replica, and no replica has other bytes for its digest. */
  ghost predicate AllSurvive(hash: Hasher, replicas: seq<Replica>, t: Tree, m: Manifest) {
    forall k, j | 0 <= k < |m.objects| && 0 <= j < |m.objects[k].chunks| ::
      Describes(hash, m.objects[k], ContentAt(t, m.objects[k].path)) ==>
      ChunkSurvives(hash, replicas, m.objects[k], ContentAt(t, m.objects[k].path), j)
  }

  /** Export, lose all but one good copy of each chunk, reconstruct: the report is complete, the candidate is
      ready, and every payload file has the source's bytes. */
  lemma ExportReconstructRoundTrip(tools: Tools, t: Tree, store: map<Place, Bytes>, x: Inputs,
                                   candidate: map<Place, Bytes>)
    requires forall k :: 0 <= k < |x.m.objects| ==> Exported(tools.hash, t, store, x.m.objects[k])
    requires AllSurvive(tools.hash, x.replicas, t, x.m)
    requires Finished(tools, x, candidate)
    ensures ReportFor(tools, x).complete && TopPlace(ReadyFile) in candidate
    ensures forall k :: 0 <= k < |x.m.objects| ==>
      && PayloadPlace(x.m.objects[k].path) in candidate
      && candidate[PayloadPlace(x.m.objects[k].path)] == ContentAt(t, x.m.objects[k].path)
  {
    hide Describes, Verified, Recover, ContentAt, ReadyFor, AllBad, Verdicts, TopPlace, PayloadPlace, ChunkSurvives;
    ExportedMatches(tools.hash, t, store, x.m);
    forall k | 0 <= k < |x.m.objects|
      ensures Verified(tools.hash, x.replicas, x.m.objects[k])
      ensures Recover(tools.hash, x.replicas, x.m.objects[k], |x.m.objects[k].chunks|).bytes
              == ContentAt(t, x.m.objects[k].path)
    {
      var i := x.m.objects[k];
      forall j | 0 <= j < |i.chunks| ensures ChunkSurvives(tools.hash, x.replicas, i, ContentAt(t, i.path), j) {
      }
      ObjectRoundTrip(tools.hash, x.replicas, i, ContentAt(t, i.path));
    }
  }

  /** Reconstruction of an exported source: whenever every chunk survives somewhere, the candidate is prepared, all
      payload paths are valid and what wrong chunks there are can be kept, it finishes with the source's bytes. */
  method RecoverExport(tools: Tools, t: Tree, ghost store: map<Place, Bytes>, ghost m: Manifest, ghost a: Anchor,
                       at: Attempt, out: Directory) returns (r: Result<Report>)
    requires out.Valid() && AcceptedAs(tools, at, m, a)
    requires forall k :: 0 <= k < |m.objects| ==> Exported(tools.hash, t, store, m.objects[k])
    requires AllSurvive(tools.hash, at.replicas, t, m)
    requires Prepared(out, at, m) && Recoverable(tools.hash, at, m)
    modifies out
    ensures out.Valid() && r.Ok? && r.value.complete && TopPlace(ReadyFile) in out.files
    ensures forall k :: 0 <= k < |m.objects| ==>
      && PayloadPlace(m.objects[k].path) in out.files
      && out.files[PayloadPlace(m.objects[k].path)] == ContentAt(t, m.objects[k].path)
  {
    hide Exported, AllSurvive, InputsAccepted, Finished, ReportFor, PathsFit, Fits, TopPlace, PayloadPlace, ReadySafe;
    hide Directory.Valid, ContentAt, AllWrong, Spilled;
    ghost var x;
    r, x := Reconstruct.Reconstruct(tools, at, out);
    ExportReconstructRoundTrip(tools, t, store, x, out.files);
  }

  // ----- Inspection of an unchanged source

  /** Inspecting a source that is as it was exported always finds it complete, object by object. */
  lemma UnchangedExportIsComplete(tools: Tools, t: Tree, spec: Spec, m: Manifest, a: Anchor, mraw: Bytes, eraw: Bytes,
                                  trust: Trust, expected: Digest, now: int, r: Option<Inspection>)
    requires Exportable(tools, t, spec, m) && Accepted(tools, trust, expected, now, mraw, eraw, m, a)
    requires IsInspection(tools, mraw, eraw, trust, expected, now, t, r)
    ensures r.Some? && r.value.complete && r.value.inventoryExact && |r.value.objects| == |m.objects|
    ensures forall k :: 0 <= k < |m.objects| ==> r.value.objects[k] == (m.objects[k].path, Matched)
  {
    hide Accepted, Presentable, FromSpec, SpecValid, Storable, Describes, Lists, AttributesExact, Matches;
    assert Truthful(tools.hash, m, t, r.value);
  }
}
