/** The recovery manifest: its schema, its validation, and the tree it is bound to describe. */
module Manifest {
  import opened Common
  import opened Paths

  const CHUNK := 65536
  const MAX_CHUNKS := 65536
  const MAX_OBJECTS := 16384
  const MAX_TOTAL := CHUNK * MAX_CHUNKS
  const MAX_INTEGER := 0x7fff_ffff_ffff_ffff
  const MAX_ID := 0xffff_ffff
  const KINDS: set<string> := {"managed-file", "catalog", "checkpoint", "journal", "audit"}

  datatype Xattr = Xattr(name: string, value: Bytes)

  datatype Attributes = Attributes(mode: int, uid: int, gid: int, xattrs: seq<Xattr>)

  datatype Listed = Listed(path: string, attributes: Attributes)

  datatype Entry =
    Entry(path: string, kind: string, attributes: Attributes, size: int, sha256: Digest, chunks: seq<Digest>)

  datatype Manifest = Manifest(node: string, cohort: Digest, generation: int, trustEpoch: int, catalogPath: string,
                               checkpointPath: string, pending: seq<string>, root: Attributes,
                               directories: seq<Listed>, objects: seq<Entry>)

  // ----- Field checks

  predicate Ident(s: string) {
    1 <= |s| <= 96 && AlphaNumeric(s[0]) && forall c :: c in s ==> PlainChar(c) && c != '+' && c != '@'
  }

  function ValueBytes(attrs: seq<Xattr>): nat {
    if attrs == [] then 0 else ValueBytes(attrs[..|attrs| - 1]) + |attrs[|attrs| - 1].value|
  }

  function Names(attrs: seq<Xattr>): seq<string> {
    seq(|attrs|, i requires 0 <= i < |attrs| => attrs[i].name)
  }

  predicate XattrsValid(attrs: seq<Xattr>) {
    && |attrs| <= 256 && ValueBytes(attrs) <= 131072 && Ascending(Names(attrs))
    && forall a :: a in attrs ==> NameValid(a.name)
  }

  predicate NameValid(s: string) {
    1 <= |s| <= 255 && forall c :: c in s ==> PlainChar(c) && c != '+' && c != '@'
  }

  /** The source's `ident`. */
  method CheckIdent(s: string) returns (ok: bool)
    ensures ok <==> Ident(s)
  {
    if s == "" || |s| > 96 {
      return false;
    }
    for k := 0 to |s|
      invariant k > 0 ==> AlphaNumeric(s[0])
      invariant forall j :: 0 <= j < k ==> PlainChar(s[j]) && s[j] != '+' && s[j] != '@'
    {
      var c := s[k];
      var plain := 'a' <= c <= 'z' || 'A' <= c <= 'Z' || '0' <= c <= '9';
      if !plain && (k == 0 || !(c == '.' || c == '_' || c == '-')) {
        assert c in s;
        return false;
      }
    }
    ok := true;
  }

  /** The name check of `validate_xattrs`. */
  method CheckName(s: string) returns (ok: bool)
    ensures ok <==> NameValid(s)
  {
    if s == "" || |s| > 255 {
      return false;
    }
    for k := 0 to |s|
      invariant forall j :: 0 <= j < k ==> PlainChar(s[j]) && s[j] != '+' && s[j] != '@'
    {
      var c := s[k];
      if !('a' <= c <= 'z' || 'A' <= c <= 'Z' || '0' <= c <= '9' || c == '.' || c == '_' || c == '-') {
        assert c in s;
        return false;
      }
    }
    ok := true;
  }

  /** The source's `validate_xattrs`: every name, the bytes so far, and at the end the order of the names. */
  method CheckXattrs(attrs: seq<Xattr>) returns (ok: bool)
    ensures ok <==> XattrsValid(attrs)
  {
    hide NameValid, Ascending;
    if |attrs| > 256 {
      return false;
    }
    var names: seq<string>, total := [], 0;
    for k := 0 to |attrs|
      invariant names == Names(attrs[..k]) && total == ValueBytes(attrs[..k]) <= 131072
      invariant forall j :: 0 <= j < k ==> NameValid(attrs[j].name)
    {
      assert attrs[..k + 1][..k] == attrs[..k];
      var named := CheckName(attrs[k].name);
      if !named {
        assert attrs[k] in attrs;
        return false;
      }
      total := total + |attrs[k].value|;
      if total > 131_072 {
        ValueBytesGrow(attrs, k + 1);
        return false;
      }
      names := names + [attrs[k].name];
    }
    assert attrs[..|attrs|] == attrs;
    ok := Ascending(names);
  }

  lemma {:induction false} ValueBytesGrow(attrs: seq<Xattr>, k: nat)
    requires k <= |attrs|
    ensures ValueBytes(attrs[..k]) <= ValueBytes(attrs)
    decreases |attrs|
  {
    if k == |attrs| {
      assert attrs[..k] == attrs;
    } else {
      var front := attrs[..|attrs| - 1];
      assert front[..k] == attrs[..k];
      ValueBytesGrow(front, k);
    }
  }

  method CheckAttributes(a: Attributes, maxMode: int) returns (ok: bool)
    ensures ok <==> AttributesValid(a, maxMode)
  {
    if a.mode < 0 || a.mode > maxMode || a.uid < 0 || a.uid >= 0x1_0000_0000 || a.gid < 0 || a.gid >= 0x1_0000_0000 {
      return false;
    }
    ok := CheckXattrs(a.xattrs);
  }

  predicate AttributesValid(a: Attributes, maxMode: int) {
    0 <= a.mode <= maxMode && 0 <= a.uid <= MAX_ID && 0 <= a.gid <= MAX_ID && XattrsValid(a.xattrs)
  }

  predicate EntryValid(i: Entry) {
    && Relative(i.path) && i.kind in KINDS && AttributesValid(i.attributes, 0x1ff)
    && 0 <= i.size <= MAX_TOTAL && |i.chunks| == (i.size + CHUNK - 1) / CHUNK
  }

  predicate HeaderValid(m: Manifest) {
    && Ident(m.node) && 1 <= m.generation <= MAX_INTEGER && 1 <= m.trustEpoch <= MAX_INTEGER
    && Relative(m.catalogPath) && Relative(m.checkpointPath)
    && |m.pending| <= 4096 && Ascending(m.pending) && (forall x :: x in m.pending ==> Ident(x))
    && 1 <= |m.objects| <= MAX_OBJECTS && AttributesValid(m.root, 0xfff) && |m.directories| <= MAX_OBJECTS
  }

  function DirPaths(m: Manifest): seq<string> {
    seq(|m.directories|, i requires 0 <= i < |m.directories| => m.directories[i].path)
  }

  function PathsOf(objects: seq<Entry>): seq<string> {
    seq(|objects|, i requires 0 <= i < |objects| => objects[i].path)
  }

  function ObjectPaths(m: Manifest): seq<string> {
    PathsOf(m.objects)
  }

  function TotalSize(objects: seq<Entry>): int {
    if objects == [] then 0 else TotalSize(objects[..|objects| - 1]) + objects[|objects| - 1].size
  }

  function TotalChunks(objects: seq<Entry>): int {
    if objects == [] then 0 else TotalChunks(objects[..|objects| - 1]) + |objects[|objects| - 1].chunks|
  }

  /** Every proper ancestor of the path is a declared directory. */
  predicate AncestorsDeclared(path: string, dirs: seq<string>) {
    forall n :: 1 <= n < |Split(path)| ==> AncestorAt(path, n) in dirs
  }

  predicate NoFileAncestor(path: string, objects: seq<string>) {
    forall n :: 1 <= n < |Split(path)| ==> AncestorAt(path, n) !in objects
  }

  predicate HasKind(m: Manifest, path: string, kind: string) {
    exists i :: i in m.objects && i.path == path && i.kind == kind
  }

  predicate DirectoriesValid(m: Manifest) {
    && (forall k :: 0 <= k < |m.directories| ==>
          Relative(m.directories[k].path) && AttributesValid(m.directories[k].attributes, 0xfff))
    && Ascending(DirPaths(m))
  }

  predicate Distinct(xs: seq<string>) {
    forall i, j :: 0 <= i < j < |xs| ==> xs[i] != xs[j]
  }

  predicate ObjectsValid(m: Manifest) {
    && (forall k :: 0 <= k < |m.objects| ==> EntryValid(m.objects[k]))
    && Distinct(ObjectPaths(m))
    && TotalSize(m.objects) <= MAX_TOTAL && TotalChunks(m.objects) <= MAX_CHUNKS
  }

  /** Sorted files and directories, disjoint, with every ancestor declared. */
  predicate TreeShaped(dirs: seq<string>, paths: seq<string>) {
    && Ascending(paths)
    && (forall d :: d in dirs ==> d !in paths)
    && (forall k :: 0 <= k < |paths + dirs| ==> AncestorsDeclared((paths + dirs)[k], dirs))
  }

  predicate StatePresent(m: Manifest) {
    && HasKind(m, m.catalogPath, "catalog") && HasKind(m, m.checkpointPath, "checkpoint")
    && exists i :: i in m.objects && i.kind == "journal"
  }

  /** What a manifest must satisfy, apart from the check for a file used as an ancestor. */
  predicate WellFormed(m: Manifest) {
    && HeaderValid(m) && DirectoriesValid(m) && ObjectsValid(m)
    && TreeShaped(DirPaths(m), ObjectPaths(m)) && StatePresent(m)
  }

  lemma {:induction false} TotalsGrow(objects: seq<Entry>, k: nat)
    requires k <= |objects| && forall i :: 0 <= i < |objects| ==> objects[i].size >= 0
    ensures TotalSize(objects[..k]) <= TotalSize(objects) && TotalChunks(objects[..k]) <= TotalChunks(objects)
    decreases |objects|
  {
    if k == |objects| {
      assert objects[..k] == objects;
    } else {
      var front := objects[..|objects| - 1];
      assert front[..k] == objects[..k];
      TotalsGrow(front, k);
    }
  }

  method ListDirectories(m: Manifest) returns (r: Option<seq<string>>)
    ensures r == if DirectoriesValid(m) then Some(DirPaths(m)) else None
  {
    hide Relative, AttributesValid;
    var dirs: seq<string> := [];
    for k := 0 to |m.directories|
      invariant dirs == DirPaths(m)[..k]
      invariant forall j :: 0 <= j < k ==>
        Relative(m.directories[j].path) && AttributesValid(m.directories[j].attributes, 0xfff)
    {
      var d := m.directories[k];
      var relative := CheckRelative(d.path);
      if !relative {
        return None;
      }
      var valid := CheckAttributes(d.attributes, 4095);
      if !valid {
        return None;
      }
      dirs := dirs + [d.path];
    }
    assert dirs == DirPaths(m);
    return if Ascending(dirs) then Some(dirs) else None;
  }

  /** The source's dictionary of objects by path. */
  predicate IsTable(objects: map<string, Entry>, listed: seq<Entry>) {
    && (forall k :: 0 <= k < |listed| ==> listed[k].path in objects && objects[listed[k].path] == listed[k])
    && (forall p :: p in objects ==> objects[p].path == p && objects[p] in listed)
  }

  lemma TableGrows(objects: map<string, Entry>, listed: seq<Entry>, i: Entry)
    requires IsTable(objects, listed) && Distinct(PathsOf(listed))
    ensures Distinct(PathsOf(listed + [i])) <==> i.path !in objects
    ensures i.path !in objects ==> IsTable(objects[i.path := i], listed + [i])
  {
    var longer := PathsOf(listed + [i]);
    if i.path in objects {
      var j :| 0 <= j < |listed| && listed[j] == objects[i.path];
      assert longer[j] == longer[|listed|];
    } else {
      forall a, b | 0 <= a < b < |longer| ensures longer[a] != longer[b] {
        assert b < |listed| ==> PathsOf(listed)[a] != PathsOf(listed)[b];
      }
    }
  }

  lemma DistinctPrefix(listed: seq<Entry>, k: nat)
    requires k <= |listed| && Distinct(PathsOf(listed))
    ensures Distinct(PathsOf(listed[..k]))
  {
    forall a, b | 0 <= a < b < k ensures PathsOf(listed[..k])[a] != PathsOf(listed[..k])[b] {
      assert PathsOf(listed)[a] != PathsOf(listed)[b];
    }
  }

  /** The checks of one object. */
  method CheckEntry(i: Entry) returns (ok: bool)
    ensures ok <==> EntryValid(i)
  {
    hide Relative, AttributesValid;
    ok := CheckRelative(i.path);
    if !ok || !(i.kind in {"managed-file", "catalog", "checkpoint", "journal", "audit"}) {
      return false;
    }
    ok := CheckAttributes(i.attributes, 511);
    if !ok || i.size < 0 || i.size > 0x1_0000_0000 {
      return false;
    }
    ok := |i.chunks| == i.size / 65536 + (if i.size % 65536 == 0 then 0 else 1);
  }

  method TableObjects(m: Manifest) returns (r: Option<(map<string, Entry>, int)>)
    ensures r.Some? <==> ObjectsValid(m)
    ensures r.Some? ==> IsTable(r.value.0, m.objects) && r.value.1 == TotalSize(m.objects)
  {
    hide EntryValid, IsTable, Distinct, PathsOf;
    var objects: map<string, Entry>, total, chunks := map[], 0, 0;
    assert IsTable(objects, m.objects[..0]) && Distinct(PathsOf(m.objects[..0])) by { EmptyTable(); }
    for k := 0 to |m.objects|
      invariant forall j :: 0 <= j < k ==> EntryValid(m.objects[j])
      invariant IsTable(objects, m.objects[..k]) && Distinct(PathsOf(m.objects[..k]))
      invariant total == TotalSize(m.objects[..k]) && chunks == TotalChunks(m.objects[..k])
      invariant total <= MAX_TOTAL && chunks <= MAX_CHUNKS
    {
      var i := m.objects[k];
      assert m.objects[..k + 1] == m.objects[..k] + [i] && m.objects[..k + 1][..k] == m.objects[..k];
      TableGrows(objects, m.objects[..k], i);
      if i.path in objects {
        if ObjectsValid(m) {
          DistinctPrefix(m.objects, k + 1);
        }
        return None;
      }
      var valid := CheckEntry(i);
      if !valid {
        return None;
      }
      total, chunks, objects := total + i.size, chunks + |i.chunks|, objects[i.path := i];
      if total > MAX_TOTAL || chunks > MAX_CHUNKS {
        TooMuch(m, k + 1);
        return None;
      }
    }
    assert m.objects[..|m.objects|] == m.objects;
    return Some((objects, total));
  }

  lemma EmptyTable()
    ensures IsTable(map[], []) && Distinct(PathsOf([]))
  {
  }

  lemma TooMuch(m: Manifest, k: nat)
    requires k <= |m.objects|
    requires TotalSize(m.objects[..k]) > MAX_TOTAL || TotalChunks(m.objects[..k]) > MAX_CHUNKS
    ensures !ObjectsValid(m)
  {
    if ObjectsValid(m) {
      TotalsGrow(m.objects, k);
    }
  }

  method CheckPending(pending: seq<string>) returns (ok: bool)
    ensures ok <==> |pending| <= 4096 && Ascending(pending) && forall x :: x in pending ==> Ident(x)
  {
    hide Ident;
    if |pending| > 4096 || !Ascending(pending) {
      return false;
    }
    for k := 0 to |pending|
      invariant forall j :: 0 <= j < k ==> Ident(pending[j])
    {
      var named := CheckIdent(pending[k]);
      if !named {
        assert pending[k] in pending;
        return false;
      }
    }
    ok := true;
  }

  /** What is checked before the directories and objects one by one. */
  method CheckHeader(m: Manifest) returns (ok: bool)
    ensures ok <==> HeaderValid(m)
  {
    hide Ident, Relative, Ascending, AttributesValid;
    ok := CheckIdent(m.node);
    if !ok || !(0 < m.generation < 0x8000_0000_0000_0000) || !(0 < m.trustEpoch < 0x8000_0000_0000_0000) {
      return false;
    }
    ok := CheckRelative(m.catalogPath);
    if !ok {
      return;
    }
    ok := CheckRelative(m.checkpointPath);
    if !ok {
      return;
    }
    ok := CheckPending(m.pending);
    if !ok || |m.objects| == 0 || |m.objects| > 16_384 {
      return false;
    }
    ok := CheckAttributes(m.root, 4095);
    ok := ok && |m.directories| <= 16_384;
  }

  /** all('/'.join(path.split('/')[:n]) in dirs for n in range(1, len(path.split('/')))) */
  method CheckAncestors(path: string, dirs: seq<string>) returns (ok: bool)
    ensures ok <==> AncestorsDeclared(path, dirs)
  {
    var parts := Split(path);
    for n := 1 to |parts|
      invariant forall k :: 1 <= k < n ==> AncestorAt(path, k) in dirs
    {
      if Join(parts[..n]) !in dirs {
        assert AncestorAt(path, n) !in dirs;
        return false;
      }
    }
    ok := true;
  }

  /** Validates a manifest; Some is the total payload size, None is the source's rejection. The last loop is the
      source's separate check for a file used as an ancestor; FileAncestorImpossible shows it never fires. */
  method ValidateManifest(m: Manifest) returns (r: Option<int>)
    ensures r == if WellFormed(m) then Some(TotalSize(m.objects)) else None
  {
    hide HeaderValid, DirectoriesValid, ObjectsValid, AncestorsDeclared, NoFileAncestor, Ascending, TotalSize;
    var header := CheckHeader(m);
    if !header {
      return None;
    }
    var listed := ListDirectories(m);
    if listed.None? {
      return None;
    }
    var dirs := listed.value;
    var tabled := TableObjects(m);
    if tabled.None? {
      return None;
    }
    var (objects, total) := tabled.value;
    var paths := ObjectPaths(m);
    TableKeys(m, objects);
    if !Ascending(paths) {
      return None;
    }
    if exists d :: d in dirs && d in objects {
      return None;
    }
    for k := 0 to |paths + dirs|
      invariant forall j :: 0 <= j < k ==> AncestorsDeclared((paths + dirs)[j], dirs)
    {
      var declared := CheckAncestors((paths + dirs)[k], dirs);
      if !declared {
        return None;
      }
    }
    for k := 0 to |paths| {
      if !NoFileAncestor(paths[k], paths) {
        assert AncestorsDeclared((paths + dirs)[k], dirs);
        FileAncestorImpossible(paths, dirs, paths[k]);
        assert false;
      }
    }
    if !(m.catalogPath in objects && objects[m.catalogPath].kind == "catalog") {
      return None;
    }
    if !(m.checkpointPath in objects && objects[m.checkpointPath].kind == "checkpoint") {
      return None;
    }
    if !(exists i :: i in m.objects && i.kind == "journal") {
      return None;
    }
    return Some(total);
  }

  lemma TableKeys(m: Manifest, objects: map<string, Entry>)
    requires IsTable(objects, m.objects)
    ensures forall p :: p in ObjectPaths(m) <==> p in objects
    ensures forall p, kind :: HasKind(m, p, kind) <==> p in objects && objects[p].kind == kind
  {
    forall p ensures p in ObjectPaths(m) <==> p in objects {
      if p in ObjectPaths(m) {
        var k :| 0 <= k < |m.objects| && ObjectPaths(m)[k] == p;
      }
      if p in objects {
        var k :| 0 <= k < |m.objects| && m.objects[k] == objects[p];
        assert ObjectPaths(m)[k] == p;
      }
    }
    forall p, kind ensures HasKind(m, p, kind) <==> p in objects && objects[p].kind == kind {
      if HasKind(m, p, kind) {
        var i :| i in m.objects && i.path == p && i.kind == kind;
        var k :| 0 <= k < |m.objects| && m.objects[k] == i;
      }
    }
  }

  /** Disjoint files and directories with declared ancestors leave no file above another entry. */
  lemma FileAncestorImpossible(paths: seq<string>, dirs: seq<string>, p: string)
    requires forall d :: d in dirs ==> d !in paths
    requires AncestorsDeclared(p, dirs)
    ensures NoFileAncestor(p, paths)
  {
  }

  // ----- The tree

  /** An accepted manifest describes a tree: no object lies below another object, and none is a directory. */
  lemma ManifestDescribesTree(m: Manifest, i: nat, j: nat)
    requires WellFormed(m) && i < |m.objects| && j < |m.objects|
    ensures !IsAncestor(Split(m.objects[i].path), Split(m.objects[j].path))
    ensures i != j ==> Split(m.objects[i].path) != Split(m.objects[j].path)
    ensures forall k :: 0 <= k < |m.directories| ==>
      && Split(m.directories[k].path) != Split(m.objects[i].path)
      && !IsAncestor(Split(m.objects[i].path), Split(m.directories[k].path))
  {
    hide Relative, EntryValid, HeaderValid, StatePresent;
    var paths, dirs := ObjectPaths(m), DirPaths(m);
    assert (paths + dirs)[j] == paths[j] == m.objects[j].path && paths[i] in paths;
    NotAbove(m, m.objects[i].path, paths[j]);
    assert paths[i] == m.objects[i].path;
    if i < j {
      AscendingPairs(paths, i, j);
    } else if j < i {
      AscendingPairs(paths, j, i);
    }
    if i != j && Split(paths[i]) == Split(paths[j]) {
      SplitIsInjective(paths[i], paths[j]);
    }
    forall k | 0 <= k < |m.directories|
      ensures Split(m.directories[k].path) != Split(m.objects[i].path)
      ensures !IsAncestor(Split(m.objects[i].path), Split(m.directories[k].path))
    {
      assert (paths + dirs)[|paths| + k] == dirs[k] == m.directories[k].path;
      NotAbove(m, paths[i], dirs[k]);
      assert dirs[k] in dirs;
      if Split(dirs[k]) == Split(paths[i]) {
        SplitIsInjective(dirs[k], paths[i]);
      }
    }
  }

  lemma NotAbove(m: Manifest, p: string, q: string)
    requires TreeShaped(DirPaths(m), ObjectPaths(m)) && p in ObjectPaths(m)
    requires AncestorsDeclared(q, DirPaths(m))
    ensures !IsAncestor(Split(p), Split(q))
  {
    if IsAncestor(Split(p), Split(q)) {
      var n := |Split(p)|;
      AncestorSplits(q, n);
      SplitIsInjective(AncestorAt(q, n), p);
    }
  }
}
