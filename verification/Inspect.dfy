/** Exact comparison of a live source with the anchored manifest. */
module Inspect {
  import opened Common
  import opened Paths
  import opened Manifest
  import opened Inventory
  import opened Authentic

  datatype Finding = Matched | Mismatch | Unsafe

  datatype Inspection = Inspection(objects: seq<(string, Finding)>, complete: bool, inventoryExact: bool)

  /** The tree has this object as a regular file of the same content digest, size, mode, owner and xattrs. */
  predicate Matches(hash: Hasher, t: Tree, i: Entry) {
    var found := At(t, i.path);
    && found.Some? && found.value.File? && found.value.attributes == i.attributes
    && |found.value.content| == i.size && hash(found.value.content) == i.sha256
  }

  predicate FolderMatches(t: Tree, d: Listed) {
    At(t, d.path).Some? && At(t, d.path).value.Folder? && At(t, d.path).value.attributes == d.attributes
  }

  predicate AttributesExact(m: Manifest, t: Tree) {
    t.root == m.root && forall k :: 0 <= k < |m.directories| ==> FolderMatches(t, m.directories[k])
  }

  /** The tree is exactly what the manifest describes: no entry more, none less, none different. */
  ghost predicate Exact(hash: Hasher, m: Manifest, t: Tree) {
    && Lists(t, ObjectPaths(m), DirPaths(m)) && AttributesExact(m, t)
    && forall k :: 0 <= k < |m.objects| ==> Matches(hash, t, m.objects[k])
  }

  /** The object cannot be read as it should be: it is missing, no regular file or too long, or it agrees in everything
      but carries extended attributes outside the bounds. */
  predicate Refused(hash: Hasher, t: Tree, i: Entry) {
    match At(t, i.path)
    case Some(File(content, attributes)) =>
      || |content| > i.size
      || (|content| == i.size && hash(content) == i.sha256 && attributes.(xattrs := i.attributes.xattrs) == i.attributes
          && !XattrsValid(attributes.xattrs))
    case _ => true
  }

  /** Reads at most one byte more than expected, hashing as it goes. */
  method InspectObject(hash: Hasher, t: Tree, i: Entry) returns (f: Finding)
    requires XattrsValid(i.attributes.xattrs)
    ensures f == Matched <==> Matches(hash, t, i)
    ensures f == Unsafe <==> Refused(hash, t, i)
  {
    hide XattrsValid, At;
    var found := At(t, i.path);
    if found.None? || !found.value.File? || |found.value.content| > i.size {
      return Unsafe;
    }
    var content, attributes := found.value.content, found.value.attributes;
    var data: Bytes := [];
    while |data| <= i.size
      invariant data <= content
      decreases |content| - |data|
    {
      var want := Min(CHUNK, i.size + 1 - |data|);
      var left := |content| - |data|;
      assert want >= 1;
      var n: nat :| n <= left && n <= want && (left > 0 ==> n > 0);
      if n == 0 {
        break;
      }
      data := data + content[|data|..|data| + n];
    }
    assert data == content;
    if |data| != i.size || hash(data) != i.sha256 || attributes.mode != i.attributes.mode
       || attributes.uid != i.attributes.uid || attributes.gid != i.attributes.gid {
      return Mismatch;
    }
    var readable := CheckXattrs(attributes.xattrs);
    if !readable {
      return Unsafe;
    }
    return if attributes.xattrs == i.attributes.xattrs then Matched else Mismatch;
  }

  /** all(directory_attributes(source, d['path']) == d['attributes'] ...), the root first. */
  method CompareAttributes(m: Manifest, t: Tree) returns (exact: bool)
    ensures exact <==> AttributesExact(m, t)
  {
    hide At;
    if t.root != m.root {
      return false;
    }
    for k := 0 to |m.directories|
      invariant forall j :: 0 <= j < k ==> FolderMatches(t, m.directories[j])
    {
      var found := At(t, m.directories[k].path);
      if found.None? || !found.value.Folder? || found.value.attributes != m.directories[k].attributes {
        return false;
      }
    }
    exact := true;
  }

  /** What the inspection says is so: complete for an exact source, and object by object. */
  ghost predicate Truthful(hash: Hasher, m: Manifest, t: Tree, r: Inspection) {
    && (r.complete <==> Exact(hash, m, t))
    && (r.inventoryExact <==> Lists(t, ObjectPaths(m), DirPaths(m)) && AttributesExact(m, t))
    && |r.objects| == |m.objects|
    && forall k :: 0 <= k < |m.objects| ==>
         && r.objects[k].0 == m.objects[k].path && (r.objects[k].1 == Matched <==> Matches(hash, t, m.objects[k]))
         && (r.objects[k].1 == Unsafe <==> Refused(hash, t, m.objects[k]))
  }

  /** There is a result exactly for an accepted manifest and anchor, and it tells the truth about that manifest. */
  ghost predicate IsInspection(tools: Tools, mraw: Bytes, eraw: Bytes, trust: Trust, expected: Digest, now: int,
                               t: Tree, r: Option<Inspection>) {
    && (r.Some? <==> exists m, a :: Accepted(tools, trust, expected, now, mraw, eraw, m, a))
    && (r.Some? ==>
          forall m, a :: Accepted(tools, trust, expected, now, mraw, eraw, m, a) ==>
            Truthful(tools.hash, m, t, r.value))
  }

  /** The source's inspect_original over a quiescent source; None is a refused anchor or manifest. */
  method InspectOriginal(tools: Tools, mraw: Bytes, eraw: Bytes, trust: Trust, expected: Digest, now: int, t: Tree)
    returns (r: Option<Inspection>)
    requires Named(t.entries)
    ensures IsInspection(tools, mraw, eraw, trust, expected, now, t, r)
  {
    hide Accepted, Matches, Refused, AttributesExact, Lists, WellFormed, Relative;
    var auth := Authenticate(tools, mraw, eraw, trust, expected, now);
    if auth.None? {
      return None;
    }
    var manifest := auth.value.0;
    AcceptedShape(tools, trust, expected, now, mraw, eraw, manifest, auth.value.1);
    var items: seq<(string, Finding)> := [];
    var before := ClosedInventory(t);
    for k := 0 to |manifest.objects|
      invariant |items| == k
      invariant forall j :: 0 <= j < k ==>
        items[j].0 == manifest.objects[j].path
        && (items[j].1 == Matched <==> Matches(tools.hash, t, manifest.objects[j]))
        && (items[j].1 == Unsafe <==> Refused(tools.hash, t, manifest.objects[j]))
    {
      var f := InspectObject(tools.hash, t, manifest.objects[k]);
      items := items + [(manifest.objects[k].path, f)];
    }
    var after := ClosedInventory(t);
    var attrsExact := CompareAttributes(manifest, t);
    InventoryIsExact(t, ObjectPaths(manifest), DirPaths(manifest));
    var exact := before == after == Some((ObjectPaths(manifest), DirPaths(manifest))) && attrsExact;
    var matched := forall k :: 0 <= k < |items| ==> items[k].1 == Matched;
    r := Some(Inspection(items, exact && matched, exact));
    forall m, a | Accepted(tools, trust, expected, now, mraw, eraw, m, a) ensures m == manifest {
      OneManifest(tools, trust, expected, now, mraw, eraw, m, a, manifest, auth.value.1);
    }
  }

  lemma OneManifest(tools: Tools, trust: Trust, expected: Digest, now: int, mraw: Bytes, eraw: Bytes,
                    m: Manifest, a: Anchor, n: Manifest, b: Anchor)
    requires Accepted(tools, trust, expected, now, mraw, eraw, m, a)
    requires Accepted(tools, trust, expected, now, mraw, eraw, n, b)
    ensures m == n
  {
    hide WellFormed, TrustValid, AnchorValid, AnchorBinds, SignaturesGood;
  }

  lemma AcceptedShape(tools: Tools, trust: Trust, expected: Digest, now: int, mraw: Bytes, eraw: Bytes, m: Manifest,
                      a: Anchor)
    requires Accepted(tools, trust, expected, now, mraw, eraw, m, a)
    ensures WellFormed(m) && Ascending(ObjectPaths(m)) && Ascending(DirPaths(m))
    ensures forall p :: p in ObjectPaths(m) || p in DirPaths(m) ==> Relative(p)
    ensures |ObjectPaths(m)| + |DirPaths(m)| <= MAX_ENTRIES
    ensures forall k :: 0 <= k < |m.objects| ==> XattrsValid(m.objects[k].attributes.xattrs)
  {
    hide Relative, XattrsValid, StatePresent, Ascending;
    WellFormedShape(m);
  }

  lemma WellFormedShape(m: Manifest)
    requires WellFormed(m)
    ensures Ascending(ObjectPaths(m)) && Ascending(DirPaths(m))
    ensures forall p :: p in ObjectPaths(m) || p in DirPaths(m) ==> Relative(p)
    ensures |ObjectPaths(m)| + |DirPaths(m)| <= MAX_ENTRIES
    ensures forall k :: 0 <= k < |m.objects| ==> XattrsValid(m.objects[k].attributes.xattrs)
  {
    hide Relative, XattrsValid, StatePresent, Ascending;
    forall k | 0 <= k < |m.objects| ensures Relative(m.objects[k].path) && XattrsValid(m.objects[k].attributes.xattrs) {
      assert EntryValid(m.objects[k]);
    }
    forall p | p in ObjectPaths(m) || p in DirPaths(m) ensures Relative(p) {
      if p in ObjectPaths(m) {
        var k :| 0 <= k < |m.objects| && ObjectPaths(m)[k] == p;
      } else {
        var k :| 0 <= k < |m.directories| && DirPaths(m)[k] == p;
      }
    }
  }
}
