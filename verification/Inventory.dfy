/** A closed source directory as a tree, and the inventory walk that lists it within bounds. */
module Inventory {
  import opened Common
  import opened Paths
  import opened Manifest

  datatype Node =
    | File(content: Bytes, attributes: Attributes)
    | Special
    | Folder(attributes: Attributes, entries: Entries)

  /** A directory's entries in the order of sorted(os.listdir()). */
  datatype Entries = Nil | Cons(name: string, node: Node, rest: Entries)

  /** A quiescent source: its own attributes and everything below it. */
  datatype Tree = Tree(root: Attributes, entries: Entries)

  const MAX_ENTRIES := 2 * MAX_OBJECTS
  const MAX_DEPTH := 32

  /** What the file system itself guarantees: names without a slash, in strictly ascending order. */
  predicate Named(es: Entries) {
    match es
    case Nil => true
    case Cons(name, node, rest) =>
      && NoSlash(name) && (node.Folder? ==> Named(node.entries)) && Named(rest)
      && (rest.Cons? ==> Less(name, rest.name))
  }

  // ----- Finding by path

  /** The entry at a list of components. */
  function Find(es: Entries, parts: seq<string>): Option<Node>
    requires |parts| >= 1
    decreases es
  {
    match es
    case Nil => None
    case Cons(name, node, rest) =>
      if name != parts[0] then Find(rest, parts)
      else if |parts| == 1 then Some(node)
      else if node.Folder? then Find(node.entries, parts[1..])
      else None
  }

  function At(t: Tree, path: string): Option<Node> {
    Find(t.entries, Split(path))
  }

  // ----- Listing

  function Below(prefix: string, name: string): string {
    prefix + name + "/"
  }

  function Files(es: Entries, prefix: string): seq<string>
    decreases es
  {
    match es
    case Nil => []
    case Cons(name, node, rest) =>
      (if node.Folder? then Files(node.entries, Below(prefix, name)) else [prefix + name]) + Files(rest, prefix)
  }

  function Folders(es: Entries, prefix: string): seq<string>
    decreases es
  {
    match es
    case Nil => []
    case Cons(name, node, rest) =>
      (if node.Folder? then [prefix + name] + Folders(node.entries, Below(prefix, name)) else [])
      + Folders(rest, prefix)
  }

  function Count(es: Entries): nat {
    match es
    case Nil => 0
    case Cons(_, node, rest) => 1 + (if node.Folder? then Count(node.entries) else 0) + Count(rest)
  }

  /** Every path in the tree passes the path check. */
  predicate PathsValid(es: Entries, prefix: string)
    decreases es
  {
    match es
    case Nil => true
    case Cons(name, node, rest) =>
      && Relative(prefix + name) && (node.Folder? ==> PathsValid(node.entries, Below(prefix, name)))
      && PathsValid(rest, prefix)
  }

  /** The accumulators of the walk. */
  class Walker {
    var files: seq<string>
    var folders: seq<string>
    var count: nat

    constructor ()
      ensures files == [] && folders == [] && count == 0
    {
      files, folders, count := [], [], 0;
    }

    /** Lists a directory and everything below it; false is the source's Invalid. The source's depth check is
        kept, and the precondition shows that the path check makes it redundant: `where` is the directory's own
        path and `depth` its number of components. */
    method Walk(es: Entries, prefix: string, depth: nat, ghost where: string) returns (ok: bool)
      requires Named(es) && count <= MAX_ENTRIES
      requires prefix == if depth == 0 then "" else where + "/"
      requires depth > 0 ==> |Split(where)| == depth <= MAX_DEPTH
      modifies this
      ensures ok <==> PathsValid(es, prefix) && old(count) + Count(es) <= MAX_ENTRIES
      ensures ok ==> count == old(count) + Count(es)
      ensures ok ==> files == old(files) + Files(es, prefix) && folders == old(folders) + Folders(es, prefix)
      decreases es
    {
      hide Relative, Split, Files, Folders, Count, PathsValid;
      if depth > MAX_DEPTH {
        return false;
      }
      var rest := es;
      while rest.Cons?
        invariant Named(rest) && (rest == es || rest < es)
        invariant count <= MAX_ENTRIES && count + Count(rest) == old(count) + Count(es)
        invariant PathsValid(es, prefix) <==> PathsValid(rest, prefix)
        invariant files + Files(rest, prefix) == old(files) + Files(es, prefix)
        invariant folders + Folders(rest, prefix) == old(folders) + Folders(es, prefix)
        decreases rest
      {
        Unfold(rest, prefix);
        ghost var fs, ds := files, folders;
        count := count + 1;
        if count > MAX_ENTRIES {
          return false;
        }
        var path := prefix + rest.name;
        var relative := CheckRelative(path);
        if !relative {
          return false;
        }
        if rest.node.Folder? {
          folders := folders + [path];
          PathOfEntry(prefix, depth, where, rest.name);
          var below := rest.node.entries;
          var ok' := Walk(below, path + "/", depth + 1, path);
          if !ok' {
            return false;
          }
          Regroup(fs, Files(below, path + "/"), [], Files(rest.rest, prefix));
          Regroup(ds, [path], Folders(below, path + "/"), Folders(rest.rest, prefix));
        } else {
          files := files + [path];
          Regroup(fs, [path], [], Files(rest.rest, prefix));
        }
        rest := rest.rest;
      }
      Unfold(rest, prefix);
      return true;
    }
  }

  lemma Regroup(a: seq<string>, b: seq<string>, c: seq<string>, d: seq<string>)
    ensures a + ((b + c) + d) == (a + b) + (c + d) == ((a + b) + c) + d
    ensures c == [] ==> a + (b + d) == (a + b) + d
  {
  }

  /** One step of the listing functions. */
  lemma Unfold(es: Entries, prefix: string)
    ensures es.Nil? ==> Files(es, prefix) == [] && Folders(es, prefix) == [] && Count(es) == 0 && PathsValid(es, prefix)
    ensures es.Cons? && !es.node.Folder? ==>
      && Files(es, prefix) == [prefix + es.name] + Files(es.rest, prefix)
      && Folders(es, prefix) == Folders(es.rest, prefix) && Count(es) == 1 + Count(es.rest)
      && (PathsValid(es, prefix) <==> Relative(prefix + es.name) && PathsValid(es.rest, prefix))
    ensures es.Cons? && es.node.Folder? ==>
      && Files(es, prefix) == Files(es.node.entries, prefix + es.name + "/") + Files(es.rest, prefix)
      && Folders(es, prefix)
         == [prefix + es.name] + Folders(es.node.entries, prefix + es.name + "/") + Folders(es.rest, prefix)
      && Count(es) == 1 + Count(es.node.entries) + Count(es.rest)
      && (PathsValid(es, prefix) <==>
          && Relative(prefix + es.name) && PathsValid(es.node.entries, prefix + es.name + "/")
          && PathsValid(es.rest, prefix))
  {
    hide Relative;
  }

  lemma PathOfEntry(prefix: string, depth: nat, where: string, name: string)
    requires NoSlash(name) && Relative(prefix + name)
    requires prefix == if depth == 0 then "" else where + "/"
    requires depth > 0 ==> |Split(where)| == depth
    ensures |Split(prefix + name)| == depth + 1 <= MAX_DEPTH
  {
    SplitPlain(name);
    if depth == 0 {
      assert prefix + name == name;
    } else {
      assert prefix + name == where + "/" + name;
      SplitAnywhere(where, name);
    }
  }

  // ----- sorted()

  function Insert(x: string, xs: seq<string>): seq<string> {
    if xs == [] then [x] else if Less(xs[0], x) then [xs[0]] + Insert(x, xs[1..]) else [x] + xs
  }

  function Sort(xs: seq<string>): seq<string> {
    if xs == [] then [] else Insert(xs[0], Sort(xs[1..]))
  }

  lemma {:induction false} InsertSorted(x: string, xs: seq<string>)
    requires Ascending(xs) && x !in xs
    ensures Ascending(Insert(x, xs))
    ensures forall y :: y in Insert(x, xs) <==> y == x || y in xs
  {
    if xs != [] {
      assert xs == [xs[0]] + xs[1..];
      if Less(xs[0], x) {
        forall i | 0 <= i < |xs[1..]| - 1 ensures Less(xs[1..][i], xs[1..][i + 1]) {
          assert Less(xs[i + 1], xs[(i + 1) + 1]);
        }
        InsertSorted(x, xs[1..]);
        var rest := Insert(x, xs[1..]);
        assert rest[0] == x || rest[0] == xs[1];
        AscendingCons(xs[0], rest);
      } else {
        LessTotal(xs[0], x);
        AscendingCons(x, xs);
      }
    }
  }

  lemma AscendingCons(x: string, xs: seq<string>)
    requires Ascending(xs) && (xs != [] ==> Less(x, xs[0]))
    ensures Ascending([x] + xs)
  {
    var all := [x] + xs;
    forall i | 0 <= i < |all| - 1 ensures Less(all[i], all[i + 1]) {
      assert i > 0 ==> all[i] == xs[i - 1] && Less(xs[i - 1], xs[(i - 1) + 1]);
    }
  }

  /** Sorting a list without repetition gives the one ascending list with the same elements. */
  lemma {:induction false} SortDistinct(xs: seq<string>)
    requires Distinct(xs)
    ensures Ascending(Sort(xs))
    ensures forall y :: y in Sort(xs) <==> y in xs
  {
    if xs != [] {
      assert xs == [xs[0]] + xs[1..];
      assert Distinct(xs[1..]) by {
        forall i, j | 0 <= i < j < |xs[1..]| ensures xs[1..][i] != xs[1..][j] {
          assert xs[i + 1] != xs[j + 1];
        }
      }
      SortDistinct(xs[1..]);
      InsertSorted(xs[0], Sort(xs[1..]));
    }
  }

  // ----- The inventory

  /** The source's closed_inventory: sorted files and sorted directories; None is Invalid. */
  method ClosedInventory(t: Tree) returns (r: Option<(seq<string>, seq<string>)>)
    requires Named(t.entries)
    ensures r == if PathsValid(t.entries, "") && Count(t.entries) <= 32_768
                 then Some((Sort(Files(t.entries, "")), Sort(Folders(t.entries, "")))) else None
  {
    var w := new Walker();
    var ok := w.Walk(t.entries, "", 0, "");
    if !ok {
      return None;
    }
    assert [] + Files(t.entries, "") == Files(t.entries, "") && [] + Folders(t.entries, "") == Folders(t.entries, "");
    return Some((Sort(w.files), Sort(w.folders)));
  }

  // ----- Listing is finding

  lemma {:induction false} FindInRest(es: Entries, parts: seq<string>)
    requires Named(es) && es.Cons? && |parts| >= 1 && Find(es.rest, parts).Some?
    ensures parts[0] != es.name
  {
    NameAfter(es.rest, parts, es.name);
    LessIrreflexive(es.name);
  }

  lemma {:induction false} NameAfter(es: Entries, parts: seq<string>, before: string)
    requires Named(es) && |parts| >= 1 && Find(es, parts).Some? && (es.Cons? ==> Less(before, es.name))
    ensures Less(before, parts[0])
    decreases es
  {
    if es.name != parts[0] {
      if es.rest.Cons? {
        LessTransitive(before, es.name, es.rest.name);
      }
      NameAfter(es.rest, parts, before);
    }
  }

  /** Everything that can be found is listed under its joined path. */
  lemma {:induction false} FoundIsListed(es: Entries, prefix: string, parts: seq<string>)
    requires Named(es) && |parts| >= 1 && Find(es, parts).Some?
    ensures if Find(es, parts).value.Folder? then prefix + Join(parts) in Folders(es, prefix)
            else prefix + Join(parts) in Files(es, prefix)
    decreases es
  {
    if es.name != parts[0] {
      FoundIsListed(es.rest, prefix, parts);
    } else if |parts| > 1 {
      FoundIsListed(es.node.entries, Below(prefix, es.name), parts[1..]);
      assert prefix + Join(parts) == Below(prefix, es.name) + Join(parts[1..]);
    }
  }

  /** A list of components at which a path is found. */
  ghost predicate FoundAt(es: Entries, prefix: string, path: string, folder: bool, parts: seq<string>) {
    && |parts| >= 1 && (forall p :: p in parts ==> NoSlash(p)) && path == prefix + Join(parts)
    && Find(es, parts).Some? && Find(es, parts).value.Folder? == folder
  }

  lemma FoundInside(es: Entries, prefix: string, path: string, folder: bool, tail: seq<string>)
    requires es.Cons? && NoSlash(es.name) && es.node.Folder?
    requires FoundAt(es.node.entries, Below(prefix, es.name), path, folder, tail)
    ensures FoundAt(es, prefix, path, folder, [es.name] + tail)
  {
    var parts := [es.name] + tail;
    assert parts[1..] == tail;
    assert prefix + Join(parts) == Below(prefix, es.name) + Join(tail);
  }

  lemma {:induction false} ListedIsFound(es: Entries, prefix: string, path: string, folder: bool)
    returns (parts: seq<string>)
    requires Named(es) && path in (if folder then Folders(es, prefix) else Files(es, prefix))
    ensures FoundAt(es, prefix, path, folder, parts)
    decreases es
  {
    var inside := es.node.Folder? && path in (if folder then Folders(es.node.entries, Below(prefix, es.name))
                                              else Files(es.node.entries, Below(prefix, es.name)));
    if inside {
      var tail := ListedIsFound(es.node.entries, Below(prefix, es.name), path, folder);
      parts := [es.name] + tail;
      FoundInside(es, prefix, path, folder, tail);
    } else if path == prefix + es.name && es.node.Folder? == folder {
      parts := [es.name];
    } else {
      parts := ListedIsFound(es.rest, prefix, path, folder);
      FindInRest(es, parts);
    }
  }

  lemma ListedIsAt(t: Tree, path: string, folder: bool)
    requires Named(t.entries) && path in (if folder then Folders(t.entries, "") else Files(t.entries, ""))
    ensures At(t, path).Some? && At(t, path).value.Folder? == folder
  {
    hide Files, Folders, Find;
    var parts := ListedIsFound(t.entries, "", path, folder);
    assert path == Join(parts);
    SplitJoin(parts);
  }

  /** The inventory lists a path exactly when the tree has an entry there. */
  lemma ListedIffFound(t: Tree, path: string)
    requires Named(t.entries)
    ensures path in Files(t.entries, "") <==> At(t, path).Some? && !At(t, path).value.Folder?
    ensures path in Folders(t.entries, "") <==> At(t, path).Some? && At(t, path).value.Folder?
  {
    hide Files, Folders, Find;
    JoinSplit(path);
    if At(t, path).Some? {
      FoundIsListed(t.entries, "", Split(path));
      assert "" + Join(Split(path)) == path;
    }
    if path in Files(t.entries, "") {
      ListedIsAt(t, path, false);
    }
    if path in Folders(t.entries, "") {
      ListedIsAt(t, path, true);
    }
  }

  // ----- The listing has no repetitions

  lemma DistinctConcat(a: seq<string>, b: seq<string>)
    requires Distinct(a) && Distinct(b) && forall x :: x in a ==> x !in b
    ensures Distinct(a + b)
  {
    var all := a + b;
    forall i, j | 0 <= i < j < |all| ensures all[i] != all[j] {
      if i < |a| <= j {
        assert all[i] in a && all[j] == b[j - |a|];
      }
    }
  }

  lemma NotInRest(es: Entries, prefix: string, path: string, folder: bool, parts: seq<string>)
    requires Named(es) && es.Cons? && |parts| >= 1 && (forall p :: p in parts ==> NoSlash(p)) && parts[0] == es.name
    requires path == prefix + Join(parts)
    ensures path !in (if folder then Folders(es.rest, prefix) else Files(es.rest, prefix))
  {
    hide Files, Folders;
    if path in (if folder then Folders(es.rest, prefix) else Files(es.rest, prefix)) {
      var other := ListedIsFound(es.rest, prefix, path, folder);
      FindInRest(es, other);
      assert Join(parts) == path[|prefix|..] == Join(other);
      SplitJoin(parts);
      SplitJoin(other);
    }
  }

  lemma InsideNotInRest(es: Entries, prefix: string, path: string, folder: bool)
    requires Named(es) && es.Cons? && es.node.Folder?
    requires path in (if folder then Folders(es.node.entries, Below(prefix, es.name))
                      else Files(es.node.entries, Below(prefix, es.name)))
    ensures path !in (if folder then Folders(es.rest, prefix) else Files(es.rest, prefix))
    ensures path != prefix + es.name
  {
    hide Files, Folders;
    var tail := ListedIsFound(es.node.entries, Below(prefix, es.name), path, folder);
    var parts := [es.name] + tail;
    assert parts[1..] == tail && path == prefix + Join(parts);
    NotInRest(es, prefix, path, folder, parts);
  }

  lemma {:induction false} FilesDistinct(es: Entries, prefix: string)
    requires Named(es)
    ensures Distinct(Files(es, prefix)) && Distinct(Folders(es, prefix))
    decreases es
  {
    if es.Cons? {
      var below := Below(prefix, es.name);
      FilesDistinct(es.rest, prefix);
      NotInRest(es, prefix, prefix + es.name, false, [es.name]);
      NotInRest(es, prefix, prefix + es.name, true, [es.name]);
      if es.node.Folder? {
        FilesDistinct(es.node.entries, below);
        forall path | path in Files(es.node.entries, below) ensures path !in Files(es.rest, prefix) {
          InsideNotInRest(es, prefix, path, false);
        }
        forall path | path in Folders(es.node.entries, below)
          ensures path !in Folders(es.rest, prefix) && path != prefix + es.name
        {
          InsideNotInRest(es, prefix, path, true);
        }
        DistinctConcat(Files(es.node.entries, below), Files(es.rest, prefix));
        DistinctConcat([prefix + es.name], Folders(es.node.entries, below));
        DistinctConcat([prefix + es.name] + Folders(es.node.entries, below), Folders(es.rest, prefix));
      } else {
        DistinctConcat([prefix + es.name], Files(es.rest, prefix));
      }
    }
  }

  lemma CountIsListed(es: Entries, prefix: string)
    ensures Count(es) == |Files(es, prefix)| + |Folders(es, prefix)|
    decreases es
  {
    if es.Cons? && es.node.Folder? {
      CountIsListed(es.node.entries, Below(prefix, es.name));
    }
  }

  lemma {:induction false} ListedValid(es: Entries, prefix: string)
    ensures PathsValid(es, prefix) <==> forall p :: p in Files(es, prefix) || p in Folders(es, prefix) ==> Relative(p)
    decreases es
  {
    hide Relative;
    if es.Cons? {
      ListedValid(es.rest, prefix);
      if es.node.Folder? {
        ListedValid(es.node.entries, Below(prefix, es.name));
      }
    }
  }

  lemma {:induction false} SortLength(xs: seq<string>)
    ensures |Sort(xs)| == |xs|
  {
    if xs != [] {
      SortLength(xs[1..]);
      InsertLength(xs[0], Sort(xs[1..]));
    }
  }

  lemma InsertLength(x: string, xs: seq<string>)
    ensures |Insert(x, xs)| == |xs| + 1
  {
  }

  /** The tree has exactly these files and folders. */
  ghost predicate Lists(t: Tree, files: seq<string>, folders: seq<string>) {
    && (forall p :: p in files <==> At(t, p).Some? && !At(t, p).value.Folder?)
    && (forall p :: p in folders <==> At(t, p).Some? && At(t, p).value.Folder?)
  }

  lemma SortedListing(t: Tree)
    requires Named(t.entries)
    ensures Ascending(Sort(Files(t.entries, ""))) && Ascending(Sort(Folders(t.entries, "")))
    ensures Lists(t, Sort(Files(t.entries, "")), Sort(Folders(t.entries, "")))
  {
    hide Files, Folders, At;
    FilesDistinct(t.entries, "");
    SortDistinct(Files(t.entries, ""));
    SortDistinct(Folders(t.entries, ""));
    forall p ensures (p in Files(t.entries, "") <==> At(t, p).Some? && !At(t, p).value.Folder?)
             ensures (p in Folders(t.entries, "") <==> At(t, p).Some? && At(t, p).value.Folder?) {
      ListedIffFound(t, p);
    }
  }

  /** The inventory of a quiescent source succeeds and gives these two ascending lists of valid paths exactly when
      they are what the tree holds. */
  lemma InventoryIsExact(t: Tree, files: seq<string>, folders: seq<string>)
    requires Named(t.entries) && Ascending(files) && Ascending(folders)
    requires (forall p :: p in files || p in folders ==> Relative(p)) && |files| + |folders| <= MAX_ENTRIES
    ensures Lists(t, files, folders) <==>
      && PathsValid(t.entries, "") && Count(t.entries) <= MAX_ENTRIES
      && Sort(Files(t.entries, "")) == files && Sort(Folders(t.entries, "")) == folders
  {
    hide Relative, At, Less;
    var fs, ds := Files(t.entries, ""), Folders(t.entries, "");
    SortedListing(t);
    if Lists(t, files, folders) {
      AscendingUnique(Sort(fs), files);
      AscendingUnique(Sort(ds), folders);
      SortLength(fs);
      SortLength(ds);
      CountIsListed(t.entries, "");
      FilesDistinct(t.entries, "");
      SortDistinct(fs);
      SortDistinct(ds);
      ListedValid(t.entries, "");
    }
  }
}
