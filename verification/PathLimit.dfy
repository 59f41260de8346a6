/** Which accepted manifests name payloads that reconstruction can create, and one that does not. */
module PathLimit {
  import opened Common
  import opened Paths
  import opened Manifest
  import opened Reconstruct

  /** In an accepted manifest, all payloads can be created exactly when every path leaves room for the prefix. */
  lemma PathsFitIff(m: Manifest)
    requires WellFormed(m)
    ensures PathsFit(m, |m.objects|) <==>
      forall k :: 0 <= k < |m.objects| ==> |Split(m.objects[k].path)| <= 31 && |m.objects[k].path| <= 1016
  {
    hide Relative, Split, TreeShaped, StatePresent, HeaderValid, AttributesValid;
    forall k | 0 <= k < |m.objects|
      ensures Relative(PayloadPath(m.objects[k].path)) <==>
        |Split(m.objects[k].path)| <= 31 && |m.objects[k].path| <= 1016
    {
      assert EntryValid(m.objects[k]);
      PayloadPathValid(m.objects[k].path);
    }
  }

  // ----- An accepted manifest with a payload that cannot be created

  /** "a", "a/a", "a/a/a" and so on. */
  function Deep(n: nat): string
    requires n >= 1
  {
    Join(seq(n, _ => "a"))
  }

  lemma DeepPath(n: nat)
    requires 1 <= n <= MAX_PARTS
    ensures Split(Deep(n)) == seq(n, _ => "a") && Relative(Deep(n)) && |Deep(n)| == 2 * n - 1 && Deep(n)[0] == 'a'
  {
    var parts := seq(n, _ => "a");
    forall p | p in parts ensures p == "a" && NoSlash(p) && PlainPart(p) {
    }
    SplitJoin(parts);
    JoinedLetters(parts);
    if n > 1 {
      assert Join(parts)[0] == parts[0][0];
    }
  }

  lemma DeepAncestor(n: nat, k: nat)
    requires 1 <= k < n <= MAX_PARTS
    ensures |Split(Deep(n))| == n && AncestorAt(Deep(n), k) == Deep(k)
  {
    DeepPath(n);
    assert seq(n, _ => "a")[..k] == seq(k, _ => "a");
  }

  lemma {:induction false} PrefixLess(a: string, b: string)
    requires b != ""
    ensures Less(a, a + b)
  {
    if a != "" {
      PrefixLess(a[1..], b);
      assert (a + b)[1..] == a[1..] + b;
    } else {
      assert a + b == b;
    }
  }

  lemma {:induction false} JoinOneMore(parts: seq<string>, last: string)
    requires |parts| >= 1
    ensures Join(parts + [last]) == Join(parts) + "/" + last
  {
    var more := parts + [last];
    if |parts| == 1 {
      assert more[1..] == [last];
    } else {
      JoinOneMore(parts[1..], last);
      assert more[1..] == parts[1..] + [last];
    }
  }

  lemma DeeperIsLater(n: nat)
    requires n >= 1
    ensures Less(Deep(n), Deep(n + 1))
  {
    var parts := seq(n, _ => "a");
    assert seq(n + 1, _ => "a") == parts + ["a"];
    JoinOneMore(parts, "a");
    assert Deep(n + 1) == Deep(n) + "/a";
    PrefixLess(Deep(n), "/a");
  }

  const PLAIN := Attributes(0x1a4, 0, 0, [])

  const DIRECTORIES: seq<Listed> := seq(31, i requires 0 <= i < 31 => Listed.Listed(Deep(i + 1), PLAIN))

  function Empty(path: string, kind: string): Entry {
    Entry(path, kind, PLAIN, 0, ZERO, [])
  }

  const OBJECTS: seq<Entry> := [Empty(Deep(32), "journal"), Empty("b", "catalog"), Empty("c", "checkpoint")]

  const DEEPEST := Manifest("n", ZERO, 1, 1, "b", "c", [], PLAIN, DIRECTORIES, OBJECTS)

  lemma OneLetter(c: char)
    requires 'a' <= c <= 'z'
    ensures Relative([c]) && Split([c]) == [[c]] && Ident([c])
  {
    SplitPlain([c]);
  }

  lemma PlainIsValid()
    ensures AttributesValid(PLAIN, 0x1ff) && AttributesValid(PLAIN, 0xfff)
  {
  }

  lemma HeaderIsValid()
    ensures HeaderValid(DEEPEST)
  {
    hide AttributesValid, Relative, Ident;
    PlainIsValid();
    OneLetter('n');
    OneLetter('b');
    OneLetter('c');
    assert ['n'] == "n" && ['b'] == "b" && ['c'] == "c";
  }

  lemma DirectoriesAreValid()
    ensures DirectoriesValid(DEEPEST)
  {
    hide AttributesValid, Relative, Deep, Less;
    PlainIsValid();
    forall k | 0 <= k < 31 ensures Relative(DIRECTORIES[k].path) && AttributesValid(DIRECTORIES[k].attributes, 0xfff) {
      DeepPath(k + 1);
    }
    forall k | 0 <= k < 30 ensures Less(DirPaths(DEEPEST)[k], DirPaths(DEEPEST)[k + 1]) {
      DeeperIsLater(k + 1);
    }
  }

  lemma KindsAreValid()
    ensures "journal" in KINDS && "catalog" in KINDS && "checkpoint" in KINDS
  {
  }

  lemma {:induction false} EmptyTotals(objects: seq<Entry>)
    requires forall i :: i in objects ==> i.size == 0 && i.chunks == []
    ensures TotalSize(objects) == 0 && TotalChunks(objects) == 0
  {
    if objects != [] {
      assert objects[|objects| - 1] in objects;
      EmptyTotals(objects[..|objects| - 1]);
    }
  }

  lemma FirstDecides(a: string, b: string)
    requires a != "" && b != "" && a[0] < b[0]
    ensures Less(a, b) && a != b
  {
  }

  lemma PathsAre()
    ensures ObjectPaths(DEEPEST) == [Deep(32), "b", "c"]
    ensures Ascending(ObjectPaths(DEEPEST)) && Distinct(ObjectPaths(DEEPEST))
  {
    hide Relative, Deep, Split, Less;
    DeepPath(32);
    var paths := ObjectPaths(DEEPEST);
    assert |paths| == 3 && paths[0] == Deep(32) && paths[1] == "b" && paths[2] == "c";
    FirstDecides(Deep(32), "b");
    FirstDecides("b", "c");
    FirstDecides(Deep(32), "c");
  }

  lemma EmptyIsValid(path: string, kind: string)
    requires Relative(path) && kind in KINDS
    ensures EntryValid(Empty(path, kind))
  {
    hide Relative, AttributesValid;
    PlainIsValid();
  }

  lemma ObjectsAreValid()
    ensures ObjectsValid(DEEPEST)
  {
    hide AttributesValid, Relative, Deep, Split, TotalSize, TotalChunks, Distinct, ObjectPaths, EntryValid, Ident;
    KindsAreValid();
    DeepPath(32);
    OneLetter('b');
    OneLetter('c');
    assert ['b'] == "b" && ['c'] == "c";
    EmptyIsValid(Deep(32), "journal");
    EmptyIsValid("b", "catalog");
    EmptyIsValid("c", "checkpoint");
    PathsAre();
    EmptyTotals(OBJECTS);
  }

  lemma DirectoriesApart(d: string)
    requires d in DirPaths(DEEPEST)
    ensures d !in ObjectPaths(DEEPEST) && AncestorsDeclared(d, DirPaths(DEEPEST))
  {
    hide AttributesValid, Relative, Deep, Split, AncestorsDeclared;
    var k :| 0 <= k < 31 && DirPaths(DEEPEST)[k] == d;
    DeepPath(k + 1);
    DeepPath(32);
    PathsAre();
    DeepDeclared(k + 1);
  }

  lemma ObjectsDeclared(p: string)
    requires p in ObjectPaths(DEEPEST)
    ensures AncestorsDeclared(p, DirPaths(DEEPEST))
  {
    hide Relative, Deep, Split;
    PathsAre();
    DeepDeclared(32);
    OneLetter('b');
    OneLetter('c');
    assert ['b'] == "b" && ['c'] == "c";
  }

  lemma TreeIsShaped()
    ensures TreeShaped(DirPaths(DEEPEST), ObjectPaths(DEEPEST))
  {
    hide DirPaths, ObjectPaths, Ascending, AncestorsDeclared;
    PathsAre();
    var dirs, paths := DirPaths(DEEPEST), ObjectPaths(DEEPEST);
    forall d | d in dirs ensures d !in paths {
      DirectoriesApart(d);
    }
    forall k | 0 <= k < |paths + dirs| ensures AncestorsDeclared((paths + dirs)[k], dirs) {
      if k < |paths| {
        ObjectsDeclared(paths[k]);
      } else {
        DirectoriesApart(dirs[k - |paths|]);
      }
    }
  }

  lemma DeepDeclared(n: nat)
    requires 1 <= n <= 32
    ensures AncestorsDeclared(Deep(n), DirPaths(DEEPEST))
  {
    hide Deep, Relative;
    DeepPath(n);
    forall k | 1 <= k < |Split(Deep(n))| ensures AncestorAt(Deep(n), k) in DirPaths(DEEPEST) {
      DeepAncestor(n, k);
      assert DirPaths(DEEPEST)[k - 1] == Deep(k);
    }
  }

  /** The manifest is accepted, yet its journal has no place under payload/. */
  lemma AcceptedWithoutPayload()
    ensures WellFormed(DEEPEST) && !PathsFit(DEEPEST, |DEEPEST.objects|)
  {
    hide HeaderValid, DirectoriesValid, ObjectsValid, TreeShaped, PathsFit, Deep, Relative;
    HeaderIsValid();
    DirectoriesAreValid();
    ObjectsAreValid();
    TreeIsShaped();
    assert OBJECTS[0] in OBJECTS && OBJECTS[1] in OBJECTS && OBJECTS[2] in OBJECTS;
    assert StatePresent(DEEPEST);
    DeepPath(32);
    PathsFitIff(DEEPEST);
    assert |Split(DEEPEST.objects[0].path)| == 32;
  }
}
