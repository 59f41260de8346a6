/** Relative paths as strings and as component lists, and Python's ordering of strings. */
module Paths {
  import opened Common

  // ----- split('/') and '/'.join

  function Split(s: string): (parts: seq<string>)
    ensures |parts| >= 1
  {
    if s == "" then [""]
    else
      var rest := Split(s[1..]);
      if s[0] == '/' then [""] + rest else [[s[0]] + rest[0]] + rest[1..]
  }

  function Join(parts: seq<string>): string
    requires |parts| >= 1
  {
    if |parts| == 1 then parts[0] else parts[0] + "/" + Join(parts[1..])
  }

  predicate NoSlash(s: string) {
    '/' !in s
  }

  lemma {:induction false} JoinSplit(s: string)
    ensures Join(Split(s)) == s
    ensures forall p :: p in Split(s) ==> NoSlash(p)
  {
    if s != "" {
      var rest := Split(s[1..]);
      JoinSplit(s[1..]);
      if s[0] == '/' {
        assert ([""] + rest)[1..] == rest;
        assert s == "" + "/" + s[1..];
      } else {
        var first := [s[0]] + rest[0];
        assert Split(s) == [first] + rest[1..] && Split(s)[1..] == rest[1..];
        assert s == [s[0]] + s[1..];
        if |rest| > 1 {
          assert first + "/" + Join(rest[1..]) == [s[0]] + (rest[0] + "/" + Join(rest[1..]));
        }
        forall p | p in Split(s) ensures NoSlash(p) {
          assert p == first || p in rest[1..];
          assert rest[0] in rest;
        }
      }
    }
  }

  lemma {:induction false} SplitJoin(parts: seq<string>)
    requires |parts| >= 1 && forall p :: p in parts ==> NoSlash(p)
    ensures Split(Join(parts)) == parts
  {
    if |parts| == 1 {
      SplitPlain(parts[0]);
    } else {
      SplitJoin(parts[1..]);
      SplitAtSlash(parts[0], Join(parts[1..]));
      assert parts == [parts[0]] + parts[1..];
    }
  }

  lemma {:induction false} SplitPlain(s: string)
    requires NoSlash(s)
    ensures Split(s) == [s]
  {
    if s != "" {
      SplitPlain(s[1..]);
      assert s == [s[0]] + s[1..];
    }
  }

  lemma {:induction false} SplitAtSlash(a: string, b: string)
    requires NoSlash(a)
    ensures Split(a + "/" + b) == [a] + Split(b)
  {
    var s := a + "/" + b;
    if a == "" {
      assert s[1..] == b;
    } else {
      assert s[1..] == a[1..] + "/" + b && s[0] == a[0];
      SplitAtSlash(a[1..], b);
      assert a == [a[0]] + a[1..];
    }
  }

  lemma {:induction false} SplitAnywhere(a: string, b: string)
    ensures Split(a + "/" + b) == Split(a) + Split(b)
  {
    var s := a + "/" + b;
    if a == "" {
      assert s[1..] == b;
    } else {
      assert s[1..] == a[1..] + "/" + b && s[0] == a[0];
      SplitAnywhere(a[1..], b);
    }
  }

  lemma SplitIsInjective(a: string, b: string)
    requires Split(a) == Split(b)
    ensures a == b
  {
    JoinSplit(a);
    JoinSplit(b);
  }

  // ----- What `relative` accepts

  const MAX_PATH := 1024
  const MAX_PARTS := 32
  const MAX_PART := 160

  predicate AlphaNumeric(c: char) {
    'a' <= c <= 'z' || 'A' <= c <= 'Z' || '0' <= c <= '9'
  }

  predicate PlainChar(c: char) {
    AlphaNumeric(c) || c == '_' || c == '.' || c == '+' || c == '@' || c == '-'
  }

  predicate PlainPart(p: string) {
    p != "." && p != ".." && 1 <= |p| <= MAX_PART && forall c :: c in p ==> PlainChar(c)
  }

  /** The backslash and NUL tests of the source are subsumed by the character test of each part. */
  predicate Relative(s: string) {
    && 1 <= |s| <= MAX_PATH && '\\' !in s && '\0' !in s
    && |Split(s)| <= MAX_PARTS && forall p :: p in Split(s) ==> PlainPart(p)
  }

  /** The source's check of one component: a name that is not special, of 1 to 160 allowed characters. */
  method CheckPart(p: string) returns (ok: bool)
    ensures ok <==> PlainPart(p)
  {
    if p == "" || p == "." || p == ".." || |p| > 160 {
      return false;
    }
    for k := 0 to |p|
      invariant forall j :: 0 <= j < k ==> PlainChar(p[j])
    {
      var c := p[k];
      if !('a' <= c <= 'z' || 'A' <= c <= 'Z' || '0' <= c <= '9'
           || c == '_' || c == '.' || c == '+' || c == '@' || c == '-') {
        assert c in p && !PlainChar(c);
        return false;
      }
    }
    ok := true;
  }

  /** The source's `relative`: bounds, forbidden characters, and then component by component. */
  method CheckRelative(s: string) returns (ok: bool)
    ensures ok <==> Relative(s)
  {
    hide PlainPart;
    if s == "" || |s| > 1024 || '\\' in s || '\0' in s {
      return false;
    }
    var parts := Split(s);
    if |parts| > 32 {
      return false;
    }
    for k := 0 to |parts|
      invariant forall j :: 0 <= j < k ==> PlainPart(parts[j])
    {
      var plain := CheckPart(parts[k]);
      if !plain {
        return false;
      }
    }
    ok := true;
  }

  const PAYLOAD := "payload"

  /** A valid path stays valid under `payload/` exactly when it leaves room for that prefix. */
  lemma PayloadPathValid(s: string)
    requires Relative(s)
    ensures Split(PAYLOAD + "/" + s) == [PAYLOAD] + Split(s)
    ensures Relative(PAYLOAD + "/" + s) <==> |Split(s)| <= 31 && |s| <= 1016
  {
    SplitAtSlash(PAYLOAD, s);
    var whole := PAYLOAD + "/" + s;
    assert |whole| == 8 + |s|;
    assert PlainPart(PAYLOAD);
    assert PAYLOAD in Split(whole);
    forall p | p in Split(whole) ensures p == PAYLOAD || p in Split(s) {
    }
  }

  lemma {:induction false} JoinedLetters(parts: seq<string>)
    requires |parts| >= 1 && forall p :: p in parts ==> p == "a"
    ensures |Join(parts)| == 2 * |parts| - 1 && forall c :: c in Join(parts) ==> c == 'a' || c == '/'
  {
    if |parts| > 1 {
      assert forall p :: p in parts[1..] ==> p in parts;
      JoinedLetters(parts[1..]);
      assert Join(parts) == parts[0] + "/" + Join(parts[1..]);
    }
    assert parts[0] in parts;
  }

  // ----- Ancestors

  /** a is a proper ancestor of b, as component lists. */
  predicate IsAncestor(a: seq<string>, b: seq<string>) {
    |a| < |b| && a == b[..|a|]
  }

  /** The source's ancestors of a path: joins of its proper nonempty component prefixes. */
  function AncestorAt(path: string, n: nat): string
    requires 1 <= n < |Split(path)|
  {
    Join(Split(path)[..n])
  }

  lemma AncestorSplits(path: string, n: nat)
    requires 1 <= n < |Split(path)|
    ensures Split(AncestorAt(path, n)) == Split(path)[..n]
  {
    JoinSplit(path);
    SplitJoin(Split(path)[..n]);
  }

  // ----- Lexicographic order by code point

  predicate Less(a: string, b: string) {
    b != "" && (a == "" || a[0] < b[0] || (a[0] == b[0] && Less(a[1..], b[1..])))
  }

  /** The order is that of the first place where two strings differ, or of their lengths if one goes on the other. */
  lemma {:induction false} LessIff(a: string, b: string)
    ensures Less(a, b) <==> (a != b && a <= b) || exists k :: DifferAt(a, b, k) && a[k] < b[k]
  {
    if a != "" && b != "" {
      if a[0] != b[0] {
        assert DifferAt(a, b, 0);
      } else {
        var c, d := a[1..], b[1..];
        LessIff(c, d);
        assert a == [a[0]] + c && b == [b[0]] + d;
        assert a <= b <==> c <= d;
        forall k ensures DifferAt(c, d, k) <==> k >= 0 && DifferAt(a, b, k + 1) {
          DifferTail(a, b, k);
        }
        if k :| DifferAt(a, b, k) && a[k] < b[k] {
          assert DifferAt(c, d, k - 1);
        }
      }
    }
  }

  lemma DifferTail(a: string, b: string, k: int)
    requires a != "" && b != "" && a[0] == b[0]
    ensures DifferAt(a[1..], b[1..], k) <==> k >= 0 && DifferAt(a, b, k + 1)
  {
    var c, d := a[1..], b[1..];
    if k >= 0 && DifferAt(a, b, k + 1) {
      forall i | 0 <= i < k ensures c[i] == d[i] {
        assert a[i + 1] == b[i + 1];
      }
    }
    if DifferAt(c, d, k) {
      forall i | 0 <= i < k + 1 ensures a[i] == b[i] {
        assert i > 0 ==> c[i - 1] == d[i - 1];
      }
    }
  }

  predicate DifferAt(a: string, b: string, k: int) {
    0 <= k < |a| && k < |b| && a[k] != b[k] && forall i :: 0 <= i < k ==> a[i] == b[i]
  }

  lemma LessIrreflexive(a: string)
    ensures !Less(a, a)
  {
  }

  lemma {:induction false} LessTransitive(a: string, b: string, c: string)
    requires Less(a, b) && Less(b, c)
    ensures Less(a, c)
  {
    if a != "" && a[0] == b[0] == c[0] {
      LessTransitive(a[1..], b[1..], c[1..]);
    }
  }

  lemma {:induction false} LessTotal(a: string, b: string)
    ensures a == b || Less(a, b) || Less(b, a)
  {
    if a != "" && b != "" && a[0] == b[0] {
      LessTotal(a[1..], b[1..]);
      assert a == [a[0]] + a[1..] && b == [b[0]] + b[1..];
    }
  }

  /** x == sorted(set(x)): strictly ascending. */
  predicate Ascending(xs: seq<string>) {
    forall i :: 0 <= i < |xs| - 1 ==> Less(xs[i], xs[i + 1])
  }

  lemma {:induction false} AscendingPairs(xs: seq<string>, i: nat, j: nat)
    requires Ascending(xs) && i < j < |xs|
    ensures Less(xs[i], xs[j]) && xs[i] != xs[j]
  {
    LessIrreflexive(xs[i]);
    if i + 1 < j {
      AscendingPairs(xs, i, j - 1);
      assert Less(xs[j - 1], xs[(j - 1) + 1]);
      LessTransitive(xs[i], xs[j - 1], xs[j]);
    }
  }

  /** Strictly ascending lists with the same elements are the same list. */
  lemma {:induction false} AscendingUnique(xs: seq<string>, ys: seq<string>)
    requires Ascending(xs) && Ascending(ys)
    requires forall x :: x in xs <==> x in ys
    ensures xs == ys
  {
    SomeElement(ys);
    if xs != [] {
      assert xs[0] in ys;
      LeastFirst(xs);
      LeastFirst(ys);
      assert ys[0] in xs;
      if xs[0] != ys[0] {
        LessTransitive(xs[0], ys[0], xs[0]);
        LessIrreflexive(xs[0]);
      }
      forall x ensures x in xs[1..] <==> x in ys[1..] {
        assert x in xs <==> x == xs[0] || x in xs[1..];
        assert x in ys <==> x == ys[0] || x in ys[1..];
        FirstOnce(xs);
        FirstOnce(ys);
      }
      AscendingUnique(xs[1..], ys[1..]);
      assert xs == [xs[0]] + xs[1..] && ys == [ys[0]] + ys[1..];
    }
  }

  lemma SomeElement(xs: seq<string>)
    ensures xs == [] || exists x :: x in xs
  {
    if xs != [] {
      assert xs[0] in xs;
    }
  }

  lemma LeastFirst(xs: seq<string>)
    requires Ascending(xs) && xs != []
    ensures forall x :: x in xs ==> x == xs[0] || Less(xs[0], x)
  {
    forall k | 1 <= k < |xs| ensures Less(xs[0], xs[k]) {
      AscendingPairs(xs, 0, k);
    }
  }

  lemma FirstOnce(xs: seq<string>)
    requires Ascending(xs) && xs != []
    ensures xs[0] !in xs[1..]
  {
    forall k | 1 <= k < |xs| ensures xs[0] != xs[k] {
      AscendingPairs(xs, 0, k);
    }
  }
}
