/** The verify-only report does not depend on the order of the replicas, and more replicas never hurt. */
module ReplicaIndependence {
  import opened Common
  import opened Manifest
  import opened Cohort

  // ----- Counting bad replicas

  function CountBad(hash: Hasher, replicas: seq<Replica>, ch: Digest, size: int): nat {
    if replicas == [] then 0
    else CountBad(hash, replicas[1..], ch, size) + if IsIntact(hash, replicas[0], ch, size) then 0 else 1
  }

  lemma {:induction false} CountBadConcat(hash: Hasher, a: seq<Replica>, b: seq<Replica>, ch: Digest, size: int)
    ensures CountBad(hash, a + b, ch, size) == CountBad(hash, a, ch, size) + CountBad(hash, b, ch, size)
  {
    hide IsIntact;
    if a == [] {
      assert a + b == b;
    } else {
      assert (a + b)[1..] == a[1..] + b;
      CountBadConcat(hash, a[1..], b, ch, size);
    }
  }

  lemma CountOne(hash: Hasher, r: Replica, ch: Digest, size: int)
    ensures CountBad(hash, [r], ch, size) == if IsIntact(hash, r, ch, size) then 0 else 1
  {
    var rest: seq<Replica> := [];
    assert [r] == [r] + rest;
  }

  lemma {:induction false} BadReadsCount(hash: Hasher, replicas: seq<Replica>, ch: Digest, size: int)
    ensures |BadReads(hash, replicas, ch, size)| == CountBad(hash, replicas, ch, size)
  {
    hide IsIntact;
    if replicas != [] {
      var front, last := replicas[..|replicas| - 1], replicas[|replicas| - 1];
      BadReadsCount(hash, front, ch, size);
      CountBadConcat(hash, front, [last], ch, size);
      CountOne(hash, last, ch, size);
      assert replicas == front + [last];
    }
  }

  function Without(s: seq<Replica>, j: nat): seq<Replica>
    requires j < |s|
  {
    s[..j] + s[j + 1..]
  }

  lemma WithoutOne(hash: Hasher, s: seq<Replica>, j: nat, ch: Digest, size: int)
    requires j < |s|
    ensures CountBad(hash, s, ch, size)
            == CountBad(hash, Without(s, j), ch, size) + CountBad(hash, [s[j]], ch, size)
  {
    hide IsIntact, CountBad;
    assert s == s[..j] + ([s[j]] + s[j + 1..]);
    CountBadConcat(hash, s[..j], [s[j]] + s[j + 1..], ch, size);
    CountBadConcat(hash, [s[j]], s[j + 1..], ch, size);
    CountBadConcat(hash, s[..j], s[j + 1..], ch, size);
  }

  lemma WithoutMembers(s: seq<Replica>, j: nat)
    requires j < |s|
    ensures multiset(s) == multiset(Without(s, j)) + multiset{s[j]}
  {
    assert s == s[..j] + ([s[j]] + s[j + 1..]);
  }

  lemma {:induction false} CountBadReordered(hash: Hasher, a: seq<Replica>, b: seq<Replica>, ch: Digest, size: int)
    requires multiset(a) == multiset(b)
    ensures CountBad(hash, a, ch, size) == CountBad(hash, b, ch, size)
    decreases |a|
  {
    hide IsIntact, CountBad;
    if a == [] {
      assert |multiset(b)| == 0;
    } else {
      var x := a[0];
      assert x in multiset(b);
      var j :| 0 <= j < |b| && b[j] == x;
      WithoutMembers(a, 0);
      WithoutMembers(b, j);
      assert multiset(Without(a, 0)) == multiset(a) - multiset{x};
      assert multiset(Without(b, j)) == multiset(b) - multiset{x};
      CountBadReordered(hash, Without(a, 0), Without(b, j), ch, size);
      WithoutOne(hash, a, 0, ch, size);
      WithoutOne(hash, b, j, ch, size);
    }
  }

  // ----- Which replicas there are, not where they stand, decides what is recovered

  ghost predicate Within(a: seq<Replica>, b: seq<Replica>) {
    forall r :: r in a ==> r in b
  }

  /** No two replicas return different bytes of one object that pass for the same chunk. */
  ghost predicate Agreeing(hash: Hasher, replicas: seq<Replica>, i: Entry) {
    forall k, r, q | 0 <= k < |i.chunks| && r in replicas && q in replicas ::
      Supplies(hash, r, i.chunks[k], ExpectedSize(i, k)) && Supplies(hash, q, i.chunks[k], ExpectedSize(i, k)) ==>
        r[i.chunks[k]] == q[i.chunks[k]]
  }

  lemma SelectWithin(hash: Hasher, a: seq<Replica>, b: seq<Replica>, i: Entry, k: nat)
    requires k < |i.chunks| && Within(a, b)
    ensures var ch, size := i.chunks[k], ExpectedSize(i, k);
      Select(hash, a, ch, size).Some? ==>
        && Select(hash, b, ch, size).Some?
        && (Agreeing(hash, b, i) ==> Select(hash, a, ch, size) == Select(hash, b, ch, size))
  {
    var ch, size := i.chunks[k], ExpectedSize(i, k);
    hide Select;
    SomeIntactIffSelected(hash, a, ch, size);
    SomeIntactIffSelected(hash, b, ch, size);
    if Select(hash, a, ch, size).Some? && Agreeing(hash, b, i) {
      SelectedSize(hash, a, ch, size);
      SelectedSize(hash, b, ch, size);
      var r :| r in a && Has(r, ch, Select(hash, a, ch, size).value);
      var q :| q in b && Has(q, ch, Select(hash, b, ch, size).value);
      assert r in b && Supplies(hash, r, ch, size) && Supplies(hash, q, ch, size);
    }
  }

  lemma {:induction false} RecoverWithin(hash: Hasher, a: seq<Replica>, b: seq<Replica>, i: Entry, k: nat)
    requires k <= |i.chunks| && Within(a, b)
    ensures Recover(hash, a, i, k).intact ==>
      Recover(hash, b, i, k).intact && (Agreeing(hash, b, i) ==> Recover(hash, a, i, k) == Recover(hash, b, i, k))
  {
    hide Select, Agreeing;
    if k > 0 {
      RecoverWithin(hash, a, b, i, k - 1);
      SelectWithin(hash, a, b, i, k - 1);
    }
  }

  /** A larger set of replicas, in any order, verifies every object that a smaller one verified. */
  lemma MoreReplicasNeverHurt(hash: Hasher, a: seq<Replica>, b: seq<Replica>, i: Entry)
    requires Within(a, b) && Agreeing(hash, b, i) && Verified(hash, a, i)
    ensures Verified(hash, b, i)
  {
    RecoverWithin(hash, a, b, i, |i.chunks|);
  }

  /** Replicas added at the end change nothing about an object already recovered, colliding bytes or not. */
  lemma {:induction false} AppendedReplicasNeverHurt(hash: Hasher, a: seq<Replica>, more: seq<Replica>, i: Entry)
    requires Verified(hash, a, i)
    ensures Verified(hash, a + more, i)
  {
    RecoverAppended(hash, a, more, i, |i.chunks|);
  }

  lemma {:induction false} RecoverAppended(hash: Hasher, a: seq<Replica>, more: seq<Replica>, i: Entry, k: nat)
    requires k <= |i.chunks| && Recover(hash, a, i, k).intact
    ensures Recover(hash, a + more, i, k) == Recover(hash, a, i, k)
  {
    if k > 0 {
      RecoverAppended(hash, a, more, i, k - 1);
      SelectAppended(hash, a, more, i.chunks[k - 1], ExpectedSize(i, k - 1));
    }
  }

  lemma {:induction false} SelectAppended(hash: Hasher, a: seq<Replica>, more: seq<Replica>, ch: Digest, size: int)
    requires Select(hash, a, ch, size).Some?
    ensures Select(hash, a + more, ch, size) == Select(hash, a, ch, size)
    decreases |more|
  {
    hide IsIntact;
    if more == [] {
      assert a + more == a;
    } else {
      assert (a + more)[..|a + more| - 1] == a + more[..|more| - 1];
      SelectAppended(hash, a, more[..|more| - 1], ch, size);
    }
  }

  // ----- Reordering

  lemma SameMembers(a: seq<Replica>, b: seq<Replica>)
    requires multiset(a) == multiset(b)
    ensures Within(a, b) && Within(b, a)
  {
    forall r ensures r in a <==> r in b {
      assert r in a <==> r in multiset(a);
      assert r in b <==> r in multiset(b);
    }
  }

  lemma {:induction false} ObjectBadReordered(hash: Hasher, a: seq<Replica>, b: seq<Replica>, i: Entry, k: nat)
    requires k <= |i.chunks| && multiset(a) == multiset(b)
    ensures |ObjectBad(hash, a, i, k)| == |ObjectBad(hash, b, i, k)|
  {
    hide BadReads, Recover, Agreeing;
    if k > 0 {
      var ch, size := i.chunks[k - 1], ExpectedSize(i, k - 1);
      ObjectBadReordered(hash, a, b, i, k - 1);
      SameMembers(a, b);
      RecoverWithin(hash, a, b, i, k - 1);
      RecoverWithin(hash, b, a, i, k - 1);
      CountBadReordered(hash, a, b, ch, size);
      BadReadsCount(hash, a, ch, size);
      BadReadsCount(hash, b, ch, size);
    }
  }

  lemma {:induction false} AllBadReordered(hash: Hasher, a: seq<Replica>, b: seq<Replica>, objects: seq<Entry>)
    requires multiset(a) == multiset(b)
    ensures |AllBad(hash, a, objects)| == |AllBad(hash, b, objects)|
  {
    if objects != [] {
      var last := objects[|objects| - 1];
      AllBadReordered(hash, a, b, objects[..|objects| - 1]);
      ObjectBadReordered(hash, a, b, last, |last.chunks|);
    }
  }

  /** Reordering the replicas leaves the bad-read count as it is, and every verdict too unless two replicas
      hold different bytes for one digest. */
  lemma ReplicaOrderIrrelevant(hash: Hasher, a: seq<Replica>, b: seq<Replica>, m: Manifest, anchor: Digest)
    requires multiset(a) == multiset(b)
    ensures ReportOf(hash, m, anchor, a).badCount == ReportOf(hash, m, anchor, b).badCount
    ensures (forall i :: i in m.objects ==> Agreeing(hash, b, i)) ==>
      && ReportOf(hash, m, anchor, a).objects == ReportOf(hash, m, anchor, b).objects
      && ReportOf(hash, m, anchor, a).complete == ReportOf(hash, m, anchor, b).complete
  {
    hide Verified, Agreeing;
    AllBadReordered(hash, a, b, m.objects);
    SameMembers(a, b);
    if forall i :: i in m.objects ==> Agreeing(hash, b, i) {
      forall k | 0 <= k < |m.objects| ensures Verified(hash, a, m.objects[k]) == Verified(hash, b, m.objects[k]) {
        assert m.objects[k] in m.objects;
        SameAgreement(hash, a, b, m.objects[k]);
        if Verified(hash, a, m.objects[k]) {
          MoreReplicasNeverHurt(hash, a, b, m.objects[k]);
        }
        if Verified(hash, b, m.objects[k]) {
          MoreReplicasNeverHurt(hash, b, a, m.objects[k]);
        }
      }
    }
  }

  lemma SameAgreement(hash: Hasher, a: seq<Replica>, b: seq<Replica>, i: Entry)
    requires Within(a, b) && Agreeing(hash, b, i)
    ensures Agreeing(hash, a, i)
  {
  }

  // ----- What the count counts

  /** The (chunk, replica) pairs of an object, up to and including its first unrecoverable chunk, where that
      replica could not supply that chunk. */
  ghost function BadPairs(hash: Hasher, replicas: seq<Replica>, i: Entry, k: nat): set<(nat, nat)>
    requires k <= |i.chunks|
  {
    set c: nat, r: nat | c < k && r < |replicas| && Recover(hash, replicas, i, c).intact
                         && !Supplies(hash, replicas[r], i.chunks[c], ExpectedSize(i, c)) :: (c, r)
  }

  ghost function BadIn(hash: Hasher, replicas: seq<Replica>, c: nat, ch: Digest, size: int, n: nat): set<(nat, nat)>
    requires n <= |replicas|
  {
    set r: nat | r < n && !Supplies(hash, replicas[r], ch, size) :: (c, r)
  }

  lemma {:induction false} BadInCount(hash: Hasher, replicas: seq<Replica>, c: nat, ch: Digest, size: int)
    ensures |BadIn(hash, replicas, c, ch, size, |replicas|)| == |BadReads(hash, replicas, ch, size)|
  {
    hide Supplies, IsIntact;
    var n := |replicas|;
    if n > 0 {
      SuppliesIff(hash, replicas[n - 1], ch, size);
      var front := replicas[..n - 1];
      BadInCount(hash, front, c, ch, size);
      BadInStep(hash, replicas, c, ch, size);
    }
  }

  lemma BadInStep(hash: Hasher, replicas: seq<Replica>, c: nat, ch: Digest, size: int)
    requires replicas != []
    ensures var n := |replicas| - 1; var before := BadIn(hash, replicas[..n], c, ch, size, n);
      && (c, n) !in before
      && BadIn(hash, replicas, c, ch, size, n + 1)
         == before + if Supplies(hash, replicas[n], ch, size) then {} else {(c, n)}
  {
    hide Supplies;
    var n := |replicas| - 1;
    var before, after := BadIn(hash, replicas[..n], c, ch, size, n), BadIn(hash, replicas, c, ch, size, n + 1);
    forall x | x in after ensures x in before || (x == (c, n) && !Supplies(hash, replicas[n], ch, size)) {
      assert x.1 < n ==> replicas[..n][x.1] == replicas[x.1];
    }
    forall x | x in before ensures x in after {
      assert replicas[..n][x.1] == replicas[x.1];
    }
  }

  lemma BadPairsStep(hash: Hasher, replicas: seq<Replica>, i: Entry, k: nat)
    requires 1 <= k <= |i.chunks|
    ensures var before := BadPairs(hash, replicas, i, k - 1);
      var added := BadIn(hash, replicas, k - 1, i.chunks[k - 1], ExpectedSize(i, k - 1), |replicas|);
      && before !! added
      && BadPairs(hash, replicas, i, k) == if Recover(hash, replicas, i, k - 1).intact then before + added else before
  {
    hide Supplies, Recover;
    var before, after := BadPairs(hash, replicas, i, k - 1), BadPairs(hash, replicas, i, k);
    var added := BadIn(hash, replicas, k - 1, i.chunks[k - 1], ExpectedSize(i, k - 1), |replicas|);
    forall x | x in after ensures x in before || (x in added && Recover(hash, replicas, i, k - 1).intact) {
      if x.0 == k - 1 {
        assert (k - 1, x.1) in added;
      }
    }
  }

  /** The bad reads recorded for an object number exactly its bad (chunk, replica) pairs. */
  lemma {:induction false} CountIsBadPairs(hash: Hasher, replicas: seq<Replica>, i: Entry, k: nat)
    requires k <= |i.chunks|
    ensures |ObjectBad(hash, replicas, i, k)| == |BadPairs(hash, replicas, i, k)|
  {
    hide Supplies, Recover, BadReads, BadIn;
    if k > 0 {
      CountIsBadPairs(hash, replicas, i, k - 1);
      BadInCount(hash, replicas, k - 1, i.chunks[k - 1], ExpectedSize(i, k - 1));
      BadPairsStep(hash, replicas, i, k);
      hide BadPairs;
    }
  }

  /** The (object, chunk, replica) triples of a whole manifest, each object up to its first unrecoverable chunk. */
  ghost function BadTriples(hash: Hasher, replicas: seq<Replica>, objects: seq<Entry>): set<(nat, nat, nat)> {
    if objects == [] then {}
    else
      var n := |objects| - 1;
      BadTriples(hash, replicas, objects[..n]) + Numbered(n, BadPairs(hash, replicas, objects[n], |objects[n].chunks|))
  }

  ghost function Numbered(n: nat, pairs: set<(nat, nat)>): set<(nat, nat, nat)> {
    set p | p in pairs :: (n, p.0, p.1)
  }

  /** A triple is listed exactly when that replica could not supply that chunk while the object was still whole. */
  lemma {:induction false} BadTriplesAre(hash: Hasher, replicas: seq<Replica>, objects: seq<Entry>, o: nat, c: nat,
                                         r: nat)
    ensures (o, c, r) in BadTriples(hash, replicas, objects) <==>
      && o < |objects| && c < |objects[o].chunks| && r < |replicas| && Recover(hash, replicas, objects[o], c).intact
      && !Supplies(hash, replicas[r], objects[o].chunks[c], ExpectedSize(objects[o], c))
  {
    hide Supplies, Recover;
    if objects != [] {
      var n := |objects| - 1;
      BadTriplesAre(hash, replicas, objects[..n], o, c, r);
      if o == n && (c, r) in BadPairs(hash, replicas, objects[n], |objects[n].chunks|) {
        assert (n, (c, r).0, (c, r).1) in Numbered(n, BadPairs(hash, replicas, objects[n], |objects[n].chunks|));
      }
    }
  }

  lemma {:induction false} NumberedCount(n: nat, pairs: set<(nat, nat)>)
    ensures |Numbered(n, pairs)| == |pairs|
    decreases pairs
  {
    if pairs != {} {
      var p :| p in pairs;
      NumberedCount(n, pairs - {p});
      assert Numbered(n, pairs) == Numbered(n, pairs - {p}) + {(n, p.0, p.1)};
    }
  }

  lemma {:induction false} AllBadCount(hash: Hasher, replicas: seq<Replica>, objects: seq<Entry>)
    ensures |AllBad(hash, replicas, objects)| == |BadTriples(hash, replicas, objects)|
  {
    hide BadPairs, ObjectBad;
    if objects != [] {
      var n := |objects| - 1;
      var pairs := BadPairs(hash, replicas, objects[n], |objects[n].chunks|);
      AllBadCount(hash, replicas, objects[..n]);
      CountIsBadPairs(hash, replicas, objects[n], |objects[n].chunks|);
      NumberedCount(n, pairs);
      forall x | x in BadTriples(hash, replicas, objects[..n]) ensures x !in Numbered(n, pairs) {
        BadTriplesAre(hash, replicas, objects[..n], x.0, x.1, x.2);
      }
    }
  }

  /** The report's count is the number of bad (object, chunk, replica) triples of the whole manifest. */
  lemma ReportCountsBadTriples(hash: Hasher, m: Manifest, anchor: Digest, replicas: seq<Replica>)
    ensures ReportOf(hash, m, anchor, replicas).badCount == |BadTriples(hash, replicas, m.objects)|
  {
    hide Verdicts, Complete, AllBad, BadTriples;
    AllBadCount(hash, replicas, m.objects);
  }
}
