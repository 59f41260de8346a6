/**
 How much evidence a reconstruction keeps: the wrong chunks it reads are charged one after the other, each kept once
 under its digest, until the bound is passed or two different ones meet under one digest.
 */
module Evidence {
  import opened Common
  import opened RecoveryIo

  const EVIDENCE_LIMIT := 2 * LIMIT

  function TotalLength(bs: seq<Bytes>): nat {
    if bs == [] then 0 else TotalLength(bs[..|bs| - 1]) + |bs[|bs| - 1]|
  }

  /** What is kept so far, or why nothing more can be. */
  datatype Vault = Vault(kept: seq<Bytes>) | Overfull | Colliding

  /** One wrong chunk more. The bound is checked before it is found that the chunk is kept already. */
  function Charge(hash: Hasher, v: Vault, b: Bytes): Vault {
    if !v.Vault? then v
    else if TotalLength(v.kept) + |b| > EVIDENCE_LIMIT then Overfull
    else if forall x :: x in v.kept ==> hash(x) != hash(b) then Vault(v.kept + [b])
    else if b in v.kept then v
    else Colliding
  }

  function ChargeAll(hash: Hasher, v: Vault, bs: seq<Bytes>): Vault {
    if bs == [] then v else Charge(hash, ChargeAll(hash, v, bs[..|bs| - 1]), bs[|bs| - 1])
  }

  predicate Charged(hash: Hasher, kept: seq<Bytes>, bs: seq<Bytes>, kept': seq<Bytes>) {
    ChargeAll(hash, Vault(kept), bs) == Vault(kept')
  }

  predicate Spilled(hash: Hasher, kept: seq<Bytes>, bs: seq<Bytes>, why: Failure) {
    match ChargeAll(hash, Vault(kept), bs)
    case Vault(_) => false
    case Overfull => why == EvidenceFull
    case Colliding => why == EvidenceCollision
  }

  lemma {:induction false} ChargeTwice(hash: Hasher, v: Vault, a: seq<Bytes>, b: seq<Bytes>)
    ensures ChargeAll(hash, v, a + b) == ChargeAll(hash, ChargeAll(hash, v, a), b)
    decreases |b|
  {
    hide Charge;
    if b == [] {
      assert a + b == a;
    } else {
      assert (a + b)[..|a + b| - 1] == a + b[..|b| - 1];
      ChargeTwice(hash, v, a, b[..|b| - 1]);
    }
  }

  lemma {:induction false} StuckStays(hash: Hasher, v: Vault, bs: seq<Bytes>)
    requires !v.Vault?
    ensures ChargeAll(hash, v, bs) == v
  {
    if bs != [] {
      StuckStays(hash, v, bs[..|bs| - 1]);
    }
  }

  lemma ChargedNothing(hash: Hasher, kept: seq<Bytes>)
    ensures Charged(hash, kept, [], kept)
  {
  }

  lemma ChargedMore(hash: Hasher, kept: seq<Bytes>, a: seq<Bytes>, kept': seq<Bytes>, b: seq<Bytes>)
    requires Charged(hash, kept, a, kept')
    ensures forall kept'' :: Charged(hash, kept', b, kept'') <==> Charged(hash, kept, a + b, kept'')
    ensures forall why :: Spilled(hash, kept', b, why) <==> Spilled(hash, kept, a + b, why)
  {
    ChargeTwice(hash, Vault(kept), a, b);
  }

  lemma SpilledStays(hash: Hasher, kept: seq<Bytes>, a: seq<Bytes>, b: seq<Bytes>, why: Failure)
    requires Spilled(hash, kept, a, why) && a <= b
    ensures Spilled(hash, kept, b, why)
  {
    assert b == a + b[|a|..];
    ChargeTwice(hash, Vault(kept), a, b[|a|..]);
    StuckStays(hash, ChargeAll(hash, Vault(kept), a), b[|a|..]);
  }

  lemma ChargeOne(hash: Hasher, kept: seq<Bytes>, b: Bytes)
    ensures ChargeAll(hash, Vault(kept), [b]) == Charge(hash, Vault(kept), b)
  {
    var one := [b];
    assert one[..|one| - 1] == [];
  }

  // ----- When all of it can be kept

  /** The chunks in the order in which each was first seen. */
  function Firsts(bs: seq<Bytes>): seq<Bytes> {
    if bs == [] then []
    else
      var front, last := Firsts(bs[..|bs| - 1]), bs[|bs| - 1];
      if last in front then front else front + [last]
  }

  predicate CollisionFree(hash: Hasher, bs: seq<Bytes>) {
    forall x, y :: x in bs && y in bs && hash(x) == hash(y) ==> x == y
  }

  /** No two different chunks share a digest, and each fits in beside those seen before it. */
  predicate Fits(hash: Hasher, bs: seq<Bytes>) {
    CollisionFree(hash, bs) && forall n :: 0 <= n < |bs| ==> TotalLength(Firsts(bs[..n])) + |bs[n]| <= EVIDENCE_LIMIT
  }

  lemma {:induction false} FirstsHoldAll(bs: seq<Bytes>)
    ensures forall b :: b in Firsts(bs) <==> b in bs
  {
    if bs != [] {
      FirstsHoldAll(bs[..|bs| - 1]);
      assert bs == bs[..|bs| - 1] + [bs[|bs| - 1]];
    }
  }

  lemma FitsFront(hash: Hasher, bs: seq<Bytes>)
    requires bs != []
    ensures var front, b := bs[..|bs| - 1], bs[|bs| - 1];
      Fits(hash, bs) <==>
      && Fits(hash, front) && TotalLength(Firsts(front)) + |b| <= EVIDENCE_LIMIT
      && forall x :: x in front && hash(x) == hash(b) ==> x == b
  {
    var front, b := bs[..|bs| - 1], bs[|bs| - 1];
    assert bs == front + [b];
    assert forall n :: 0 <= n < |front| ==> front[..n] == bs[..n] && front[n] == bs[n];
    assert forall x :: x in bs <==> x in front || x == b;
  }

  /** One chunk after some that all fit. */
  lemma ChargeFirsts(hash: Hasher, front: seq<Bytes>, b: Bytes)
    requires CollisionFree(hash, front)
    ensures var v := Charge(hash, Vault(Firsts(front)), b);
      if TotalLength(Firsts(front)) + |b| > EVIDENCE_LIMIT then v == Overfull
      else if forall x :: x in front && hash(x) == hash(b) ==> x == b
      then v == Vault(if b in front then Firsts(front) else Firsts(front) + [b])
      else v == Colliding
  {
    hide TotalLength, Firsts;
    FirstsHoldAll(front);
  }

  /** Everything can be kept exactly when it fits, and what is kept then is each chunk once. */
  lemma {:induction false} KeptIffFits(hash: Hasher, bs: seq<Bytes>)
    ensures if Fits(hash, bs) then Charged(hash, [], bs, Firsts(bs)) else !ChargeAll(hash, Vault([]), bs).Vault?
  {
    hide Fits, Charge, TotalLength;
    if bs == [] {
      NothingFits(hash);
    } else {
      var front, b := bs[..|bs| - 1], bs[|bs| - 1];
      KeptIffFits(hash, front);
      FitsFront(hash, bs);
      if Fits(hash, front) {
        FitsMeans(hash, front);
        ChargeFirsts(hash, front, b);
        FirstsHoldAll(front);
      } else {
        ChargeStuck(hash, ChargeAll(hash, Vault([]), front), b);
      }
    }
  }

  lemma ChargeStuck(hash: Hasher, v: Vault, b: Bytes)
    requires !v.Vault?
    ensures Charge(hash, v, b) == v
  {
  }

  lemma FitsMeans(hash: Hasher, bs: seq<Bytes>)
    requires Fits(hash, bs)
    ensures CollisionFree(hash, bs)
  {
  }

  lemma ChargedFits(hash: Hasher, bs: seq<Bytes>, kept: seq<Bytes>)
    requires Charged(hash, [], bs, kept)
    ensures Fits(hash, bs)
  {
    hide Fits;
    KeptIffFits(hash, bs);
  }

  lemma SpilledDoesNotFit(hash: Hasher, bs: seq<Bytes>, why: Failure)
    requires Spilled(hash, [], bs, why)
    ensures !Fits(hash, bs) && (why == EvidenceFull || why == EvidenceCollision)
  {
    hide Fits;
    KeptIffFits(hash, bs);
  }

  lemma NothingFits(hash: Hasher)
    ensures Fits(hash, [])
  {
  }

  /** Why something could not be kept: two different chunks under one digest, or a chunk too many. */
  lemma {:induction false} SpilledMeans(hash: Hasher, bs: seq<Bytes>, why: Failure)
    requires Spilled(hash, [], bs, why)
    ensures why == EvidenceCollision || why == EvidenceFull
    ensures why == EvidenceCollision ==> !CollisionFree(hash, bs)
    ensures why == EvidenceFull ==>
      exists n :: 0 <= n < |bs| && TotalLength(Firsts(bs[..n])) + |bs[n]| > 16_777_216
  {
    if bs == [] {
    } else {
      var front, b := bs[..|bs| - 1], bs[|bs| - 1];
      assert bs == front + [b];
      KeptIffFits(hash, front);
      if Fits(hash, front) {
        ChargeFirsts(hash, front, b);
        assert front == bs[..|front|] && b in bs;
        assert forall x :: x in front ==> x in bs;
      } else {
        SpilledMeans(hash, front, why);
        if why == EvidenceFull {
          var n :| 0 <= n < |front| && TotalLength(Firsts(front[..n])) + |front[n]| > EVIDENCE_LIMIT;
          assert front[..n] == bs[..n] && front[n] == bs[n];
        } else {
          var x, y :| x in front && y in front && hash(x) == hash(y) && x != y;
          assert x in bs && y in bs;
        }
      }
    }
  }

  lemma {:induction false} FirstsShorter(bs: seq<Bytes>)
    ensures TotalLength(Firsts(bs)) <= TotalLength(bs)
  {
    if bs != [] {
      var front, b := bs[..|bs| - 1], bs[|bs| - 1];
      FirstsShorter(front);
      if b !in Firsts(front) {
        assert (Firsts(front) + [b])[..|Firsts(front)|] == Firsts(front);
      }
    }
  }

  /** It is enough that all wrong reads together stay within the bound. */
  lemma {:induction false} FewEnoughFit(hash: Hasher, bs: seq<Bytes>)
    requires CollisionFree(hash, bs) && TotalLength(bs) <= 16_777_216
    ensures Fits(hash, bs)
  {
    if bs == [] {
      NothingFits(hash);
    } else {
      var front := bs[..|bs| - 1];
      assert forall x :: x in front ==> x in bs;
      FewEnoughFit(hash, front);
      FirstsShorter(front);
      FitsFront(hash, bs);
      assert bs[|bs| - 1] in bs;
    }
  }
}
