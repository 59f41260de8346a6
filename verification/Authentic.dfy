/**
 Acceptance of a recovery anchor: pinned by digest, fresh, bound to one manifest, and signed by a threshold
 of independent keys. Hashing, signing and JSON are parameters.
 */
module Authentic {
  import opened Common
  import opened Manifest
  import opened Cohort

  datatype Role = Recovery | Witness

  datatype Key = Key(id: string, domain: string, role: Role, publicKey: Digest, revoked: bool)

  datatype Trust = Trust(node: string, trustEpoch: int, minGeneration: int, threshold: int, maxLifetime: int,
                         keys: seq<Key>)

  datatype Anchor = Anchor(node: string, generation: int, trustEpoch: int, manifest: Digest, pending: Digest,
                           issued: int, expires: int, nonce: string)

  datatype Signature = Signature(key: string, bytes: Bytes)

  datatype Envelope = Envelope(anchor: Anchor, signatures: seq<Signature>)

  datatype Marker = Marker(anchor: Digest, report: Digest)

  /** The libraries the program calls: SHA-256, Ed25519 verification, and JSON in both directions. */
  datatype Tools = Tools(
    hash: Hasher,
    verify: (Digest, Bytes, Bytes) -> bool,
    decodeManifest: Bytes -> Option<Manifest>,
    canonicalManifest: Manifest -> Bytes,
    decodeEnvelope: Bytes -> Option<Envelope>,
    canonicalAnchor: Anchor -> Bytes,
    canonicalPending: seq<string> -> Bytes,
    canonicalIntent: Digest -> Bytes,
    canonicalReport: Report -> Bytes,
    canonicalMarker: Marker -> Bytes)

  const DOMAIN: Bytes := [78, 73, 65, 45, 82, 69, 67, 79, 86, 69, 82, 89, 45, 65, 78, 67, 72, 79, 82, 45, 118, 49, 0]
  const MAX_SIGNATURES := 32

  // ----- The trust policy

  predicate DistinctKeys(keys: seq<Key>) {
    forall i, j :: 0 <= i < j < |keys| ==> keys[i].id != keys[j].id && keys[i].publicKey != keys[j].publicKey
  }

  predicate TrustValid(t: Trust) {
    && Ident(t.node) && 1 <= t.trustEpoch <= MAX_INTEGER && 1 <= t.minGeneration <= MAX_INTEGER
    && 2 <= t.threshold <= 32 && 1 <= t.maxLifetime <= 86400
    && t.threshold <= |t.keys| <= 32
    && (forall k :: 0 <= k < |t.keys| ==> Ident(t.keys[k].id) && Ident(t.keys[k].domain))
    && DistinctKeys(t.keys)
  }

  /** The source's loop over the keys, with its two sets of identities seen so far. */
  method ValidateTrust(t: Trust) returns (ok: bool)
    ensures ok <==> TrustValid(t)
  {
    hide Ident;
    var named := CheckIdent(t.node);
    if !named || !(0 < t.trustEpoch < 0x8000_0000_0000_0000) || !(0 < t.minGeneration < 0x8000_0000_0000_0000)
       || t.threshold < 2 || t.threshold > 32 || t.maxLifetime < 1 || t.maxLifetime > 86_400
       || |t.keys| < t.threshold || |t.keys| > 32 {
      return false;
    }
    var ids: set<string>, pubs: set<Digest> := {}, {};
    for k := 0 to |t.keys|
      invariant forall j :: 0 <= j < k ==> Ident(t.keys[j].id) && Ident(t.keys[j].domain)
      invariant ids == set j | 0 <= j < k :: t.keys[j].id
      invariant pubs == set j | 0 <= j < k :: t.keys[j].publicKey
      invariant DistinctKeys(t.keys[..k])
    {
      var key := t.keys[k];
      var id := CheckIdent(key.id);
      var domain := CheckIdent(key.domain);
      if !id || !domain || key.id in ids || key.publicKey in pubs {
        return false;
      }
      ids, pubs := ids + {key.id}, pubs + {key.publicKey};
    }
    assert t.keys[..|t.keys|] == t.keys;
    return true;
  }

  // ----- The signatures

  type Registry = map<string, Key>

  /** {k['id']: k for k in keys} */
  function RegistryOf(keys: seq<Key>): Registry {
    if keys == [] then map[]
    else
      var last := keys[|keys| - 1];
      RegistryOf(keys[..|keys| - 1])[last.id := last]
  }

  lemma {:induction false} RegistryHoldsKeys(keys: seq<Key>)
    ensures forall id :: id in RegistryOf(keys) ==> RegistryOf(keys)[id] in keys && RegistryOf(keys)[id].id == id
  {
    if keys != [] {
      var front, last := keys[..|keys| - 1], keys[|keys| - 1];
      RegistryHoldsKeys(front);
      assert keys == front + [last];
    }
  }

  /** A signature of `raw` by a known key that is not revoked. */
  predicate Counts(tools: Tools, reg: Registry, raw: Bytes, s: Signature) {
    && s.key in reg && !reg[s.key].revoked && |s.bytes| == 64
    && tools.verify(reg[s.key].publicKey, DOMAIN + raw, s.bytes)
  }

  predicate Independent(reg: Registry, a: Signature, b: Signature) {
    a.key in reg && b.key in reg && a.key != b.key && reg[a.key].domain != reg[b.key].domain
  }

  predicate HasRole(reg: Registry, sigs: seq<Signature>, role: Role) {
    exists k :: 0 <= k < |sigs| && sigs[k].key in reg && reg[sigs[k].key].role == role
  }

  predicate PrefixGood(tools: Tools, reg: Registry, raw: Bytes, sigs: seq<Signature>) {
    && (forall k :: 0 <= k < |sigs| ==> Counts(tools, reg, raw, sigs[k]))
    && (forall j, k :: 0 <= j < k < |sigs| ==> Independent(reg, sigs[j], sigs[k]))
  }

  predicate SignaturesGood(tools: Tools, t: Trust, raw: Bytes, sigs: seq<Signature>) {
    var reg := RegistryOf(t.keys);
    && t.threshold <= |sigs| <= MAX_SIGNATURES && PrefixGood(tools, reg, raw, sigs)
    && HasRole(reg, sigs, Recovery) && HasRole(reg, sigs, Witness)
  }

  /** The domains of the first signatures. */
  function Domains(reg: Registry, sigs: seq<Signature>): set<string> {
    if sigs == [] then {}
    else
      var last := sigs[|sigs| - 1];
      Domains(reg, sigs[..|sigs| - 1]) + if last.key in reg then {reg[last.key].domain} else {}
  }

  lemma {:induction false} DomainsAre(reg: Registry, sigs: seq<Signature>)
    ensures forall d :: d in Domains(reg, sigs) <==>
      exists k :: 0 <= k < |sigs| && sigs[k].key in reg && reg[sigs[k].key].domain == d
  {
    if sigs != [] {
      var n := |sigs| - 1;
      var front := sigs[..n];
      DomainsAre(reg, front);
      forall d ensures d in Domains(reg, sigs) <==>
        exists k :: 0 <= k < |sigs| && sigs[k].key in reg && reg[sigs[k].key].domain == d
      {
        if d in Domains(reg, front) {
          var j :| 0 <= j < n && front[j].key in reg && reg[front[j].key].domain == d;
          assert sigs[j].key in reg && reg[sigs[j].key].domain == d;
        }
        if j :| 0 <= j < n && sigs[j].key in reg && reg[sigs[j].key].domain == d {
          assert front[j].key in reg;
        }
        assert sigs[n] == sigs[|sigs| - 1];
      }
    }
  }

  lemma PrefixGrows(tools: Tools, reg: Registry, raw: Bytes, sigs: seq<Signature>, k: nat)
    requires k < |sigs| && PrefixGood(tools, reg, raw, sigs[..k])
    ensures PrefixGood(tools, reg, raw, sigs[..k + 1]) <==>
      && Counts(tools, reg, raw, sigs[k])
      && (forall j :: 0 <= j < k ==> sigs[j].key != sigs[k].key)
      && reg[sigs[k].key].domain !in Domains(reg, sigs[..k])
  {
    hide Counts, Domains;
    var front, more, s := sigs[..k], sigs[..k + 1], sigs[k];
    DomainsAre(reg, front);
    if PrefixGood(tools, reg, raw, more) {
      assert Counts(tools, reg, raw, more[k]);
      assert forall j :: 0 <= j < k ==> Independent(reg, more[j], more[k]);
      assert forall j :: 0 <= j < k ==> front[j] == more[j] == sigs[j];
    }
    if && Counts(tools, reg, raw, s) && (forall j :: 0 <= j < k ==> sigs[j].key != s.key)
       && s.key in reg && reg[s.key].domain !in Domains(reg, front) {
      forall j, l | 0 <= j < l < k + 1 ensures Independent(reg, more[j], more[l]) {
        if l < k {
          assert Independent(reg, front[j], front[l]);
        } else {
          assert Counts(tools, reg, raw, front[j]);
          CountsKnown(tools, reg, raw, front[j]);
        }
      }
      forall j | 0 <= j < k + 1 ensures Counts(tools, reg, raw, more[j]) {
        assert j < k ==> Counts(tools, reg, raw, front[j]);
      }
    }
    if Counts(tools, reg, raw, s) {
      CountsKnown(tools, reg, raw, s);
    }
  }

  lemma CountsKnown(tools: Tools, reg: Registry, raw: Bytes, s: Signature)
    requires Counts(tools, reg, raw, s)
    ensures s.key in reg
  {
  }

  lemma PrefixShorter(tools: Tools, reg: Registry, raw: Bytes, sigs: seq<Signature>, k: nat)
    requires k <= |sigs| && PrefixGood(tools, reg, raw, sigs)
    ensures PrefixGood(tools, reg, raw, sigs[..k])
  {
    hide Counts, Independent;
    assert forall j :: 0 <= j < k ==> sigs[..k][j] == sigs[j];
  }

  /** The source's loop, with its sets of keys, domains and roles seen so far. */
  method CheckSignatures(tools: Tools, t: Trust, raw: Bytes, sigs: seq<Signature>) returns (ok: bool)
    ensures ok <==> SignaturesGood(tools, t, raw, sigs)
  {
    hide PrefixGood;
    if !(t.threshold <= |sigs| <= MAX_SIGNATURES) {
      return false;
    }
    var reg := RegistryOf(t.keys);
    var seen: set<string>, domains: set<string>, roles: set<Role> := {}, {}, {};
    assert PrefixGood(tools, reg, raw, sigs[..0]) by { NoneYet(tools, reg, raw); }
    for k := 0 to |sigs|
      invariant PrefixGood(tools, reg, raw, sigs[..k])
      invariant seen == set j | 0 <= j < k :: sigs[j].key
      invariant domains == Domains(reg, sigs[..k])
      invariant forall r :: r in roles <==> HasRole(reg, sigs[..k], r)
    {
      var s := sigs[k];
      PrefixGrows(tools, reg, raw, sigs, k);
      assert sigs[..k + 1][..k] == sigs[..k];
      var fails := s.key !in reg || s.key in seen || reg[s.key].revoked || reg[s.key].domain in domains
                   || |s.bytes| != 64 || !tools.verify(reg[s.key].publicKey, DOMAIN + raw, s.bytes);
      if fails {
        if PrefixGood(tools, reg, raw, sigs) {
          PrefixShorter(tools, reg, raw, sigs, k + 1);
        }
        return false;
      }
      RoleGrows(reg, sigs, k);
      seen, domains, roles := seen + {s.key}, domains + {reg[s.key].domain}, roles + {reg[s.key].role};
    }
    assert sigs[..|sigs|] == sigs;
    assert Recovery in roles && Witness in roles <==> roles == {Recovery, Witness};
    return roles == {Recovery, Witness};
  }

  lemma NoneYet(tools: Tools, reg: Registry, raw: Bytes)
    ensures PrefixGood(tools, reg, raw, [])
  {
  }

  // ----- The same without the registry and without the loop

  /** This provisioned key made the signature. */
  predicate Made(tools: Tools, t: Trust, raw: Bytes, s: Signature, key: Key) {
    && key in t.keys && key.id == s.key && !key.revoked && |s.bytes| == 64
    && tools.verify(key.publicKey, DOMAIN + raw, s.bytes)
  }

  /** `signers` are the keys that made the signatures: no two of one domain, and both roles among them. */
  predicate MadeBy(tools: Tools, t: Trust, raw: Bytes, sigs: seq<Signature>, signers: seq<Key>) {
    && |signers| == |sigs|
    && (forall k :: 0 <= k < |sigs| ==> Made(tools, t, raw, sigs[k], signers[k]))
    && (forall j, k :: 0 <= j < k < |sigs| ==>
          signers[j].id != signers[k].id && signers[j].domain != signers[k].domain)
    && (exists k :: 0 <= k < |sigs| && signers[k].role == Recovery)
    && (exists k :: 0 <= k < |sigs| && signers[k].role == Witness)
  }

  lemma {:induction false} RegistryFinds(keys: seq<Key>, key: Key)
    requires DistinctKeys(keys) && key in keys
    ensures key.id in RegistryOf(keys) && RegistryOf(keys)[key.id] == key
  {
    var front, last := keys[..|keys| - 1], keys[|keys| - 1];
    if key != last {
      assert keys == front + [last];
      var k :| 0 <= k < |front| && front[k] == key;
      assert keys[k].id != keys[|front|].id;
      RegistryFinds(front, key);
    }
  }

  lemma CountsIff(tools: Tools, t: Trust, raw: Bytes, s: Signature)
    requires DistinctKeys(t.keys)
    ensures var reg := RegistryOf(t.keys);
      && (Counts(tools, reg, raw, s) ==> Made(tools, t, raw, s, reg[s.key]))
      && forall key :: Made(tools, t, raw, s, key) ==> Counts(tools, reg, raw, s) && reg[s.key] == key
  {
    RegistryHoldsKeys(t.keys);
    forall key | Made(tools, t, raw, s, key)
      ensures Counts(tools, RegistryOf(t.keys), raw, s) && RegistryOf(t.keys)[s.key] == key
    {
      RegistryFinds(t.keys, key);
    }
  }

  /** The signatures are good exactly when there are 2 to 32 of them, at least the threshold, each made by its own
      provisioned and unrevoked key, in as many domains, in both roles. */
  lemma SignaturesIff(tools: Tools, t: Trust, raw: Bytes, sigs: seq<Signature>)
    requires TrustValid(t)
    ensures SignaturesGood(tools, t, raw, sigs) <==>
      t.threshold <= |sigs| <= 32 && exists signers :: MadeBy(tools, t, raw, sigs, signers)
  {
    hide TrustValid, Counts, Made, RegistryOf;
    var reg := RegistryOf(t.keys);
    KeysDistinct(t);
    forall k | 0 <= k < |sigs|
      ensures Counts(tools, reg, raw, sigs[k]) ==>
        sigs[k].key in reg && reg[sigs[k].key].id == sigs[k].key && Made(tools, t, raw, sigs[k], reg[sigs[k].key])
      ensures forall key :: Made(tools, t, raw, sigs[k], key) ==>
        Counts(tools, reg, raw, sigs[k]) && reg[sigs[k].key] == key && key.id == sigs[k].key
    {
      CountsIff(tools, t, raw, sigs[k]);
      if Counts(tools, reg, raw, sigs[k]) {
        CountsKnown(tools, reg, raw, sigs[k]);
        RegistryHoldsKeys(t.keys);
      }
      forall key | Made(tools, t, raw, sigs[k], key) ensures key.id == sigs[k].key {
        MadeIsNamed(tools, t, raw, sigs[k], key);
      }
    }
    if SignaturesGood(tools, t, raw, sigs) {
      var signers := seq(|sigs|, k requires 0 <= k < |sigs| && sigs[k].key in reg => reg[sigs[k].key]);
      forall j, k | 0 <= j < k < |sigs|
        ensures signers[j].id != signers[k].id && signers[j].domain != signers[k].domain
      {
        assert Independent(reg, sigs[j], sigs[k]);
      }
      assert MadeBy(tools, t, raw, sigs, signers);
    }
    if signers :| MadeBy(tools, t, raw, sigs, signers) {
      assert forall k :: 0 <= k < |sigs| ==> Made(tools, t, raw, sigs[k], signers[k]);
    }
  }

  lemma KeysDistinct(t: Trust)
    requires TrustValid(t)
    ensures DistinctKeys(t.keys)
  {
  }

  lemma MadeIsNamed(tools: Tools, t: Trust, raw: Bytes, s: Signature, key: Key)
    requires Made(tools, t, raw, s, key)
    ensures key.id == s.key
  {
  }

  lemma RoleGrows(reg: Registry, sigs: seq<Signature>, k: nat)
    requires k < |sigs| && sigs[k].key in reg
    ensures forall r :: HasRole(reg, sigs[..k + 1], r) <==> HasRole(reg, sigs[..k], r) || reg[sigs[k].key].role == r
  {
    var front, more := sigs[..k], sigs[..k + 1];
    forall r ensures HasRole(reg, more, r) <==> HasRole(reg, front, r) || reg[sigs[k].key].role == r {
      if HasRole(reg, front, r) {
        var j :| 0 <= j < k && front[j].key in reg && reg[front[j].key].role == r;
        assert more[j] == front[j];
      }
      if j :| 0 <= j < k && more[j].key in reg && reg[more[j].key].role == r {
        assert front[j] == more[j];
      }
      assert more[k] == sigs[k];
    }
  }

  // ----- The anchor

  predicate AnchorValid(a: Anchor) {
    && Ident(a.node) && Ident(a.nonce)
    && 0 <= a.generation <= MAX_INTEGER && 0 <= a.trustEpoch <= MAX_INTEGER
    && 0 <= a.issued <= MAX_INTEGER && 0 <= a.expires <= MAX_INTEGER
  }

  /** The schema of the anchor: two names and four counters. */
  method CheckAnchor(a: Anchor) returns (ok: bool)
    ensures ok <==> AnchorValid(a)
  {
    hide Ident;
    var node := CheckIdent(a.node);
    var nonce := CheckIdent(a.nonce);
    if !node || !nonce {
      return false;
    }
    var counters := [a.generation, a.trustEpoch, a.issued, a.expires];
    assert counters[0] == a.generation && counters[1] == a.trustEpoch && counters[2] == a.issued;
    assert counters[3] == a.expires;
    for k := 0 to 4
      invariant forall j :: 0 <= j < k ==> 0 <= counters[j] <= MAX_INTEGER
    {
      if counters[k] < 0 || counters[k] >= 0x8000_0000_0000_0000 {
        return false;
      }
    }
    ok := true;
  }

  /** The anchor fits the pinned digest, the trust floor, the clock and the manifest. */
  predicate AnchorBinds(tools: Tools, t: Trust, expected: Digest, now: int, mraw: Bytes, m: Manifest, a: Anchor) {
    && tools.hash(tools.canonicalAnchor(a)) == expected
    && a.node == t.node == m.node && a.generation == m.generation >= t.minGeneration
    && a.trustEpoch == t.trustEpoch == m.trustEpoch
    && a.issued <= now < a.expires && a.expires - a.issued <= t.maxLifetime
    && a.manifest == tools.hash(mraw) && a.pending == tools.hash(tools.canonicalPending(m.pending))
  }

  predicate Accepted(tools: Tools, t: Trust, expected: Digest, now: int, mraw: Bytes, eraw: Bytes,
                     m: Manifest, a: Anchor) {
    && TrustValid(t) && 0 <= now <= MAX_INTEGER
    && tools.decodeManifest(mraw) == Some(m) && WellFormed(m) && tools.canonicalManifest(m) == mraw
    && tools.decodeEnvelope(eraw).Some? && tools.decodeEnvelope(eraw).value.anchor == a
    && AnchorValid(a) && AnchorBinds(tools, t, expected, now, mraw, m, a)
    && SignaturesGood(tools, t, tools.canonicalAnchor(a), tools.decodeEnvelope(eraw).value.signatures)
  }

  method Authenticate(tools: Tools, mraw: Bytes, eraw: Bytes, t: Trust, expected: Digest, now: int)
    returns (r: Option<(Manifest, Anchor)>)
    ensures r.Some? ==> Accepted(tools, t, expected, now, mraw, eraw, r.value.0, r.value.1)
    ensures r.None? ==> forall m, a :: !Accepted(tools, t, expected, now, mraw, eraw, m, a)
  {
    hide TrustValid, WellFormed, AnchorValid, SignaturesGood;
    var trusted := ValidateTrust(t);
    if !trusted || !(0 <= now <= MAX_INTEGER) {
      return None;
    }
    var decoded := tools.decodeManifest(mraw);
    if decoded.None? {
      return None;
    }
    var m := decoded.value;
    var total := ValidateManifest(m);
    if total.None? || tools.canonicalManifest(m) != mraw {
      return None;
    }
    var envelope := tools.decodeEnvelope(eraw);
    if envelope.None? {
      return None;
    }
    var a := envelope.value.anchor;
    var valid := CheckAnchor(a);
    if !valid || tools.hash(tools.canonicalAnchor(a)) != expected {
      return None;
    }
    if a.node != t.node || a.node != m.node || a.generation != m.generation || a.generation < t.minGeneration
       || a.trustEpoch != t.trustEpoch || a.trustEpoch != m.trustEpoch {
      return None;
    }
    if a.issued > now || now >= a.expires || a.expires - a.issued > t.maxLifetime {
      return None;
    }
    if a.manifest != tools.hash(mraw) || a.pending != tools.hash(tools.canonicalPending(m.pending)) {
      return None;
    }
    var signed := CheckSignatures(tools, t, tools.canonicalAnchor(a), envelope.value.signatures);
    if !signed {
      return None;
    }
    return Some((m, a));
  }

  // ----- What acceptance means

  lemma {:induction false} DomainsCount(tools: Tools, reg: Registry, raw: Bytes, sigs: seq<Signature>)
    requires PrefixGood(tools, reg, raw, sigs)
    ensures |Domains(reg, sigs)| == |sigs|
  {
    hide PrefixGood, Counts;
    if sigs != [] {
      var n := |sigs| - 1;
      PrefixShorter(tools, reg, raw, sigs, n);
      DomainsCount(tools, reg, raw, sigs[..n]);
      PrefixGrows(tools, reg, raw, sigs, n);
      assert sigs[..n + 1] == sigs;
      CountsKnown(tools, reg, raw, sigs[n]);
    }
  }

  lemma SubsetSize(a: set<string>, b: set<string>)
    requires a <= b
    ensures |a| <= |b|
  {
    assert b == a + (b - a);
  }

  /** While fewer domains than the threshold are faulty, an accepted anchor was signed by a provisioned,
      unrevoked key of a sound domain, whichever domains those are. */
  lemma SoundKeySigned(tools: Tools, t: Trust, expected: Digest, now: int, mraw: Bytes, eraw: Bytes,
                       m: Manifest, a: Anchor, faulty: set<string>)
    requires Accepted(tools, t, expected, now, mraw, eraw, m, a) && |faulty| < t.threshold
    ensures exists key: Key, sig: Bytes :: key in t.keys && !key.revoked && key.domain !in faulty
                              && tools.verify(key.publicKey, DOMAIN + tools.canonicalAnchor(a), sig)
  {
    hide AnchorBinds, AnchorValid, WellFormed, TrustValid;
    var sigs, reg, raw := tools.decodeEnvelope(eraw).value.signatures, RegistryOf(t.keys), tools.canonicalAnchor(a);
    DomainsCount(tools, reg, raw, sigs);
    if Domains(reg, sigs) <= faulty {
      SubsetSize(Domains(reg, sigs), faulty);
    }
    DomainsAre(reg, sigs);
    var d :| d in Domains(reg, sigs) && d !in faulty;
    var k :| 0 <= k < |sigs| && sigs[k].key in reg && reg[sigs[k].key].domain == d;
    assert Counts(tools, reg, raw, sigs[k]);
    RegistryHoldsKeys(t.keys);
    assert tools.verify(reg[sigs[k].key].publicKey, DOMAIN + raw, sigs[k].bytes);
  }

  /** Two acceptances under one pinned digest are of the same anchor, manifest bytes and pending set, unless two
      of the four hashed strings collide. */
  lemma PinAdmitsOneManifest(tools: Tools, t: Trust, u: Trust, expected: Digest, now: int, later: int,
                             mraw: Bytes, nraw: Bytes, eraw: Bytes, fraw: Bytes,
                             m: Manifest, n: Manifest, a: Anchor, b: Anchor)
    requires Accepted(tools, t, expected, now, mraw, eraw, m, a)
    requires Accepted(tools, u, expected, later, nraw, fraw, n, b)
    requires forall x, y :: tools.canonicalAnchor(x) == tools.canonicalAnchor(y) ==> x == y
    requires forall x, y | x in {tools.canonicalAnchor(a), tools.canonicalAnchor(b), mraw, nraw}
                           && y in {tools.canonicalAnchor(a), tools.canonicalAnchor(b), mraw, nraw} ::
               tools.hash(x) == tools.hash(y) ==> x == y
    ensures a == b && mraw == nraw && m == n && m.pending == n.pending
  {
    hide AnchorValid, WellFormed, TrustValid, SignaturesGood;
    assert tools.canonicalAnchor(a) == tools.canonicalAnchor(b);
  }

  // ----- Finding the manifest

  predicate Holds(tools: Tools, r: ReadResult, h: Digest) {
    r.Read? && tools.hash(r.bytes) == h
  }

  predicate FirstToHold(tools: Tools, replicas: seq<ReadResult>, h: Digest, k: nat)
    requires k < |replicas|
  {
    Holds(tools, replicas[k], h) && forall j :: 0 <= j < k ==> !Holds(tools, replicas[j], h)
  }

  /** What the search ends with: a copy, no copy, or an envelope that does not name a digest. */
  datatype Search = Found(bytes: Bytes) | Nowhere | Undecodable

  ghost predicate IsSearch(tools: Tools, replicas: seq<ReadResult>, h: Digest, explicit: Option<Bytes>, r: Search) {
    if explicit.Some? && tools.hash(explicit.value) == h then r == Found(explicit.value)
    else match r
      case Found(b) => exists k :: 0 <= k < |replicas| && replicas[k] == Read(b) && FirstToHold(tools, replicas, h, k)
      case Nowhere => forall k :: 0 <= k < |replicas| ==> !Holds(tools, replicas[k], h)
      case Undecodable => false
  }

  /** The source's search: an explicit copy first, then the replicas in order, by the anchored digest alone. */
  method FindManifest(tools: Tools, replicas: seq<ReadResult>, eraw: Bytes, explicit: Option<Bytes>) returns (r: Search)
    ensures match tools.decodeEnvelope(eraw)
      case None => r == Undecodable
      case Some(e) => IsSearch(tools, replicas, e.anchor.manifest, explicit, r)
  {
    var e := tools.decodeEnvelope(eraw);
    if e.None? {
      return Undecodable;
    }
    var h := e.value.anchor.manifest;
    if explicit.Some? && tools.hash(explicit.value) == h {
      return Found(explicit.value);
    }
    for k := 0 to |replicas|
      invariant forall j :: 0 <= j < k ==> !Holds(tools, replicas[j], h)
    {
      if replicas[k].Read? && tools.hash(replicas[k].bytes) == h {
        assert FirstToHold(tools, replicas, h, k);
        return Found(replicas[k].bytes);
      }
    }
    return Nowhere;
  }
}
