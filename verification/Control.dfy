/** Two-party control of the persistent change latch: who may move it, and where to. */
module Control {
  import opened Common
  import opened Atomic

  const MAX_SIGNERS := 8
  const MAX_LIFETIME := 300_000

  datatype Role = Operations | Security

  datatype Signer = Signer(publicKey: Digest, principal: Identity, domain: nat, duty: Role)

  type Signers = s: seq<Signer> | |s| == MAX_SIGNERS
    witness seq(MAX_SIGNERS, i => Signer(ZERO, ZERO_ID, 0, Operations))

  /** Which of the authority's keys signed. */
  type Verified = v: seq<bool> | |v| == MAX_SIGNERS witness seq(MAX_SIGNERS, i => false)

  datatype Authority = Authority(scope: Identity, contract: Digest, serial: Counter, count: nat,
                                 tighten: nat, resume: nat, keys: Signers)

  datatype Mode = Running | ChangesHeld | Quarantined

  datatype State = State(scope: Identity, contract: Digest, authorityDigest: Digest, revision: Counter,
                         trustEpoch: Counter, mode: Mode, incident: Identity, lastRequest: Identity,
                         previous: Digest, reason: Digest)

  datatype Proposal = Proposal(scope: Identity, boot: Identity, request: Identity, contract: Digest,
                               authorityDigest: Digest, expectedState: Digest, reason: Digest, receipt: Digest,
                               expectedRevision: Counter, newTrustEpoch: Counter, notBefore: Counter,
                               expires: Counter, desired: Mode)

  function Rank(m: Mode): nat {
    match m case Running => 0 case ChangesHeld => 1 case Quarantined => 2
  }

  predicate ValidAuthority(a: Authority) {
    && a.scope != ZERO_ID && a.contract != ZERO && a.serial != 0 && 2 <= a.count <= MAX_SIGNERS
    && 1 <= a.tighten <= a.count && 2 <= a.resume <= a.count
    && (forall i :: 0 <= i < a.count ==> KeySound(a.keys, i))
    && DutyAmong(a.keys, a.count, Operations) && DutyAmong(a.keys, a.count, Security)
  }

  /** The i-th key is complete, and neither it nor its holder is among the earlier ones. */
  predicate KeySound(keys: Signers, i: nat)
    requires i < MAX_SIGNERS
  {
    && keys[i].publicKey != ZERO && keys[i].principal != ZERO_ID && keys[i].domain != 0
    && forall j :: 0 <= j < i ==> keys[i].publicKey != keys[j].publicKey && keys[i].principal != keys[j].principal
  }

  predicate DutyAmong(keys: Signers, n: nat, duty: Role)
    requires n <= MAX_SIGNERS
  {
    exists i :: 0 <= i < n && keys[i].duty == duty
  }

  predicate ValidState(s: State) {
    && s.scope != ZERO_ID && s.contract != ZERO && s.authorityDigest != ZERO && s.revision > 0 && s.trustEpoch > 0
    && s.lastRequest != ZERO_ID && s.reason != ZERO && (s.mode == Running <==> s.incident == ZERO_ID)
    && ((s.revision == 1 && s.previous == ZERO) || (s.revision > 1 && s.previous != ZERO))
  }

  // ----- When a proposal is allowed

  /** The proposal is addressed to this authority and in force here and now. */
  predicate Addressed(a: Authority, ah: Digest, p: Proposal, boot: Identity, now: Counter) {
    && ValidAuthority(a) && ah != ZERO && p.scope == a.scope && p.contract == a.contract && p.authorityDigest == ah
    && boot != ZERO_ID && p.boot == boot && p.request != ZERO_ID && p.reason != ZERO
    && p.notBefore <= now < p.expires && p.expires - p.notBefore <= MAX_LIFETIME
    && p.expectedRevision != LAST_COUNTER && p.newTrustEpoch != 0
  }

  /** The proposal names exactly the state it starts from; the first one may only quarantine. */
  predicate Expects(a: Authority, ah: Digest, before: Option<State>, beforeHash: Digest, p: Proposal) {
    match before
    case None => p.expectedRevision == 0 && p.expectedState == beforeHash == ZERO && p.desired == Quarantined
    case Some(b) =>
      && ValidState(b) && b.scope == a.scope && b.contract == a.contract && b.authorityDigest == ah
      && beforeHash != ZERO && p.expectedState == beforeHash && p.expectedRevision == b.revision
      && p.newTrustEpoch >= b.trustEpoch && p.request != b.lastRequest
  }

  predicate Relaxes(before: Option<State>, p: Proposal) {
    before.Some? && Rank(p.desired) < Rank(before.value.mode)
  }

  function Signed(v: Verified, n: nat): (s: set<nat>)
    requires n <= MAX_SIGNERS
  {
    set i: nat | i < n && v[i]
  }

  predicate HasDuty(a: Authority, signed: set<nat>, duty: Role) {
    exists i :: i in signed && i < MAX_SIGNERS && a.keys[i].duty == duty
  }

  /** Two keys that signed belong to different domains. */
  predicate Diverse(a: Authority, signed: set<nat>) {
    exists i, j :: i in signed && j in signed && i < MAX_SIGNERS && j < MAX_SIGNERS
                   && a.keys[i].domain != a.keys[j].domain
  }

  /** Enough of the right keys signed. */
  predicate Quorum(a: Authority, before: Option<State>, p: Proposal, v: Verified) {
    var signed := Signed(v, MAX_SIGNERS);
    && (forall i :: i in signed ==> i < a.count) && |signed| >= a.tighten
    && (Relaxes(before, p) ==>
          && |signed| >= a.resume && HasDuty(a, signed, Operations) && HasDuty(a, signed, Security)
          && Diverse(a, signed) && p.newTrustEpoch > before.value.trustEpoch && p.receipt != ZERO)
  }

  predicate Allowed(a: Authority, ah: Digest, before: Option<State>, beforeHash: Digest, p: Proposal, v: Verified,
                    boot: Identity, now: Counter) {
    Addressed(a, ah, p, boot, now) && Expects(a, ah, before, beforeHash, p) && Quorum(a, before, p, v)
  }

  function Successor(a: Authority, ah: Digest, beforeHash: Digest, p: Proposal): State
    requires p.expectedRevision < LAST_COUNTER
  {
    State(a.scope, a.contract, ah, p.expectedRevision + 1, p.newTrustEpoch, p.desired,
          if p.desired == Running then ZERO_ID else p.request, p.request, beforeHash, p.reason)
  }

  /** What the new state takes from the proposal that led to it. */
  predicate Obeys(p: Proposal, after: State) {
    && after.mode == p.desired && after.lastRequest == p.request && after.reason == p.reason
    && (after.mode == Running ==> after.incident == ZERO_ID)
    && (after.mode != Running ==> after.incident == p.request)
    && after.scope == p.scope && after.contract == p.contract && after.authorityDigest == p.authorityDigest
    && after.trustEpoch == p.newTrustEpoch && after.previous == p.expectedState
    && after.revision - 1 == p.expectedRevision
  }

  /** The successor of an allowed proposal is the state that the proposal asked for, and no other. */
  lemma AllowedObeys(a: Authority, ah: Digest, before: Option<State>, beforeHash: Digest, p: Proposal, v: Verified,
                     boot: Identity, now: Counter, after: State)
    requires Allowed(a, ah, before, beforeHash, p, v, boot, now)
    ensures Obeys(p, after) <==> after == Successor(a, ah, beforeHash, p)
  {
    hide ValidAuthority, ValidState, Quorum;
  }

  /** A state is valid exactly when nothing in it is blank but what has to be: the incident while running, and the
      predecessor of the first revision. */
  lemma ValidStateIff(s: State)
    ensures ValidState(s) <==>
      && ZERO_ID !in {s.scope, s.lastRequest} && ZERO !in {s.contract, s.authorityDigest, s.reason}
      && s.revision >= 1 && s.trustEpoch >= 1
      && (s.incident == ZERO_ID <==> s.mode == Running) && (s.previous == ZERO <==> s.revision == 1)
  {
  }

  method CheckKey(keys: Signers, i: nat) returns (ok: bool)
    requires i < MAX_SIGNERS
    ensures ok <==> KeySound(keys, i)
  {
    if keys[i].publicKey == ZERO || keys[i].principal == ZERO_ID || keys[i].domain == 0 {
      return false;
    }
    for j := 0 to i
      invariant forall k :: 0 <= k < j ==>
        keys[i].publicKey != keys[k].publicKey && keys[i].principal != keys[k].principal
    {
      if keys[i].publicKey == keys[j].publicKey || keys[i].principal == keys[j].principal {
        return false;
      }
    }
    ok := true;
  }

  /** The source's check of an authority, key by key. */
  method CheckAuthority(a: Authority) returns (ok: bool)
    ensures ok <==> ValidAuthority(a)
  {
    if a.scope == ZERO_ID || a.contract == ZERO || a.serial == 0 || a.count < 2 || a.count > 8
       || !(1 <= a.tighten <= a.count) || !(2 <= a.resume <= a.count) {
      return false;
    }
    hide KeySound;
    var ops, sec := false, false;
    for i := 0 to a.count
      invariant forall k :: 0 <= k < i ==> KeySound(a.keys, k)
      invariant ops == DutyAmong(a.keys, i, Operations) && sec == DutyAmong(a.keys, i, Security)
    {
      var sound := CheckKey(a.keys, i);
      if !sound {
        return false;
      }
      ops := ops || a.keys[i].duty == Operations;
      sec := sec || a.keys[i].duty == Security;
    }
    ok := ops && sec;
  }

  lemma SuccessorIsValid(a: Authority, ah: Digest, before: Option<State>, beforeHash: Digest, p: Proposal)
    requires ValidAuthority(a) && ah != ZERO && p.request != ZERO_ID && p.reason != ZERO && p.newTrustEpoch != 0
    requires p.expectedRevision < LAST_COUNTER && Expects(a, ah, before, beforeHash, p)
    ensures ValidState(Successor(a, ah, beforeHash, p))
  {
  }

  /** Decides a proposal, counting the signatures key by key. */
  method Decide(a: Authority, ah: Digest, before: State, beforeHash: Digest, genesis: bool, p: Proposal, v: Verified,
                boot: Identity, now: Counter) returns (after: State, status: Outcome)
    ensures var from := if genesis then None else Some(before);
      && (status == OK <==> Allowed(a, ah, from, beforeHash, p, v, boot, now))
      && (status == OK ==> after == Successor(a, ah, beforeHash, p) && ValidState(after))
    ensures status == OK ==> Obeys(p, after)
    ensures status != OK ==> status == Denied && after == before
  {
    hide ValidAuthority, Quorum, ValidState;
    after, status := before, Denied;
    var sound := CheckAuthority(a);
    if !sound || ah == ZERO || p.scope != a.scope || p.contract != a.contract || p.authorityDigest != ah
       || boot == ZERO_ID || p.boot != boot || p.request == ZERO_ID || p.reason == ZERO
       || p.notBefore > now || p.expires <= now || p.expires <= p.notBefore || p.expires - p.notBefore > 300_000
       || p.expectedRevision == LAST_COUNTER || p.newTrustEpoch == 0 {
      return;
    }
    ghost var from := if genesis then None else Some(before);
    var relaxing: bool;
    if genesis {
      if p.expectedRevision != 0 || p.expectedState != ZERO || beforeHash != ZERO || p.desired != Quarantined {
        return;
      }
      relaxing := false;
    } else {
      if !ValidState(before) || before.scope != a.scope || before.contract != a.contract
         || before.authorityDigest != ah || beforeHash == ZERO || p.expectedState != beforeHash
         || p.expectedRevision != before.revision || p.newTrustEpoch < before.trustEpoch
         || p.request == before.lastRequest {
        return;
      }
      relaxing := (p.desired == Running && before.mode != Running)
                  || (p.desired == ChangesHeld && before.mode == Quarantined);
    }
    var ok := CountSignatures(a, from, p, v, relaxing, before.trustEpoch);
    if ok {
      SuccessorIsValid(a, ah, from, beforeHash, p);
      after := after.(scope := a.scope, contract := a.contract, authorityDigest := ah,
                      revision := p.expectedRevision + 1, trustEpoch := p.newTrustEpoch, mode := p.desired,
                      lastRequest := p.request, incident := if p.desired == Running then ZERO_ID else p.request,
                      previous := beforeHash, reason := p.reason);
      status := OK;
    }
  }

  /** Some key that signed has another domain than `first`. */
  predicate Elsewhere(a: Authority, signed: set<nat>, first: nat) {
    exists i :: i in signed && i < MAX_SIGNERS && a.keys[i].domain != first
  }

  predicate Somewhere(a: Authority, signed: set<nat>, first: nat) {
    exists i :: i in signed && i < MAX_SIGNERS && a.keys[i].domain == first
  }

  lemma OneMore(a: Authority, signed: set<nat>, i: nat)
    requires i < MAX_SIGNERS
    ensures forall duty :: HasDuty(a, signed + {i}, duty) <==> HasDuty(a, signed, duty) || a.keys[i].duty == duty
    ensures forall d :: Elsewhere(a, signed + {i}, d) <==> Elsewhere(a, signed, d) || a.keys[i].domain != d
    ensures forall d :: Somewhere(a, signed, d) ==> Somewhere(a, signed + {i}, d)
    ensures Somewhere(a, signed + {i}, a.keys[i].domain)
  {
    var more := signed + {i};
    assert i in more;
    forall d ensures Elsewhere(a, more, d) <==> Elsewhere(a, signed, d) || a.keys[i].domain != d {
      if Elsewhere(a, signed, d) {
        var k :| k in signed && k < MAX_SIGNERS && a.keys[k].domain != d;
        assert k in more;
      }
    }
    forall duty ensures HasDuty(a, more, duty) <==> HasDuty(a, signed, duty) || a.keys[i].duty == duty {
      if HasDuty(a, signed, duty) {
        var k :| k in signed && k < MAX_SIGNERS && a.keys[k].duty == duty;
        assert k in more;
      }
    }
    forall d | Somewhere(a, signed, d) ensures Somewhere(a, more, d) {
      var k :| k in signed && k < MAX_SIGNERS && a.keys[k].domain == d;
      assert k in more;
    }
  }

  lemma DiverseFromFirst(a: Authority, signed: set<nat>, first: nat)
    requires Somewhere(a, signed, first)
    ensures Diverse(a, signed) <==> Elsewhere(a, signed, first)
  {
    var k :| k in signed && k < MAX_SIGNERS && a.keys[k].domain == first;
    if Diverse(a, signed) {
      var i, j :| i in signed && j in signed && i < MAX_SIGNERS && j < MAX_SIGNERS
                  && a.keys[i].domain != a.keys[j].domain;
      assert Elsewhere(a, signed, first);
    }
  }

  lemma NobodySigned(a: Authority)
    ensures forall duty :: !HasDuty(a, {}, duty)
    ensures !Diverse(a, {}) && forall d :: !Elsewhere(a, {}, d)
  {
  }

  lemma DomainsNamed(a: Authority)
    requires ValidAuthority(a)
    ensures a.count <= MAX_SIGNERS && forall i :: 0 <= i < a.count ==> a.keys[i].domain != 0
  {
    forall i | 0 <= i < a.count ensures a.keys[i].domain != 0 {
      assert KeySound(a.keys, i);
    }
  }

  method CountSignatures(a: Authority, ghost from: Option<State>, p: Proposal, v: Verified, relaxing: bool,
                         epoch: Counter)
    returns (ok: bool)
    requires ValidAuthority(a) && relaxing == Relaxes(from, p)
    requires from.Some? ==> from.value.trustEpoch == epoch
    ensures ok <==> Quorum(a, from, p, v)
  {
    hide HasDuty, Elsewhere, Somewhere, Diverse;
    NobodySigned(a);
    DomainsNamed(a);
    hide ValidAuthority;
    var count, first := 0, 0;
    var ops, sec, diverse := false, false, false;
    var i := 0;
    ghost var signed: set<nat> := {};
    while i < MAX_SIGNERS
      invariant 0 <= i <= MAX_SIGNERS && signed == Signed(v, i)
      invariant forall k :: k in signed ==> k < a.count
      invariant count == |signed|
      invariant ops == HasDuty(a, signed, Operations) && sec == HasDuty(a, signed, Security)
      invariant if first == 0 then signed == {} && !diverse else Somewhere(a, signed, first)
      invariant first != 0 ==> diverse == Elsewhere(a, signed, first)
    {
      if v[i] {
        if i >= a.count {
          assert i in Signed(v, MAX_SIGNERS);
          return false;
        }
        OneMore(a, signed, i);
        signed := signed + {i};
        count := count + 1;
        ops := ops || a.keys[i].duty == Operations;
        sec := sec || a.keys[i].duty == Security;
        if first == 0 {
          first := a.keys[i].domain;
        } else if first != a.keys[i].domain {
          diverse := true;
        }
      }
      i := i + 1;
    }
    if first != 0 {
      DiverseFromFirst(a, signed, first);
    }
    if count < a.tighten {
      return false;
    }
    ok := !(relaxing
            && (count < a.resume || !ops || !sec || !diverse || p.newTrustEpoch <= epoch || p.receipt == ZERO));
  }

  lemma IndependentPair(a: Authority, signed: set<nat>) returns (i: nat, j: nat)
    requires HasDuty(a, signed, Operations) && HasDuty(a, signed, Security) && Diverse(a, signed)
    ensures i in signed && j in signed && i < MAX_SIGNERS && j < MAX_SIGNERS
    ensures a.keys[i].duty == Operations && a.keys[j].duty == Security && a.keys[i].domain != a.keys[j].domain
  {
    i :| i in signed && i < MAX_SIGNERS && a.keys[i].duty == Operations;
    j :| j in signed && j < MAX_SIGNERS && a.keys[j].duty == Security;
    if a.keys[i].domain == a.keys[j].domain {
      var x, y :| x in signed && y in signed && x < MAX_SIGNERS && y < MAX_SIGNERS
                  && a.keys[x].domain != a.keys[y].domain;
      var z := if a.keys[x].domain != a.keys[i].domain then x else y;
      if a.keys[z].duty == Operations {
        i := z;
      } else {
        j := z;
      }
    }
  }

  /** Whoever relaxes the latch: an operations and a security principal, different people with different keys in
      different domains, both signed, and the trust epoch rises. */
  lemma RelaxationIsIndependent(a: Authority, before: Option<State>, p: Proposal, v: Verified)
    returns (i: nat, j: nat)
    requires ValidAuthority(a) && Quorum(a, before, p, v) && Relaxes(before, p)
    ensures i < a.count && j < a.count && v[i] && v[j]
    ensures a.keys[i].duty == Operations && a.keys[j].duty == Security
    ensures a.keys[i].domain != a.keys[j].domain && a.keys[i].principal != a.keys[j].principal
    ensures a.keys[i].publicKey != a.keys[j].publicKey
    ensures p.newTrustEpoch > before.value.trustEpoch && p.receipt != ZERO
  {
    hide HasDuty, Diverse;
    i, j := IndependentPair(a, Signed(v, MAX_SIGNERS));
    assert KeySound(a.keys, i) && KeySound(a.keys, j);
  }

  // ----- The conditions can be met

  const OPERATOR := Signer(Fill(1, 32), Fill(1, 16), 1, Operations)
  const OFFICER := Signer(Fill(2, 32), Fill(2, 16), 2, Security)
  const NOBODY := Signer(ZERO, ZERO_ID, 0, Operations)
  const PAIR: Signers := [OPERATOR, OFFICER, NOBODY, NOBODY, NOBODY, NOBODY, NOBODY, NOBODY]
  const BOTH: Verified := [true, true, false, false, false, false, false, false]

  lemma FillsDiffer(a: Byte, b: Byte, n: nat)
    requires a != b && n > 0
    ensures Fill(a, n) != Fill(b, n)
  {
    assert Fill(a, n)[0] != Fill(b, n)[0];
  }

  /** An operator and a security officer of two domains can release any valid quarantined state. */
  lemma PairCanRelease(before: State, beforeHash: Digest) returns (a: Authority, p: Proposal)
    requires ValidState(before) && before.mode == Quarantined && beforeHash != ZERO
    requires before.revision < LAST_COUNTER && before.trustEpoch < LAST_COUNTER && before.lastRequest != Fill(3, 16)
    ensures Relaxes(Some(before), p) && p.desired == Running
    ensures Allowed(a, before.authorityDigest, Some(before), beforeHash, p, BOTH, p.boot, p.notBefore)
  {
    hide ValidAuthority, Quorum, Fill;
    a := Authority(before.scope, before.contract, 1, 2, 2, 2, PAIR);
    p := Proposal(before.scope, Fill(3, 16), Fill(3, 16), before.contract, before.authorityDigest, beforeHash,
                  Fill(3, 32), Fill(3, 32), before.revision, before.trustEpoch + 1, 0, 1, Running);
    FillsDiffer(3, 0, 16);
    FillsDiffer(3, 0, 32);
    assert ValidAuthority(a) by {
      PairIsValid(a);
    }
    assert Quorum(a, Some(before), p, BOTH) by {
      PairIsQuorum(a, before, p);
    }
  }

  lemma PairIsValid(a: Authority)
    requires a.scope != ZERO_ID && a.contract != ZERO && a.serial != 0
    requires a.count == a.tighten == a.resume == 2 && a.keys == PAIR
    ensures ValidAuthority(a)
  {
    FillsDiffer(1, 0, 32);
    FillsDiffer(2, 0, 32);
    FillsDiffer(1, 2, 32);
    FillsDiffer(1, 0, 16);
    FillsDiffer(2, 0, 16);
    FillsDiffer(1, 2, 16);
    assert a.keys[0] == OPERATOR && a.keys[1] == OFFICER;
    assert KeySound(a.keys, 0) && KeySound(a.keys, 1);
  }

  lemma PairIsQuorum(a: Authority, before: State, p: Proposal)
    requires a.count == a.tighten == a.resume == 2 && a.keys == PAIR
    requires p.newTrustEpoch > before.trustEpoch && p.receipt != ZERO
    ensures Quorum(a, Some(before), p, BOTH)
  {
    assert Signed(BOTH, MAX_SIGNERS) == {0, 1};
    assert 0 in Signed(BOTH, MAX_SIGNERS) && a.keys[0] == OPERATOR;
    assert 1 in Signed(BOTH, MAX_SIGNERS) && a.keys[1] == OFFICER;
  }
}
