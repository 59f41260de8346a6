/** The archive of the control latch: what is retained of every accepted change, and what follows from it. */
module ControlHistory {
  import opened Common
  import opened Control

  type Signature = d: Bytes | |d| == 64 witness Fill(0, 64)

  /** An unsigned slot of a bundle is all zero. */
  const UNSIGNED: Signature := Fill(0, 64)

  type Bundle = b: seq<Signature> | |b| == MAX_SIGNERS
    witness [UNSIGNED, UNSIGNED, UNSIGNED, UNSIGNED, UNSIGNED, UNSIGNED, UNSIGNED, UNSIGNED]

  datatype Name = Current | History(state: Digest) | Request(id: Identity)

  datatype File = StateFile(s: State) | RecordFile(p: Proposal, bundle: Bundle)

  type Files = map<Name, File>

  /** The contract fingerprint in force, and the digests and signature check everything rests on. */
  datatype Profile = Profile(contract: Digest, stateHash: State -> Digest, authorityHash: Authority -> Digest,
                             verify: (Proposal, Signature, Digest) -> bool)

  /** The authority an archive is bound to, that is, under which its first state was accepted. */
  datatype Trust = Trust(authority: Authority, profile: Profile)

  /** Which slots of a bundle are signed. */
  function Present(bundle: Bundle): Verified {
    seq(MAX_SIGNERS, i requires 0 <= i < MAX_SIGNERS => bundle[i] != UNSIGNED)
  }

  /** Every signed slot belongs to a key and carries a valid signature of this very proposal. */
  predicate BundleValid(h: Profile, a: Authority, p: Proposal, bundle: Bundle) {
    forall i :: 0 <= i < MAX_SIGNERS && bundle[i] != UNSIGNED ==>
      i < a.count && h.verify(p, bundle[i], a.keys[i].publicKey)
  }

  function HashOf(h: Profile, s: Option<State>): Digest {
    match s case None => ZERO case Some(x) => h.stateHash(x)
  }

  predicate Grows(a: Files, b: Files) {
    forall n :: n in a && n != Current ==> n in b && b[n] == a[n]
  }

  /** The archived record of the request behind `after` is a validly signed proposal, allowed at its own boot and
      moment, that leads from `before` to `after`. */
  predicate Step(t: Trust, files: Files, before: Option<State>, after: State) {
    var n := Request(after.lastRequest);
    && n in files && files[n].RecordFile? && files[n].p.request == after.lastRequest
    && BundleValid(t.profile, t.authority, files[n].p, files[n].bundle)
    && Allowed(t.authority, t.profile.authorityHash(t.authority), before, HashOf(t.profile, before), files[n].p,
               Present(files[n].bundle), files[n].p.boot, files[n].p.notBefore)
    && after == Successor(t.authority, t.profile.authorityHash(t.authority), HashOf(t.profile, before), files[n].p)
  }

  function Before(applied: seq<State>, i: nat): Option<State>
    requires i <= |applied|
  {
    if i == 0 then None else Some(applied[i - 1])
  }

  /** The archive holds every applied state under its digest, from the first to the last, and the record of the
      request behind each. */
  predicate Archive(t: Trust, files: Files, applied: seq<State>) {
    forall i {:trigger applied[i]} :: 0 <= i < |applied| ==>
      && applied[i].revision == i + 1 && Step(t, files, Before(applied, i), applied[i])
      && History(t.profile.stateHash(applied[i])) in files
      && files[History(t.profile.stateHash(applied[i]))] == StateFile(applied[i])
  }

  lemma ArchiveStays(t: Trust, a: Files, b: Files, applied: seq<State>)
    requires Archive(t, a, applied) && Grows(a, b)
    ensures Archive(t, b, applied)
  {
    hide BundleValid, Allowed;
  }

  lemma StepRevision(t: Trust, files: Files, before: Option<State>, after: State)
    requires Step(t, files, before, after)
    ensures after.revision == if before.None? then 1 else before.value.revision + 1
  {
    hide BundleValid, Addressed, Quorum;
  }

  lemma ArchiveExtends(t: Trust, files: Files, applied: seq<State>, after: State)
    requires Archive(t, files, applied) && Step(t, files, Before(applied, |applied|), after)
    requires History(t.profile.stateHash(after)) in files
    requires files[History(t.profile.stateHash(after))] == StateFile(after)
    ensures Archive(t, files, applied + [after])
  {
    hide Step;
    StepRevision(t, files, Before(applied, |applied|), after);
    var more := applied + [after];
    forall i | 0 <= i < |more|
      ensures more[i].revision == i + 1 && Step(t, files, Before(more, i), more[i])
    {
      assert Before(more, i) == Before(applied, i);
      assert i < |applied| ==> more[i] == applied[i];
    }
  }

  // ----- What every archive shows

  /** Successive states are linked by digest, each accepted under the provisioned authority, and each is what its
      archived request asked for. */
  lemma Linked(t: Trust, files: Files, applied: seq<State>, i: nat)
    requires Archive(t, files, applied) && i < |applied|
    ensures applied[i].previous == HashOf(t.profile, Before(applied, i)) && ValidState(applied[i])
    ensures applied[i].authorityDigest == t.profile.authorityHash(t.authority)
    ensures var n := Request(applied[i].lastRequest);
      n in files && files[n].RecordFile? && Obeys(files[n].p, applied[i])
    ensures i == 0 ==> applied[i].mode == Quarantined && applied[i].revision == 1
    ensures i > 0 ==> applied[i].revision == applied[i - 1].revision + 1
    ensures i > 0 ==> applied[i].trustEpoch >= applied[i - 1].trustEpoch
  {
    hide BundleValid, Quorum, ValidState;
    var p := files[Request(applied[i].lastRequest)].p;
    SuccessorIsValid(t.authority, t.profile.authorityHash(t.authority), Before(applied, i),
                     HashOf(t.profile, Before(applied, i)), p);
  }

  /** No request takes effect twice. */
  lemma OncePerRequest(t: Trust, files: Files, applied: seq<State>, i: nat, j: nat)
    requires Archive(t, files, applied) && i < |applied| && j < |applied|
    requires applied[i].lastRequest == applied[j].lastRequest
    ensures i == j
  {
    hide BundleValid, Addressed, Quorum;
    var p := files[Request(applied[i].lastRequest)].p;
    assert applied[i].revision == p.expectedRevision + 1;
    assert applied[j].revision == p.expectedRevision + 1;
  }

  /** A request that took effect before cannot lead on from the last state, whoever submits it. */
  lemma SpentRequest(t: Trust, files: Files, applied: seq<State>, i: nat, a: Authority, ah: Digest, v: Verified,
                     boot: Identity, now: Counter)
    requires Archive(t, files, applied) && i < |applied|
    ensures !Allowed(a, ah, Before(applied, |applied|), HashOf(t.profile, Before(applied, |applied|)),
                     files[Request(applied[i].lastRequest)].p, v, boot, now)
  {
    hide BundleValid, Addressed, Quorum;
    assert Step(t, files, Before(applied, i), applied[i]);
    assert applied[|applied| - 1].revision == |applied|;
  }

  /** Wherever the archive shows a relaxation, it holds valid signatures of an operations and a security principal
      from different domains on the very proposal that asked for it. */
  lemma RelaxationsAreSigned(t: Trust, files: Files, applied: seq<State>, i: nat) returns (x: nat, y: nat)
    requires Archive(t, files, applied) && 0 < i < |applied| && Rank(applied[i].mode) < Rank(applied[i - 1].mode)
    ensures x < t.authority.count && y < t.authority.count <= MAX_SIGNERS
    ensures t.authority.keys[x].duty == Operations && t.authority.keys[y].duty == Security
    ensures t.authority.keys[x].domain != t.authority.keys[y].domain
    ensures t.authority.keys[x].principal != t.authority.keys[y].principal
    ensures Request(applied[i].lastRequest) in files && files[Request(applied[i].lastRequest)].RecordFile?
    ensures var r := files[Request(applied[i].lastRequest)];
      && r.p.expectedState == t.profile.stateHash(applied[i - 1])
      && r.p.desired == applied[i].mode && r.p.receipt != ZERO
      && t.profile.verify(r.p, r.bundle[x], t.authority.keys[x].publicKey)
      && t.profile.verify(r.p, r.bundle[y], t.authority.keys[y].publicKey)
    ensures applied[i].trustEpoch > applied[i - 1].trustEpoch
  {
    hide Quorum, ValidState;
    var r := files[Request(applied[i].lastRequest)];
    assert Step(t, files, Before(applied, i), applied[i]);
    x, y := RelaxationIsIndependent(t.authority, Before(applied, i), r.p, Present(r.bundle));
  }
}
