/**
 Submission of signed proposals to the control latch: everything is archived before the current state is replaced.
 Returning early from any step is a crash there: every contract below speaks about every point of return.
 */
module ControlStore {
  import opened Common
  import opened Atomic
  import opened Hooks
  import opened Control
  import opened ControlHistory

  /** The node's boot identity and the two readings of its boot-time clock. */
  datatype Clock = Clock(boot: Identity, first: Counter, second: Counter)

  function StateAt(files: Files): Option<State> {
    if Current in files && files[Current].StateFile? then Some(files[Current].s) else None
  }

  /** Nothing else is archived under this name. */
  predicate Unclaimed(files: Files, n: Name, f: File) {
    n in files ==> files[n] == f
  }

  predicate BothUnclaimed(h: Profile, files: Files, p: Proposal, bundle: Bundle, after: State) {
    && Unclaimed(files, Request(p.request), RecordFile(p, bundle))
    && Unclaimed(files, History(h.stateHash(after)), StateFile(after))
  }

  predicate RequestKept(files: Files, p: Proposal, bundle: Bundle) {
    Request(p.request) in files && files[Request(p.request)] == RecordFile(p, bundle)
  }

  /** The request is the last one that took effect and was archived exactly like this. */
  predicate IsRetry(files: Files, p: Proposal, bundle: Bundle) {
    StateAt(files).Some? && StateAt(files).value.lastRequest == p.request && RequestKept(files, p, bundle)
  }

  /** The request may take effect now. */
  predicate IsAcceptable(t: Trust, files: Files, p: Proposal, bundle: Bundle, clock: Clock) {
    var ah, from := t.profile.authorityHash(t.authority), StateAt(files);
    && Allowed(t.authority, ah, from, HashOf(t.profile, from), p, Present(bundle), clock.boot, clock.first)
    && clock.second < p.expires
    && BothUnclaimed(t.profile, files, p, bundle, Successor(t.authority, ah, HashOf(t.profile, from), p))
  }

  /** The submission is the caller's own authority's, validly signed, and new or an exact retry. */
  predicate CanSubmit(t: Trust, files: Files, found: Authority, scope: Identity, p: Proposal, bundle: Bundle,
                      clock: Clock) {
    && found == t.authority && scope == found.scope && found.contract == t.profile.contract
    && BundleValid(t.profile, found, p, bundle)
    && (IsRetry(files, p, bundle) || IsAcceptable(t, files, p, bundle, clock))
  }

  /** How a submission ends when nothing outside fails. */
  function Answer(t: Trust, files: Files, found: Authority, scope: Identity, p: Proposal, bundle: Bundle, clock: Clock)
    : Outcome
  {
    var from := StateAt(files);
    if
      || found != t.authority || scope != found.scope || found.contract != t.profile.contract
      || !BundleValid(t.profile, found, p, bundle)
    then Denied
    else if from.Some? && from.value.lastRequest == p.request then
      if Request(p.request) !in files then Stale else if RequestKept(files, p, bundle) then OK else Conflict
    else AnswerNew(t, files, p, bundle, clock)
  }

  /** How a request that is not the last one ends. */
  function AnswerNew(t: Trust, files: Files, p: Proposal, bundle: Bundle, clock: Clock): Outcome {
    var ah, from := t.profile.authorityHash(t.authority), StateAt(files);
    if !Allowed(t.authority, ah, from, HashOf(t.profile, from), p, Present(bundle), clock.boot, clock.first) then Denied
    else if !BothUnclaimed(t.profile, files, p, bundle, Successor(t.authority, ah, HashOf(t.profile, from), p))
    then Conflict
    else if clock.second >= p.expires then Stale
    else OK
  }

  lemma AnswerIsOK(t: Trust, files: Files, found: Authority, scope: Identity, p: Proposal, bundle: Bundle, clock: Clock)
    ensures Answer(t, files, found, scope, p, bundle, clock) == OK <==>
            CanSubmit(t, files, found, scope, p, bundle, clock)
    ensures AnswerNew(t, files, p, bundle, clock) == OK <==> IsAcceptable(t, files, p, bundle, clock)
  {
    hide BundleValid, Quorum, Addressed;
  }

  /** How many of the first slots are signed. */
  function SignedSlots(bundle: Bundle, n: nat): nat
    requires n <= MAX_SIGNERS
  {
    if n == 0 then 0 else SignedSlots(bundle, n - 1) + if bundle[n - 1] == UNSIGNED then 0 else 1
  }

  /** One signature check for each. */
  function Checks(n: nat): seq<Hook> {
    if n == 0 then [] else Checks(n - 1) + [SignatureCheck]
  }

  predicate Spent(applied: seq<State>, request: Identity) {
    exists i :: 0 <= i < |applied| && applied[i].lastRequest == request
  }

  /** A request that took effect once is never acceptable again, with whatever proposal and signatures. */
  lemma SpentIsUnacceptable(t: Trust, files: Files, applied: seq<State>, p: Proposal, bundle: Bundle, clock: Clock)
    requires Archive(t, files, applied) && StateAt(files) == Before(applied, |applied|) && Spent(applied, p.request)
    ensures !IsAcceptable(t, files, p, bundle, clock)
  {
    hide BundleValid, Addressed, Quorum;
    var i :| 0 <= i < |applied| && applied[i].lastRequest == p.request;
    assert Step(t, files, Before(applied, i), applied[i]);
    SpentRequest(t, files, applied, i, t.authority, t.profile.authorityHash(t.authority), Present(bundle), clock.boot,
                 clock.first);
  }

  /** Whatever moment a proposal is allowed at, it is allowed at the first moment it names. */
  lemma AllowedFromStart(a: Authority, ah: Digest, from: Option<State>, fromHash: Digest, p: Proposal, v: Verified,
                         boot: Identity, now: Counter)
    requires Allowed(a, ah, from, fromHash, p, v, boot, now)
    ensures Allowed(a, ah, from, fromHash, p, v, p.boot, p.notBefore)
  {
    hide Expects, Quorum, ValidAuthority;
  }

  lemma EmptyArchive(t: Trust, files: Files)
    ensures Archive(t, files, [])
  {
  }

  class Store {
    const profile: Profile
    const disk: Volume<Name, File>
    const hooks: Asked
    /** The authority the archive is bound to; while there is no state yet, the one found last. */
    ghost var authority: Authority
    /** Every state that has been current, in order. */
    ghost var applied: seq<State>

    constructor (profile: Profile)
      ensures Valid() && this.profile == profile && fresh(disk) && fresh(hooks) && applied == []
    {
      this.profile := profile;
      disk := new Volume();
      hooks := new Asked();
      authority, applied := *, [];
    }

    ghost function T(): Trust
      reads this
    {
      Trust(authority, profile)
    }

    /** The authority a submission has to be found under: the archive's own, or any while there is no state yet. */
    ghost function Binding(found: Authority): Trust
      reads this, disk
    {
      if Current in disk.files then T() else Trust(found, profile)
    }

    ghost predicate Valid()
      reads this, disk
    {
      && Archive(T(), disk.files, applied)
      && (Current in disk.files ==> disk.files[Current].StateFile?) && StateAt(disk.files) == Before(applied, |applied|)
    }

    /** Verifies the signatures slot by slot; one bad signature refuses the whole bundle. */
    method CheckBundle(a: Authority, p: Proposal, bundle: Bundle, calm: bool) returns (v: Verified, status: Outcome)
      modifies hooks
      ensures status == OK ==> hooks.Given(Checks(SignedSlots(bundle, MAX_SIGNERS)))
      ensures status == OK ==> v == Present(bundle) && BundleValid(profile, a, p, bundle)
      ensures calm ==> status == if BundleValid(profile, a, p, bundle) then OK else Denied
    {
      v := seq(MAX_SIGNERS, i => false);
      status := OK;
      var i := 0;
      while i < MAX_SIGNERS
        invariant 0 <= i <= MAX_SIGNERS && status == OK && hooks.Given(Checks(SignedSlots(bundle, i)))
        invariant forall k :: 0 <= k < MAX_SIGNERS ==> v[k] == (k < i && bundle[k] != UNSIGNED)
        invariant forall k :: 0 <= k < i && bundle[k] != UNSIGNED ==>
          k < a.count && profile.verify(p, bundle[k], a.keys[k].publicKey)
      {
        if bundle[i] != UNSIGNED {
          if i >= a.count {
            return v, Denied;
          }
          if !profile.verify(p, bundle[i], a.keys[i].publicKey) {
            return v, Denied;
          }
          status := hooks.Ask(SignatureCheck, calm);
          if status != OK {
            return;
          }
          v := v[i := true];
        }
        i := i + 1;
      }
      assert v == Present(bundle);
    }

    /** Opens the directory, looks at the authority file and verifies the signatures. */
    method Enter(found: Authority, scope: Identity, p: Proposal, bundle: Bundle, calm: bool)
      returns (v: Verified, status: Outcome)
      modifies hooks
      ensures status == OK ==>
        && found.scope == scope && found.contract == profile.contract && v == Present(bundle)
        && BundleValid(profile, found, p, bundle)
        && hooks.Given([Opening] + Checks(SignedSlots(bundle, MAX_SIGNERS)))
      ensures calm ==>
        status == if && found.scope == scope && found.contract == profile.contract
                     && BundleValid(profile, found, p, bundle)
                  then OK else Denied
    {
      hide BundleValid, Checks, SignedSlots;
      v := seq(MAX_SIGNERS, i => false);
      status := hooks.Ask(Opening, calm);
      if status != OK {
        return;
      }
      if found.scope != scope || found.contract != profile.contract {
        return v, Denied;
      }
      v, status := CheckBundle(found, p, bundle, calm);
    }

    /** The current state, if it was accepted under this very authority. */
    method ReadState(found: Authority, scope: Identity, calm: bool) returns (s: State, hash: Digest, status: Outcome)
      requires Valid() && Current in disk.files
      ensures status == OK ==>
        && Some(s) == StateAt(disk.files) && hash == profile.stateHash(s) && s.scope == scope
        && s.authorityDigest == profile.authorityHash(found)
      ensures calm && found == authority && scope == found.scope ==> status == OK
      ensures calm && status != OK ==> status == Denied
    {
      hide BundleValid, Addressed, Quorum, ValidState;
      assert Valid();
      Linked(T(), disk.files, applied, |applied| - 1);
      var file, read := disk.Read(Current, calm);
      s, hash, status := disk.files[Current].s, ZERO, read;
      if status != OK {
        return;
      }
      if s.scope != scope || s.contract != found.contract || s.authorityDigest != profile.authorityHash(found) {
        status := Denied;
        return;
      }
      hash := profile.stateHash(s);
    }

    lemma CurrentIsArchived()
      requires Valid() && StateAt(disk.files).Some?
      ensures var s := StateAt(disk.files).value;
        History(profile.stateHash(s)) in disk.files && disk.files[History(profile.stateHash(s))] == StateFile(s)
    {
      hide Step;
      assert applied[|applied| - 1] == StateAt(disk.files).value;
    }

    /** Archives one file. */
    method Preserve(n: Name, f: File, calm: bool) returns (status: Outcome)
      requires Valid() && n != Current
      modifies disk
      ensures Valid() && Grows(old(disk.files), disk.files) && StateAt(disk.files) == old(StateAt(disk.files))
      ensures disk.files == old(disk.files) || disk.files == old(disk.files)[n := f]
      ensures status == OK ==> old(Unclaimed(disk.files, n, f)) && n in disk.files && disk.files[n] == f
      ensures calm ==> status == if old(Unclaimed(disk.files, n, f)) then OK else Conflict
    {
      hide Archive;
      status := disk.Keep(n, f, calm);
      ArchiveStays(T(), old(disk.files), disk.files, applied);
    }

    /** Archives the state left behind, the request, and the state to come. */
    method ArchiveStep(before: Option<State>, after: State, p: Proposal, bundle: Bundle, calm: bool)
      returns (status: Outcome)
      requires Valid() && before == StateAt(disk.files)
      modifies disk
      ensures Valid() && Grows(old(disk.files), disk.files) && StateAt(disk.files) == old(StateAt(disk.files))
      ensures status == OK ==>
        && old(BothUnclaimed(profile, disk.files, p, bundle, after)) && RequestKept(disk.files, p, bundle)
        && History(profile.stateHash(after)) in disk.files
        && disk.files[History(profile.stateHash(after))] == StateFile(after)
      ensures calm ==> status == if old(BothUnclaimed(profile, disk.files, p, bundle, after)) then OK else Conflict
    {
      hide Archive, HashOf;
      status := OK;
      if before.Some? {
        CurrentIsArchived();
        status := Preserve(History(profile.stateHash(before.value)), StateFile(before.value), calm);
        if status != OK {
          return;
        }
      }
      status := Preserve(Request(p.request), RecordFile(p, bundle), calm);
      if status != OK {
        return;
      }
      status := Preserve(History(profile.stateHash(after)), StateFile(after), calm);
    }

    /** Replaces the current state by one whose archive is complete; OK only once it has been read back. */
    method Advance(after: State, calm: bool) returns (status: Outcome, ghost confirmed: bool)
      requires Valid() && Step(T(), disk.files, StateAt(disk.files), after)
      requires History(profile.stateHash(after)) in disk.files
      requires disk.files[History(profile.stateHash(after))] == StateFile(after)
      requires hooks.Just(ClockReading)
      modifies this, disk
      ensures Valid() && authority == old(authority)
      ensures
        || (applied == old(applied) && disk.files == old(disk.files))
        || (applied == old(applied) + [after] && disk.files == old(disk.files)[Current := StateFile(after)])
      ensures status == OK ==> applied == old(applied) + [after] && confirmed
      ensures status != OK && status != Indeterminate ==> applied == old(applied)
      ensures calm ==> status == OK
    {
      hide Archive, Step;
      confirmed := false;
      status := disk.Write(Current, StateFile(after), false, calm);
      if disk.files != old(disk.files) || status == OK {
        ArchiveExtends(T(), old(disk.files), applied, after);
        ArchiveStays(T(), old(disk.files), disk.files, applied + [after]);
        applied := applied + [after];
      }
      if status == OK {
        var saved, read := disk.Read(Current, calm);
        confirmed := read == OK && saved == Some(StateFile(after));
        if read != OK || saved != Some(StateFile(after)) {
          status := Indeterminate;
        }
      }
    }

    /** Every current state was accepted under the provisioned authority. */
    lemma Provisioned()
      requires Valid() && StateAt(disk.files).Some?
      ensures StateAt(disk.files).value.authorityDigest == profile.authorityHash(authority)
    {
      hide BundleValid, Addressed, Quorum, ValidState;
      Linked(T(), disk.files, applied, |applied| - 1);
    }

    lemma LastIsSpent()
      requires Valid() && StateAt(disk.files).Some?
      ensures Spent(applied, StateAt(disk.files).value.lastRequest)
    {
      hide Archive;
      assert applied[|applied| - 1] == StateAt(disk.files).value;
    }

    /** An exact retry of the request that took effect last is acknowledged and changes nothing. */
    method Retry(p: Proposal, bundle: Bundle, calm: bool) returns (status: Outcome)
      requires Valid() && StateAt(disk.files).Some? && StateAt(disk.files).value.lastRequest == p.request
      ensures status == OK ==> IsRetry(disk.files, p, bundle)
      ensures calm ==> status == if Request(p.request) !in disk.files then Stale
                                 else if RequestKept(disk.files, p, bundle) then OK else Conflict
    {
      hide Archive;
      var saved, read := disk.Read(Request(p.request), calm);
      status := read;
      if status == OK && saved != Some(RecordFile(p, bundle)) {
        status := Conflict;
      }
    }

    /** Decides a new request, archives the step and makes the new state current. */
    method Apply(a: Authority, before: State, bh: Digest, genesis: bool, p: Proposal, bundle: Bundle, v: Verified,
                 clock: Clock, calm: bool) returns (status: Outcome)
      requires Valid() && a == authority && BundleValid(profile, a, p, bundle) && v == Present(bundle)
      requires StateAt(disk.files) == (if genesis then None else Some(before))
      requires bh == HashOf(profile, StateAt(disk.files))
      modifies this, disk, hooks
      ensures status == OK ==> hooks.Given([ClockReading, ClockReading])
      ensures Valid() && Grows(old(disk.files), disk.files) && authority == old(authority)
      ensures status == OK || applied != old(applied) ==> old(IsAcceptable(T(), disk.files, p, bundle, clock))
      ensures calm ==> status == old(AnswerNew(T(), disk.files, p, bundle, clock))
      ensures status == OK ==> IsRetry(disk.files, p, bundle)
      ensures applied != old(applied) ==>
        applied == old(applied + [Successor(authority, profile.authorityHash(authority),
                                            HashOf(profile, StateAt(disk.files)), p)])
      ensures status != OK && status != Indeterminate ==> applied == old(applied)
    {
      hide Archive, BundleValid, Quorum, Addressed, Expects, ValidState, BothUnclaimed, Successor;
      var ah := profile.authorityHash(a);
      var from := if genesis then None else Some(before);
      status := hooks.Ask(ClockReading, calm);
      if status != OK {
        return;
      }
      var after, decided := Decide(a, ah, before, bh, genesis, p, v, clock.boot, clock.first);
      status := decided;
      if status != OK {
        return;
      }
      status := ArchiveStep(from, after, p, bundle, calm);
      if status != OK {
        return;
      }
      status := hooks.Ask(ClockReading, calm);
      if status != OK {
        return;
      }
      if clock.second >= p.expires {
        return Stale;
      }
      AllowedFromStart(a, ah, from, bh, p, v, clock.boot, clock.first);
      hide Allowed;
      ghost var confirmed;
      status, confirmed := Advance(after, calm);
    }

    method Submit(found: Authority, scope: Identity, p: Proposal, bundle: Bundle, clock: Clock, calm: bool)
      returns (status: Outcome)
      requires Valid()
      requires Current in disk.files && profile.authorityHash(found) == profile.authorityHash(authority) ==>
        found == authority
      modifies this, disk, hooks
      ensures status == OK ==>
        || hooks.Given([Opening] + Checks(SignedSlots(bundle, MAX_SIGNERS)) + [ClockReading, ClockReading])
        || (hooks.Given([Opening] + Checks(SignedSlots(bundle, MAX_SIGNERS))) && applied == old(applied))
      ensures Valid() && Grows(old(disk.files), disk.files) && T() == old(Binding(found))
      ensures status == OK || applied != old(applied) ==>
        old(CanSubmit(Binding(found), disk.files, found, scope, p, bundle, clock))
      ensures calm ==> status == old(Answer(Binding(found), disk.files, found, scope, p, bundle, clock))
      ensures status == OK ==> IsRetry(disk.files, p, bundle)
      ensures old(Spent(applied, p.request)) ==> applied == old(applied)
      ensures applied != old(applied) ==>
        && old(IsAcceptable(Binding(found), disk.files, p, bundle, clock))
        && applied == old(applied + [Successor(Binding(found).authority,
                                               profile.authorityHash(Binding(found).authority),
                                               HashOf(profile, StateAt(disk.files)), p)])
      ensures status != OK && status != Indeterminate ==> applied == old(applied)
    {
      hide Archive, Step, Checks, SignedSlots, BundleValid, Quorum, Addressed, Expects, IsAcceptable, Spent;
      if Current !in disk.files {
        authority := found;
        EmptyArchive(T(), disk.files);
      }
      if Spent(applied, p.request) {
        SpentIsUnacceptable(T(), disk.files, applied, p, bundle, clock);
      }
      var v, signed := Enter(found, scope, p, bundle, calm);
      status := signed;
      if status != OK {
        return;
      }
      if Current in disk.files {
        var before, bh, read := ReadState(found, scope, calm);
        status := read;
        if status != OK {
          return;
        }
        Provisioned();
        if before.lastRequest == p.request {
          LastIsSpent();
          SpentIsUnacceptable(T(), disk.files, applied, p, bundle, clock);
          status := Retry(p, bundle, calm);
          return;
        }
        status := Apply(found, before, bh, false, p, bundle, v, clock, calm);
      } else {
        var blank: State := *;
        status := Apply(found, blank, ZERO, true, p, bundle, v, clock, calm);
      }
    }
  }
}
