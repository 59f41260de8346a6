/**
 Anchored publication of checkpoints: stage, record as pending, advance the external anchor by
 compare-and-swap, then publish as current; reconciliation after a lost reply or a crash; and the unlocked reader.
 Returning early from any step is a crash there: every contract below speaks about every point of return.
 */
module CheckpointStore {
  import opened Common
  import opened Atomic
  import opened Hooks
  import opened Checkpoint
  import opened CheckpointChain

  /** The candidate comes next, the caller knows the current digest, and no unaccepted candidate is in the way. */
  predicate MayFollow(h: Profile, files: Files, expected: Digest, d: Descriptor) {
    && Next(h, DescriptorAt(files, Current), d) && expected == CurrentHash(h, files)
    && (Pending in files ==> files[Pending].Frame? && h.manifest(files[Pending].d) == expected)
  }

  /** No other bytes lie under the digests of this candidate. */
  predicate Unclaimed(h: Profile, files: Files, d: Descriptor, payload: Bytes) {
    && (Snapshot(d.payload) in files ==> files[Snapshot(d.payload)] == Payload(payload))
    && (Archived(h.manifest(d)) in files ==> files[Archived(h.manifest(d))] == Frame(d))
  }

  /** The descriptor is well formed, of this contract, and describes the payload. */
  predicate Describes(h: Profile, d: Descriptor, payload: Bytes) {
    Valid(d) && d.contract == h.contract && d.payloadSize == |payload| && h.payload(payload) == d.payload
  }

  /** A new checkpoint may be published. */
  predicate CanPublish(h: Profile, files: Files, expected: Digest, d: Descriptor, payload: Bytes) {
    Describes(h, d, payload) && MayFollow(h, files, expected, d) && Unclaimed(h, files, d, payload)
  }

  /** How a publication ends when nothing outside fails and the anchor stands at the current checkpoint. */
  function Answer(h: Profile, files: Files, expected: Digest, d: Descriptor, payload: Bytes): Outcome {
    if !Describes(h, d, payload) then InvalidInput
    else if Current !in files && (expected != ZERO || d.previous != ZERO || d.generation != 1) then Denied
    else if MayFollow(h, files, expected, d) && Unclaimed(h, files, d, payload) then OK
    else Conflict
  }

  lemma AnswerIsOK(h: Profile, files: Files, expected: Digest, d: Descriptor, payload: Bytes)
    ensures Answer(h, files, expected, d, payload) == OK <==> CanPublish(h, files, expected, d, payload)
  {
    hide Describes, Follows;
  }

  // ----- The same in the caller's terms

  /** The caller's descriptor is complete, of the contract in force, and describes the payload. */
  predicate Presents(h: Profile, d: Descriptor, payload: Bytes) {
    WellMade(d, |payload|) && d.contract == h.contract && d.payload == h.payload(payload)
  }

  /** The first generation on an empty store; else the next one, which names the current checkpoint by its digest and
      lowers no mark. The caller names that digest, too. */
  predicate Succeeds(h: Profile, current: Option<Descriptor>, expected: Digest, d: Descriptor) {
    match current
    case None => expected == ZERO && d.generation == 1
    case Some(c) =>
      expected == h.manifest(c) == d.previous && d.generation == c.generation + 1 && NotBelow(c, d)
  }

  /** Nothing is pending but what is current. */
  predicate NothingElsePending(h: Profile, files: Files, expected: Digest) {
    Pending !in files || (files[Pending].Frame? && h.manifest(files[Pending].d) == expected)
  }

  predicate Publishable(h: Profile, files: Files, expected: Digest, d: Descriptor, payload: Bytes) {
    && Presents(h, d, payload) && Succeeds(h, DescriptorAt(files, Current), expected, d)
    && NothingElsePending(h, files, expected) && Unclaimed(h, files, d, payload)
  }

  lemma PublishableIff(h: Profile, files: Files, expected: Digest, d: Descriptor, payload: Bytes)
    requires Current in files && files[Current].Frame? ==> Valid(files[Current].d)
    ensures CanPublish(h, files, expected, d, payload) <==> Publishable(h, files, expected, d, payload)
  {
    hide Unclaimed, NotBelow;
    ValidIff(d);
    if Valid(d) && DescriptorAt(files, Current).Some? {
      var c := DescriptorAt(files, Current).value;
      FollowsIff(c, d, h.manifest(c));
    }
    hide Valid, Follows;
  }

  /** The pending checkpoint is the caller's and the anchor has accepted it. */
  predicate CanReconcile(h: Profile, w: World, root: Identity, stream: Identity) {
    var pending := DescriptorAt(w.files, Pending);
    && pending.Some? && pending.value.root == root && pending.value.stream == stream
    && w.anchor == h.manifest(pending.value)
  }

  /** When the pending descriptor has the current one's digest, or there is none, the anchor stands at current and
      nothing under way can move it. */
  lemma Settled(h: Profile, w: World)
    requires Inv(h, w)
    requires Pending in w.files ==> h.manifest(w.files[Pending].d) == CurrentHash(h, w.files)
    ensures w.anchor == CurrentHash(h, w.files) && Quiet(w.requests)
  {
    hide Chained, Next;
    assert forall r :: r in w.requests ==> Harmless(h, w, r);
  }

  /** A filed descriptor that comes next extends the archived chain of the current one. */
  lemma ChainExtended(h: Profile, files: Files, d: Descriptor)
    requires Staged(h, files) && Filed(h, files, d) && Next(h, DescriptorAt(files, Current), d)
    ensures Chained(h, files, d)
  {
    hide Valid;
    if Current in files {
      assert Chained(h, files, files[Current].d);
    }
  }

  /** Whenever the anchor has moved past the current checkpoint, the pending one is what it accepted: one
      reconciliation by its owner can always make the two agree again. */
  lemma StrandedIsReconcilable(h: Profile, w: World)
    requires Inv(h, w) && w.anchor != CurrentHash(h, w.files)
    ensures Ahead(h, w.files)
    ensures var pending := DescriptorAt(w.files, Pending).value;
      Filed(h, w.files, pending) && CanReconcile(h, w, pending.root, pending.stream)
  {
    hide Follows, Valid;
    assert Chained(h, w.files, w.files[Pending].d);
  }

  /** A candidate the anchor has not accepted is never adopted silently, and stops every further publication. */
  lemma UnacceptedCandidateBlocks(h: Profile, w: World, root: Identity, stream: Identity,
                                  expected: Digest, d: Descriptor, payload: Bytes)
    requires Inv(h, w) && Pending in w.files && w.anchor != h.manifest(w.files[Pending].d)
    ensures !CanReconcile(h, w, root, stream) && !CanPublish(h, w.files, expected, d, payload)
  {
    hide Follows, Valid, Chained, Unclaimed;
    if MayFollow(h, w.files, expected, d) {
      Settled(h, w);
    }
  }

  class Store {
    const h: Profile
    const disk: Volume<Name, File>
    const hooks: Asked
    var anchor: Digest
    var requests: set<Request>
    /** Every world this run has been through. */
    ghost var history: seq<World>

    constructor (h: Profile)
      ensures Valid() && this.h == h && fresh(disk) && fresh(hooks)
      ensures history == [World(map[], ZERO, {})]
    {
      this.h := h;
      disk := new Volume();
      hooks := new Asked();
      anchor, requests := ZERO, {};
      history := [World(map[], ZERO, {})];
    }

    ghost function W(): World
      reads this, disk
    {
      World(disk.files, anchor, requests)
    }

    ghost predicate Valid()
      reads this, disk
    {
      Trace(h, history) && history[|history| - 1] == W()
    }

    function Descriptor(n: Name): Option<Descriptor>
      reads this, disk
    {
      DescriptorAt(disk.files, n)
    }

    // ----- The world around the store

    ghost method Record()
      requires Trace(h, history) && Inv(h, W()) && Later(history[|history| - 1], W())
      modifies `history
      ensures Valid() && old(history) <= history
    {
      hide Trace, Inv, Later;
      TraceGrows(h, history, W());
      history := history + [W()];
    }

    lemma Now()
      requires Valid()
      ensures |history| > 0 && history[|history| - 1] == W() && Inv(h, W())
    {
      hide Inv, Later;
    }

    /** The anchor swaps if it stands where the request expects it; each request arrives at most once. */
    method Deliver(r: Request)
      requires Valid() && r in requests
      modifies this
      ensures Valid() && old(history) <= history
      ensures W() == Delivered(old(W()), r)
      ensures old(Quiet(requests)) ==> Quiet(requests) && anchor == old(anchor)
    {
      hide Trace, Inv, Later, Quiet;
      Now();
      DeliverStep(h, W(), r);
      requests := requests - {r};
      if anchor == r.before {
        anchor := r.manifest;
      }
      Record();
    }

    /** Time passes: a late request may reach the anchor, unless all is `calm`. */
    method Wait(calm: bool)
      requires Valid()
      modifies this
      ensures Valid() && old(history) <= history && disk.files == old(disk.files)
      ensures old(Quiet(requests)) ==> Quiet(requests) && anchor == old(anchor)
      ensures calm ==> W() == old(W())
    {
      hide Trace, Inv, Later, Quiet;
      if !calm && requests != {} {
        var r :| r in requests;
        Deliver(r);
      }
    }

    /** The anchor answers OK only for exactly the digest it has accepted. */
    method CheckAnchor(manifest: Digest, calm: bool) returns (status: Outcome)
      modifies hooks
      ensures hooks.swaps == old(hooks.swaps)
      ensures status == OK ==> anchor == manifest && hooks.Given([AnchorCheck])
      ensures calm && anchor == manifest ==> status == OK
    {
      if anchor != manifest {
        return Stale;
      }
      status := hooks.Ask(AnchorCheck, calm);
    }

    /** Sends the compare-and-swap for the pending descriptor. It may be lost, arrive now or later, and whatever
        happens the reply may be anything, unless all is `calm`. */
    method AdvanceAnchor(before: Digest, manifest: Digest, calm: bool) returns (status: Outcome)
      requires Valid() && Ahead(h, disk.files) && Quiet(requests) && anchor == CurrentHash(h, disk.files) == before
      requires manifest == h.manifest(disk.files[Pending].d) && hooks.Just(AnchorApproval)
      modifies this, hooks
      ensures Valid() && old(history) <= history && disk.files == old(disk.files)
      ensures status == OK ==> hooks.Given([AnchorSwap])
      ensures status != OK ==> hooks.swaps == old(hooks.swaps)
      ensures calm ==> status == OK && anchor == manifest
    {
      hide Trace, Inv, Later, Quiet, Next, CurrentHash;
      if {
        case !calm => return IOError;
        case true =>
      }
      var r := Request(before, manifest);
      Now();
      SendStep(h, W());
      requests := requests + {r};
      Record();
      if {
        case !calm =>
        case true => Deliver(r);
      }
      status := hooks.Ask(AnchorSwap, calm);
    }

    // ----- Durable steps

    method Keep(n: Name, f: File, calm: bool) returns (status: Outcome)
      requires Valid() && Immutable(n)
      modifies this, disk
      ensures Valid() && old(history) <= history && anchor == old(anchor) && requests == old(requests)
      ensures disk.files == old(disk.files) || (n !in old(disk.files) && disk.files == old(disk.files)[n := f])
      ensures status == OK ==> n in disk.files && disk.files[n] == f
      ensures calm ==> status == if n in old(disk.files) && old(disk.files)[n] != f then Conflict else OK
    {
      hide Trace, Inv, Later;
      Now();
      ghost var w := W();
      status := disk.Keep(n, f, calm);
      if disk.files != old(disk.files) {
        KeepStep(h, w, n, f);
        Record();
      }
    }

    method PutPending(d: Descriptor, calm: bool) returns (status: Outcome)
      requires Valid() && Chained(h, disk.files, d) && Next(h, DescriptorAt(disk.files, Current), d)
      requires anchor == CurrentHash(h, disk.files) && Quiet(requests) && hooks.Just(StageApproval)
      modifies this, disk
      ensures Valid() && old(history) <= history && anchor == old(anchor) && requests == old(requests)
      ensures disk.files == old(disk.files) || disk.files == old(disk.files)[Pending := Frame(d)]
      ensures status == OK ==> disk.files == old(disk.files)[Pending := Frame(d)]
      ensures calm ==> status == OK
    {
      hide Trace, Inv, Later, Quiet, Chained, Next, CurrentHash;
      Now();
      ghost var w := W();
      status := disk.Write(Pending, Frame(d), false, calm);
      if disk.files != old(disk.files) {
        PendingStep(h, w, d);
        Record();
      }
    }

    method PutCurrent(d: Descriptor, calm: bool) returns (status: Outcome)
      requires Valid() && Ahead(h, disk.files) && disk.files[Pending] == Frame(d) && anchor == h.manifest(d)
      requires hooks.Just(AnchorCheck) || hooks.Just(ReconcileApproval)
      modifies this, disk
      ensures Valid() && old(history) <= history && anchor == old(anchor) && requests == old(requests)
      ensures disk.files == old(disk.files) || disk.files == old(disk.files)[Current := Frame(d)]
      ensures status == OK ==> disk.files == old(disk.files)[Current := Frame(d)]
      ensures status != OK && status != Indeterminate ==> disk.files == old(disk.files)
      ensures calm ==> status == OK
    {
      hide Trace, Inv, Later, Next;
      Now();
      ghost var w := W();
      status := disk.Write(Current, Frame(d), false, calm);
      if disk.files != old(disk.files) {
        CurrentStep(h, w);
        Record();
      }
    }

    // ----- Readers

    method ReadDescriptor(n: Name, calm: bool) returns (d: Option<Descriptor>, status: Outcome)
      ensures d.Some? ==> d == Descriptor(n)
      ensures status == OK ==> d.Some? && d.value.contract == h.contract
      ensures calm && Descriptor(n).Some? && Filed(h, disk.files, Descriptor(n).value) ==> status == OK
    {
      d := None;
      var file, read := disk.Read(n, calm);
      status := read;
      if status == OK {
        if !file.value.Frame? || !Checkpoint.Valid(file.value.d) {
          status := Corrupt;
        } else {
          d := Some(file.value.d);
          if d.value.contract != h.contract {
            status := Unsupported;
          }
        }
      }
    }

    method ReadPayload(d: Descriptor, capacity: nat, calm: bool) returns (b: Bytes, status: Outcome)
      modifies hooks
      ensures hooks.swaps == old(hooks.swaps)
      ensures status == OK ==> hooks.Given([StateValidation])
      ensures status == OK ==> |b| == d.payloadSize <= capacity && h.payload(b) == d.payload
      ensures calm && Filed(h, disk.files, d) ==> status == if capacity < d.payloadSize then Exhausted else OK
    {
      b := [];
      if capacity < d.payloadSize {
        return b, Exhausted;
      }
      var file, read := disk.Read(Snapshot(d.payload), calm);
      status := read;
      if status != OK {
        return;
      }
      if !file.value.Payload? {
        return b, Corrupt;
      }
      b := file.value.b;
      if capacity < |b| {
        return [], Exhausted;
      }
      if |b| == 0 || |b| != d.payloadSize || h.payload(b) != d.payload {
        return b, Corrupt;
      }
      status := hooks.Ask(StateValidation, calm);
    }

    // ----- Publication

    lemma PendingLeads()
      requires Valid() && Pending in disk.files
      ensures Descriptor(Current) == Descriptor(Pending) || Ahead(h, disk.files)
    {
      hide Checkpoint.Valid, Later, Ahead, Follows, Chained;
      Now();
    }

    lemma Readable(n: Name)
      requires Valid() && (n == Current || n == Pending) && n in disk.files
      ensures Descriptor(n).Some? && Filed(h, disk.files, Descriptor(n).value)
      ensures Descriptor(n).value.payloadSize <= MAX_MESSAGE
    {
      hide Later, Ahead, Follows;
      Now();
      assert Chained(h, disk.files, disk.files[n].d);
    }

    lemma CurrentIsValid()
      requires Valid()
      ensures Current in disk.files && disk.files[Current].Frame? ==> Checkpoint.Valid(disk.files[Current].d)
    {
      hide Checkpoint.Valid;
      if Current in disk.files {
        Readable(Current);
      }
    }

    /** Keeps the snapshot and the descriptor under their digests. */
    method Archive(d: Descriptor, payload: Bytes, calm: bool) returns (status: Outcome)
      requires Valid() && d.payloadSize == |payload|
      modifies this, disk
      ensures Valid() && old(history) <= history && anchor == old(anchor) && requests == old(requests)
      ensures Descriptor(Current) == old(Descriptor(Current)) && Descriptor(Pending) == old(Descriptor(Pending))
      ensures status == OK ==>
        && old(Unclaimed(h, disk.files, d, payload))
        && Snapshot(d.payload) in disk.files && disk.files[Snapshot(d.payload)] == Payload(payload)
        && Descriptor(Archived(h.manifest(d))) == Some(d)
      ensures calm ==> status == if old(Unclaimed(h, disk.files, d, payload)) then OK else Conflict
    {
      hide Trace, Inv, Later;
      status := Keep(Snapshot(d.payload), Payload(payload), calm);
      if status == OK {
        status := Keep(Archived(h.manifest(d)), Frame(d), calm);
      }
    }

    /** Archives a candidate and records its descriptor as pending. */
    method Stage(d: Descriptor, payload: Bytes, calm: bool) returns (status: Outcome)
      requires Valid() && Checkpoint.Valid(d) && d.contract == h.contract
      requires d.payloadSize == |payload| && h.payload(payload) == d.payload
      requires Next(h, Descriptor(Current), d) && anchor == CurrentHash(h, disk.files) && Quiet(requests)
      modifies this, disk, hooks
      ensures hooks.swaps == old(hooks.swaps)
      ensures status == OK ==> hooks.Given([StateValidation, StageApproval])
      ensures Valid() && old(history) <= history && anchor == old(anchor) && Quiet(requests)
      ensures Descriptor(Current) == old(Descriptor(Current))
      ensures status == OK ==> Descriptor(Pending) == Some(d) && old(Unclaimed(h, disk.files, d, payload))
      ensures calm ==> status == if old(Unclaimed(h, disk.files, d, payload)) then OK else Conflict
    {
      hide Trace, Inv, Later, Quiet, Checkpoint.Valid, Chained, Next, Unclaimed;
      status := hooks.Ask(StateValidation, calm);
      if status != OK {
        return;
      }
      status := hooks.Ask(StageApproval, calm);
      if status != OK {
        return;
      }
      status := Archive(d, payload, calm);
      if status != OK {
        return;
      }
      Wait(calm);
      Staging(d);
      status := PutPending(d, calm);
    }

    lemma Staging(d: Descriptor)
      requires Valid() && Filed(h, disk.files, d) && Next(h, DescriptorAt(disk.files, Current), d)
      ensures Chained(h, disk.files, d)
    {
      hide Trace, Later, Chained, Next;
      Now();
      ChainExtended(h, disk.files, d);
    }

    /** Moves the anchor to the pending descriptor and publishes it as current. */
    method Anchor(expected: Digest, d: Descriptor, calm: bool) returns (status: Outcome)
      requires Valid() && Descriptor(Pending) == Some(d) && Next(h, Descriptor(Current), d)
      requires anchor == CurrentHash(h, disk.files) == expected && Quiet(requests)
      modifies this, disk, hooks
      ensures status == OK ==> hooks.Given([AnchorApproval, AnchorSwap, AnchorCheck])
      ensures Valid() && old(history) <= history && Descriptor(Pending) == Some(d)
      ensures status == OK ==> Descriptor(Current) == Some(d) && anchor == h.manifest(d)
      ensures status != OK && status != Indeterminate ==> Descriptor(Current) == old(Descriptor(Current))
      ensures hooks.swaps != old(hooks.swaps) ==> status == OK || status == Indeterminate
      ensures calm ==> status == OK
    {
      hide Trace, Inv, Later, Quiet, Next;
      status := hooks.Ask(AnchorApproval, calm);
      if status != OK {
        return;
      }
      Wait(calm);
      status := AdvanceAnchor(expected, h.manifest(d), calm);
      if status != OK {
        return;
      }
      status := CheckAnchor(h.manifest(d), calm);
      if status != OK {
        return Indeterminate;
      }
      status := PutCurrent(d, calm);
      if status != OK {
        status := Indeterminate;
      }
    }

    /** Checks the candidate against the current descriptor, which the anchor has to confirm. */
    method CheckCurrent(expected: Digest, d: Descriptor, calm: bool) returns (bh: Digest, status: Outcome)
      requires Valid()
      modifies hooks
      ensures hooks.swaps == old(hooks.swaps)
      ensures status == OK ==>
        && Next(h, Descriptor(Current), d) && expected == bh == CurrentHash(h, disk.files)
        && hooks.Given(if Current in disk.files then [AnchorCheck] else [])
      ensures calm && (anchor == CurrentHash(h, disk.files) || Current !in disk.files) ==>
        status == if Current !in disk.files && (expected != ZERO || d.previous != ZERO || d.generation != 1) then Denied
                  else if Next(h, Descriptor(Current), d) && expected == CurrentHash(h, disk.files) then OK
                  else Conflict
    {
      hide Trace, Inv, Later, Checkpoint.Valid, Follows, Chained, Ahead;
      bh := ZERO;
      if Current in disk.files {
        Readable(Current);
        var before, read := ReadDescriptor(Current, calm);
        status := read;
        if status != OK {
          return;
        }
        bh := h.manifest(before.value);
        status := CheckAnchor(bh, calm);
        if status != OK {
          return;
        }
        if expected != bh || !Follows(before.value, d, bh) {
          return bh, Conflict;
        }
      } else if expected != ZERO || d.previous != ZERO || d.generation != 1 {
        return bh, Denied;
      }
      status := OK;
    }

    /** Checks the candidate against the current and the pending descriptor. */
    method Admit(expected: Digest, d: Descriptor, calm: bool) returns (status: Outcome)
      requires Valid()
      modifies this, hooks
      ensures hooks.swaps == old(hooks.swaps)
      ensures status == OK ==> hooks.Given(if Current in disk.files then [AnchorCheck] else [])
      ensures Valid() && old(history) <= history && disk.files == old(disk.files)
      ensures status == OK ==>
        MayFollow(h, disk.files, expected, d) && anchor == CurrentHash(h, disk.files) && Quiet(requests)
      ensures calm && MayFollow(h, disk.files, expected, d) ==> status == OK
      ensures calm && old(anchor) == CurrentHash(h, disk.files) ==>
        status == if Current !in disk.files && (expected != ZERO || d.previous != ZERO || d.generation != 1) then Denied
                  else if MayFollow(h, disk.files, expected, d) then OK else Conflict
    {
      hide Trace, Inv, Later, Quiet, Checkpoint.Valid, Follows, Chained, Ahead;
      Now();
      if MayFollow(h, disk.files, expected, d) {
        Settled(h, W());
      }
      Wait(calm);
      var bh, compared := CheckCurrent(expected, d, calm);
      status := compared;
      if status != OK {
        return;
      }
      Wait(calm);
      if Pending in disk.files {
        Readable(Pending);
        var pending, read := ReadDescriptor(Pending, calm);
        status := read;
        if status != OK {
          return;
        }
        if h.manifest(pending.value) != bh {
          return Conflict;
        }
      }
      Now();
      Settled(h, W());
      status := OK;
    }

    method Publish(expected: Digest, d: Descriptor, payload: Bytes, calm: bool) returns (status: Outcome)
      requires Valid()
      modifies this, disk, hooks
      ensures status == OK ==>
        hooks.Given([Opening] + (if old(Current in disk.files) then [AnchorCheck] else [])
                    + [StateValidation, StageApproval, AnchorApproval, AnchorSwap, AnchorCheck])
      ensures Valid() && old(history) <= history
      ensures status == OK ==> old(Publishable(h, disk.files, expected, d, payload))
      ensures calm && old(Publishable(h, disk.files, expected, d, payload)) ==> status == OK
      ensures status == OK ==>
        && old(CanPublish(h, disk.files, expected, d, payload))
        && Descriptor(Current) == Descriptor(Pending) == Some(d) && anchor == h.manifest(d)
      ensures hooks.swaps != old(hooks.swaps) ==> status == OK || status == Indeterminate
      ensures calm && old(CanPublish(h, disk.files, expected, d, payload)) ==> status == OK
      ensures calm && old(anchor == CurrentHash(h, disk.files)) ==>
        status == old(Answer(h, disk.files, expected, d, payload))
      ensures !Describes(h, d, payload) ==> status == InvalidInput && W() == old(W())
      ensures status != OK && status != Indeterminate ==> Descriptor(Current) == old(Descriptor(Current))
    {
      hide Trace, Inv, Later, Quiet, Chained, Ahead, Next, Unclaimed, Publishable, Follows, Filed;
      hide Checkpoint.Valid;
      CurrentIsValid();
      PublishableIff(h, disk.files, expected, d, payload);
      if !Checkpoint.Valid(d) || d.contract != h.contract || d.payloadSize != |payload|
         || h.payload(payload) != d.payload {
        return InvalidInput;
      }
      status := hooks.Ask(Opening, calm);
      if status != OK {
        return;
      }
      status := Admit(expected, d, calm);
      if status != OK {
        return;
      }
      status := Stage(d, payload, calm);
      if status != OK {
        return;
      }
      status := Anchor(expected, d, calm);
    }

    /** The pending checkpoint belongs to another root or stream. */
    predicate OthersPending(root: Identity, stream: Identity)
      reads this, disk
    {
      && Descriptor(Pending).Some?
      && (Descriptor(Pending).value.root != root || Descriptor(Pending).value.stream != stream)
    }

    /** Reads the pending checkpoint; OK when it is the caller's, the anchor has accepted it and its payload is
        complete. */
    method ReadAccepted(root: Identity, stream: Identity, calm: bool)
      returns (pending: Option<Descriptor>, status: Outcome)
      requires Valid()
      modifies hooks
      ensures hooks.swaps == old(hooks.swaps)
      ensures status == OK ==> hooks.Given([AnchorCheck, StateValidation])
      ensures status == OK ==>
        && CanReconcile(h, W(), root, stream) && pending == Descriptor(Pending)
        && Pending in disk.files && disk.files[Pending].Frame?
      ensures calm && CanReconcile(h, W(), root, stream) ==> status == OK
      ensures calm && OthersPending(root, stream) ==> status == Denied
    {
      hide Trace, Inv, Later, Checkpoint.Valid, Filed;
      if Pending in disk.files {
        Readable(Pending);
      }
      pending, status := ReadDescriptor(Pending, calm);
      if status != OK {
        return;
      }
      if pending.value.root != root || pending.value.stream != stream {
        return pending, Denied;
      }
      status := CheckAnchor(h.manifest(pending.value), calm);
      if status != OK {
        return;
      }
      var b, checked := ReadPayload(pending.value, MAX_MESSAGE, calm);
      status := checked;
    }

    /** Whether the pending checkpoint is current already; OK when it is, or when it comes next. */
    method CompareCurrent(pending: Descriptor, calm: bool) returns (already: bool, status: Outcome)
      requires Valid() && Pending in disk.files && disk.files[Pending] == Frame(pending)
      ensures status == OK && already ==> Current in disk.files && CurrentHash(h, disk.files) == h.manifest(pending)
      ensures status == OK && !already ==> Ahead(h, disk.files)
      ensures calm ==> status == OK
    {
      hide Trace, Inv, Later, Checkpoint.Valid, Follows, Chained, Filed;
      already := false;
      PendingLeads();
      if Current in disk.files {
        Readable(Current);
        var before, again := ReadDescriptor(Current, calm);
        status := again;
        if status != OK {
          return;
        }
        var bh := h.manifest(before.value);
        if bh == h.manifest(pending) {
          return true, OK;
        }
        if !Follows(before.value, pending, bh) {
          return false, Conflict;
        }
      } else if pending.generation != 1 || pending.previous != ZERO {
        return false, Conflict;
      }
      status := OK;
    }

    /** Publishes a pending checkpoint the anchor has accepted. */
    method Reconcile(root: Identity, stream: Identity, calm: bool) returns (status: Outcome)
      requires Valid()
      modifies this, disk, hooks
      ensures status == OK ==>
        || hooks.Given([Opening, AnchorCheck, StateValidation, ReconcileApproval])
        || (hooks.Given([Opening, AnchorCheck, StateValidation]) && disk.files == old(disk.files))
      ensures Valid() && old(history) <= history
      ensures status == OK ==> anchor == CurrentHash(h, disk.files) && Current in disk.files
      ensures calm ==> (status == OK <==> old(CanReconcile(h, W(), root, stream)))
      ensures calm && old(CanReconcile(h, W(), root, stream)) ==> anchor == old(anchor)
      ensures calm && old(OthersPending(root, stream)) ==> status == Denied
      ensures status != OK && status != Indeterminate ==> disk.files == old(disk.files)
    {
      hide Trace, Inv, Later, Quiet, Checkpoint.Valid, Follows, Chained, Filed, Ahead, Next;
      status := hooks.Ask(Opening, calm);
      if status != OK {
        return;
      }
      Wait(calm);
      var pending, accepted := ReadAccepted(root, stream, calm);
      status := accepted;
      if status != OK {
        return;
      }
      var already, compared := CompareCurrent(pending.value, calm);
      status := compared;
      if status != OK || already {
        return;
      }
      status := hooks.Ask(ReconcileApproval, calm);
      if status != OK {
        return;
      }
      status := PutCurrent(pending.value, calm);
    }

    // ----- The unlocked reader

    /** Other processes publish and reconcile any number of times, and get answers of their own. */
    method Others()
      requires Valid()
      modifies this, disk, hooks
      ensures Valid() && old(history) <= history && hooks.Given([])
    {
      hide Trace, Inv, Later, CanPublish, CanReconcile;
      ghost var granted, refused, swaps := hooks.granted, hooks.refused, hooks.swaps;
      var rounds: nat := *;
      while rounds > 0
        invariant Valid() && old(history) <= history
      {
        if {
          case true =>
            var expected: Digest, d: Descriptor, payload: Bytes := *, *, *;
            var ignored := Publish(expected, d, payload, false);
          case true =>
            var root: Identity, stream: Identity := *, *;
            var ignored := Reconcile(root, stream, false);
        }
        rounds := rounds - 1;
      }
      hooks.granted, hooks.refused, hooks.swaps := granted, refused, swaps;
    }

    /** What was current at some point of the history is still filed. */
    lemma StillFiled(at: nat)
      requires Valid() && at < |history| && Current in history[at].files
      ensures DescriptorAt(history[at].files, Current).Some?
      ensures Filed(h, disk.files, DescriptorAt(history[at].files, Current).value)
    {
      hide Later, Follows, Ahead, Checkpoint.Valid;
      assert Inv(h, history[at]);
      TraceLater(h, history, at, |history| - 1);
      assert Chained(h, history[at].files, history[at].files[Current].d);
      StillGrown(at);
      ChainedStays(h, history[at].files, disk.files, history[at].files[Current].d);
    }

    lemma StillGrown(at: nat)
      requires Valid() && at < |history|
      ensures Grows(history[at].files, disk.files)
    {
      hide Inv, OnChain;
      TraceLater(h, history, at, |history| - 1);
    }

    predicate Wanted(d: Descriptor, root: Identity, stream: Identity, capacity: nat) {
      d.root == root && d.stream == stream && d.payloadSize <= capacity
    }

    /** Reads the current descriptor, whose root and stream have to be the caller's. */
    method LoadDescriptor(root: Identity, stream: Identity, calm: bool)
      returns (d: Option<Descriptor>, status: Outcome, ghost at: nat)
      requires Valid()
      modifies this, disk, hooks
      ensures Valid() && old(history) <= history && |old(history)| - 1 <= at == |history| - 1
      ensures d.Some? ==> DescriptorAt(history[at].files, Current) == d
      ensures status == OK ==>
        d.Some? && d.value.root == root && d.value.stream == stream && hooks.Given([Opening])
      ensures calm ==> d == DescriptorAt(history[at].files, Current)
      ensures calm && d.Some? ==>
        status == if d.value.root != root || d.value.stream != stream then Denied else OK
    {
      hide Trace, Inv, Later, Filed;
      Now();
      d, at := None, |history| - 1;
      status := hooks.Ask(Opening, calm);
      if status != OK {
        return;
      }
      Others();
      Now();
      at := |history| - 1;
      if Current in disk.files {
        StillFiled(at);
      }
      d, status := ReadDescriptor(Current, calm);
      if status == OK && (d.value.root != root || d.value.stream != stream) {
        status := Denied;
      }
    }

    /** Reads the current checkpoint without the lock. What it returns as OK was current when it was read (world
        `at` of the history), was accepted by the anchor afterwards (world `seen`), and is complete. However others
        interleave, a reader whose hooks consent fails for no other reason than that the anchor has moved on. */
    method Load(root: Identity, stream: Identity, capacity: nat, calm: bool)
      returns (d: Option<Descriptor>, payload: Bytes, status: Outcome, ghost at: nat, ghost seen: nat)
      requires Valid()
      modifies this, disk, hooks
      ensures Valid() && old(history) <= history && |old(history)| - 1 <= at <= seen < |history|
      ensures d.Some? ==> DescriptorAt(history[at].files, Current) == d
      ensures status == OK ==>
        && d.Some? && history[seen].anchor == h.manifest(d.value) && Wanted(d.value, root, stream, capacity)
        && |payload| == d.value.payloadSize && h.payload(payload) == d.value.payload
      ensures status == OK ==> hooks.Given([Opening, AnchorCheck, StateValidation])
      ensures calm ==> d == DescriptorAt(history[at].files, Current)
      ensures calm && d.Some? && history[seen].anchor == h.manifest(d.value) ==>
        status == if d.value.root != root || d.value.stream != stream then Denied
                  else if capacity < d.value.payloadSize then Exhausted else OK
    {
      hide Trace, Inv, Later, Filed;
      payload := [];
      d, status, at := LoadDescriptor(root, stream, calm);
      seen := at;
      if status != OK {
        return;
      }
      Others();
      Now();
      seen := |history| - 1;
      status := CheckAnchor(h.manifest(d.value), calm);
      if status != OK {
        return;
      }
      Others();
      StillFiled(at);
      payload, status := ReadPayload(d.value, capacity, calm);
    }
  }
}
