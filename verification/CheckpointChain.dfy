/**
 What is durable in the anchored publication of checkpoints, the invariant every durable step keeps, and the
 order in which worlds may succeed one another.
 */
module CheckpointChain {
  import opened Common
  import opened Checkpoint

  datatype Name = Current | Pending | Snapshot(payload: Digest) | Archived(manifest: Digest)

  datatype File = Frame(d: Descriptor) | Payload(b: Bytes)

  type Files = map<Name, File>

  /** A compare-and-swap that was sent to the external anchor and has not been answered or discarded yet. */
  datatype Request = Request(before: Digest, manifest: Digest)

  /** The store's files, the digest the external anchor has accepted (zero for none), and the requests that may
      still reach the anchor: a request outlives the call, or the crash, that sent it. */
  datatype World = World(files: Files, anchor: Digest, requests: set<Request>)

  /** The digest of an encoded descriptor and of a payload, and the contract fingerprint in force. */
  datatype Profile = Profile(manifest: Descriptor -> Digest, payload: Hasher, contract: Digest)

  function DescriptorAt(files: Files, n: Name): Option<Descriptor> {
    if n in files && files[n].Frame? then Some(files[n].d) else None
  }

  // ----- The archived chain

  /** The archive holds this descriptor under its digest and its snapshot under the payload digest. */
  predicate Filed(h: Profile, files: Files, d: Descriptor) {
    && Valid(d) && d.contract == h.contract && DescriptorAt(files, Archived(h.manifest(d))) == Some(d)
    && Snapshot(d.payload) in files && files[Snapshot(d.payload)].Payload?
    && var b := files[Snapshot(d.payload)].b; h.payload(b) == d.payload && |b| == d.payloadSize
  }

  /** From `d`, generation by generation back to the first, every descriptor and snapshot is archived and each
      follows the one before it. */
  predicate Chained(h: Profile, files: Files, d: Descriptor)
    decreases d.generation
  {
    && Filed(h, files, d)
    && (d.generation > 1 ==>
          match DescriptorAt(files, Archived(d.previous))
          case None => false
          case Some(p) => h.manifest(p) == d.previous && Follows(p, d, d.previous) && Chained(h, files, p))
  }

  /** The descriptor `k` generations before `d` in the archive. */
  function Back(files: Files, d: Descriptor, k: nat): Option<Descriptor>
    decreases k
  {
    if k == 0 then Some(d)
    else if d.generation <= 1 then None
    else match DescriptorAt(files, Archived(d.previous))
      case None => None
      case Some(p) => Back(files, p, k - 1)
  }

  /** Immutable files are never changed or removed. */
  predicate Immutable(n: Name) {
    n.Snapshot? || n.Archived?
  }

  ghost predicate Grows(a: Files, b: Files) {
    forall n :: n in a && Immutable(n) ==> n in b && b[n] == a[n]
  }

  lemma {:induction false} ChainedStays(h: Profile, a: Files, b: Files, d: Descriptor)
    requires Chained(h, a, d) && Grows(a, b)
    ensures Chained(h, b, d)
    decreases d.generation
  {
    hide Valid;
    if d.generation > 1 {
      ChainedStays(h, a, b, DescriptorAt(a, Archived(d.previous)).value);
    }
  }

  lemma {:induction false} BackStays(a: Files, b: Files, d: Descriptor, k: nat)
    requires Back(a, d, k).Some? && Grows(a, b)
    ensures Back(b, d, k) == Back(a, d, k)
    decreases k
  {
    if k > 0 {
      BackStays(a, b, DescriptorAt(a, Archived(d.previous)).value, k - 1);
    }
  }

  lemma {:induction false} BackTwice(files: Files, d: Descriptor, j: nat, k: nat)
    requires Back(files, d, j).Some? && Back(files, Back(files, d, j).value, k).Some?
    ensures Back(files, d, j + k) == Back(files, Back(files, d, j).value, k)
    decreases j
  {
    if j > 0 {
      BackTwice(files, DescriptorAt(files, Archived(d.previous)).value, j - 1, k);
    }
  }

  /** Walking back along the chain reaches every earlier generation, one a step, down to the first, and meets no
      higher high-water mark. */
  lemma {:induction false} BackAlongChain(h: Profile, files: Files, d: Descriptor, k: nat)
    requires Chained(h, files, d)
    ensures Back(files, d, k).Some? <==> k < d.generation
    ensures k < d.generation ==>
      var p := Back(files, d, k).value; p.generation == d.generation - k && NotBelow(p, d) && Chained(h, files, p)
    decreases k
  {
    assert Valid(d);
    hide Filed;
    if k > 0 && d.generation > 1 {
      BackAlongChain(h, files, DescriptorAt(files, Archived(d.previous)).value, k - 1);
    }
  }

  // ----- The invariant

  /** `d` may come next: the first generation on an empty store, or one that follows the current descriptor. */
  predicate Next(h: Profile, current: Option<Descriptor>, d: Descriptor) {
    match current
    case None => d.generation == 1 && d.previous == ZERO
    case Some(c) => Follows(c, d, h.manifest(c))
  }

  function CurrentHash(h: Profile, files: Files): Digest {
    match DescriptorAt(files, Current)
    case None => ZERO
    case Some(c) => h.manifest(c)
  }

  /** The pending descriptor is one step ahead of the current one. */
  predicate Ahead(h: Profile, files: Files) {
    && DescriptorAt(files, Pending).Some?
    && Next(h, DescriptorAt(files, Current), DescriptorAt(files, Pending).value)
  }

  /** Current and pending are where the protocol may have left them. */
  predicate Staged(h: Profile, files: Files) {
    && (forall n :: n in {Current, Pending} && n in files ==> files[n].Frame? && Chained(h, files, files[n].d))
    && (DescriptorAt(files, Current) == DescriptorAt(files, Pending) || Ahead(h, files))
  }

  /** The anchor agrees with the current descriptor (both may be empty), or with a pending one that comes next. */
  predicate Anchored(h: Profile, w: World) {
    || w.anchor == CurrentHash(h, w.files)
    || (Ahead(h, w.files) && w.anchor == h.manifest(DescriptorAt(w.files, Pending).value))
  }

  /** A request that is still under way asks for the pending descriptor, or changes nothing when it arrives. */
  predicate Harmless(h: Profile, w: World, r: Request) {
    || r.before == r.manifest
    || (Ahead(h, w.files) && w.anchor == CurrentHash(h, w.files) == r.before
        && r.manifest == h.manifest(DescriptorAt(w.files, Pending).value))
  }

  ghost predicate Inv(h: Profile, w: World) {
    Staged(h, w.files) && Anchored(h, w) && forall r :: r in w.requests ==> Harmless(h, w, r)
  }

  /** No request under way can still move the anchor. */
  ghost predicate Quiet(requests: set<Request>) {
    forall r :: r in requests ==> r.before == r.manifest
  }

  /** What a later world owes an earlier one: immutable files stay, and a current descriptor stays on the
      archived chain of the one that is current now. */
  ghost predicate Later(a: World, b: World) {
    && Grows(a.files, b.files)
    && (DescriptorAt(a.files, Current).Some? ==>
          && DescriptorAt(b.files, Current).Some?
          && OnChain(b.files, DescriptorAt(b.files, Current).value, DescriptorAt(a.files, Current).value))
  }

  ghost predicate OnChain(files: Files, d: Descriptor, p: Descriptor) {
    exists k: nat :: Back(files, d, k) == Some(p)
  }

  lemma OnChainSelf(files: Files, d: Descriptor)
    ensures OnChain(files, d, d)
  {
    assert Back(files, d, 0) == Some(d);
  }

  lemma LaterReflexive(a: World, b: World)
    requires Grows(a.files, b.files) && DescriptorAt(a.files, Current) == DescriptorAt(b.files, Current)
    ensures Later(a, b)
  {
    if DescriptorAt(a.files, Current).Some? {
      OnChainSelf(b.files, DescriptorAt(a.files, Current).value);
    }
  }

  lemma LaterTransitive(a: World, b: World, c: World)
    requires Later(a, b) && Later(b, c)
    ensures Later(a, c)
  {
    var x, y, z := DescriptorAt(a.files, Current), DescriptorAt(b.files, Current), DescriptorAt(c.files, Current);
    if x.Some? {
      var j: nat :| Back(b.files, y.value, j) == x;
      var k: nat :| Back(c.files, z.value, k) == y;
      BackStays(b.files, c.files, y.value, j);
      BackTwice(c.files, z.value, k, j);
    }
  }

  // ----- Single durable steps keep the invariant

  lemma ChainsStay(h: Profile, a: Files, b: Files)
    requires Staged(h, a) && Grows(a, b)
    ensures forall n :: n in {Current, Pending} && n in a ==> a[n].Frame? && Chained(h, b, a[n].d)
  {
    hide Chained, Next;
    forall n | n in {Current, Pending} && n in a ensures a[n].Frame? && Chained(h, b, a[n].d) {
      ChainedStays(h, a, b, a[n].d);
    }
  }

  /** Keeping an immutable file. */
  lemma KeepStep(h: Profile, w: World, n: Name, f: File)
    requires Inv(h, w) && Immutable(n) && n !in w.files
    ensures var v := w.(files := w.files[n := f]); Inv(h, v) && Later(w, v)
  {
    hide Chained, Next;
    var v := w.(files := w.files[n := f]);
    ChainsStay(h, w.files, v.files);
    LaterReflexive(w, v);
    assert forall r :: r in w.requests ==> Harmless(h, w, r);
  }

  /** Recording a filed descriptor as pending while the anchor stands at the current one and no request that could
      move it is under way. */
  lemma PendingStep(h: Profile, w: World, d: Descriptor)
    requires Inv(h, w) && Chained(h, w.files, d) && Next(h, DescriptorAt(w.files, Current), d)
    requires w.anchor == CurrentHash(h, w.files) && Quiet(w.requests)
    ensures var v := w.(files := w.files[Pending := Frame(d)]); Inv(h, v) && Later(w, v)
  {
    hide Chained, Next;
    var v := w.(files := w.files[Pending := Frame(d)]);
    ChainsStay(h, w.files, v.files);
    ChainedStays(h, w.files, v.files, d);
    LaterReflexive(w, v);
  }

  /** Sending the request for the pending descriptor. */
  lemma SendStep(h: Profile, w: World)
    requires Inv(h, w) && Ahead(h, w.files) && w.anchor == CurrentHash(h, w.files)
    ensures var v := w.(requests := w.requests + {Request(w.anchor, h.manifest(DescriptorAt(w.files, Pending).value))});
      Inv(h, v) && Later(w, v)
  {
    hide Chained, Next;
    var v := w.(requests := w.requests + {Request(w.anchor, h.manifest(DescriptorAt(w.files, Pending).value))});
    LaterReflexive(w, v);
    assert forall r :: r in w.requests ==> Harmless(h, w, r);
  }

  /** What the anchor does with a request: swap if it still stands where the request expects it. */
  function Delivered(w: World, r: Request): World {
    w.(anchor := if w.anchor == r.before then r.manifest else w.anchor, requests := w.requests - {r})
  }

  lemma DeliverStep(h: Profile, w: World, r: Request)
    requires Inv(h, w) && r in w.requests
    ensures Inv(h, Delivered(w, r)) && Later(w, Delivered(w, r))
    ensures Quiet(w.requests) ==> Quiet(Delivered(w, r).requests) && Delivered(w, r).anchor == w.anchor
  {
    hide Chained, Next;
    var v := Delivered(w, r);
    LaterReflexive(w, v);
    assert Harmless(h, w, r);
    assert forall q :: q in v.requests ==> Harmless(h, w, q);
  }

  /** Publishing the anchored pending descriptor as current. */
  lemma CurrentStep(h: Profile, w: World)
    requires Inv(h, w) && Ahead(h, w.files) && w.anchor == h.manifest(DescriptorAt(w.files, Pending).value)
    ensures var v := w.(files := w.files[Current := w.files[Pending]]); Inv(h, v) && Later(w, v)
  {
    hide Chained, Next, OnChain;
    var v := w.(files := w.files[Current := w.files[Pending]]);
    assert Staged(h, v.files) by {
      ChainsStay(h, w.files, v.files);
    }
    if DescriptorAt(w.files, Current).Some? {
      CurrentSucceeds(h, w.files, v.files);
    }
    hide Staged;
    assert forall r :: r in w.requests ==> Harmless(h, w, r);
    assert Quiet(w.requests);
  }

  /** The pending descriptor's archived predecessor is the current one. */
  lemma CurrentSucceeds(h: Profile, a: Files, b: Files)
    requires Staged(h, a) && Ahead(h, a) && Grows(a, b) && DescriptorAt(a, Current).Some?
    ensures OnChain(b, DescriptorAt(a, Pending).value, DescriptorAt(a, Current).value)
  {
    hide NotBelow;
    var c, d := DescriptorAt(a, Current).value, DescriptorAt(a, Pending).value;
    assert Current in a && Pending in a && Chained(h, a, c) && Chained(h, a, d);
    assert Back(b, c, 0) == Some(c);
    assert DescriptorAt(a, Archived(d.previous)) == Some(c);
    assert Back(b, d, 1) == Some(c);
  }

  // ----- Runs

  /** A run of worlds from the empty store, each a durable step later than the one before it. */
  ghost predicate Trace(h: Profile, s: seq<World>) {
    && |s| > 0 && s[0] == World(map[], ZERO, {})
    && (forall i :: 0 <= i < |s| ==> Inv(h, s[i]))
    && (forall i :: 0 < i < |s| ==> Later(s[i - 1], s[i]))
  }

  lemma TraceGrows(h: Profile, s: seq<World>, w: World)
    requires Trace(h, s) && Inv(h, w) && Later(s[|s| - 1], w)
    ensures Trace(h, s + [w])
  {
    hide Inv, Later;
  }

  lemma {:induction false} TraceLater(h: Profile, s: seq<World>, i: nat, j: nat)
    requires Trace(h, s) && i <= j < |s|
    ensures Later(s[i], s[j])
    decreases j
  {
    hide Inv, Later;
    if i == j {
      LaterReflexive(s[i], s[i]);
    } else {
      TraceLater(h, s, i, j - 1);
      LaterTransitive(s[i], s[j - 1], s[j]);
    }
  }

  /** What was current at any point of a run is found, for ever after, on the archived chain of what is current,
      exactly as many generations back as were published since, and no high-water mark has fallen. */
  lemma NoRollback(h: Profile, s: seq<World>, i: nat, j: nat)
    requires Trace(h, s) && i <= j < |s| && DescriptorAt(s[i].files, Current).Some?
    ensures DescriptorAt(s[j].files, Current).Some?
    ensures var p, d := DescriptorAt(s[i].files, Current).value, DescriptorAt(s[j].files, Current).value;
      && p.generation <= d.generation && NotBelow(p, d)
      && Back(s[j].files, d, d.generation - p.generation) == Some(p)
  {
    hide NotBelow, Chained;
    TraceLater(h, s, i, j);
    var p, d := DescriptorAt(s[i].files, Current).value, DescriptorAt(s[j].files, Current).value;
    var k: nat :| Back(s[j].files, d, k) == Some(p);
    assert Inv(h, s[j]) && Current in s[j].files;
    BackAlongChain(h, s[j].files, d, k);
  }

  /** The anchor never points at anything that is not archived with its snapshot and all its predecessors. */
  lemma AnchorIsArchived(h: Profile, w: World)
    requires Inv(h, w) && w.anchor != ZERO
    ensures exists n :: n in {Current, Pending} && n in w.files && w.files[n].Frame?
                        && Chained(h, w.files, w.files[n].d) && h.manifest(w.files[n].d) == w.anchor
  {
    hide Chained, Next;
    if w.anchor == CurrentHash(h, w.files) {
      assert Current in w.files;
    } else {
      assert Pending in w.files;
    }
  }
}
