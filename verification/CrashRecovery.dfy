/**
 The journal and the files it protects, as a recovery executor drives them with crashes in between. A file
 flips only while it is the pending one and its intent frame is whole; a completion frame is written only
 after the flip; a crash leaves any part of the frame being written, and recovery drops that tail.
 */
module CrashRecovery {
  import opened Common
  import opened Replay
  import opened ReplayTheorems
  import opened Journal
  import opened JournalTheorems

  datatype World = World(raw: Bytes, files: seq<Content>)

  datatype Action = Append(e: Event) | Tear(e: Event, cut: nat) | DropTail | Flip(index: nat)

  function Start(n: nat): World {
    World([], seq(n, _ => Before))
  }

  /** A completion is recorded only for a file that has been changed. */
  predicate CompletionIsTrue(files: seq<Content>, e: Event) {
    && (e.kind == 3 ==> 1 <= e.index <= |files| && files[e.index - 1] == After)
    && (e.kind == 8 ==> 1 <= e.index <= |files| && files[e.index - 1] == Before)
  }

  /** The frame that would record `e` at the end of `raw`. */
  function NextFrame(hash: Hasher, plan: Digest, raw: Bytes, n: nat, e: Event): (f: Bytes)
    requires Journaled(hash, plan, raw, n).Some? && InRange(e)
    ensures |f| == FRAME
  {
    var k := |raw| / FRAME;
    FrameBytes(hash, k + 1, e, ReadFrames(hash, plan, raw, n, k).value.head)
  }

  predicate MayRecord(plan: Digest, w: World, s: Image, tail: Bytes, e: Event) {
    tail == [] && Step(plan, s, e).Some? && InRange(e) && |w.raw| / FRAME < MAX_COUNTER && CompletionIsTrue(w.files, e)
  }

  /** One action of the executor or of a crash; None when it is not allowed. */
  function Act(hash: Hasher, plan: Digest, n: nat, w: World, a: Action): Option<World> {
    match Journaled(hash, plan, w.raw, n)
    case None => None
    case Some((s, tail)) =>
      match a
      case Append(e) =>
        if MayRecord(plan, w, s, tail, e) then Some(w.(raw := w.raw + NextFrame(hash, plan, w.raw, n, e))) else None
      case Tear(e, cut) =>
        if MayRecord(plan, w, s, tail, e) && cut < FRAME
        then Some(w.(raw := w.raw + NextFrame(hash, plan, w.raw, n, e)[..cut])) else None
      case DropTail => Some(w.(raw := w.raw[..|w.raw| - |tail|]))
      case Flip(i) =>
        if 1 <= i <= |w.files| && i == s.pending && (s.stage == Forward || s.stage == Reverse)
        then Some(w.(files := w.files[i - 1 := if s.stage == Forward then After else Before])) else None
  }

  function Execute(hash: Hasher, plan: Digest, n: nat, actions: seq<Action>): Option<World> {
    if actions == [] then Some(Start(n))
    else match Execute(hash, plan, n, actions[..|actions| - 1])
      case None => None
      case Some(w) => Act(hash, plan, n, w, actions[|actions| - 1])
  }

  // ----- How the journal reads after each kind of write

  lemma {:induction false} ReadsSamePrefix(hash: Hasher, plan: Digest, n: int, raw: Bytes, longer: Bytes, k: nat)
    requires FRAME * k <= |raw| && raw <= longer
    ensures ReadFrames(hash, plan, longer, n, k) == ReadFrames(hash, plan, raw, n, k)
  {
    hide ReadFrame;
    if k > 0 {
      ReadsSamePrefix(hash, plan, n, raw, longer, k - 1);
      assert Chunk(longer, k - 1) == Chunk(raw, k - 1);
    }
  }

  lemma AppendedFrameIsRead(hash: Hasher, plan: Digest, n: nat, raw: Bytes, e: Event)
    requires Journaled(hash, plan, raw, n).Some? && InRange(e) && |raw| / FRAME < MAX_COUNTER
    requires var (s, tail) := Journaled(hash, plan, raw, n).value; tail == [] && Step(plan, s, e).Some?
    ensures var s := Journaled(hash, plan, raw, n).value.0;
      Journaled(hash, plan, raw + NextFrame(hash, plan, raw, n, e), n) == Some((Step(plan, s, e).value, []))
  {
    hide FrameBytes, Accept, Step;
    var k, f := |raw| / FRAME, NextFrame(hash, plan, raw, n, e);
    var longer := raw + f;
    ReadsSamePrefix(hash, plan, n, raw, longer, k);
    assert |raw| == FRAME * k && Chunk(longer, k) == f && |longer| / FRAME == k + 1;
    AcceptIffFrame(hash, f, k, ReadFrames(hash, plan, raw, n, k).value.head, e);
    assert ReadFrames(hash, plan, longer, n, k + 1).value.image ==
           Step(plan, Journaled(hash, plan, raw, n).value.0, e).value;
    assert longer[FRAME * (k + 1)..] == [];
  }

  lemma TornFrameIsTail(hash: Hasher, plan: Digest, n: nat, raw: Bytes, torn: Bytes)
    requires Journaled(hash, plan, raw, n).Some? && Journaled(hash, plan, raw, n).value.1 == [] && |torn| < FRAME
    ensures Journaled(hash, plan, raw + torn, n) == Some((Journaled(hash, plan, raw, n).value.0, torn))
  {
    hide ReadFrame;
    var k := |raw| / FRAME;
    assert |raw| == FRAME * k && |raw + torn| / FRAME == k;
    ReadsSamePrefix(hash, plan, n, raw, raw + torn, k);
  }

  lemma DroppedTailReadsTheSame(hash: Hasher, plan: Digest, n: nat, raw: Bytes)
    requires Journaled(hash, plan, raw, n).Some?
    ensures var (s, tail) := Journaled(hash, plan, raw, n).value;
      |tail| <= |raw| && Journaled(hash, plan, raw[..|raw| - |tail|], n) == Some((s, []))
  {
    hide ReadFrame;
    var k := |raw| / FRAME;
    ReadsSamePrefix(hash, plan, n, raw[..FRAME * k], raw, k);
  }

  // ----- Safety over whole runs

  /** Every file's content is one that the replayed image allows. */
  predicate FilesAllowed(s: Image, files: seq<Content>) {
    && |files| == s.count
    && (s.stage == New ==> forall i :: 0 <= i < |files| ==> files[i] == Before)
    && (s.stage != New ==> forall i :: 1 <= i <= |files| ==> files[i - 1] in Images(s, i))
  }

  predicate Safe(hash: Hasher, plan: Digest, n: nat, w: World) {
    match Journaled(hash, plan, w.raw, n)
    case None => false
    case Some((s, _)) => Legal(s) && s.count == n && FilesAllowed(s, w.files)
  }

  lemma StepKeepsFilesAllowed(plan: Digest, s: Image, e: Event, files: seq<Content>)
    requires Legal(s) && FilesAllowed(s, files) && Step(plan, s, e).Some? && CompletionIsTrue(files, e)
    ensures FilesAllowed(Step(plan, s, e).value, files)
  {
    var t := Step(plan, s, e).value;
    forall i | t.stage != New && 1 <= i <= |files| ensures files[i - 1] in Images(t, i) {
      if s.stage == New {
        assert files[i - 1] == Before;
      } else {
        assert files[i - 1] in Images(s, i);
      }
    }
  }

  lemma FlipKeepsFilesAllowed(s: Image, i: nat, files: seq<Content>)
    requires FilesAllowed(s, files) && 1 <= i <= |files| && i == s.pending
    requires s.stage == Forward || (s.stage == Reverse && s.pending == s.cursor)
    requires s.stage == Forward ==> i == s.cursor
    ensures FilesAllowed(s, files[i - 1 := if s.stage == Forward then After else Before])
  {
  }

  lemma ActKeepsSafe(hash: Hasher, plan: Digest, n: nat, w: World, a: Action)
    requires Safe(hash, plan, n, w) && Act(hash, plan, n, w, a).Some?
    ensures Safe(hash, plan, n, Act(hash, plan, n, w, a).value)
  {
    hide Step, Journaled, Legal, FilesAllowed, NextFrame;
    var (s, tail) := Journaled(hash, plan, w.raw, n).value;
    match a {
      case Append(e) =>
        AppendedFrameIsRead(hash, plan, n, w.raw, e);
        StepLegal(plan, s, e);
        StepKeepsFilesAllowed(plan, s, e, w.files);
      case Tear(e, cut) =>
        TornFrameIsTail(hash, plan, n, w.raw, NextFrame(hash, plan, w.raw, n, e)[..cut]);
      case DropTail =>
        DroppedTailReadsTheSame(hash, plan, n, w.raw);
      case Flip(i) =>
        PendingIsCursor(s);
        FlipKeepsFilesAllowed(s, i, w.files);
    }
  }

  lemma PendingIsCursor(s: Image)
    requires Legal(s) && s.pending != 0 && s.stage in {Forward, Reverse}
    ensures s.pending == s.cursor
  {
  }

  /** Crash safety: after any sequence of appends, flips, torn frames and recoveries, the journal is readable
      and every file holds a content that the rebuilt image allows; in particular all files are changed once
      the journal says committed, and all are unchanged once it says restored. */
  lemma {:induction false} CrashSafety(hash: Hasher, plan: Digest, n: nat, actions: seq<Action>)
    requires Execute(hash, plan, n, actions).Some?
    ensures var w := Execute(hash, plan, n, actions).value;
      && Safe(hash, plan, n, w)
      && var s := Journaled(hash, plan, w.raw, n).value.0;
      && (s.stage == Committed ==> w.files == seq(n, _ => After))
      && (s.stage == Restored ==> w.files == seq(n, _ => Before))
  {
    hide Act, Journaled, Legal;
    if actions != [] {
      var front := actions[..|actions| - 1];
      CrashSafety(hash, plan, n, front);
      ActKeepsSafe(hash, plan, n, Execute(hash, plan, n, front).value, actions[|actions| - 1]);
    } else {
      EmptyJournal(hash, plan, n);
    }
    var w := Execute(hash, plan, n, actions).value;
    var s := Journaled(hash, plan, w.raw, n).value.0;
    if s.stage == Committed || s.stage == Restored {
      var v := if s.stage == Committed then After else Before;
      forall i | 0 <= i < n ensures w.files[i] == v {
        assert w.files[(i + 1) - 1] in Images(s, i + 1);
      }
    }
  }

  lemma EmptyJournal(hash: Hasher, plan: Digest, n: nat)
    ensures Journaled(hash, plan, [], n) == Some((Initial(n), [])) && Legal(Initial(n))
  {
  }

  // ----- The allowed contents are no wider than they must be

  /** Some run ends with the journal read as `s`, no torn tail, and these files. */
  ghost predicate Attainable(hash: Hasher, plan: Digest, s: Image, files: seq<Content>, bound: nat) {
    s.count >= 0 && exists actions :: Ends(hash, plan, s, files, bound, actions)
  }

  ghost predicate Ends(hash: Hasher, plan: Digest, s: Image, files: seq<Content>, bound: nat, actions: seq<Action>)
    requires s.count >= 0
  {
    match Execute(hash, plan, s.count, actions)
    case None => false
    case Some(w) =>
      w.files == files && |w.raw| <= FRAME * bound && Journaled(hash, plan, w.raw, s.count) == Some((s, []))
  }

  lemma AttainByAppend(hash: Hasher, plan: Digest, s: Image, e: Event, files: seq<Content>, bound: nat)
    requires Attainable(hash, plan, s, files, bound) && bound < MAX_COUNTER
    requires Step(plan, s, e).Some? && Step(plan, s, e).value.count == s.count && CompletionIsTrue(files, e)
    ensures Attainable(hash, plan, Step(plan, s, e).value, files, bound + 1)
  {
    hide Step, Journaled, FrameBytes;
    var actions :| Ends(hash, plan, s, files, bound, actions);
    var w := Execute(hash, plan, s.count, actions).value;
    StepEventInRange(plan, s, e);
    AppendedFrameIsRead(hash, plan, s.count, w.raw, e);
    assert (actions + [Append(e)])[..|actions|] == actions;
    assert Ends(hash, plan, Step(plan, s, e).value, files, bound + 1, actions + [Append(e)]);
  }

  lemma StepEventInRange(plan: Digest, s: Image, e: Event)
    requires Step(plan, s, e).Some?
    ensures InRange(e)
  {
  }

  lemma AttainByFlip(hash: Hasher, plan: Digest, s: Image, files: seq<Content>, bound: nat)
    requires Attainable(hash, plan, s, files, bound)
    requires 1 <= s.pending <= |files| && (s.stage == Forward || s.stage == Reverse)
    ensures Attainable(hash, plan, s, files[s.pending - 1 := if s.stage == Forward then After else Before], bound)
  {
    hide Journaled;
    var actions :| Ends(hash, plan, s, files, bound, actions);
    var flip := Flip(s.pending);
    assert (actions + [flip])[..|actions|] == actions;
    assert Ends(hash, plan, s, files[s.pending - 1 := if s.stage == Forward then After else Before], bound,
                actions + [flip]);
  }

  /** File contents on the run along HistoryOf(s, full), with the pending file changed or not yet. */
  ghost function FileAt(s: Image, full: bool, flipped: bool, i: int): Content {
    match s.stage
    case New => Before
    case Forward => if i < s.cursor || (i == s.pending && flipped) then After else Before
    case Reverse => if i > s.cursor || (i == s.pending && flipped) || !full then Before else After
    case Restored => Before
    case _ => After
  }

  ghost function FilesAt(s: Image, full: bool, flipped: bool): seq<Content>
    requires s.count >= 0
  {
    seq(s.count, i => FileAt(s, full, flipped, i + 1))
  }

  lemma {:induction false} HistoryAttains(hash: Hasher, plan: Digest, s: Image, full: bool, flipped: bool)
    requires Legal(s) && s.count >= 0
    ensures Attainable(hash, plan, s, FilesAt(s, full, flipped), Depth(s))
    decreases Depth(s), flipped
  {
    hide Step, Legal, FilesAt, Attainable, Journaled, Images;
    if flipped {
      HistoryAttains(hash, plan, s, full, false);
      FlippedFiles(s, full);
      if s.stage in {Forward, Reverse} && s.pending != 0 {
        AttainByFlip(hash, plan, s, FilesAt(s, full, false), Depth(s));
      }
    } else if s.stage == New {
      StartAttained(hash, plan, s, full);
    } else {
      PredecessorStep(plan, s, full);
      var (t, e) := Predecessor(plan, s, full);
      hide Predecessor, Depth;
      var done := e.kind == 3 || e.kind == 8;
      HistoryAttains(hash, plan, t, full, done);
      PredecessorFiles(plan, s, full);
      AttainByAppend(hash, plan, t, e, FilesAt(t, full, done), Depth(t));
      Widen(hash, plan, s, FilesAt(s, full, false), Depth(t) + 1, Depth(s));
    }
  }

  lemma StartAttained(hash: Hasher, plan: Digest, s: Image, full: bool)
    requires Legal(s) && s.count >= 0 && s.stage == New
    ensures Attainable(hash, plan, s, FilesAt(s, full, false), Depth(s))
  {
    EmptyJournal(hash, plan, s.count);
    assert FilesAt(s, full, false) == Start(s.count).files;
    assert Ends(hash, plan, s, FilesAt(s, full, false), 0, []);
  }

  /** Changing the pending file leads from one choice of contents to the other. */
  lemma FlippedFiles(s: Image, full: bool)
    requires Legal(s) && s.count >= 0
    ensures |FilesAt(s, full, false)| == s.count
    ensures
      if s.stage in {Forward, Reverse} && s.pending != 0 then
        && 1 <= s.pending <= s.count
        && FilesAt(s, full, true)
           == FilesAt(s, full, false)[s.pending - 1 := if s.stage == Forward then After else Before]
      else FilesAt(s, full, true) == FilesAt(s, full, false)
  {
  }

  lemma Widen(hash: Hasher, plan: Digest, s: Image, files: seq<Content>, a: nat, b: nat)
    requires Attainable(hash, plan, s, files, a) && a <= b
    ensures Attainable(hash, plan, s, files, b)
  {
    var actions :| Ends(hash, plan, s, files, a, actions);
    assert Ends(hash, plan, s, files, b, actions);
  }

  /** The recorded event does not touch files, and a completion finds its file changed. */
  lemma PredecessorFiles(plan: Digest, s: Image, full: bool)
    requires Legal(s) && s.stage != New
    ensures var (t, e) := Predecessor(plan, s, full); var done := e.kind == 3 || e.kind == 8;
      && t.count == s.count && Depth(t) <= 4 * MAX_COUNT + 3
      && FilesAt(t, full, done) == FilesAt(s, full, false) && CompletionIsTrue(FilesAt(t, full, done), e)
  {
    PredecessorStep(plan, s, full);
  }

  /** Which run to follow to see content `v` in file `i`. */
  ghost function Choice(s: Image, i: int, v: Content): (bool, bool) {
    (s.stage == Reverse && v == After, s.stage == Forward && i == s.pending && v == After)
  }

  lemma ChoiceShows(s: Image, i: int, v: Content)
    requires Legal(s) && v in Images(s, i)
    ensures 1 <= i <= s.count
    ensures var (full, flipped) := Choice(s, i, v); FileAt(s, full, flipped, i) == v
  {
  }

  /** Every content that the image of a reachable journal allows for a file is really found there after some run. */
  lemma AllowedContentsAttained(hash: Hasher, plan: Digest, s: Image, i: int, v: Content)
    requires Legal(s) && v in Images(s, i)
    ensures 1 <= i <= s.count
    ensures exists files :: |files| == s.count && files[i - 1] == v && Attainable(hash, plan, s, files, Depth(s))
  {
    hide Legal, Images, FileAt, Attainable, Depth, Choice;
    ChoiceShows(s, i, v);
    var (full, flipped) := Choice(s, i, v);
    HistoryAttains(hash, plan, s, full, flipped);
    var files := FilesAt(s, full, flipped);
    assert |files| == s.count && files[i - 1] == v;
  }

  // ----- Every crashed execution can be finished

  /** After these actions the journal is whole and reads as `s`. */
  ghost predicate Stands(hash: Hasher, plan: Digest, n: nat, actions: seq<Action>, w: World, s: Image) {
    Execute(hash, plan, n, actions) == Some(w) && Journaled(hash, plan, w.raw, n) == Some((s, []))
  }

  ghost predicate EndsIn(hash: Hasher, plan: Digest, n: nat, actions: seq<Action>, goal: Stage) {
    match Execute(hash, plan, n, actions)
    case None => false
    case Some(w) =>
      && Journaled(hash, plan, w.raw, n).Some? && Journaled(hash, plan, w.raw, n).value.0.stage == goal
      && w.files == seq(n, _ => if goal == Committed then After else Before)
  }

  lemma OneMoreAction(hash: Hasher, plan: Digest, n: nat, actions: seq<Action>, a: Action)
    ensures Execute(hash, plan, n, actions + [a]) ==
            match Execute(hash, plan, n, actions) case None => None case Some(w) => Act(hash, plan, n, w, a)
  {
    hide Act;
    assert (actions + [a])[..|actions|] == actions;
  }

  /** Recovery after any crash: what is left of a torn frame is dropped. */
  lemma Recovered(hash: Hasher, plan: Digest, n: nat, actions: seq<Action>, w: World) returns (w': World, s: Image)
    requires Execute(hash, plan, n, actions) == Some(w)
    ensures Stands(hash, plan, n, actions + [DropTail], w', s) && w'.files == w.files
    ensures Journaled(hash, plan, w.raw, n).Some? && s == Journaled(hash, plan, w.raw, n).value.0
    ensures |w'.raw| / FRAME == |w.raw| / FRAME
  {
    hide Journaled, Legal;
    CrashSafety(hash, plan, n, actions);
    OneMoreAction(hash, plan, n, actions, DropTail);
    DroppedTailReadsTheSame(hash, plan, n, w.raw);
    TailIsShort(hash, plan, n, w.raw);
    s := Journaled(hash, plan, w.raw, n).value.0;
    w' := Act(hash, plan, n, w, DropTail).value;
  }

  lemma TailIsShort(hash: Hasher, plan: Digest, n: nat, raw: Bytes)
    requires Journaled(hash, plan, raw, n).Some?
    ensures |Journaled(hash, plan, raw, n).value.1| == |raw| % FRAME
  {
  }

  /** The files are brought to where the completion of `e` may be recorded. */
  lemma BeforeRecording(hash: Hasher, plan: Digest, n: nat, actions: seq<Action>, w: World, s: Image, e: Event)
    returns (more: seq<Action>, w': World)
    requires Stands(hash, plan, n, actions, w, s) && |w.files| == n && s.count == n && Legal(s)
    requires Step(plan, s, e).Some?
    ensures Stands(hash, plan, n, actions + more, w', s) && w'.raw == w.raw && |w'.files| == n
    ensures CompletionIsTrue(w'.files, e)
  {
    hide Journaled;
    if e.kind == 3 || e.kind == 8 {
      CompletesPending(plan, s, e);
      more := [Flip(e.index)];
      OneMoreAction(hash, plan, n, actions, Flip(e.index));
      w' := Act(hash, plan, n, w, Flip(e.index)).value;
    } else {
      more, w' := [], w;
      assert actions + more == actions;
    }
  }

  lemma CompletesPending(plan: Digest, s: Image, e: Event)
    requires Step(plan, s, e).Some? && (e.kind == 3 || e.kind == 8)
    ensures 1 <= e.index <= s.count && e.index == s.pending && s.stage == (if e.kind == 3 then Forward else Reverse)
  {
  }

  lemma Recorded(hash: Hasher, plan: Digest, n: nat, actions: seq<Action>, w: World, s: Image, e: Event)
    returns (w': World)
    requires Stands(hash, plan, n, actions, w, s) && |w.raw| / FRAME < MAX_COUNTER
    requires Step(plan, s, e).Some? && CompletionIsTrue(w.files, e)
    ensures Stands(hash, plan, n, actions + [Append(e)], w', Step(plan, s, e).value)
    ensures w'.files == w.files && |w'.raw| == |w.raw| + FRAME
  {
    hide Journaled, Step, FrameBytes;
    StepEventInRange(plan, s, e);
    OneMoreAction(hash, plan, n, actions, Append(e));
    AppendedFrameIsRead(hash, plan, n, w.raw, e);
    w' := Act(hash, plan, n, w, Append(e)).value;
  }

  /** From a whole journal: event after event, each completion after its flip. */
  lemma {:induction false} Finish(hash: Hasher, plan: Digest, n: nat, actions: seq<Action>, w: World, s: Image,
                                  goal: Stage) returns (more: seq<Action>)
    requires Stands(hash, plan, n, actions, w, s) && |w.files| == n && s.count == n && Legal(s) && 1 <= n <= MAX_COUNT
    requires goal in {Restored, Committed} && s.stage in Stages(goal)
    requires |w.raw| / FRAME + Distance(s, goal) <= MAX_COUNTER
    ensures EndsIn(hash, plan, n, actions + more, goal)
    decreases Distance(s, goal)
  {
    hide Journaled, Step, Legal, Distance, Toward, Execute, CompletionIsTrue;
    DistanceIsNatural(s, goal);
    if s.stage == goal {
      more := [];
      assert actions + more == actions;
      CrashSafety(hash, plan, n, actions);
    } else {
      TowardStep(plan, s, goal);
      var e := Toward(plan, s, goal);
      var first, w1 := BeforeRecording(hash, plan, n, actions, w, s, e);
      var w2 := Recorded(hash, plan, n, actions + first, w1, s, e);
      var rest := Finish(hash, plan, n, actions + first + [Append(e)], w2, Step(plan, s, e).value, goal);
      more := first + [Append(e)] + rest;
      assert actions + more == actions + first + [Append(e)] + rest;
    }
  }

  /** How many frames a journal will have at least when it reaches `goal`. */
  function FramesNeeded(hash: Hasher, plan: Digest, n: nat, w: World, goal: Stage): int
    requires Journaled(hash, plan, w.raw, n).Some?
  {
    |w.raw| / FRAME + Distance(Journaled(hash, plan, w.raw, n).value.0, goal)
  }

  ghost predicate LeftOpen(hash: Hasher, plan: Digest, n: nat, w: World, goal: Stage)
    requires Journaled(hash, plan, w.raw, n).Some?
  {
    && Journaled(hash, plan, w.raw, n).value.0.stage in Stages(goal)
    && FramesNeeded(hash, plan, n, w, goal) <= MAX_COUNTER
  }

  /** What is open after an action was open before it. */
  lemma ActOpensNothing(hash: Hasher, plan: Digest, n: nat, w: World, a: Action, goal: Stage)
    requires Safe(hash, plan, n, w) && Act(hash, plan, n, w, a).Some? && goal in {Restored, Committed}
    requires Safe(hash, plan, n, Act(hash, plan, n, w, a).value)
    requires LeftOpen(hash, plan, n, Act(hash, plan, n, w, a).value, goal)
    ensures LeftOpen(hash, plan, n, w, goal)
  {
    hide Step, Journaled, Legal, FilesAllowed, NextFrame, Distance, Stages;
    var (s, tail) := Journaled(hash, plan, w.raw, n).value;
    TailIsShort(hash, plan, n, w.raw);
    match a {
      case Append(e) =>
        AppendedFrameIsRead(hash, plan, n, w.raw, e);
        StepNotNearer(plan, s, e, goal);
      case Tear(e, cut) =>
        TornFrameIsTail(hash, plan, n, w.raw, NextFrame(hash, plan, w.raw, n, e)[..cut]);
      case DropTail =>
        DroppedTailReadsTheSame(hash, plan, n, w.raw);
      case Flip(i) =>
    }
  }

  lemma {:induction false} OpenBefore(hash: Hasher, plan: Digest, n: nat, actions: seq<Action>, more: seq<Action>,
                                      goal: Stage)
    requires Execute(hash, plan, n, actions).Some? && Execute(hash, plan, n, actions + more).Some?
    requires goal in {Restored, Committed}
    requires Journaled(hash, plan, Execute(hash, plan, n, actions + more).value.raw, n).Some?
    requires LeftOpen(hash, plan, n, Execute(hash, plan, n, actions + more).value, goal)
    ensures Journaled(hash, plan, Execute(hash, plan, n, actions).value.raw, n).Some?
    ensures LeftOpen(hash, plan, n, Execute(hash, plan, n, actions).value, goal)
    decreases |more|
  {
    hide Act, Journaled, Legal, LeftOpen, FilesAllowed;
    if more == [] {
      assert actions + more == actions;
    } else {
      var front := more[..|more| - 1];
      assert actions + more == (actions + front) + [more[|more| - 1]];
      OneMoreAction(hash, plan, n, actions + front, more[|more| - 1]);
      CrashSafety(hash, plan, n, actions + front);
      CrashSafety(hash, plan, n, actions + more);
      ActOpensNothing(hash, plan, n, Execute(hash, plan, n, actions + front).value, more[|more| - 1], goal);
      OpenBefore(hash, plan, n, actions, front, goal);
    }
  }

  lemma CounterBounded(hash: Hasher, plan: Digest, n: nat, raw: Bytes)
    requires Journaled(hash, plan, raw, n).Some?
    ensures |raw| / FRAME <= MAX_COUNTER
  {
    hide ReadFrames;
    AcceptedFramesAreEncoding(hash, plan, raw, n, |raw| / FRAME);
  }

  /** Wherever a crash has left journal and files, further actions lead to the end of the restoration, and of the
      commitment, exactly when the journal leaves that outcome open and the counter has room for the frames that it
      takes; all files are then as the outcome says. */
  lemma CanFinish(hash: Hasher, plan: Digest, n: nat, actions: seq<Action>, goal: Stage)
    requires Execute(hash, plan, n, actions).Some? && goal in {Restored, Committed}
    ensures Journaled(hash, plan, Execute(hash, plan, n, actions).value.raw, n).Some?
    ensures (exists more :: EndsIn(hash, plan, n, actions + more, goal)) <==>
            1 <= n <= MAX_COUNT && LeftOpen(hash, plan, n, Execute(hash, plan, n, actions).value, goal)
  {
    hide Act, Execute, Journaled, Legal, Distance, Stages;
    var w := Execute(hash, plan, n, actions).value;
    CrashSafety(hash, plan, n, actions);
    if 1 <= n <= MAX_COUNT && LeftOpen(hash, plan, n, w, goal) {
      var w', s := Recovered(hash, plan, n, actions, w);
      var rest := Finish(hash, plan, n, actions + [DropTail], w', s, goal);
      assert actions + ([DropTail] + rest) == actions + [DropTail] + rest;
      assert EndsIn(hash, plan, n, actions + ([DropTail] + rest), goal);
    }
    forall more | EndsIn(hash, plan, n, actions + more, goal)
      ensures 1 <= n <= MAX_COUNT && LeftOpen(hash, plan, n, w, goal)
    {
      var end := Execute(hash, plan, n, actions + more).value;
      CrashSafety(hash, plan, n, actions + more);
      GoalIsOpen(hash, plan, n, end, goal);
      OpenBefore(hash, plan, n, actions, more, goal);
    }
  }

  lemma GoalIsOpen(hash: Hasher, plan: Digest, n: nat, w: World, goal: Stage)
    requires Safe(hash, plan, n, w) && goal in {Restored, Committed}
    requires Journaled(hash, plan, w.raw, n).value.0.stage == goal
    ensures 1 <= n <= MAX_COUNT && LeftOpen(hash, plan, n, w, goal)
  {
    hide Journaled;
    CounterBounded(hash, plan, n, w.raw);
  }

  /** Hence every crashed execution can be finished in one way or the other, long before the counter is full. */
  lemma AlwaysFinishable(hash: Hasher, plan: Digest, n: nat, actions: seq<Action>)
    requires Execute(hash, plan, n, actions).Some? && 1 <= n <= MAX_COUNT
    requires |Execute(hash, plan, n, actions).value.raw| / FRAME + 2 * n + 4 <= MAX_COUNTER
    ensures exists more, goal :: goal in {Restored, Committed} && EndsIn(hash, plan, n, actions + more, goal)
  {
    hide Execute, Journaled, EndsIn;
    CrashSafety(hash, plan, n, actions);
    var s := Journaled(hash, plan, Execute(hash, plan, n, actions).value.raw, n).value.0;
    var goal := if s.stage in Stages(Restored) then Restored else Committed;
    CanFinish(hash, plan, n, actions, goal);
    var more :| EndsIn(hash, plan, n, actions + more, goal);
  }
}
