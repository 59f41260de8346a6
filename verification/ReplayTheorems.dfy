/** What every run of the replay machine keeps, which outcomes stay open, and why runs end. */
module ReplayTheorems {
  import opened Common
  import opened Replay

  // ----- The reachable images, exactly

  /** The images some accepted run produces; see ReachableIffLegal. */
  predicate Legal(s: Image) {
    if s.stage == New then s == Initial(s.count)
    else
      && 1 <= s.count <= MAX_COUNT
      && |s.receipt| == 32
      && ((s.stage == Forward || s.stage == Applied) <==> s.receipt == ZERO)
      && match s.stage
         case Forward => 1 <= s.cursor <= s.count + 1 && (s.pending == 0 || s.pending == s.cursor <= s.count)
         case Reverse => 0 <= s.cursor <= s.count && (s.pending == s.cursor || (s.pending == 0 && s.cursor < s.count))
         case Restored => s.cursor == 0 && s.pending == 0
         case _ => s.cursor == s.count + 1 && s.pending == 0
  }

  lemma StepLegal(plan: Digest, s: Image, e: Event)
    requires Legal(s) && Step(plan, s, e).Some?
    ensures Legal(Step(plan, s, e).value) && Step(plan, s, e).value.count == s.count
  {
  }

  lemma {:induction false} RunLegal(plan: Digest, s: Image, events: seq<Event>)
    requires Legal(s) && Run(plan, s, events).Some?
    ensures Legal(Run(plan, s, events).value) && Run(plan, s, events).value.count == s.count
  {
    if events != [] {
      var front := events[..|events| - 1];
      RunLegal(plan, s, front);
      StepLegal(plan, Run(plan, s, front).value, events[|events| - 1]);
    }
  }

  /** An image and event from which one step gives `s`. `full` chooses, for the first reverse intent,
      whether the plan had been applied completely or not at all. */
  function Predecessor(plan: Digest, s: Image, full: bool): (Image, Event)
    requires Legal(s) && s.stage != New
  {
    match s.stage
    case Forward =>
      if s.pending != 0 then (s.(pending := 0), Event(2, s.cursor, plan))
      else if s.cursor == 1 then (Initial(s.count), Event(1, 0, plan))
      else (s.(cursor := s.cursor - 1, pending := s.cursor - 1), Event(3, s.cursor - 1, plan))
    case Applied => (s.(stage := Forward), Event(4, 0, plan))
    case CommitPending => (s.(stage := Applied, receipt := ZERO), Event(5, 0, s.receipt))
    case Committed => (s.(stage := CommitPending), Event(6, 0, s.receipt))
    case Reverse =>
      if s.pending == 0 then
        (s.(cursor := s.cursor + 1, pending := s.cursor + 1), Event(8, s.cursor + 1, s.receipt))
      else
        var e := Event(7, s.cursor, s.receipt);
        if s.cursor < s.count then (s.(pending := 0), e)
        else if full then (Image(s.count, Applied, s.count + 1, 0, ZERO), e)
        else (Image(s.count, Forward, 1, 0, ZERO), e)
    case Restored => (s.(stage := Reverse), Event(9, 0, s.receipt))
  }

  /** Length of the run to `s` that never repeats an image and, if it turns back, first applies the plan in full. */
  function Depth(s: Image): nat
    requires Legal(s)
  {
    match s.stage
    case New => 0
    case Forward => 2 * s.cursor - 1 + (if s.pending == 0 then 0 else 1)
    case Applied => 2 * s.count + 2
    case CommitPending => 2 * s.count + 3
    case Committed => 2 * s.count + 4
    case Reverse => 4 * s.count + 3 - 2 * s.cursor - (if s.pending == 0 then 1 else 0)
    case Restored => 4 * s.count + 3
  }

  lemma PredecessorIsNearer(plan: Digest, s: Image, full: bool)
    requires Legal(s) && s.stage != New
    ensures var (t, _) := Predecessor(plan, s, full);
      && Legal(t) && t.count == s.count && t != s
      && Depth(t) < Depth(s) && (full ==> Depth(t) + 1 == Depth(s))
  {
  }

  lemma PredecessorStep(plan: Digest, s: Image, full: bool)
    requires Legal(s) && s.stage != New
    ensures var (t, e) := Predecessor(plan, s, full);
      && Legal(t) && t.count == s.count && Step(plan, t, e) == Some(s) && t != s
      && Depth(t) < Depth(s) && (full ==> Depth(t) + 1 == Depth(s))
  {
    PredecessorIsNearer(plan, s, full);
    hide Depth;
    match s.stage {
      case Forward =>
      case Applied =>
      case CommitPending =>
      case Committed =>
      case Reverse =>
      case Restored =>
    }
  }

  /** A run that ends in `s`. */
  ghost function HistoryOf(plan: Digest, s: Image, full: bool): (events: seq<Event>)
    requires Legal(s)
    ensures Replayed(plan, s.count, events) == Some(s)
    ensures full ==> |events| == Depth(s)
    decreases Depth(s)
  {
    if s.stage == New then []
    else
      PredecessorStep(plan, s, full);
      var (t, e) := Predecessor(plan, s, full);
      var front := HistoryOf(plan, t, full);
      assert (front + [e])[..|front|] == front;
      front + [e]
  }

  lemma {:induction false} ReachableIffLegal(plan: Digest, s: Image)
    ensures (exists events :: Replayed(plan, s.count, events) == Some(s)) <==> Legal(s)
  {
    if Legal(s) {
      var events := HistoryOf(plan, s, true);
    }
    forall events | Replayed(plan, s.count, events) == Some(s) ensures Legal(s) {
      RunLegal(plan, Initial(s.count), events);
    }
  }

  // ----- One decision, one receipt

  ghost predicate Holds(events: seq<Event>, kind: int) {
    exists k :: 0 <= k < |events| && events[k].kind == kind
  }

  lemma HoldsLast(events: seq<Event>)
    requires events != []
    ensures forall kind :: Holds(events, kind) <==>
      Holds(events[..|events| - 1], kind) || events[|events| - 1].kind == kind
  {
    var front, last := events[..|events| - 1], |events| - 1;
    forall kind ensures Holds(events, kind) <==> Holds(front, kind) || events[last].kind == kind {
      if Holds(front, kind) {
        var k :| 0 <= k < last && front[k].kind == kind;
        assert events[k].kind == kind;
      }
      if Holds(events, kind) && events[last].kind != kind {
        var k :| 0 <= k <= last && events[k].kind == kind;
        assert front[k].kind == kind;
      }
    }
  }

  lemma {:induction false} DecisionShowsInStage(plan: Digest, n: int, events: seq<Event>)
    requires Replayed(plan, n, events).Some?
    ensures var s := Replayed(plan, n, events).value;
      && (Holds(events, 5) <==> s.stage == CommitPending || s.stage == Committed)
      && (Holds(events, 7) <==> s.stage == Reverse || s.stage == Restored)
  {
    if events != [] {
      var last := |events| - 1;
      var front := events[..last];
      DecisionShowsInStage(plan, n, front);
      HoldsLast(events);
      hide Holds;
    }
  }

  /** No accepted run holds both a commit intent and a restore intent. */
  lemma ExclusiveDecision(plan: Digest, n: int, events: seq<Event>)
    requires Replayed(plan, n, events).Some?
    ensures !(Holds(events, 5) && Holds(events, 7))
  {
    DecisionShowsInStage(plan, n, events);
  }

  /** Once a receipt is bound, every later image of the run carries that receipt. */
  lemma {:induction false} ReceiptNeverChanges(plan: Digest, s: Image, events: seq<Event>)
    requires s.receipt != ZERO && Run(plan, s, events).Some?
    ensures Run(plan, s, events).value.receipt == s.receipt
  {
    if events != [] {
      ReceiptNeverChanges(plan, s, events[..|events| - 1]);
    }
  }

  // ----- Which outcomes stay open

  lemma {:induction false} RunCons(plan: Digest, s: Image, e: Event, rest: seq<Event>)
    requires Step(plan, s, e).Some?
    ensures Run(plan, s, [e] + rest) == Run(plan, Step(plan, s, e).value, rest)
  {
    var all := [e] + rest;
    if rest == [] {
      assert all[..|all| - 1] == [];
    } else {
      assert all[..|all| - 1] == [e] + rest[..|rest| - 1];
      RunCons(plan, s, e, rest[..|rest| - 1]);
    }
  }

  /** Upper bound on the number of further state changes. */
  function Remaining(s: Image): int {
    match s.stage
    case New => 4 * s.count + 3
    case Forward => 4 * s.count + 4 - 2 * s.cursor - (if s.pending == 0 then 0 else 1)
    case Applied => 2 * s.count + 1
    case CommitPending => 1
    case Committed => 0
    case Reverse => 2 * s.cursor + 1 - (if s.pending == 0 then 0 else 1)
    case Restored => 0
  }

  const SAMPLE_RECEIPT: Digest := Fill(1, 32)

  ghost function Stages(goal: Stage): set<Stage> {
    if goal == Restored then {New, Forward, Applied, Reverse, Restored}
    else {New, Forward, Applied, CommitPending, Committed}
  }

  /** The event that brings `s` one step nearer to `goal`. */
  function Toward(plan: Digest, s: Image, goal: Stage): Event {
    match s.stage
    case New => Event(1, 0, plan)
    case Reverse =>
      if s.cursor == 0 then Event(9, 0, s.receipt)
      else Event(if s.pending == 0 then 7 else 8, s.cursor, s.receipt)
    case CommitPending => Event(6, 0, s.receipt)
    case Applied => if goal == Restored then Event(7, s.count, SAMPLE_RECEIPT) else Event(5, 0, SAMPLE_RECEIPT)
    case _ =>
      if goal == Restored then Event(7, s.count, SAMPLE_RECEIPT)
      else if s.cursor == s.count + 1 then Event(4, 0, plan)
      else Event(if s.pending == 0 then 2 else 3, s.cursor, plan)
  }

  /** How many events `s` is away from `goal`. */
  function Distance(s: Image, goal: Stage): int {
    match s.stage
    case New => if goal == Restored then 2 * s.count + 2 else 2 * s.count + 4
    case Forward =>
      if goal == Restored then 2 * s.count + 1
      else 2 * (s.count + 1 - s.cursor) - (if s.pending == 0 then 0 else 1) + 3
    case Applied => if goal == Restored then 2 * s.count + 1 else 2
    case CommitPending => 1
    case Reverse => 2 * s.cursor + 1 - (if s.pending == 0 then 0 else 1)
    case _ => 0
  }

  lemma TowardStep(plan: Digest, s: Image, goal: Stage)
    requires Legal(s) && 1 <= s.count <= MAX_COUNT && goal in {Restored, Committed}
    requires s.stage in Stages(goal) && s.stage != goal
    ensures Step(plan, s, Toward(plan, s, goal)).Some?
    ensures var t := Step(plan, s, Toward(plan, s, goal)).value;
      Legal(t) && t.count == s.count && t.stage in Stages(goal) && 0 <= Distance(t, goal) == Distance(s, goal) - 1
  {
    assert SAMPLE_RECEIPT[0] != ZERO[0];
  }

  lemma DistanceIsNatural(s: Image, goal: Stage)
    requires Legal(s) && s.count >= 0 && goal in {Restored, Committed} && s.stage in Stages(goal)
    ensures Distance(s, goal) >= 0 && (Distance(s, goal) == 0 <==> s.stage == goal)
  {
  }

  /** No event leads back into an outcome that was given up, or nearer by more than one. */
  lemma StepNotNearer(plan: Digest, s: Image, e: Event, goal: Stage)
    requires Legal(s) && Step(plan, s, e).Some? && goal in {Restored, Committed}
    requires Step(plan, s, e).value.stage in Stages(goal)
    ensures s.stage in Stages(goal) && Distance(s, goal) <= Distance(Step(plan, s, e).value, goal) + 1
  {
  }

  ghost predicate CanEndIn(plan: Digest, s: Image, goal: Stage) {
    exists events :: Run(plan, s, events).Some? && Run(plan, s, events).value.stage == goal
  }

  lemma {:induction false} OpenOutcome(plan: Digest, s: Image, goal: Stage)
    requires Legal(s) && 1 <= s.count <= MAX_COUNT && goal in {Restored, Committed} && s.stage in Stages(goal)
    ensures CanEndIn(plan, s, goal)
    decreases Distance(s, goal)
  {
    hide Legal, Step, Distance, Toward;
    DistanceIsNatural(s, goal);
    if s.stage == goal {
      assert Run(plan, s, []) == Some(s);
    } else {
      TowardStep(plan, s, goal);
      var e := Toward(plan, s, goal);
      var t := Step(plan, s, e).value;
      OpenOutcome(plan, t, goal);
      var rest :| Run(plan, t, rest).Some? && Run(plan, t, rest).value.stage == goal;
      RunCons(plan, s, e, rest);
      assert Run(plan, s, [e] + rest).Some?;
    }
  }

  lemma {:induction false} ClosedOutcome(plan: Digest, s: Image, goal: Stage, events: seq<Event>)
    requires goal in {Restored, Committed} && s.stage !in Stages(goal) && Run(plan, s, events).Some?
    ensures Run(plan, s, events).value.stage !in Stages(goal)
  {
    if events != [] {
      ClosedOutcome(plan, s, goal, events[..|events| - 1]);
    }
  }

  /** From every reachable image: restoration is still possible exactly before a commit intent, commitment
      exactly before a restore intent. In particular every non-terminal image can be finished. */
  lemma OutcomesLeftOpen(plan: Digest, s: Image)
    requires Legal(s) && 1 <= s.count <= MAX_COUNT
    ensures CanEndIn(plan, s, Restored) <==> s.stage in {New, Forward, Applied, Reverse, Restored}
    ensures CanEndIn(plan, s, Committed) <==> s.stage in {New, Forward, Applied, CommitPending, Committed}
    ensures CanEndIn(plan, s, Restored) || CanEndIn(plan, s, Committed)
  {
    forall goal | goal in {Restored, Committed} ensures CanEndIn(plan, s, goal) <==> s.stage in Stages(goal) {
      if s.stage in Stages(goal) {
        OpenOutcome(plan, s, goal);
      } else if CanEndIn(plan, s, goal) {
        var events :| Run(plan, s, events).Some? && Run(plan, s, events).value.stage == goal;
        ClosedOutcome(plan, s, goal, events);
      }
    }
  }

  // ----- Runs end

  /** How many events of a run change the image. */
  function Changes(plan: Digest, s: Image, events: seq<Event>): nat {
    if events == [] then 0
    else
      var last := |events| - 1;
      var before := Run(plan, s, events[..last]);
      Changes(plan, s, events[..last]) + if before != Run(plan, s, events) then 1 else 0
  }

  /** Every accepted event that changes a reachable image lowers the measure. */
  lemma MeasureFalls(plan: Digest, s: Image, e: Event)
    requires Legal(s) && Step(plan, s, e).Some?
    ensures var t := Step(plan, s, e).value; Legal(t) && (t == s || 0 <= Remaining(t) < Remaining(s))
  {
  }

  lemma {:induction false} ChangesUseUpMeasure(plan: Digest, s: Image, events: seq<Event>)
    requires Legal(s) && Run(plan, s, events).Some?
    ensures Legal(Run(plan, s, events).value)
    ensures Changes(plan, s, events) + Remaining(Run(plan, s, events).value) <= Remaining(s)
  {
    hide Step, Legal, Remaining;
    if events != [] {
      var front := events[..|events| - 1];
      ChangesUseUpMeasure(plan, s, front);
      MeasureFalls(plan, Run(plan, s, front).value, events[|events| - 1]);
    }
  }

  /** Every accepted run over n files changes the image at most 4n+3 times... */
  lemma BoundedChanges(plan: Digest, n: nat, events: seq<Event>)
    requires Replayed(plan, n, events).Some?
    ensures Changes(plan, Initial(n), events) <= 4 * n + 3
  {
    ChangesUseUpMeasure(plan, Initial(n), events);
  }

  lemma OneMoreChange(plan: Digest, s: Image, front: seq<Event>, e: Event)
    requires Run(plan, s, front) != Run(plan, s, front + [e])
    ensures Changes(plan, s, front + [e]) == Changes(plan, s, front) + 1
  {
    hide Run;
    assert (front + [e])[..|front|] == front;
  }

  lemma LastOfHistory(plan: Digest, s: Image, full: bool)
    requires Legal(s) && s.stage != New
    ensures var (t, e) := Predecessor(plan, s, full);
      && Legal(t) && t.count == s.count && t != s && Depth(t) < Depth(s)
      && HistoryOf(plan, s, full) == HistoryOf(plan, t, full) + [e]
  {
    hide Step, Legal, Depth, Predecessor, Replayed;
    PredecessorStep(plan, s, full);
  }

  lemma {:induction false} FullHistoryChanges(plan: Digest, s: Image)
    requires Legal(s)
    ensures Changes(plan, Initial(s.count), HistoryOf(plan, s, true)) == Depth(s)
    decreases Depth(s)
  {
    hide Step, Legal, Depth, Predecessor, Run, Changes, HistoryOf;
    if s.stage == New {
      NothingChanged(plan, s);
    } else {
      PredecessorStep(plan, s, true);
      LastOfHistory(plan, s, true);
      var (t, e) := Predecessor(plan, s, true);
      FullHistoryChanges(plan, t);
      OneMoreChange(plan, Initial(s.count), HistoryOf(plan, t, true), e);
    }
  }

  lemma NothingChanged(plan: Digest, s: Image)
    requires Legal(s) && s.stage == New
    ensures Changes(plan, Initial(s.count), HistoryOf(plan, s, true)) == Depth(s) == 0
  {
  }

  /** ...and some run over n files, restored after being applied in full, does reach that bound. */
  lemma BoundIsAttained(plan: Digest, n: int)
    requires 1 <= n <= MAX_COUNT
    ensures exists events :: Replayed(plan, n, events).Some? && Changes(plan, Initial(n), events) == 4 * n + 3
  {
    var s := Image(n, Restored, 0, 0, SAMPLE_RECEIPT);
    assert SAMPLE_RECEIPT[0] != ZERO[0];
    FullHistoryChanges(plan, s);
    assert Replayed(plan, n, HistoryOf(plan, s, true)).Some?;
  }

  /** The intent that led to the current pending file or decision stands earlier in the run. */
  ghost predicate IntentRecorded(plan: Digest, s: Image, events: seq<Event>) {
    match s.stage
    case Forward => s.pending != 0 ==> Event(2, s.pending, plan) in events
    case CommitPending => Event(5, 0, s.receipt) in events
    case Reverse => s.pending != 0 ==> Event(7, s.pending, s.receipt) in events
    case _ => true
  }

  lemma {:induction false} IntentsRecorded(plan: Digest, n: int, events: seq<Event>)
    requires Replayed(plan, n, events).Some?
    ensures IntentRecorded(plan, Replayed(plan, n, events).value, events)
  {
    if events != [] {
      var front, e := events[..|events| - 1], events[|events| - 1];
      IntentsRecorded(plan, n, front);
      RunLegal(plan, Initial(n), front);
      assert events == front + [e];
    }
  }

  /** An accepted event that changes nothing is an audit record or repeats an earlier event exactly. */
  lemma UnchangedIsRetryOrAudit(plan: Digest, n: int, events: seq<Event>, e: Event)
    requires Replayed(plan, n, events).Some?
    requires Step(plan, Replayed(plan, n, events).value, e) == Replayed(plan, n, events)
    ensures e.kind == 10 || e in events
  {
    IntentsRecorded(plan, n, events);
    RunLegal(plan, Initial(n), events);
  }
}
