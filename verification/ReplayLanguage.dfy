/**
 The journals that replay accepts, described without the machine: each follows one of two scripts, in which intents
 may be repeated at once and audit records may stand anywhere between the first event and the last.
 */
module ReplayLanguage {
  import opened Common
  import opened Replay
  import opened ReplayTheorems

  // ----- The scripts

  /** Begin, then an intent and a completion for each file in turn, then applied. */
  function ForwardEvent(plan: Digest, n: int, k: int): Event {
    if k == 0 then Event(1, 0, plan)
    else if k == 2 * n + 1 then Event(4, 0, plan)
    else Event(if k % 2 == 1 then 2 else 3, (k + 1) / 2, plan)
  }

  /** An intent and a completion for each file in reverse, then restored. */
  function RestoreEvent(n: int, receipt: Bytes, k: int): Event {
    if k == 2 * n then Event(9, 0, receipt)
    else Event(if k % 2 == 0 then 7 else 8, n - k / 2, receipt)
  }

  function Committing(plan: Digest, n: nat, receipt: Bytes): seq<Event> {
    seq(2 * n + 4, k => if k < 2 * n + 2 then ForwardEvent(plan, n, k)
                        else Event(if k == 2 * n + 2 then 5 else 6, 0, receipt))
  }

  /** The restoration may begin after any part of the forward script. */
  function Restoring(plan: Digest, n: nat, begun: nat, receipt: Bytes): seq<Event> {
    seq(begun + 2 * n + 1, k => if k < begun then ForwardEvent(plan, n, k) else RestoreEvent(n, receipt, k - begun))
  }

  predicate IsReceipt(b: Bytes) {
    |b| == 32 && b != Fill(0, 32)
  }

  /** These events begin one of the scripts. */
  ghost predicate Scripted(plan: Digest, n: int, c: seq<Event>) {
    && 1 <= n <= 1024
    && ((exists receipt :: IsReceipt(receipt) && c <= Committing(plan, n, receipt))
        || (exists begun, receipt :: Begins(plan, n, begun, receipt, c)))
  }

  ghost predicate Begins(plan: Digest, n: nat, begun: int, receipt: Bytes, c: seq<Event>) {
    1 <= begun <= 2 * n + 2 && IsReceipt(receipt) && c <= Restoring(plan, n, begun, receipt)
  }

  // ----- What may stand beside a script

  /** An intent may be written again as long as nothing but audit records has followed it. */
  predicate Repeats(c: seq<Event>, e: Event) {
    c != [] && e == c[|c| - 1] && e.kind in {2, 5, 7}
  }

  /** An audit record may stand after the first event and before the end. */
  predicate MayAudit(c: seq<Event>, e: Event) {
    c != [] && c[|c| - 1].kind !in {6, 9} && e.index == 0 && IsReceipt(e.obj)
  }

  /** The events without audit records and repetitions. */
  function Core(events: seq<Event>): seq<Event> {
    if events == [] then [] else CoreWith(Core(events[..|events| - 1]), events[|events| - 1])
  }

  function CoreWith(c: seq<Event>, e: Event): seq<Event> {
    if e.kind == 10 || Repeats(c, e) then c else c + [e]
  }

  predicate AuditsInPlace(events: seq<Event>) {
    forall k :: 0 <= k < |events| && events[k].kind == 10 ==> MayAudit(Core(events[..k]), events[k])
  }

  // ----- Where an image stands in its script

  /** How many events of the forward or of the restoring script have led to `s`. */
  function Place(s: Image): int {
    match s.stage
    case New => 0
    case Forward => 2 * s.cursor - 1 + (if s.pending == 0 then 0 else 1)
    case Reverse => 2 * (s.count - s.cursor) + (if s.pending == 0 then 0 else 1)
    case Restored => 2 * s.count + 1
    case _ => 2 * s.count + 2
  }

  ghost predicate Shows(plan: Digest, s: Image, c: seq<Event>)
    requires s.count >= 0
  {
    match s.stage
    case CommitPending => c == Committing(plan, s.count, s.receipt)[..2 * s.count + 3]
    case Committed => c == Committing(plan, s.count, s.receipt)
    case Reverse => exists begun :: ShowsRestore(plan, s, begun, c)
    case Restored => exists begun :: ShowsRestore(plan, s, begun, c)
    case _ => 0 <= Place(s) <= 2 * s.count + 2 && c == Committing(plan, s.count, s.receipt)[..Place(s)]
  }

  ghost predicate ShowsRestore(plan: Digest, s: Image, begun: int, c: seq<Event>)
    requires s.count >= 0
  {
    && 1 <= begun <= 2 * s.count + 2 && 1 <= Place(s) <= 2 * s.count + 1
    && c == Restoring(plan, s.count, begun, s.receipt)[..begun + Place(s)]
  }

  // ----- The events that lead on, first for the machine, then for the scripts

  /** The event is the next of the script, or begins the end of it. */
  predicate Advances(plan: Digest, s: Image, e: Event) {
    match s.stage
    case New => e == Event(1, 0, plan)
    case Forward => e == ForwardEvent(plan, s.count, Place(s)) || Turns(s, e)
    case Applied => (e.kind == 5 && e.index == 0 && IsReceipt(e.obj)) || Turns(s, e)
    case CommitPending => e == Event(6, 0, s.receipt)
    case Reverse => e == RestoreEvent(s.count, s.receipt, Place(s))
    case _ => false
  }

  predicate Turns(s: Image, e: Event) {
    e.kind == 7 && e.index == s.count && IsReceipt(e.obj)
  }

  predicate Retries(plan: Digest, s: Image, e: Event) {
    match s.stage
    case Forward => s.pending != 0 && e == Event(2, s.cursor, plan)
    case CommitPending => e == Event(5, 0, s.receipt)
    case Reverse => s.pending != 0 && e == Event(7, s.cursor, s.receipt)
    case _ => false
  }

  predicate Audits(s: Image, e: Event) {
    e.kind == 10 && e.index == 0 && IsReceipt(e.obj) && s.stage !in {New, Committed, Restored}
  }

  lemma StepIff(plan: Digest, s: Image, e: Event)
    requires Legal(s) && 1 <= s.count <= 1024
    ensures Step(plan, s, e).Some? <==> Audits(s, e) || Retries(plan, s, e) || Advances(plan, s, e)
    ensures Audits(s, e) || Retries(plan, s, e) ==> Step(plan, s, e) == Some(s)
  {
    match s.stage {
      case New =>
      case Forward =>
      case Applied =>
      case CommitPending =>
      case Committed =>
      case Reverse =>
      case Restored =>
    }
  }

  // ----- The next event of a script

  lemma ScriptPrefix(plan: Digest, n: int, c: seq<Event>, d: seq<Event>)
    requires c <= d && Scripted(plan, n, d)
    ensures Scripted(plan, n, c)
  {
    hide Committing, Restoring;
    if receipt :| IsReceipt(receipt) && d <= Committing(plan, n, receipt) {
      assert c <= Committing(plan, n, receipt);
    } else {
      var begun, receipt :| Begins(plan, n, begun, receipt, d);
      assert Begins(plan, n, begun, receipt, c);
    }
  }

  /** Restoration begins at the first event of kind 7 or more, and never on the way to a commitment. */
  lemma TurnsAt(plan: Digest, n: nat, begun: int, receipt: Bytes, d: seq<Event>)
    requires Begins(plan, n, begun, receipt, d)
    ensures forall k :: 0 <= k < |d| ==> (d[k].kind >= 7 <==> k >= begun)
    ensures begun < |d| ==> d[begun] == Event(if n == 0 then 9 else 7, n, receipt)
  {
    forall k | 0 <= k < |d|
      ensures d[k] == if k < begun then ForwardEvent(plan, n, k) else RestoreEvent(n, receipt, k - begun)
    {
      assert d[k] == Restoring(plan, n, begun, receipt)[k];
    }
  }

  lemma NeverTurns(plan: Digest, n: nat, receipt: Bytes, d: seq<Event>)
    requires d <= Committing(plan, n, receipt)
    ensures forall k :: 0 <= k < |d| ==> d[k].kind <= 6
  {
  }

  lemma RestoringAt(plan: Digest, n: nat, begun: nat, receipt: Bytes, k: nat)
    requires k < begun + 2 * n + 1
    ensures Restoring(plan, n, begun, receipt)[k] ==
            if k < begun then ForwardEvent(plan, n, k) else RestoreEvent(n, receipt, k - begun)
  {
  }

  /** Before the commit intent the script does not depend on the receipt. */
  lemma SameForward(plan: Digest, n: nat, m: nat, any: Bytes, other: Bytes)
    requires m <= 2 * n + 2
    ensures Committing(plan, n, any)[..m] == Committing(plan, n, other)[..m]
  {
  }

  lemma Grown(script: seq<Event>, m: nat)
    requires m < |script|
    ensures script[..m] + [script[m]] == script[..m + 1]
  {
  }

  /** A restoration that begins after `m` events. */
  lemma TurnShown(plan: Digest, n: nat, m: nat, any: Bytes, receipt: Bytes)
    requires n >= 1 && m <= 2 * n + 2
    ensures Committing(plan, n, any)[..m] + [Event(7, n, receipt)] == Restoring(plan, n, m, receipt)[..m + 1]
  {
    var d, script := Committing(plan, n, any)[..m] + [Event(7, n, receipt)], Restoring(plan, n, m, receipt)[..m + 1];
    forall k | 0 <= k <= m ensures d[k] == script[k] {
      RestoringAt(plan, n, m, receipt, k);
    }
  }

  lemma Extended(script: seq<Event>, m: nat, e: Event)
    requires m < |script|
    ensures script[..m] + [e] <= script <==> e == script[m]
  {
    assert script[m] == e ==> script[..m] + [e] == script[..m + 1];
  }

  /** After part of the forward script. */
  lemma ForwardNext(plan: Digest, n: int, m: nat, any: Bytes, e: Event)
    requires 1 <= n <= 1024 && m <= 2 * n + 2
    ensures Scripted(plan, n, Committing(plan, n, any)[..m] + [e]) <==>
      || (m < 2 * n + 2 && e == ForwardEvent(plan, n, m))
      || (m == 2 * n + 2 && e.kind == 5 && e.index == 0 && IsReceipt(e.obj))
      || (m >= 1 && e.kind == 7 && e.index == n && IsReceipt(e.obj))
  {
    var c := Committing(plan, n, any)[..m];
    forall receipt ensures c + [e] <= Committing(plan, n, receipt) <==> e == Committing(plan, n, receipt)[m] {
      assert c == Committing(plan, n, receipt)[..m];
      Extended(Committing(plan, n, receipt), m, e);
    }
    ForwardTurns(plan, n, m, any, e);
    hide Restoring;
    assert IsReceipt(SAMPLE_RECEIPT) by {
      assert SAMPLE_RECEIPT[0] != Fill(0, 32)[0];
    }
    if m < 2 * n + 2 && e == ForwardEvent(plan, n, m) {
      assert c + [e] <= Committing(plan, n, SAMPLE_RECEIPT);
    } else if m == 2 * n + 2 && e.kind == 5 && e.index == 0 && IsReceipt(e.obj) {
      assert c + [e] <= Committing(plan, n, e.obj);
    }
  }

  lemma ForwardTurns(plan: Digest, n: int, m: nat, any: Bytes, e: Event)
    requires 1 <= n <= 1024 && m <= 2 * n + 2
    ensures var d := Committing(plan, n, any)[..m] + [e];
      && (m >= 1 && e.kind == 7 && e.index == n && IsReceipt(e.obj) ==> Begins(plan, n, m, e.obj, d))
      && forall begun, receipt :: Begins(plan, n, begun, receipt, d) ==>
           if m < begun then m < 2 * n + 2 && e == ForwardEvent(plan, n, m)
           else m >= 1 && e.kind == 7 && e.index == n && IsReceipt(e.obj)
  {
    var c := Committing(plan, n, any)[..m];
    var d := c + [e];
    if m >= 1 && e.kind == 7 && e.index == n && IsReceipt(e.obj) {
      assert e == Event(7, n, e.obj);
      TurnShown(plan, n, m, any, e.obj);
    }
    assert forall k :: 0 <= k < m ==> d[k].kind <= 4;
    forall begun, receipt | Begins(plan, n, begun, receipt, d)
      ensures if m < begun then m < 2 * n + 2 && e == ForwardEvent(plan, n, m)
              else m >= 1 && e.kind == 7 && e.index == n && IsReceipt(e.obj)
    {
      TurnsAt(plan, n, begun, receipt, d);
      assert d[m] == e && d[m] == Restoring(plan, n, begun, receipt)[m];
    }
  }

  /** After a commit intent. */
  lemma CommitNext(plan: Digest, n: int, receipt: Bytes, e: Event)
    requires 1 <= n <= 1024 && IsReceipt(receipt)
    ensures Scripted(plan, n, Committing(plan, n, receipt)[..2 * n + 3] + [e]) <==> e == Event(6, 0, receipt)
    ensures !Scripted(plan, n, Committing(plan, n, receipt) + [e])
  {
    var all := Committing(plan, n, receipt);
    var c := all[..2 * n + 3];
    Extended(all, 2 * n + 3, e);
    NoRestoration(plan, n, c + [e]);
    NoRestoration(plan, n, all + [e]);
    forall other | c + [e] <= Committing(plan, n, other) ensures other == receipt {
      assert (c + [e])[2 * n + 2] == Committing(plan, n, other)[2 * n + 2];
    }
  }

  lemma NoRestoration(plan: Digest, n: int, d: seq<Event>)
    requires 1 <= n && |d| > 2 * n + 2 && d[2 * n + 2].kind <= 6
    ensures forall begun, receipt :: !Begins(plan, n, begun, receipt, d)
  {
    hide Restoring;
    forall begun, receipt ensures !Begins(plan, n, begun, receipt, d) {
      if Begins(plan, n, begun, receipt, d) {
        TurnsAt(plan, n, begun, receipt, d);
      }
    }
  }

  /** After part of a restoration. */
  lemma RestoreNext(plan: Digest, n: int, begun: nat, m: nat, receipt: Bytes, e: Event)
    requires 1 <= n <= 1024 && 1 <= begun <= 2 * n + 2 && 1 <= m <= 2 * n + 1 && IsReceipt(receipt)
    ensures Scripted(plan, n, Restoring(plan, n, begun, receipt)[..begun + m] + [e]) <==>
            m < 2 * n + 1 && e == RestoreEvent(n, receipt, m)
  {
    var script := Restoring(plan, n, begun, receipt);
    var d := script[..begun + m] + [e];
    if m < 2 * n + 1 {
      Extended(script, begun + m, e);
      assert e == RestoreEvent(n, receipt, m) ==> Begins(plan, n, begun, receipt, d);
    }
    assert d[begun] == script[begun] == RestoreEvent(n, receipt, 0);
    assert forall k :: 0 <= k < begun ==> d[k] == script[k] && d[k].kind <= 4;
    hide Restoring, Committing;
    forall other ensures !(d <= Committing(plan, n, other)) {
      if d <= Committing(plan, n, other) {
        NeverTurns(plan, n, other, d);
      }
    }
    forall begun', other | Begins(plan, n, begun', other, d) ensures begun' == begun && other == receipt {
      TurnsAt(plan, n, begun', other, d);
    }
  }

  // ----- Machine and scripts go together

  lemma NextInScript(plan: Digest, s: Image, c: seq<Event>, e: Event)
    requires Legal(s) && 1 <= s.count <= 1024 && Shows(plan, s, c)
    ensures Scripted(plan, s.count, c + [e]) <==> Advances(plan, s, e)
  {
    hide Scripted, Committing, Restoring;
    match s.stage {
      case New => ForwardNext(plan, s.count, 0, s.receipt, e);
      case Forward => ForwardNext(plan, s.count, Place(s), s.receipt, e);
      case Applied => ForwardNext(plan, s.count, Place(s), s.receipt, e);
      case CommitPending => CommitNext(plan, s.count, s.receipt, e);
      case Committed => CommitNext(plan, s.count, s.receipt, e);
      case Reverse =>
        var begun :| ShowsRestore(plan, s, begun, c);
        RestoreNext(plan, s.count, begun, Place(s), s.receipt, e);
      case Restored =>
        var begun :| ShowsRestore(plan, s, begun, c);
        RestoreNext(plan, s.count, begun, Place(s), s.receipt, e);
    }
  }

  lemma LastShown(plan: Digest, s: Image, c: seq<Event>)
    requires Legal(s) && 1 <= s.count <= 1024 && Shows(plan, s, c)
    ensures c == [] <==> s.stage == New
    ensures c != [] ==> c[|c| - 1] == LastEvent(plan, s)
  {
    if s.stage == Reverse || s.stage == Restored {
      var begun :| ShowsRestore(plan, s, begun, c);
      RestoringAt(plan, s.count, begun, s.receipt, begun + Place(s) - 1);
    }
  }

  /** The last event of the script so far. */
  function LastEvent(plan: Digest, s: Image): Event {
    match s.stage
    case CommitPending => Event(5, 0, s.receipt)
    case Committed => Event(6, 0, s.receipt)
    case Reverse => RestoreEvent(s.count, s.receipt, Place(s) - 1)
    case Restored => RestoreEvent(s.count, s.receipt, Place(s) - 1)
    case _ => ForwardEvent(plan, s.count, Place(s) - 1)
  }

  lemma LastTells(plan: Digest, s: Image, e: Event)
    requires Legal(s) && 1 <= s.count <= 1024 && s.stage != New
    ensures LastEvent(plan, s).kind in {6, 9} <==> s.stage in {Committed, Restored}
    ensures e == LastEvent(plan, s) && e.kind in {2, 5, 7} <==> Retries(plan, s, e)
  {
    match s.stage {
      case Forward =>
      case Applied =>
      case CommitPending =>
      case Committed =>
      case Reverse =>
      case Restored =>
    }
  }

  /** How an advance moves the place. */
  lemma StepMoves(plan: Digest, s: Image, e: Event)
    requires Legal(s) && 1 <= s.count <= 1024 && Advances(plan, s, e)
    ensures Step(plan, s, e).Some?
    ensures var t := Step(plan, s, e).value;
      && t.count == s.count
      && match s.stage
         case CommitPending => t == s.(stage := Committed) && e == Event(6, 0, s.receipt)
         case Reverse =>
           && Place(t) == Place(s) + 1 <= 2 * s.count + 1 && e == RestoreEvent(s.count, s.receipt, Place(s))
           && t.stage in {Reverse, Restored} && t.receipt == s.receipt
         case _ =>
           if e.kind == 5 then
             t.stage == CommitPending && t.receipt == e.obj && Place(s) == 2 * s.count + 2 && e.index == 0
           else if e.kind == 7 then
             t.stage == Reverse && t.receipt == e.obj && Place(s) >= 1 == Place(t) && e.index == s.count
           else
             && t.stage in {Forward, Applied} && Place(t) == Place(s) + 1 <= 2 * s.count + 2
             && e == ForwardEvent(plan, s.count, Place(s))
  {
    StepIff(plan, s, e);
    match s.stage {
      case New =>
      case Forward =>
      case Applied =>
      case CommitPending =>
      case Reverse =>
    }
  }

  lemma StepShows(plan: Digest, s: Image, c: seq<Event>, e: Event)
    requires Legal(s) && 1 <= s.count <= 1024 && Shows(plan, s, c) && Advances(plan, s, e)
    ensures Step(plan, s, e).Some? && Step(plan, s, e).value.count == s.count
    ensures Shows(plan, Step(plan, s, e).value, c + [e])
  {
    StepMoves(plan, s, e);
    var t := Step(plan, s, e).value;
    hide Step, Legal, Place, Advances, Shows, ForwardEvent, RestoreEvent;
    if s.stage == CommitPending {
      CommittedShows(plan, s, c);
    } else if s.stage == Reverse {
      RestoringShows(plan, s, t, c, e);
    } else if e.kind == 5 {
      CommitShows(plan, s, t, c, e);
    } else if e.kind == 7 {
      TurnShows(plan, s, t, c, e);
    } else {
      ForwardShows(plan, s, t, c, e);
    }
  }

  lemma CommittedShows(plan: Digest, s: Image, c: seq<Event>)
    requires s.stage == CommitPending && s.count >= 0 && Shows(plan, s, c)
    ensures Shows(plan, s.(stage := Committed), c + [Event(6, 0, s.receipt)])
  {
    CommitAt(plan, s.count, s.receipt);
    Grown(Committing(plan, s.count, s.receipt), 2 * s.count + 3);
  }

  lemma RestoringShows(plan: Digest, s: Image, t: Image, c: seq<Event>, e: Event)
    requires s.stage == Reverse && s.count >= 0 && Shows(plan, s, c) && t.count == s.count && t.receipt == s.receipt
    requires t.stage in {Reverse, Restored} && Place(t) == Place(s) + 1 <= 2 * s.count + 1
    requires e == RestoreEvent(s.count, s.receipt, Place(s))
    ensures Shows(plan, t, c + [e])
  {
    hide Place, RestoreEvent, Restoring;
    var begun :| ShowsRestore(plan, s, begun, c);
    RestoringAt(plan, s.count, begun, s.receipt, begun + Place(s));
    RestoringLength(plan, s.count, begun, s.receipt);
    Grown(Restoring(plan, s.count, begun, s.receipt), begun + Place(s));
    assert ShowsRestore(plan, t, begun, c + [e]);
  }

  lemma RestoringLength(plan: Digest, n: nat, begun: nat, receipt: Bytes)
    ensures |Restoring(plan, n, begun, receipt)| == begun + 2 * n + 1
  {
  }

  predicate OnTheWay(s: Image) {
    s.stage in {New, Forward, Applied} && s.count >= 0
  }

  lemma CommitShows(plan: Digest, s: Image, t: Image, c: seq<Event>, e: Event)
    requires OnTheWay(s) && Shows(plan, s, c) && t.count == s.count && Place(s) == 2 * s.count + 2
    requires t.stage == CommitPending && e == Event(5, 0, t.receipt)
    ensures Shows(plan, t, c + [e])
  {
    hide Place, Committing;
    SameForward(plan, s.count, 2 * s.count + 2, s.receipt, e.obj);
    CommitAt(plan, s.count, e.obj);
    Grown(Committing(plan, s.count, e.obj), 2 * s.count + 2);
  }

  lemma TurnShows(plan: Digest, s: Image, t: Image, c: seq<Event>, e: Event)
    requires OnTheWay(s) && s.count >= 1 && Place(s) >= 1 && Shows(plan, s, c) && t.count == s.count && Place(t) == 1
    requires t.stage == Reverse && e == Event(7, s.count, t.receipt)
    ensures Shows(plan, t, c + [e])
  {
    hide Place, Committing, Restoring;
    TurnShown(plan, s.count, Place(s), s.receipt, e.obj);
    assert ShowsRestore(plan, t, Place(s), c + [e]);
  }

  lemma ForwardShows(plan: Digest, s: Image, t: Image, c: seq<Event>, e: Event)
    requires OnTheWay(s) && OnTheWay(t) && Shows(plan, s, c) && t.count == s.count
    requires Place(t) == Place(s) + 1 <= 2 * s.count + 2 && e == ForwardEvent(plan, s.count, Place(s))
    ensures Shows(plan, t, c + [e])
  {
    hide Place, Committing, ForwardEvent;
    SameForward(plan, s.count, Place(s), s.receipt, t.receipt);
    ForwardAt(plan, s.count, t.receipt, Place(s));
    Grown(Committing(plan, s.count, t.receipt), Place(s));
  }

  lemma CommitAt(plan: Digest, n: nat, receipt: Bytes)
    ensures var script := Committing(plan, n, receipt);
      |script| == 2 * n + 4 && script[2 * n + 2..] == [Event(5, 0, receipt), Event(6, 0, receipt)]
  {
  }

  lemma ForwardAt(plan: Digest, n: nat, receipt: Bytes, k: nat)
    requires k < 2 * n + 2
    ensures |Committing(plan, n, receipt)| == 2 * n + 4
    ensures Committing(plan, n, receipt)[k] == ForwardEvent(plan, n, k)
  {
  }

  // ----- Exactly the scripts are accepted

  /** An event list as the scripts describe it. */
  ghost predicate WellScripted(plan: Digest, n: int, events: seq<Event>) {
    AuditsInPlace(events) && (events == [] || Scripted(plan, n, Core(events)))
  }

  lemma FrontScripted(plan: Digest, n: int, front: seq<Event>, e: Event)
    ensures Core(front + [e]) == CoreWith(Core(front), e)
    ensures AuditsInPlace(front + [e]) <==> AuditsInPlace(front) && (e.kind == 10 ==> MayAudit(Core(front), e))
    ensures WellScripted(plan, n, front + [e]) ==> WellScripted(plan, n, front)
  {
    hide MayAudit, Scripted, Repeats;
    var events := front + [e];
    assert events[..|front|] == front;
    assert forall k :: 0 <= k < |front| ==> events[..k] == front[..k] && events[k] == front[k];
    assert events[|front|] == e;
    if WellScripted(plan, n, events) {
      ScriptPrefix(plan, n, Core(front), Core(events));
    }
  }

  lemma OneMoreScripted(plan: Digest, n: int, s: Image, c: seq<Event>, e: Event)
    requires Legal(s) && 1 <= n == s.count <= 1024 && Shows(plan, s, c) && (c == [] || Scripted(plan, n, c))
    ensures Step(plan, s, e).Some? <==>
      if e.kind == 10 then MayAudit(c, e) else Scripted(plan, n, CoreWith(c, e))
    ensures Step(plan, s, e).Some? ==>
      && Step(plan, s, e).value.count == n && Shows(plan, Step(plan, s, e).value, CoreWith(c, e))
      && Scripted(plan, n, CoreWith(c, e))
  {
    hide Step, Legal, Shows, Scripted, LastEvent;
    StepIff(plan, s, e);
    LastShown(plan, s, c);
    if s.stage != New {
      LastTells(plan, s, e);
    }
    NextInScript(plan, s, c, e);
    NoTenAdvances(plan, s, e);
    hide Advances, Retries;
    if Advances(plan, s, e) {
      StepShows(plan, s, c, e);
    }
  }

  lemma NoTenAdvances(plan: Digest, s: Image, e: Event)
    requires Legal(s) && 1 <= s.count <= 1024
    ensures Advances(plan, s, e) ==> e.kind != 10 && !Retries(plan, s, e)
  {
  }

  /** Replay accepts an event list exactly when the list follows one of the scripts: nothing missing, nothing out of
      order, intents repeated at most at once, audit records only in between. */
  lemma {:induction false} AcceptedIffScripted(plan: Digest, n: int, events: seq<Event>)
    ensures Replayed(plan, n, events).Some? <==> WellScripted(plan, n, events)
    ensures Replayed(plan, n, events).Some? && 1 <= n <= 1024 ==>
      Replayed(plan, n, events).value.count == n && Shows(plan, Replayed(plan, n, events).value, Core(events))
  {
    hide Step, Legal, Shows, Scripted, CoreWith;
    if events == [] {
      NothingShown(plan, n);
    } else {
      var front, e := events[..|events| - 1], events[|events| - 1];
      assert events == front + [e];
      AcceptedIffScripted(plan, n, front);
      FrontScripted(plan, n, front, e);
      if Replayed(plan, n, front).Some? {
        RunLegal(plan, Initial(n), front);
        if 1 <= n <= 1024 {
          OneMoreScripted(plan, n, Replayed(plan, n, front).value, Core(front), e);
          Whole(plan, n, front, e);
        } else {
          OutOfRange(plan, n, front, e);
        }
      }
    }
  }

  lemma NothingShown(plan: Digest, n: int)
    ensures Legal(Initial(n)) && (n >= 0 ==> Shows(plan, Initial(n), []))
  {
  }

  lemma Whole(plan: Digest, n: int, front: seq<Event>, e: Event)
    requires WellScripted(plan, n, front)
    ensures WellScripted(plan, n, front + [e]) <==>
      if e.kind == 10 then MayAudit(Core(front), e) else Scripted(plan, n, CoreWith(Core(front), e))
  {
    FrontScripted(plan, n, front, e);
  }

  lemma OutOfRange(plan: Digest, n: int, front: seq<Event>, e: Event)
    requires !(1 <= n <= 1024) && Replayed(plan, n, front).Some? && Replayed(plan, n, front).value.count == n
    ensures Step(plan, Replayed(plan, n, front).value, e).None? && !WellScripted(plan, n, front + [e])
  {
  }

  // ----- Repetitions, audit records and receipts

  lemma OneMoreReplayed(plan: Digest, n: int, events: seq<Event>, e: Event)
    ensures Replayed(plan, n, events + [e]) ==
            match Replayed(plan, n, events) case None => None case Some(s) => Step(plan, s, e)
  {
    hide Step;
    assert (events + [e])[..|events|] == events;
  }

  /** An intent that was just written may be written again, and changes nothing. */
  lemma RetryIsAccepted(plan: Digest, n: int, events: seq<Event>, e: Event)
    requires Replayed(plan, n, events + [e]).Some? && e.kind in {2, 5, 7}
    ensures Replayed(plan, n, events + [e] + [e]) == Replayed(plan, n, events + [e])
  {
    OneMoreReplayed(plan, n, events, e);
    OneMoreReplayed(plan, n, events + [e], e);
  }

  /** An audit record is accepted exactly after the first event and before the end, and changes nothing. */
  lemma AuditIsAccepted(plan: Digest, n: int, events: seq<Event>, index: int, obj: Bytes)
    requires Replayed(plan, n, events).Some?
    ensures Replayed(plan, n, events + [Event(10, index, obj)]).Some? <==>
      events != [] && index == 0 && IsReceipt(obj) && !Holds(events, 6) && !Holds(events, 9)
    ensures Replayed(plan, n, events + [Event(10, index, obj)]).Some? ==>
      Replayed(plan, n, events + [Event(10, index, obj)]) == Replayed(plan, n, events)
  {
    OneMoreReplayed(plan, n, events, Event(10, index, obj));
    EndShowsInStage(plan, n, events);
    RunLegal(plan, Initial(n), events);
  }

  lemma {:induction false} EndShowsInStage(plan: Digest, n: int, events: seq<Event>)
    requires Replayed(plan, n, events).Some?
    ensures var s := Replayed(plan, n, events).value;
      && (events == [] <==> s.stage == New)
      && (Holds(events, 6) <==> s.stage == Committed) && (Holds(events, 9) <==> s.stage == Restored)
  {
    if events != [] {
      var last := |events| - 1;
      EndShowsInStage(plan, n, events[..last]);
      HoldsLast(events);
      hide Holds;
    }
  }

  /** Once a receipt is bound, every further event but audit records carries it. */
  lemma ReceiptIsCarried(plan: Digest, n: int, events: seq<Event>, e: Event)
    requires Replayed(plan, n, events).Some? && Replayed(plan, n, events).value.receipt != ZERO
    requires Replayed(plan, n, events + [e]).Some? && e.kind != 10
    ensures e.obj == Replayed(plan, n, events).value.receipt
  {
    OneMoreReplayed(plan, n, events, e);
    RunLegal(plan, Initial(n), events);
  }
}
