/**
 The replay state machine of the write-ahead recovery journal: a plan of `count` file changes goes
 forward, is then committed, or is restored file by file in reverse.
 */
module Replay {
  import opened Common

  const MAX_COUNT := 1024

  datatype Event = Event(kind: int, index: int, obj: Bytes)

  datatype Stage = New | Forward | Applied | CommitPending | Committed | Reverse | Restored

  datatype Image = Image(count: int, stage: Stage, cursor: int, pending: int, receipt: Bytes)

  datatype Content = Before | After

  function Initial(n: int): Image {
    Image(n, New, 1, 0, ZERO)
  }

  // ----- The transition function

  /** One event replayed on an image; None is the source's rejection. */
  function Step(plan: Digest, s: Image, e: Event): Option<Image> {
    if |e.obj| != 32 || !(1 <= s.count <= MAX_COUNT) || !(0 <= e.index <= s.count) then None
    else if s.stage == New then
      if e != Event(1, 0, plan) then None else Some(s.(stage := Forward))
    else if s.stage == Committed || s.stage == Restored then None
    else if e.kind == 10 && e.index == 0 && e.obj != ZERO then Some(s)
    else if e.kind == 2 || e.kind == 3 || e.kind == 4 then StepForward(plan, s, e)
    else if e.kind == 5 then
      if !(s.stage == Applied || s.stage == CommitPending) || e.index != 0 || e.obj == ZERO then None
      else if s.receipt != ZERO && s.receipt != e.obj then None
      else Some(s.(stage := CommitPending, receipt := e.obj))
    else if e.kind == 6 then
      if s.stage != CommitPending || e.index != 0 || e.obj != s.receipt then None
      else Some(s.(stage := Committed))
    else if e.kind == 7 then
      if !(s.stage == Forward || s.stage == Applied || s.stage == Reverse) || e.index == 0 || e.obj == ZERO then None
      else
        var required := if s.stage == Reverse then s.cursor else s.count;
        if e.index != required || (s.receipt != ZERO && s.receipt != e.obj) then None
        else Some(s.(stage := Reverse, cursor := required, pending := required, receipt := e.obj))
    else if e.kind == 8 then
      if s.stage != Reverse || e.index != s.cursor || s.pending != e.index || e.index == 0 || e.obj != s.receipt
      then None
      else Some(s.(cursor := s.cursor - 1, pending := 0))
    else if e.kind == 9 then
      if s.stage != Reverse || s.cursor != 0 || s.pending != 0 || e.index != 0 || e.obj != s.receipt then None
      else Some(s.(stage := Restored))
    else None
  }

  function StepForward(plan: Digest, s: Image, e: Event): Option<Image> {
    if s.stage != Forward || e.obj != plan then None
    else if e.kind == 2 && e.index == s.cursor && e.index > 0 then Some(s.(pending := e.index))
    else if e.kind == 3 && e.index == s.cursor == s.pending && e.index > 0 then
      Some(s.(pending := 0, cursor := s.cursor + 1))
    else if e.kind == 4 && s.cursor == s.count + 1 && s.pending == 0 && e.index == 0 then
      Some(s.(stage := Applied))
    else None
  }

  /** The contents file `index` may have on disk when the journal replays to `s`. */
  function Images(s: Image, index: int): set<Content> {
    if index < 1 || index > s.count then {}
    else match s.stage
      case New => {}
      case Forward =>
        if index < s.cursor then {After} else if index == s.pending then {Before, After} else {Before}
      case Applied => {After}
      case CommitPending => {After}
      case Committed => {After}
      case Reverse => if index > s.cursor then {Before} else {Before, After}
      case Restored => {Before}
  }

  // ----- Runs

  /** Replays a list of events from an image, front to back. */
  function Run(plan: Digest, s: Image, events: seq<Event>): Option<Image> {
    if events == [] then Some(s)
    else match Run(plan, s, events[..|events| - 1])
      case None => None
      case Some(t) => Step(plan, t, events[|events| - 1])
  }

  function Replayed(plan: Digest, n: int, events: seq<Event>): Option<Image> {
    Run(plan, Initial(n), events)
  }

  /** The source's fold loop. */
  method Fold(plan: Digest, n: int, events: seq<Event>) returns (r: Option<Image>)
    ensures r == Replayed(plan, n, events)
  {
    var s := Initial(n);
    for k := 0 to |events|
      invariant Replayed(plan, n, events[..k]) == Some(s)
    {
      assert events[..k + 1][..k] == events[..k];
      match Step(plan, s, events[k]) {
        case None =>
          if Replayed(plan, n, events).Some? {
            RunPrefix(plan, Initial(n), events, k + 1);
          }
          return None;
        case Some(t) => s := t;
      }
    }
    assert events[..|events|] == events;
    return Some(s);
  }

  lemma RunPrefix(plan: Digest, s: Image, events: seq<Event>, k: nat)
    requires k <= |events|
    requires Run(plan, s, events).Some?
    ensures Run(plan, s, events[..k]).Some?
    decreases |events|
  {
    if k < |events| {
      assert events[..|events| - 1][..k] == events[..k];
      RunPrefix(plan, s, events[..|events| - 1], k);
    } else {
      assert events[..k] == events;
    }
  }
}
