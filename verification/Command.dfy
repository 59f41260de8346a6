/**
 The parent's side of running one approved command: pump its input and output until it exits, the deadline passes
 or something breaks; kill its group while the leader is still unreaped; reap it; classify the result.
 */
module Command {
  import opened Common
  import opened Atomic

  const MAX_OUTPUT := 262_144
  const READ_SIZE := 8192
  const STOP_LIMIT := 1_000

  datatype Invocation = Invocation(deadline: Counter, externalEffects: bool)

  datatype Completion = NotStarted | Exited | TimedOut | Signalled | OutputLimit | Unknown

  datatype Result = Result(state: Completion, exitCode: nat, output: Bytes)

  /** What may go wrong outside the child. */
  datatype Trouble = Late | PollFailed | ReadFailed | OddEvent | KillFailed | NotReaped | Unwatched

  /** What the parent does to the child's process identity. */
  datatype Call = KillChild | KillGroup | Reap | Lose

  datatype ReadAnswer = Data(b: Bytes) | EndOfFile | ReadAgain | ReadInterrupted | ReadBroken
  datatype WriteAnswer = Accepted(n: nat) | WriteLater | WriteBroken
  datatype PollAnswer = Polled(child: nat) | PollInterrupted | PollBroken
  datatype WaitAnswer = Collected(w: nat) | NotYet | WaitInterrupted | NoChild

  /** Something happened to the child's descriptor, but not its end. */
  predicate OddPoll(a: PollAnswer) {
    a.Polled? && a.child != 0 && a.child % 2 == 0
  }

  /** Once reaped, or found reaped by someone else, a process identity may be reused and is never signalled. */
  predicate Disciplined(log: seq<Call>) {
    forall i, j :: 0 <= i < j < |log| && (log[i] == Reap || log[i] == Lose) ==>
      log[j] != KillChild && log[j] != KillGroup
  }

  predicate Ownerless(log: seq<Call>) {
    Reap in log || Lose in log
  }

  /** The kernel as the parent sees it: every answer is its own choice. */
  class Kernel {
    /** The child's wait status once it has ended, and whether it ended before any signal was sent to it. */
    var ended: Option<nat>
    var voluntary: bool
    /** What the child's input pipe took and its output pipe gave, and whether the output's end was seen. */
    ghost var received: Bytes
    ghost var emitted: Bytes
    ghost var sawEnd: bool
    ghost var log: seq<Call>
    /** All that went wrong so far. */
    ghost var troubles: set<Trouble>
    /** The child can be watched and its pipes do not block;
        the child's end was shown by a poll; nothing more was there when it was last tried to read; the input pipe
        broke; what was last offered to it; and how often it was polled and offered. */
    ghost var ready: bool
    ghost var shown: bool
    ghost var dry: bool
    ghost var broken: bool
    ghost var offer: Bytes
    ghost var polls: nat
    ghost var offers: nat
    /** How many more times calls may be interrupted or the clock be early: neither happens for ever. */
    var patience: nat

    constructor (patience: nat)
      ensures Forked()
    {
      ended, voluntary, this.patience := None, false, patience;
      received, emitted, sawEnd, log, troubles := [], [], false, [], {};
      ready, shown, dry, broken, offer, polls, offers := false, false, true, false, [], 0, 0;
    }

    /** Just after the fork; the child may have ended already. */
    ghost predicate Forked()
      reads this
    {
      && received == [] && emitted == [] && !sawEnd && log == [] && troubles == {} && (ended.Some? <==> voluntary)
      && !shown && dry && !broken && polls == offers == 0
    }

    /** An end, once there, does not change; one after a signal is not the child's own. */
    twostate predicate Lives(signalled: bool)
      reads this
    {
      && (old(ended).Some? ==> ended == old(ended) && voluntary == old(voluntary))
      && (old(ended).None? ==> (voluntary <==> ended.Some? && !signalled))
    }

    /** The child may end at any time. */
    method Live(signalled: bool)
      requires ended.None? ==> !voluntary
      modifies `ended, `voluntary
      ensures Lives(signalled)
    {
      if * {
        if ended.None? {
          var w: nat := *;
          ended, voluntary := Some(w), !signalled;
        }
      }
    }

    /** Boot-time milliseconds; `over` is the trouble it means not to get a time in this range. */
    method Clock(from: int, limit: int, ghost over: Trouble) returns (now: Counter, ok: bool)
      modifies `patience, `troubles
      ensures patience <= old(patience) && (ok && from <= now < limit ==> patience < old(patience))
      ensures troubles == old(troubles) + (if ok && from <= now < limit then {} else {over})
    {
      now, ok := *, *;
      if ok && from <= now < limit && patience == 0 {
        ok := false;
      }
      if ok && from <= now < limit {
        patience := patience - 1;
      } else {
        troubles := troubles + {over};
      }
    }

    /** Waits for the pipes and, when `watch`, for the child's end, which shows as an odd event set. It is watched until
        then, and there is nothing to wait for while output is there to be read, or once both ends have been seen. */
    method Poll(watch: bool) returns (a: PollAnswer)
      requires ended.None? ==> !voluntary
      requires ready && (watch <==> !shown) && (dry || sawEnd) && !(shown && sawEnd)
      modifies `ended, `voluntary, `troubles, `shown, `dry, `polls
      ensures shown == (old(shown) || (a.Polled? && a.child % 2 == 1)) && polls == old(polls) + 1
      ensures Lives(false) && (a.Polled? && a.child % 2 == 1 ==> ended.Some?) && (a.Polled? && !watch ==> a.child == 0)
      ensures troubles == old(troubles) +
                          (if a == PollBroken then {PollFailed} else if OddPoll(a) then {OddEvent} else {})
    {
      Live(false);
      a := *;
      if a.Polled? && (!watch || (ended.None? && a.child % 2 == 1)) {
        a := Polled(0);
      }
      if a == PollBroken {
        troubles := troubles + {PollFailed};
      } else if OddPoll(a) {
        troubles := troubles + {OddEvent};
      }
      shown := shown || (a.Polled? && a.child % 2 == 1);
      dry, polls := *, polls + 1;
    }

    /** Opens a descriptor of the child and makes the pipes nonblocking, if both can be done. */
    method Prepare() returns (watched: bool, nonblocking: bool)
      modifies `ready
      ensures ready <==> watched && nonblocking
    {
      watched, nonblocking := *, *;
      ready := watched && nonblocking;
    }

    method Read() returns (a: ReadAnswer)
      modifies `emitted, `sawEnd, `patience, `troubles, `dry
      ensures dry == (a == ReadAgain)
      ensures troubles == old(troubles) + (if a == ReadBroken then {ReadFailed} else {})
      ensures a.Data? ==> 1 <= |a.b| <= READ_SIZE
      ensures emitted == old(emitted) + (if a.Data? then a.b else []) && sawEnd == (old(sawEnd) || a == EndOfFile)
      ensures if a == ReadInterrupted then patience < old(patience) else patience == old(patience)
    {
      a := *;
      if (a.Data? && !(1 <= |a.b| <= READ_SIZE)) || (a == ReadInterrupted && patience == 0) {
        a := ReadAgain;
      }
      dry := a == ReadAgain;
      match a {
        case Data(b) => emitted := emitted + b;
        case EndOfFile => sawEnd := true;
        case ReadInterrupted => patience := patience - 1;
        case ReadAgain =>
        case ReadBroken => troubles := troubles + {ReadFailed};
      }
    }

    /** Writes some of `b` without blocking. */
    method Write(b: Bytes) returns (a: WriteAnswer)
      requires |b| > 0
      modifies `received, `broken, `offer, `offers
      ensures offer == b && offers == old(offers) + 1 && broken == (old(broken) || a == WriteBroken)
      ensures a.Accepted? ==> 1 <= a.n <= |b|
      ensures received == old(received) + (if a.Accepted? then b[..a.n] else [])
    {
      a := *;
      broken, offer, offers := broken || a == WriteBroken, b, offers + 1;
      if a.Accepted? {
        if !(1 <= a.n <= |b|) {
          a := WriteLater;
        } else {
          received := received + b[..a.n];
        }
      }
    }

    /** Signals the child or its group; not ok when that failed for another reason than that nobody was left. */
    method Kill(ghost call: Call) returns (ok: bool)
      requires !Ownerless(log) && (call == KillChild || call == KillGroup) && (ended.None? ==> !voluntary)
      modifies `ended, `voluntary, `log, `troubles
      ensures Lives(true) && log == old(log) + [call]
      ensures troubles == old(troubles) + (if ok then {} else {KillFailed})
    {
      log := log + [call];
      Live(true);
      ok := *;
      troubles := troubles + (if ok then {} else {KillFailed});
    }

    /** Tries to reap the child. */
    method Wait() returns (a: WaitAnswer)
      requires !Ownerless(log) && (ended.None? ==> !voluntary)
      modifies `ended, `voluntary, `log, `troubles
      ensures Lives(true) && troubles == old(troubles) + (if a.NoChild? then {NotReaped} else {})
      ensures a.Collected? ==> ended == Some(a.w)
      ensures log == old(log) + (if a.Collected? then [Reap] else if a.NoChild? then [Lose] else [])
    {
      Live(true);
      a := *;
      if a.Collected? && ended.None? {
        a := NotYet;
      }
      if a.Collected? {
        a := Collected(ended.value);
        log := log + [Reap];
      } else if a.NoChild? {
        log, troubles := log + [Lose], troubles + {NotReaped};
      }
    }
  }

  /** Kills the child and its group and reaps the child, waiting at most a second. */
  method TerminateChild(os: Kernel) returns (complete: bool, w: nat)
    requires !Ownerless(os.log) && (os.ended.None? ==> !os.voluntary)
    requires KillFailed !in os.troubles && NotReaped !in os.troubles
    modifies os`ended, os`voluntary, os`log, os`troubles, os`patience
    ensures os.Lives(true)
    ensures Reaping(old(os.log), os.log)
    ensures complete ==> os.log == old(os.log) + [KillChild, KillGroup, Reap] && os.ended == Some(w)
    ensures complete <==> KillFailed !in os.troubles && NotReaped !in os.troubles
    ensures os.troubles - {KillFailed, NotReaped} == old(os.troubles)
  {
    complete, w := true, 0;
    var ok := os.Kill(KillChild);
    complete := complete && ok;
    ok := os.Kill(KillGroup);
    complete := complete && ok;
    ghost var killed, sofar := os.log, os.troubles;
    assert killed == old(os.log) + [KillChild, KillGroup];
    var start, read := os.Clock(0, LAST_COUNTER + 1, NotReaped);
    if !read {
      return false, w;
    }
    assert os.troubles == sofar;
    while true
      invariant os.log == killed && os.Lives(true) && os.troubles == sofar
      decreases os.patience
    {
      var a := os.Wait();
      if a.Collected? {
        return complete, a.w;
      }
      if a.NoChild? {
        return false, w;
      }
      var now, again := os.Clock(start, start + 1_000, NotReaped);
      if !again || now < start || now - start >= STOP_LIMIT {
        return false, w;
      }
    }
  }

  /** Both kills, in this order, and then at most one end of the child's identity. */
  predicate Reaping(before: seq<Call>, after: seq<Call>) {
    var killed := before + [KillChild, KillGroup];
    after == killed || after == killed + [Reap] || after == killed + [Lose]
  }

  /** Why a pump stopped, as what went wrong and how much was read tell: the first trouble decides, except that too much
      output comes before an odd event of the same poll. */
  predicate Classified(state: Completion, troubles: set<Trouble>, emitted: nat) {
    match state
    case NotStarted => troubles == {} && emitted <= MAX_OUTPUT
    case TimedOut => troubles == {Late} && emitted <= MAX_OUTPUT
    case OutputLimit => troubles <= {OddEvent} && emitted > MAX_OUTPUT
    case Unknown =>
      troubles != {} && troubles <= {PollFailed, ReadFailed, OddEvent} && emitted <= MAX_OUTPUT
    case _ => false
  }

  /** What a finished pump leaves: the output read so far, how much input went in, and why it stopped. */
  datatype Pumped = Pumped(state: Completion, output: Bytes, written: nat, forced: bool)

  /** Reads all that is there, up to the end of the output, the limit or a failure. */
  method Drain(os: Kernel, output: Bytes) returns (more: Bytes, open: bool, failure: Completion)
    requires output == os.emitted && |output| <= MAX_OUTPUT && !os.sawEnd
    modifies os`emitted, os`sawEnd, os`patience, os`troubles, os`dry
    ensures failure == NotStarted ==> os.dry || os.sawEnd
    ensures os.patience <= old(os.patience)
    ensures os.troubles == old(os.troubles) + (if failure == Unknown then {ReadFailed} else {})
    ensures failure == NotStarted || failure == OutputLimit || failure == Unknown
    ensures |more| <= MAX_OUTPUT && more <= os.emitted && (failure != OutputLimit ==> more == os.emitted)
    ensures failure == OutputLimit <==> |os.emitted| > MAX_OUTPUT
    ensures open == !os.sawEnd
  {
    more, open, failure := output, true, NotStarted;
    while open
      invariant os.patience <= old(os.patience)
      invariant more == os.emitted && |more| <= MAX_OUTPUT && open == !os.sawEnd && failure == NotStarted
      invariant os.troubles == old(os.troubles)
      decreases open, MAX_OUTPUT - |more|, os.patience
    {
      var a := os.Read();
      if a.Data? {
        if |a.b| > MAX_OUTPUT - |more| {
          failure := OutputLimit;
          return;
        }
        more := more + a.b;
      } else if a == EndOfFile {
        open := false;
      } else if a == ReadAgain {
        return;
      } else if a != ReadInterrupted {
        failure := Unknown;
        return;
      }
    }
  }

  /** Offers the pipe all that remains; it stays open exactly while input remains and nothing failed. */
  method Feed(os: Kernel, input: Bytes, already: nat) returns (written: nat, open: bool)
    requires already < |input| && os.received == input[..already]
    requires !os.broken
    modifies os`received, os`broken, os`offer, os`offers
    ensures os.offer == input[already..] && os.offers == old(os.offers) + 1
    ensures written <= |input| && os.received == input[..written]
    ensures open <==> written < |input| && !os.broken
  {
    written, open := already, true;
    var a := os.Write(input[written..]);
    if a.Accepted? {
      written := written + a.n;
      assert input[..written] == input[..already] + input[already..][..a.n];
    } else if a != WriteLater {
      open := false;
    }
    if written == |input| {
      open := false;
    }
  }

  /** Waits for something to happen before the deadline. */
  method Await(os: Kernel, c: Invocation, exited: bool) returns (ready: PollAnswer, stopped: Completion)
    requires (os.ended.Some? <==> os.voluntary) && os.troubles == {} && |os.emitted| <= MAX_OUTPUT
    requires os.ready && exited == os.shown && (exited ==> os.ended.Some?)
    requires (os.dry || os.sawEnd) && !(os.shown && os.sawEnd)
    modifies os`patience, os`troubles, os`ended, os`voluntary, os`shown, os`dry, os`polls
    ensures (os.ended.Some? <==> os.voluntary) && os.patience <= old(os.patience)
    ensures stopped != NotStarted ==> stopped != OutputLimit && Classified(stopped, os.troubles, |os.emitted|)
    ensures stopped == NotStarted ==>
      && os.patience < old(os.patience) && os.polls == old(os.polls) + 1 && ready != PollBroken
      && os.shown == (exited || (ready.Polled? && ready.child % 2 == 1)) && (os.shown ==> os.ended.Some?)
      && os.troubles == if OddPoll(ready) then {OddEvent} else {}
  {
    ready, stopped := PollInterrupted, NotStarted;
    var now, ok := os.Clock(0, c.deadline, Late);
    if !ok || now >= c.deadline {
      return ready, TimedOut;
    }
    ready := os.Poll(!exited);
    if ready == PollBroken {
      stopped := Unknown;
    }
  }

  /** Reads all there is to read and then offers all there is to write. */
  method Exchange(os: Kernel, input: Bytes, output: Bytes, written: nat, outputOpen: bool, inputOpen: bool)
    returns (output': Bytes, written': nat, outputOpen': bool, inputOpen': bool, failure: Completion)
    requires output == os.emitted && |output| <= MAX_OUTPUT && outputOpen == !os.sawEnd
    requires written <= |input| && os.received == input[..written] && (inputOpen <==> written < |input| && !os.broken)
    modifies os`emitted, os`sawEnd, os`patience, os`troubles, os`dry, os`received, os`broken, os`offer, os`offers
    ensures os.patience <= old(os.patience)
    ensures os.troubles == old(os.troubles) + (if failure == Unknown then {ReadFailed} else {})
    ensures failure == NotStarted || failure == OutputLimit || failure == Unknown
    ensures |output'| <= MAX_OUTPUT && output' <= os.emitted && (failure != OutputLimit ==> output' == os.emitted)
    ensures failure == OutputLimit <==> |os.emitted| > MAX_OUTPUT
    ensures written' <= |input| && os.received == input[..written'] && outputOpen' == !os.sawEnd
    ensures failure != NotStarted ==> os.offers == old(os.offers) && os.received == old(os.received)
    ensures failure == NotStarted ==>
      && (os.dry || os.sawEnd) && (inputOpen' <==> written' < |input| && !os.broken)
      && os.offers == old(os.offers) + (if inputOpen then 1 else 0) && (inputOpen' ==> inputOpen)
  {
    output', written', outputOpen', inputOpen', failure := output, written, outputOpen, inputOpen, NotStarted;
    if outputOpen {
      output', outputOpen', failure := Drain(os, output);
      if failure != NotStarted {
        return;
      }
    }
    if inputOpen {
      written', inputOpen' := Feed(os, input, written);
    }
  }

  /** Feeds input and drains output until the child has exited and closed its output, or something goes wrong. */
  method Pump(os: Kernel, c: Invocation, input: Bytes) returns (r: Pumped)
    requires os.Forked() && os.ready
    modifies os
    ensures os.log == [] && (os.ended.Some? <==> os.voluntary)
    ensures |r.output| <= MAX_OUTPUT && r.output <= os.emitted
    ensures r.state != OutputLimit ==> r.output == os.emitted
    ensures r.written <= |input| && os.received == input[..r.written]
    ensures r.forced <==> r.state != NotStarted
    ensures Classified(r.state, os.troubles, |os.emitted|)
    ensures !r.forced ==> os.ended.Some? && os.sawEnd
    ensures !r.forced ==> os.offers == os.polls || r.written == |input| || os.broken
  {
    var output: Bytes, written, outputOpen, inputOpen, exited := [], 0, true, input != [], false;
    while true
      invariant os.log == [] && (os.ended.Some? <==> os.voluntary) && os.troubles == {}
      invariant output == os.emitted && |output| <= MAX_OUTPUT && outputOpen == !os.sawEnd
      invariant 0 <= written <= |input| && os.received == input[..written]
      invariant inputOpen <==> written < |input| && !os.broken
      invariant inputOpen ==> os.offers == os.polls
      invariant os.ready && (exited ==> os.ended.Some?) && exited == os.shown
      invariant (os.dry || os.sawEnd) && !(exited && !outputOpen)
      decreases os.patience
    {
      var ready, stopped := Await(os, c, exited);
      if stopped != NotStarted {
        return Pumped(stopped, output, written, true);
      }
      var failure: Completion;
      output, written, outputOpen, inputOpen, failure := Exchange(os, input, output, written, outputOpen, inputOpen);
      if failure != NotStarted {
        return Pumped(failure, output, written, true);
      }
      if ready.Polled? && ready.child != 0 {
        if ready.child % 2 == 1 {
          exited := true;
        } else {
          return Pumped(Unknown, output, written, true);
        }
      }
      if exited && !outputOpen {
        return Pumped(NotStarted, output, written, false);
      }
    }
  }

  /** The wait status of a process that exited by itself with this code. */
  predicate ExitedWith(w: nat, code: nat) {
    w % 128 == 0 && code == (w / 256) % 256
  }

  /** A complete run: the child ended by itself before any signal, all its output was read to the end, its group was
      killed while it was still unreaped, and it was reaped. */
  ghost predicate RanToEnd(os: Kernel, r: Result)
    reads os
  {
    && os.log == [KillChild, KillGroup, Reap] && os.voluntary && os.ended.Some? && os.sawEnd
    && r.output == os.emitted
  }

  lemma ReapingIsDisciplined(log: seq<Call>)
    requires Reaping([], log)
    ensures Disciplined(log)
  {
  }

  /** From the fork on. */
  method Run(os: Kernel, c: Invocation, input: Bytes) returns (r: Result, status: Outcome)
    requires os.Forked()
    modifies os
    ensures Disciplined(os.log)
    ensures |r.output| <= 262_144 && r.output <= os.emitted && os.received <= input
    ensures r.output == os.emitted || |os.emitted| > 262_144
    ensures r.state == Exited ==> RanToEnd(os, r) && ExitedWith(os.ended.value, r.exitCode)
    ensures r.state == Signalled ==> RanToEnd(os, r) && os.ended.value % 128 != 0
    ensures r.state == Exited || r.state == Signalled <==> os.troubles == {} && |os.emitted| <= MAX_OUTPUT
    ensures r.state == TimedOut <==> os.troubles == {Late}
    ensures r.state == TimedOut || r.state == OutputLimit ==> os.log == [KillChild, KillGroup, Reap]
    ensures r.state == OutputLimit <==> |os.emitted| > MAX_OUTPUT && os.troubles <= {OddEvent}
    ensures r.state == Exited || r.state == Signalled ==> os.offers == os.polls || os.received == input || os.broken
    ensures status == OK <==> r.state == Exited && r.exitCode == 0 && os.received == input
    ensures c.externalEffects ==> status == OK || status == Indeterminate
    ensures status == OK || status == Indeterminate || status == IOError
    ensures status == Indeterminate <==> Unwatched in os.troubles || (c.externalEffects && status != OK)
  {
    hide Disciplined;
    var watched, nonblocking := os.Prepare();
    if !watched || !nonblocking {
      // No pidfd, or blocking pipes: the child cannot be watched safely.
      os.troubles := os.troubles + {Unwatched};
      var complete, w := TerminateChild(os);
      ReapingIsDisciplined(os.log);
      assert Unwatched in os.troubles - {KillFailed, NotReaped};
      return Result(Unknown, 0, []), Indeterminate;
    }
    var p := Pump(os, c, input);
    ghost var pumping := os.troubles;
    var complete, w := TerminateChild(os);
    ReapingIsDisciplined(os.log);
    assert os.troubles - {KillFailed, NotReaped} == pumping && Unwatched !in pumping;
    assert complete ==> os.troubles == pumping;
    var state, code := p.state, 0;
    if !complete {
      state := Unknown;
    } else if !p.forced {
      if w % 128 != 0 {
        state := Signalled;
      } else {
        state, code := Exited, (w / 256) % 256;
      }
    }
    r := Result(state, code, p.output);
    if state == Exited && p.written == |input| {
      status := if code == 0 then OK else if c.externalEffects then Indeterminate else IOError;
    } else {
      status := if c.externalEffects then Indeterminate else IOError;
    }
  }
}
