/**
 Stopping a whole tree of tool processes from a subreaper, while descendants fork, exit, are reparented and are
 reaped by their own parents at any moment.
 */
module ProcessTree {
  import opened Common

  type Pid = nat

  /** The supervising process itself; it is not part of the table. */
  const SELF: Pid := 0

  const KILLED := -9
  const CLEANUP_LIMIT := 5_000
  const PAUSE := 10
  const INTERVAL := 100

  /** An unreaped process. `birth` orders processes by when they were forked. */
  datatype Process = Process(parent: Pid, zombie: bool, birth: nat, code: int)

  type Table = map<Pid, Process>

  /** Every process descends from the supervisor, and a zombie has no children: they pass to a living ancestor, in
      the end to the supervisor, which is their subreaper. */
  predicate Forest(t: Table, born: nat) {
    SELF !in t && forall p :: p in t ==> Rooted(t, born, p)
  }

  predicate Rooted(t: Table, born: nat, p: Pid)
    requires p in t
  {
    t[p].birth < born && (t[p].parent == SELF || Above(t, t[p].parent, p))
  }

  /** `r` lives and is older than `p`. */
  predicate Above(t: Table, r: Pid, p: Pid)
    requires p in t
  {
    r in t && !t[r].zombie && t[r].birth < t[p].birth
  }

  function ChildrenOf(t: Table): set<Pid> {
    set p | p in t && t[p].parent == SELF
  }

  // ----- What can happen in the tree

  function Forked(t: Table, born: nat, p: Pid, q: Pid): Table {
    t[q := Process(p, false, born, 0)]
  }

  /** `p` becomes a zombie and its children, living or not, pass to `r`. */
  function Exited(t: Table, p: Pid, code: int, r: Pid): Table {
    map q | q in t :: if q == p then t[q].(zombie := true, code := code)
                      else if t[q].parent == p then t[q].(parent := r) else t[q]
  }

  lemma ForkKeepsForest(t: Table, born: nat, p: Pid, q: Pid)
    requires Forest(t, born) && p in t && !t[p].zombie && q !in t && q != SELF
    ensures Forest(Forked(t, born, p, q), born + 1)
  {
  }

  lemma ExitKeepsForest(t: Table, born: nat, p: Pid, code: int, r: Pid)
    requires Forest(t, born) && p in t && !t[p].zombie && (r == SELF || Above(t, r, p))
    ensures Forest(Exited(t, p, code, r), born)
  {
    var u := Exited(t, p, code, r);
    forall q | q in u ensures Rooted(u, born, q) {
      assert Rooted(t, born, q) && Rooted(t, born, p);
    }
  }

  lemma ReapKeepsForest(t: Table, born: nat, p: Pid)
    requires Forest(t, born) && p in t && t[p].zombie
    ensures Forest(t - {p}, born)
  {
    forall q | q in t - {p} ensures Rooted(t - {p}, born, q) {
      assert Rooted(t, born, q);
    }
  }

  /** When the supervisor's only child is a zombie, nothing else is left of the tree. */
  lemma OnlyZombie(t: Table, born: nat, leader: Pid)
    requires Forest(t, born) && ChildrenOf(t) == {leader} && t[leader].zombie
    ensures t.Keys == {leader}
  {
    forall p | p in t ensures p == leader {
      NoneElse(t, born, leader, p);
    }
    assert leader in ChildrenOf(t);
  }

  lemma {:induction false} NoneElse(t: Table, born: nat, leader: Pid, p: Pid)
    requires Forest(t, born) && ChildrenOf(t) == {leader} && leader in t && t[leader].zombie && p in t
    ensures p == leader
    decreases t[p].birth
  {
    assert Rooted(t, born, p);
    if t[p].parent == SELF {
      assert p in ChildrenOf(t);
    } else {
      NoneElse(t, born, leader, t[p].parent);
    }
  }

  /** What the supervisor did: whether its last look at a child showed the end, what it has looked for since it last
      slept, every sleep, whether a process could not be started, whether a group was killed while its leader was still
      running, when a group was last killed, and when the last round of killing what was left began. */
  datatype Trace = Trace(seen: bool, checked: set<Reason>, naps: seq<Nap>, unstarted: bool, cut: bool, struck: int,
                         round: int)

  function Slept(t: Trace, now: int, time: nat): Trace {
    t.(naps := t.naps + [Nap(now, time, t.round, t.seen, t.checked)], checked := {})
  }

  /** One sleep: when it began and how long it was to be, when the last round of killing had begun, whether the child's
      end had been seen by then, and what had been looked for. */
  datatype Nap = Nap(at: int, time: nat, round: int, seen: bool, checked: set<Reason>)

  /** The process table, seen by the supervisor: between any two of its own calls anything may happen below it. */
  class Processes {
    var table: Table
    var born: nat
    var now: int
    /** Processes that were signalled one by one without being unreaped children of the supervisor. */
    ghost var stray: set<Pid>
    /** Processes and process groups that were sent SIGKILL, and the reasons to stop that were observed. */
    ghost var signalled: set<Pid>
    ghost var groups: set<Pid>
    ghost var stops: set<Reason>
    /** The kills that did not end their target at once, and the time that passed since a group was last killed,
        other than in sleeping. */
    ghost var spared: seq<Pid>
    ghost var busy: nat
    ghost var trace: Trace

    constructor ()
      ensures Valid() && table == map[] && stray == {} && signalled == {} && groups == {} && stops == {}
      ensures spared == [] && busy == 0 && trace.naps == [] && !trace.cut
    {
      table, born, now, stray, signalled, groups, stops := map[], 0, 0, {}, {}, {}, {};
      spared, busy, trace := [], 0, Trace.Trace(false, {}, [], false, false, 0, 0);
    }

    predicate Valid()
      reads `table, `born
    {
      Forest(table, born)
    }

    predicate Mine(p: Pid)
      reads `table
    {
      p in table && table[p].parent == SELF
    }

    /** What is left to stop, less all that has been forked and spared. It never rises: a fork counts on both sides. */
    ghost function Effort(): int
      reads `table, `born, `spared
    {
      |table| - born - |spared|
    }

    /** The time spent asleep since a group was last killed, up to a constant. */
    ghost function Asleep(): int
      reads `now, `busy
    {
      now - busy
    }

    /** Nobody but the supervisor reaps its children, a zombie stays what it is, and where nobody is left alive nothing
        happens. */
    twostate predicate Steady(reaped: set<Pid>)
      reads this
    {
      && (forall p :: p !in reaped && old(Mine(p)) ==> Mine(p) && (old(table[p].zombie) ==> table[p] == old(table[p])))
      && ((forall p :: old(p in table) ==> old(table[p].zombie)) ==> table == old(table - reaped))
    }

    /** Neither time nor births go back, and nothing is harder to stop than before. */
    twostate predicate Onward()
      reads this
    {
      now >= old(now) && born >= old(born) && Effort() <= old(Effort())
    }

    method Interfere()
      requires Valid()
      modifies `table, `born, `now, `busy
      ensures Valid() && Steady({}) && Onward() && Asleep() == old(Asleep())
    {
      hide Forest;
      var events: nat, elapsed: nat := *, *;
      now, busy := now + elapsed, busy + elapsed;
      while events > 0
        invariant Valid() && Steady({}) && Onward() && Asleep() == old(Asleep())
      {
        Event();
        events := events - 1;
      }
    }

    /** One descendant forks, exits, or reaps a child of its own. */
    method Event()
      requires Valid()
      modifies `table, `born
      ensures Valid() && Steady({}) && Onward()
    {
      var p: Pid, q: Pid, code: int := *, *, *;
      if p !in table {
        return;
      }
      if {
        case !table[p].zombie && q !in table && q != SELF =>
          ForkKeepsForest(table, born, p, q);
          table, born := Forked(table, born, p, q), born + 1;
        case !table[p].zombie =>
          Exit(p, code);
        case table[p].zombie && table[p].parent != SELF =>
          ReapKeepsForest(table, born, p);
          assert Rooted(table, born, p);
          Remove(p);
        case true =>
      }
    }

    method Remove(p: Pid)
      requires p in table
      modifies `table
      ensures table == old(table) - {p} && Effort() == old(Effort()) - 1
    {
      assert (table - {p}).Keys == table.Keys - {p};
      table := table - {p};
    }

    method Exit(p: Pid, code: int)
      requires Valid() && p in table && !table[p].zombie
      modifies `table
      ensures Valid() && Steady({}) && Onward() && p in table && table[p].zombie
    {
      var r: Pid := *;
      if r !in table || table[r].zombie || table[r].birth >= table[p].birth {
        r := SELF;
      }
      ExitKeepsForest(table, born, p, code, r);
      assert Exited(table, p, code, r).Keys == table.Keys;
      table := Exited(table, p, code, r);
    }

    // ----- The supervisor's own calls

    /** The supervisor's children at one moment, each once. */
    method Children() returns (pids: seq<Pid>)
      requires Valid()
      modifies `table, `born, `now, `busy
      ensures Valid() && Steady({}) && Onward() && Asleep() == old(Asleep())
      ensures Distinct(pids) && forall p :: p in pids <==> p in ChildrenOf(table)
      ensures forall k :: 0 <= k < |pids| ==> Mine(pids[k])
    {
      Interfere();
      hide Forest;
      pids := [];
      var left := ChildrenOf(table);
      while left != {}
        invariant Distinct(pids) && left <= ChildrenOf(table)
        invariant forall p :: p in pids <==> p in ChildrenOf(table) && p !in left
        decreases left
      {
        var p :| p in left;
        pids, left := pids + [p], left - {p};
      }
      assert forall k :: 0 <= k < |pids| ==> pids[k] in pids;
    }

    /** A SIGKILL reaches a process; it may take effect only later. */
    method End(p: Pid)
      requires Valid()
      modifies `table, `spared
      ensures Valid() && Steady({}) && Onward()
      ensures spared == old(spared) || (spared == old(spared) + [p] && Effort() < old(Effort()))
      ensures p in table && !table[p].zombie ==> spared == old(spared) + [p]
    {
      if p in table && !table[p].zombie {
        if {
          case true => Exit(p, KILLED);
          case true => spared := spared + [p];
        }
      }
    }

    /** Sends SIGKILL to one process identity, whoever holds it. */
    method Kill(p: Pid)
      requires Valid()
      modifies `table, `born, `now, `busy, `stray, `signalled, `spared
      ensures Valid() && Steady({}) && Onward() && Asleep() == old(Asleep()) && signalled == old(signalled) + {p}
      ensures spared == old(spared) || (spared == old(spared) + [p] && Effort() < old(Effort()))
      ensures old(Mine(p)) && !table[p].zombie ==> spared == old(spared) + [p]
      ensures stray == old(stray) || (stray == old(stray) + {p} && !old(Mine(p)))
    {
      hide Forest, Effort;
      Interfere();
      stray := if Mine(p) then stray else stray + {p};
      signalled := signalled + {p};
      End(p);
    }

    /** Sends SIGKILL to the group of `leader`: any of its members may end. */
    method KillGroup(leader: Pid)
      requires Valid()
      modifies `table, `born, `now, `busy, `stray, `groups, `spared, `trace
      ensures trace == old(trace).(struck := now, cut := trace.cut)
      ensures old(Mine(leader) && table[leader].zombie) ==> trace.cut == old(trace.cut)
      ensures Valid() && Steady({}) && Onward() && groups == old(groups) + {leader} && busy == 0
      ensures spared == old(spared) || spared == old(spared) + [leader]
      ensures old(Mine(leader)) && !table[leader].zombie ==> spared == old(spared) + [leader]
      ensures stray == old(stray) || (stray == old(stray) + {leader} && !old(Mine(leader)))
    {
      hide Forest, Effort;
      Interfere();
      stray := if Mine(leader) then stray else stray + {leader};
      groups := groups + {leader};
      ghost var cut := trace.cut || !Mine(leader) || !table[leader].zombie;
      EndGroup(leader);
      busy, trace := 0, trace.(struck := now, cut := cut);
    }

    method EndGroup(leader: Pid)
      requires Valid()
      modifies `table, `spared
      ensures Valid() && Steady({}) && Onward()
      ensures spared == old(spared) || spared == old(spared) + [leader]
      ensures leader in table && !table[leader].zombie ==> spared == old(spared) + [leader]
    {
      hide Forest, Effort;
      var members: nat := *;
      while members > 0
        invariant Valid() && Steady({}) && Onward() && spared == old(spared)
      {
        var p: Pid := *;
        if p in table && !table[p].zombie {
          Exit(p, KILLED);
        }
        members := members - 1;
      }
      End(leader);
    }

    /** Whether the child has ended, without reaping it; fails when it is not the supervisor's. */
    method Observe(p: Pid) returns (owned: bool, ended: bool)
      requires Valid()
      modifies `table, `born, `now, `busy, `trace
      ensures trace == old(trace).(seen := ended)
      ensures Valid() && Steady({}) && Onward() && Asleep() == old(Asleep())
      ensures owned == Mine(p) && (ended <==> owned && table[p].zombie)
    {
      Interfere();
      owned := Mine(p);
      ended := owned && table[p].zombie;
      trace := trace.(seen := ended);
    }

    /** Reaps the child if it has ended; fails when it is not the supervisor's. */
    method Reap(p: Pid) returns (owned: bool, code: Option<int>)
      requires Valid()
      modifies `table, `born, `now, `busy
      ensures Valid() && Onward()
      ensures Asleep() == old(Asleep()) && (old(Mine(p)) ==> owned && Steady({p}))
      ensures old(Mine(p) && table[p].zombie) ==>
        code == Some(old(table[p].code)) && p !in table && Effort() < old(Effort())
    {
      hide Forest;
      Interfere();
      owned, code := Mine(p), None;
      if owned && table[p].zombie {
        code := Some(table[p].code);
        ReapKeepsForest(table, born, p);
        Remove(p);
      }
    }

    /** Starts the leader of a new tree; it may already run, and fork, when the call returns. */
    method Spawn() returns (leader: Option<Pid>)
      requires Valid() && table == map[]
      modifies `table, `born, `now, `busy, `trace
      ensures trace == if leader.None? then old(trace).(unstarted := true) else old(trace)
      ensures Valid() && Onward()
      ensures match leader case None => table == map[] case Some(p) => Mine(p)
    {
      var p: Pid := *;
      if p == SELF {
        trace := trace.(unstarted := true);
        return None;
      }
      table := table[p := Process(SELF, false, born, 0)];
      born := born + 1;
      Interfere();
      leader := Some(p);
    }

    /** Looks at memory, pending signals and the files this needs; any of them may be a reason to stop. */
    method Sample(allowed: set<Reason>) returns (stop: Option<Reason>)
      modifies `stops, `trace
      ensures trace == old(trace).(checked := allowed) && (stop.Some? ==> stop.value in allowed)
      ensures stops == old(stops) + (if stop.Some? then {stop.value} else {})
    {
      var reason: Reason := *;
      stop := if reason in allowed then Some(reason) else None;
      trace := trace.(checked := allowed);
      stops := stops + (if stop.Some? then {stop.value} else {});
    }

    /** A start that cannot go on is a reason to stop, too: there are children already, or none can be started. */
    method Refuse() returns (reason: Reason)
      requires ChildrenOf(table) != {} || trace.unstarted
      modifies `stops
      ensures reason == GuardError && stops == old(stops) + {GuardError}
    {
      stops := stops + {GuardError};
      reason := GuardError;
    }

    method Sleep(time: nat)
      requires Valid()
      modifies `table, `born, `now, `busy, `trace
      ensures trace == Slept(old(trace), old(now), time)
      ensures Valid() && Steady({}) && Onward() && now >= old(now) + time && Asleep() == old(Asleep()) + time
    {
      hide Forest;
      trace := Slept(trace, now, time);
      Interfere();
      now := now + time;
    }
  }

  predicate Distinct(pids: seq<Pid>) {
    forall i, j :: 0 <= i < j < |pids| ==> pids[i] != pids[j]
  }

  /** Kills and reaps one child, unless the kill takes effect only later. */
  method StopChild(os: Processes, leader: Pid, p: Pid) returns (owned: bool)
    requires os.Valid() && os.Mine(leader) && os.Mine(p) && p != leader
    modifies os`table, os`born, os`now, os`busy, os`stray, os`signalled, os`spared
    ensures os.Valid() && owned && os.Onward() && os.stray == old(os.stray)
    ensures forall q :: q != p && old(os.Mine(q)) ==>
      os.Mine(q) && (old(os.table[q].zombie) ==> os.table[q] == old(os.table[q]))
    ensures os.signalled == old(os.signalled) + {p} && old(os.spared) <= os.spared
    ensures os.Effort() < old(os.Effort()) && os.Asleep() == old(os.Asleep())
  {
    hide Forest, Processes.Effort;
    os.Kill(p);
    var code;
    owned, code := os.Reap(p);
  }

  /** Kills and reaps every child but the leader. Once the leader has ended, each sweep leaves less to stop, until
      nothing but the leader is left. */
  method Sweep(os: Processes, leader: Pid) returns (owned: bool)
    requires os.Valid() && os.Mine(leader)
    modifies os`table, os`born, os`now, os`busy, os`stray, os`signalled, os`spared, os`trace
    ensures os.trace == old(os.trace).(round := old(os.now))
    ensures os.Valid() && owned && os.Onward() && os.stray == old(os.stray)
    ensures os.Mine(leader) && (old(os.table[leader].zombie) ==> os.table[leader] == old(os.table[leader]))
    ensures forall p :: old(os.Mine(p)) && p != leader ==> p in os.signalled
    ensures old(os.signalled) <= os.signalled && old(os.spared) <= os.spared
    ensures os.Asleep() == old(os.Asleep())
    ensures old(os.table[leader].zombie) ==> os.table.Keys == {leader} || os.Effort() < old(os.Effort())
  {
    hide Forest, Processes.Effort;
    os.trace := os.trace.(round := os.now);
    var pids := os.Children();
    assert forall p :: old(os.Mine(p)) ==> p in pids;
    ghost var alone := os.table[leader].zombie && ChildrenOf(os.table) == {leader};
    if alone {
      OnlyZombie(os.table, os.born, leader);
      assert forall p :: p in pids ==> p == leader;
    }
    var i := 0;
    ghost var stopped := false;
    while i < |pids|
      invariant 0 <= i <= |pids| && os.Valid() && os.Onward() && os.stray == old(os.stray)
      invariant os.Mine(leader) && (old(os.table[leader].zombie) ==> os.table[leader] == old(os.table[leader]))
      invariant forall k :: i <= k < |pids| ==> os.Mine(pids[k])
      invariant forall k :: 0 <= k < i && pids[k] != leader ==> pids[k] in os.signalled
      invariant old(os.signalled) <= os.signalled && os.trace == old(os.trace).(round := old(os.now))
      invariant old(os.spared) <= os.spared
      invariant os.Asleep() == old(os.Asleep())
      invariant stopped ==> os.Effort() < old(os.Effort())
      invariant !stopped ==> forall k :: 0 <= k < i ==> pids[k] == leader
      invariant alone ==> os.table.Keys == {leader}
    {
      if pids[i] != leader {
        var reaped := StopChild(os, leader, pids[i]);
        if !reaped {
          return false;
        }
        stopped := true;
      }
      i := i + 1;
    }
    owned := true;
  }

  lemma OneChild(pids: seq<Pid>, leader: Pid)
    requires Distinct(pids) && forall p :: p in pids <==> p == leader
    ensures pids == [leader]
  {
    assert leader in pids && (|pids| < 2 || pids[0] != pids[1]);
    forall k | 0 <= k < |pids| ensures pids[k] == leader {
      assert pids[k] in pids;
    }
  }

  /** Whether the leader has ended and is the only child left; then it is all that is left. */
  method OnlyLeader(os: Processes, leader: Pid) returns (only: bool)
    requires os.Valid() && os.Mine(leader)
    modifies os`table, os`born, os`now, os`busy, os`trace
    ensures os.Valid() && os.Steady({}) && os.Onward() && os.Asleep() == old(os.Asleep())
    ensures os.trace == old(os.trace).(seen := os.trace.seen)
    ensures only ==> os.Mine(leader) && os.table.Keys == {leader} && os.table[leader].zombie
    ensures old(os.table.Keys == {leader} && os.table[leader].zombie) ==> only
  {
    hide Forest, Processes.Effort;
    var owned, ended := os.Observe(leader);
    var pids := os.Children();
    only := ended && pids == [leader];
    if old(os.table.Keys == {leader} && os.table[leader].zombie) {
      assert os.table == old(os.table) && leader in ChildrenOf(os.table);
      assert leader in pids && forall k :: 0 <= k < |pids| ==> pids[k] in pids;
      OneChild(pids, leader);
    }
    if only {
      assert ChildrenOf(os.table) == {leader} by {
        assert forall p :: p in pids <==> p == leader;
      }
      OnlyZombie(os.table, os.born, leader);
    }
  }

  /** One round of killing and reaping; true when only the leader is left. */
  method Round(os: Processes, leader: Pid) returns (only: bool)
    requires os.Valid() && os.Mine(leader)
    modifies os`table, os`born, os`now, os`busy, os`stray, os`signalled, os`spared, os`trace
    ensures os.trace == old(os.trace).(round := old(os.now), seen := os.trace.seen)
    ensures os.Valid() && os.Onward() && os.stray == old(os.stray) && os.Asleep() == old(os.Asleep())
    ensures os.Mine(leader) && (old(os.table[leader].zombie) ==> os.table[leader] == old(os.table[leader]))
    ensures old(os.spared) <= os.spared
    ensures only ==> os.table.Keys == {leader} && os.table[leader].zombie
    ensures old(os.table[leader].zombie) && !only ==> os.Effort() < old(os.Effort())
  {
    hide Forest, Processes.Effort;
    var owned := Sweep(os, leader);
    only := OnlyLeader(os, leader);
  }

  lemma LeftToStop(os: Processes, leader: Pid)
    requires leader in os.table
    ensures os.Effort() >= 1 - os.born - |os.spared|
  {
    assert |os.table| > 0;
  }

  lemma NothingToStop(os: Processes)
    requires os.table == map[]
    ensures os.Effort() == 0 - os.born - |os.spared|
  {
  }

  /** Between two rounds there are 10 ms, and no round begins five seconds or more after the group was killed. */
  predicate Pauses(before: seq<Nap>, after: seq<Nap>, struck: int) {
    before <= after && forall k :: |before| <= k < |after| ==> after[k].time == 10 && after[k].round < struck + 5_000
  }

  lemma NotYetPaused(before: seq<Nap>, struck: int)
    ensures Pauses(before, before, struck)
  {
  }

  lemma PausedOnce(before: seq<Nap>, t: Trace, now: int, struck: int)
    requires Pauses(before, t.naps, struck) && t.round < struck + 5_000
    ensures Pauses(before, Slept(t, now, 10).naps, struck)
  {
  }

  /** Looks at the leader once and kills its group. */
  method Strike(os: Processes, leader: Pid)
    requires os.Valid() && os.Mine(leader)
    modifies os
    ensures os.Valid() && os.Onward() && os.stray == old(os.stray) && os.Mine(leader)
    ensures leader in os.groups && os.stops == old(os.stops) && os.busy == 0
    ensures os.trace == old(os.trace).(seen := os.trace.seen, struck := os.now, cut := os.trace.cut)
    ensures old(os.table[leader].zombie) ==>
      os.table[leader] == old(os.table[leader]) && os.trace.cut == old(os.trace.cut)
    ensures os.spared == old(os.spared) || os.spared == old(os.spared) + [leader]
    ensures os.table[leader].zombie || old(os.spared) + [leader] <= os.spared
  {
    hide Forest, Processes.Effort;
    var owned, ended := os.Observe(leader);
    os.KillGroup(leader);
  }

  /** Stops and reaps the whole tree of `leader`; no result when that took too long. It takes too long only if the kill
      of the group spared the leader, or the processes to stop, those forked meanwhile, the kills that came late and the
      time for all the calls were too many: old(Effort()) + born + |spared| is the number of processes there were, of
      those forked since and of the kills since that came late. */
  method StopChildren(os: Processes, leader: Pid) returns (code: Option<int>)
    requires os.Valid() && os.Mine(leader)
    modifies os
    ensures os.Valid() && os.Onward() && os.stray == old(os.stray)
    ensures code.Some? ==> os.table == map[]
    ensures code.None? ==> os.Mine(leader) && os.now >= old(os.now) + CLEANUP_LIMIT
    ensures leader in os.groups && os.stops == old(os.stops) && old(os.spared) <= os.spared
    ensures Pauses(old(os.trace.naps), os.trace.naps, os.trace.struck)
    ensures old(os.table[leader].zombie) ==> os.trace.cut == old(os.trace.cut)
    ensures old(os.table[leader].zombie) && code.Some? ==> code == Some(old(os.table[leader].code))
    ensures code.None? && !(old(os.spared) + [leader] <= os.spared) ==>
      PAUSE * (old(os.Effort()) + os.born + |os.spared| - 1) + os.busy >= CLEANUP_LIMIT
  {
    hide Forest, Processes.Effort, Pauses;
    Strike(os, leader);
    var deadline := os.now + CLEANUP_LIMIT;
    ghost var start, dead, rounds := os.now, os.table[leader].zombie, 0;
    ghost var naps, cut := os.trace.naps, os.trace.cut;
    NotYetPaused(naps, start);
    while os.now < deadline
      invariant os.Valid() && os.Onward() && os.stray == old(os.stray) && os.Mine(leader) && os.now >= start
      invariant leader in os.groups && os.stops == old(os.stops) && old(os.spared) <= os.spared
      invariant old(os.table[leader].zombie) ==> os.table[leader] == old(os.table[leader])
      invariant os.Asleep() == start + PAUSE * rounds
      invariant os.trace.struck == start && os.trace.cut == cut && Pauses(naps, os.trace.naps, start)
      invariant if dead then os.table[leader].zombie && os.Effort() <= old(os.Effort()) - rounds
                else old(os.spared) + [leader] <= os.spared
      decreases deadline - os.now
    {
      var only := Round(os, leader);
      if only {
        var reaped: bool;
        reaped, code := os.Reap(leader);
        return;
      }
      PausedOnce(naps, os.trace, os.now, start);
      os.Sleep(PAUSE);
      rounds := rounds + 1;
    }
    LeftToStop(os, leader);
    code := None;
  }

  datatype Reason = Clean | Busy | NoMemory | GuardError | Interrupted | MemoryStop | TimeStop | OwnershipLost
                  | CleanupFailed | RestoreFailed

  const WATCHED: set<Reason> := {Interrupted, GuardError, MemoryStop}

  datatype Verdict = NotRun | Pass | Fail

  /** A supervisor without children has no descendants. */
  lemma NoDescendants(t: Table, born: nat)
    requires Forest(t, born) && ChildrenOf(t) == {}
    ensures t == map[]
  {
    forall p | p in t ensures false {
      NoDescendant(t, born, p);
    }
  }

  lemma {:induction false} NoDescendant(t: Table, born: nat, p: Pid)
    requires Forest(t, born) && ChildrenOf(t) == {} && p in t
    ensures false
    decreases t[p].birth
  {
    assert Rooted(t, born, p);
    assert t[p].parent == SELF ==> p in ChildrenOf(t);
    NoDescendant(t, born, t[p].parent);
  }

  /** Looks for the leader's end and then for every reason to stop. */
  method Look(os: Processes, leader: Pid) returns (owned: bool, ended: bool, stop: Option<Reason>)
    requires os.Valid() && os.Mine(leader)
    modifies os`table, os`born, os`now, os`busy, os`stops, os`trace
    ensures os.Valid() && os.Onward() && os.Mine(leader) && owned
    ensures os.trace == old(os.trace).(seen := ended, checked := WATCHED)
    ensures ended ==> os.table[leader].zombie
    ensures stop.Some? ==> stop.value in WATCHED
    ensures os.stops == old(os.stops) + (if stop.Some? then {stop.value} else {})
  {
    hide Forest, Processes.Effort;
    owned, ended := os.Observe(leader);
    stop := None;
    if owned {
      stop := os.Sample(WATCHED);
    }
  }

  predicate Waits(nap: Nap, start: int, seconds: nat) {
    && nap.at - start < 1_000 * seconds && nap.time == 100 && !nap.seen
    && nap.checked == {Interrupted, GuardError, MemoryStop}
  }

  predicate Waited(before: seq<Nap>, after: seq<Nap>, start: int, seconds: nat) {
    before <= after && forall k :: |before| <= k < |after| ==> Waits(after[k], start, seconds)
  }

  lemma NotYetWaited(before: seq<Nap>, start: int, seconds: nat)
    ensures Waited(before, before, start, seconds)
  {
  }

  lemma WaitedOnce(before: seq<Nap>, t: Trace, now: int, start: int, seconds: nat)
    requires Waited(before, t.naps, start, seconds) && now - start < 1_000 * seconds && !t.seen && t.checked == WATCHED
    ensures Waited(before, Slept(t, now, 100).naps, start, seconds)
  {
  }

  /** Watches the leader until it ends or a limit is hit, never reaping it. It goes on waiting only within the time, and
      after looking for every reason to stop and for the leader's end in vain. */
  method Watch(os: Processes, leader: Pid, seconds: nat) returns (reason: Reason)
    requires os.Valid() && os.Mine(leader)
    modifies os
    ensures os.Valid() && os.Onward() && os.Mine(leader) && os.stray == old(os.stray) && os.spared == old(os.spared)
    ensures os.trace.cut == old(os.trace.cut)
    ensures Waited(old(os.trace.naps), os.trace.naps, old(os.now), seconds)
    ensures reason == Clean ==> os.table[leader].zombie && os.stops == old(os.stops)
    ensures reason == TimeStop ==> os.now >= old(os.now) + 1_000 * seconds && os.stops == old(os.stops)
    ensures reason != Clean && reason != TimeStop ==> reason in WATCHED && os.stops == old(os.stops) + {reason}
  {
    hide Forest, Processes.Effort, Waited;
    var start := os.now;
    NotYetWaited(os.trace.naps, start, seconds);
    while true
      invariant os.Valid() && os.Onward() && os.Mine(leader) && os.stray == old(os.stray)
      invariant os.stops == old(os.stops) && os.spared == old(os.spared) && os.trace.cut == old(os.trace.cut)
      invariant Waited(old(os.trace.naps), os.trace.naps, start, seconds)
      decreases start + 1_000 * seconds - os.now
    {
      var owned, ended, stop := Look(os, leader);
      if !owned {
        return OwnershipLost;
      }
      if stop.Some? {
        return stop.value;
      }
      if os.now - start >= 1_000 * seconds {
        return TimeStop;
      }
      if ended {
        return Clean;
      }
      WaitedOnce(old(os.trace.naps), os.trace, os.now, start, seconds);
      os.Sleep(INTERVAL);
    }
  }

  /** Refuses to start, or starts the leader of the only tree there is. */
  method Start(os: Processes) returns (leader: Option<Pid>, reason: Reason, reaper: bool)
    requires os.Valid() && os.stops == {}
    modifies os
    ensures os.Valid() && os.Onward() && os.stray == old(os.stray) && os.spared == old(os.spared)
    ensures os.trace.cut == old(os.trace.cut)
    ensures match leader
      case None => reason in os.stops && reason in {NoMemory, Busy, GuardError}
      case Some(p) =>
        && os.Mine(p) && reaper && reason == Clean && os.stops == {}
        && os.trace.checked == {Busy, NoMemory, GuardError}
        && os.Effort() <= 0 - old(os.born) - |os.spared|
    ensures reason == NoMemory ==> !reaper
  {
    hide Forest, Processes.Effort, Processes.Steady;
    leader, reason, reaper := None, Clean, false;
    var refused := os.Sample({Busy, NoMemory, GuardError});
    if refused.Some? {
      reason := refused.value;
      return;
    }
    var children := os.Children();
    if children != [] {
      assert children[0] in children && children[0] in ChildrenOf(os.table);
      reason := os.Refuse();
      return;
    }
    assert ChildrenOf(os.table) == {};
    NoDescendants(os.table, os.born);
    NothingToStop(os);
    reaper := true;
    leader := os.Spawn();
    if leader.None? {
      reason := os.Refuse();
    }
  }

  /** Runs one trusted tool tree and always cleans up what it owns. */
  method Supervise(os: Processes, seconds: nat) returns (verdict: Verdict, reason: Reason, code: Option<int>)
    requires os.Valid() && os.stops == {}
    modifies os
    ensures os.Valid() && os.stray == old(os.stray)
    ensures verdict == Pass <==> reason == Clean && code == Some(0)
    ensures code.Some? ==> os.table == map[]
    ensures verdict == Fail && code.None? ==> reason == CleanupFailed || reason == RestoreFailed
    ensures reason == Clean ==> code.Some? && os.stops == {} && os.trace.cut == old(os.trace.cut)
    ensures reason == CleanupFailed ==> code.None? && os.now >= old(os.now) + 5_000
    ensures reason == CleanupFailed && os.spared == old(os.spared) ==>
      10 * (os.born - old(os.born) - 1) + os.busy >= 5_000
    ensures reason == TimeStop ==> os.now >= old(os.now) + 1_000 * seconds
    ensures reason != Clean && reason != CleanupFailed && reason != TimeStop ==> reason in os.stops
    ensures reason != OwnershipLost
  {
    hide Forest, Processes.Effort, Processes.Steady;
    code := None;
    var leader, reaper;
    leader, reason, reaper := Start(os);
    if reason == NoMemory {
      return NotRun, NoMemory, None;
    }
    var owned := leader.Some?;
    if owned {
      reason := Watch(os, leader.value, seconds);
      owned := reason != OwnershipLost;
    }
    if owned {
      code := StopChildren(os, leader.value);
      if code.None? {
        reason := CleanupFailed;
      }
    }
    if reaper {
      var restored := os.Sample({RestoreFailed});
      if restored.Some? {
        reason := RestoreFailed;
      }
    }
    verdict := if leader.None? then NotRun else if reason == Clean && code == Some(0) then Pass else Fail;
  }
}
