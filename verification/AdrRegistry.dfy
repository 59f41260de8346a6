/** The registry of architecture decisions: which replace which, checked row by row and by a depth-first search. */
module AdrRegistry {

  datatype Status = Proposed | Accepted | Superseded

  datatype Decision = Decision(id: string, status: Status, supersedes: seq<string>)

  /** Decision `a` replaces decision `b`. */
  predicate Link(rows: seq<Decision>, a: string, b: string) {
    exists r :: r in rows && r.id == a && b in r.supersedes
  }

  predicate Declared(rows: seq<Decision>, id: string) {
    exists r :: r in rows && r.id == id
  }

  ghost predicate Replaced(rows: seq<Decision>, id: string) {
    exists a :: Link(rows, a, id)
  }

  /** A chain of replacements. */
  ghost predicate Chain(rows: seq<Decision>, p: seq<string>) {
    |p| > 0 && forall i {:trigger p[i]} :: 0 < i < |p| ==> Link(rows, p[i - 1], p[i])
  }

  ghost predicate Cycle(rows: seq<Decision>, p: seq<string>) {
    Chain(rows, p) && |p| > 1 && p[0] == p[|p| - 1]
  }

  ghost predicate Acyclic(rows: seq<Decision>) {
    forall p :: !Cycle(rows, p)
  }

  predicate UniqueIds(rows: seq<Decision>) {
    forall i, j :: 0 <= i < j < |rows| ==> rows[i].id != rows[j].id
  }

  /** What a decision replaces exists and is another decision. */
  predicate Refers(rows: seq<Decision>, d: Decision) {
    forall prior :: prior in d.supersedes ==> Declared(rows, prior) && prior != d.id
  }

  predicate References(rows: seq<Decision>) {
    forall r :: r in rows ==> Refers(rows, r)
  }

  ghost predicate Marked(rows: seq<Decision>) {
    forall r :: r in rows ==> (r.status == Superseded <==> Replaced(rows, r.id))
  }

  /** What the registry has to be; `sound` stands for a row's own form, status text and document. */
  ghost predicate Acceptable(rows: seq<Decision>, sound: Decision -> bool) {
    && (forall r :: r in rows ==> sound(r)) && UniqueIds(rows) && References(rows) && Marked(rows) && Acyclic(rows)
  }

  // ----- The table the check works on

  type Table = map<string, Decision>

  predicate IsTable(rows: seq<Decision>, adrs: Table) {
    && (forall r :: r in rows ==> r.id in adrs && adrs[r.id] == r)
    && (forall id :: id in adrs ==> adrs[id] in rows && adrs[id].id == id)
  }

  lemma InTable(rows: seq<Decision>, adrs: Table, id: string)
    requires IsTable(rows, adrs)
    ensures id in adrs <==> Declared(rows, id)
  {
  }

  method BuildTable(rows: seq<Decision>, sound: Decision -> bool) returns (ok: bool, adrs: Table)
    ensures ok <==> (forall r :: r in rows ==> sound(r)) && UniqueIds(rows)
    ensures ok ==> IsTable(rows, adrs)
  {
    adrs := map[];
    for i := 0 to |rows|
      invariant forall k :: 0 <= k < i ==> sound(rows[k])
      invariant UniqueIds(rows[..i]) && IsTable(rows[..i], adrs)
    {
      var d := rows[i];
      assert rows[..i + 1] == rows[..i] + [d];
      if !sound(d) || d.id in adrs {
        if d.id in adrs {
          var k :| 0 <= k < i && rows[k] == adrs[d.id];
          assert rows[k].id == rows[i].id;
        }
        return false, adrs;
      }
      adrs := adrs[d.id := d];
    }
    assert rows[..|rows|] == rows;
    ok := true;
  }

  method CheckReferences(rows: seq<Decision>, adrs: Table) returns (ok: bool)
    requires IsTable(rows, adrs)
    ensures ok <==> References(rows)
  {
    for i := 0 to |rows|
      invariant forall k :: 0 <= k < i ==> Refers(rows, rows[k])
    {
      var d := rows[i];
      for j := 0 to |d.supersedes|
        invariant forall b :: b in d.supersedes[..j] ==> Declared(rows, b) && b != d.id
      {
        var prior := d.supersedes[j];
        InTable(rows, adrs, prior);
        if prior !in adrs || prior == d.id {
          assert !Refers(rows, d) && d in rows;
          return false;
        }
      }
      assert d.supersedes[..|d.supersedes|] == d.supersedes;
    }
    ok := true;
  }

  /** Who replaces whom, the other way round. */
  method Incoming(rows: seq<Decision>, adrs: Table) returns (incoming: map<string, set<string>>)
    requires IsTable(rows, adrs) && References(rows)
    ensures incoming.Keys == adrs.Keys
    ensures forall a, b :: b in adrs ==> (a in incoming[b] <==> Link(rows, a, b))
  {
    incoming := map id | id in adrs :: {};
    for i := 0 to |rows|
      invariant incoming.Keys == adrs.Keys
      invariant forall a, b :: b in adrs ==> (a in incoming[b] <==> Link(rows[..i], a, b))
    {
      ghost var was := incoming;
      var d := rows[i];
      assert rows[..i + 1] == rows[..i] + [d];
      for j := 0 to |d.supersedes|
        invariant incoming.Keys == adrs.Keys
        invariant forall a, b :: b in adrs ==>
          (a in incoming[b] <==> a in was[b] || (a == d.id && b in d.supersedes[..j]))
      {
        var prior := d.supersedes[j];
        assert d in rows && Declared(rows, prior);
        incoming := incoming[prior := incoming[prior] + {d.id}];
      }
      assert d.supersedes[..|d.supersedes|] == d.supersedes;
      forall a, b ensures Link(rows[..i + 1], a, b) <==> Link(rows[..i], a, b) || (a == d.id && b in d.supersedes) {
        LinkMore(rows[..i], d, a, b);
      }
    }
    assert rows[..|rows|] == rows;
  }

  lemma LinkMore(rows: seq<Decision>, d: Decision, a: string, b: string)
    ensures Link(rows + [d], a, b) <==> Link(rows, a, b) || (a == d.id && b in d.supersedes)
  {
    var more := rows + [d];
    if Link(rows, a, b) {
      var r :| r in rows && r.id == a && b in r.supersedes;
      assert r in more;
    }
    if a == d.id && b in d.supersedes {
      assert d in more;
    }
  }

  // ----- The search

  ghost predicate Reaches(rows: seq<Decision>, a: string, b: string) {
    exists p :: Chain(rows, p) && p[0] == a && p[|p| - 1] == b
  }

  lemma ReachesSelf(rows: seq<Decision>, a: string)
    ensures Reaches(rows, a, a)
  {
    assert Chain(rows, [a]);
  }

  lemma ReachesOn(rows: seq<Decision>, a: string, b: string, c: string)
    requires Reaches(rows, a, b) && Link(rows, b, c)
    ensures Reaches(rows, a, c) && exists p :: Chain(rows, p) && |p| > 1 && p[0] == a && p[|p| - 1] == c
  {
    var p :| Chain(rows, p) && p[0] == a && p[|p| - 1] == b;
    var q := p + [c];
    forall i | 0 < i < |q| ensures Link(rows, q[i - 1], q[i]) {
      if i < |p| {
        assert q[i] == p[i];
      }
    }
    assert Chain(rows, q) && q[0] == a && q[|q| - 1] == c && |q| > 1;
  }

  /** Every successor of these ids is in `seen`. */
  ghost predicate Closed(rows: seq<Decision>, done: set<string>, seen: set<string>) {
    forall a, b :: a in done && Link(rows, a, b) ==> b in seen
  }

  lemma {:induction false} ClosedCatches(rows: seq<Decision>, key: string, seen: set<string>, p: seq<string>, k: nat)
    requires Closed(rows, {key} + seen, seen) && Chain(rows, p) && p[0] == key && 0 < k < |p|
    ensures p[k] in seen
    decreases k
  {
    if k > 1 {
      ClosedCatches(rows, key, seen, p, k - 1);
    }
    assert Link(rows, p[k - 1], p[k]);
  }

  function Elements(s: seq<string>): set<string> {
    set x | x in s
  }

  /** What the search keeps: everything met is reachable from `key`, which was not met again, and the successors of
      everything but what is still stacked were met. */
  ghost predicate Searching(rows: seq<Decision>, adrs: Table, key: string, stack: seq<string>, seen: set<string>,
                            open: set<string>) {
    && seen <= adrs.Keys && key in adrs && key !in seen
    && (forall s :: s in stack ==> s == key || s in seen)
    && (forall s :: s in seen ==> Reaches(rows, key, s))
    && Closed(rows, ({key} + seen) - Elements(stack) - open, seen)
  }

  lemma LinkInTable(rows: seq<Decision>, adrs: Table, a: string, b: string)
    requires IsTable(rows, adrs)
    ensures Link(rows, a, b) <==> a in adrs && b in adrs[a].supersedes
  {
  }

  /** Stacks the successors of `node` that were not met yet. */
  method Expand(rows: seq<Decision>, adrs: Table, key: string, node: string, below: seq<string>, met: set<string>)
    returns (stack: seq<string>, seen: set<string>, cyclic: bool)
    requires IsTable(rows, adrs) && References(rows) && node in adrs && Reaches(rows, key, node)
    requires Searching(rows, adrs, key, below, met, {node})
    ensures cyclic ==> Cyclic(rows, key)
    ensures !cyclic ==> Searching(rows, adrs, key, stack, seen, {})
    ensures !cyclic ==> (seen == met && stack == below) || (met < seen <= adrs.Keys)
  {
    hide Chain, Reaches;
    stack, seen, cyclic := below, met, false;
    var d := adrs[node];
    for j := 0 to |d.supersedes|
      invariant Searching(rows, adrs, key, stack, seen, {node})
      invariant forall l :: 0 <= l < j ==> d.supersedes[l] in seen
      invariant (seen == met && stack == below) || met < seen
    {
      var prior := d.supersedes[j];
      LinkInTable(rows, adrs, node, prior);
      ReachesOn(rows, key, node, prior);
      if prior == key {
        cyclic := true;
        return;
      }
      InTable(rows, adrs, prior);
      assert d in rows && Declared(rows, prior);
      if prior !in seen {
        assert Elements(stack + [prior]) == Elements(stack) + {prior};
        seen := seen + {prior};
        stack := stack + [prior];
      }
    }
    forall b | Link(rows, node, b) ensures b in seen {
      LinkInTable(rows, adrs, node, b);
    }
  }

  lemma Popped(rows: seq<Decision>, adrs: Table, key: string, stack: seq<string>, seen: set<string>)
    requires Searching(rows, adrs, key, stack, seen, {}) && stack != []
    ensures var node := stack[|stack| - 1];
      Searching(rows, adrs, key, stack[..|stack| - 1], seen, {node}) && node in adrs && Reaches(rows, key, node)
  {
    hide Reaches;
    var node, below := stack[|stack| - 1], stack[..|stack| - 1];
    ReachesSelf(rows, key);
    assert stack == below + [node];
    assert ({key} + seen) - Elements(stack) - {} == ({key} + seen) - Elements(below) - {node};
  }

  ghost predicate Cyclic(rows: seq<Decision>, key: string) {
    exists p :: Cycle(rows, p) && p[0] == key
  }

  /** Searches from one decision for a chain of replacements back to it. */
  method FindCycle(rows: seq<Decision>, adrs: Table, key: string) returns (cyclic: bool)
    requires IsTable(rows, adrs) && References(rows) && key in adrs
    ensures cyclic <==> Cyclic(rows, key)
  {
    var stack, seen: set<string> := [key], {};
    assert Searching(rows, adrs, key, stack, seen, {}) by {
      ReachesSelf(rows, key);
    }
    hide Reaches, Cyclic, Closed, IsTable;
    while stack != []
      invariant Searching(rows, adrs, key, stack, seen, {})
      decreases |adrs.Keys - seen|, |stack|
    {
      var node := stack[|stack| - 1];
      var below := stack[..|stack| - 1];
      Popped(rows, adrs, key, stack, seen);
      ghost var met := seen;
      stack, seen, cyclic := Expand(rows, adrs, key, node, below, seen);
      if cyclic {
        return;
      }
      if met < seen {
        Shrinks(adrs.Keys, met, seen);
      }
    }
    cyclic := false;
    NoCycle(rows, adrs, key, seen);
  }

  lemma NoCycle(rows: seq<Decision>, adrs: Table, key: string, seen: set<string>)
    requires Searching(rows, adrs, key, [], seen, {})
    ensures !Cyclic(rows, key)
  {
    forall p | Cycle(rows, p) && p[0] == key ensures false {
      assert ({key} + seen) - Elements([]) - {} == {key} + seen;
      ClosedCatches(rows, key, seen, p, |p| - 1);
    }
  }

  lemma Shrinks(all: set<string>, a: set<string>, b: set<string>)
    requires a < b <= all
    ensures |all - b| < |all - a|
  {
    var x :| x in b && x !in a;
    assert all - b <= all - a - {x};
    Fewer(all - b, all - a - {x});
  }

  lemma {:induction false} Fewer(a: set<string>, b: set<string>)
    requires a <= b
    ensures |a| <= |b|
    decreases a
  {
    if a != {} {
      var x :| x in a;
      Fewer(a - {x}, b - {x});
    }
  }

  // ----- The whole check

  method Validate(rows: seq<Decision>, sound: Decision -> bool) returns (ok: bool)
    ensures ok <==> Acceptable(rows, sound)
  {
    hide IsTable, Link, Cycle, References, UniqueIds;
    var adrs: Table;
    ok, adrs := BuildTable(rows, sound);
    if !ok {
      return;
    }
    ok := CheckReferences(rows, adrs);
    if !ok {
      return;
    }
    var incoming := Incoming(rows, adrs);
    for i := 0 to |rows|
      invariant forall k :: 0 <= k < i ==> (rows[k].status == Superseded <==> Replaced(rows, rows[k].id))
      invariant forall k :: 0 <= k < i ==> !Cyclic(rows, rows[k].id)
    {
      var d := rows[i];
      assert Declared(rows, d.id);
      InTable(rows, adrs, d.id);
      if d.status == Superseded && incoming[d.id] == {} {
        return false;
      }
      if incoming[d.id] != {} && d.status != Superseded {
        return false;
      }
      assert Replaced(rows, d.id) <==> incoming[d.id] != {};
      var cyclic := FindCycle(rows, adrs, d.id);
      if cyclic {
        return false;
      }
    }
    forall p | Cycle(rows, p) ensures false {
      CycleStartsAtRow(rows, p);
    }
    ok := true;
  }

  lemma CycleStartsAtRow(rows: seq<Decision>, p: seq<string>)
    requires Cycle(rows, p)
    ensures exists k :: 0 <= k < |rows| && rows[k].id == p[0]
  {
    assert Link(rows, p[1 - 1], p[1]);
  }

  // ----- What an accepted registry shows

  function Ids(rows: seq<Decision>): set<string> {
    set r | r in rows :: r.id
  }

  predicate Live(rows: seq<Decision>, id: string) {
    exists r :: r in rows && r.id == id && r.status != Superseded
  }

  lemma ChainVisitsOnce(rows: seq<Decision>, p: seq<string>, i: nat, j: nat)
    requires Acyclic(rows) && Chain(rows, p) && i < j < |p|
    ensures p[i] != p[j]
  {
    var q := p[i..j + 1];
    forall k | 0 < k < |q| ensures Link(rows, q[k - 1], q[k]) {
      assert q[k] == p[i + k] && q[k - 1] == p[i + k - 1];
    }
    assert !Cycle(rows, q);
  }

  lemma {:induction false} DistinctFits(p: seq<string>, all: set<string>)
    requires (forall i, j :: 0 <= i < j < |p| ==> p[i] != p[j]) && forall x :: x in p ==> x in all
    ensures |p| <= |all|
    decreases |p|
  {
    if p != [] {
      DistinctFits(p[1..], all - {p[0]});
    }
  }

  lemma ChainFits(rows: seq<Decision>, p: seq<string>)
    requires Acyclic(rows) && Chain(rows, p) && forall x :: x in p ==> x in Ids(rows)
    ensures |p| <= |Ids(rows)|
  {
    forall i, j | 0 <= i < j < |p| ensures p[i] != p[j] {
      ChainVisitsOnce(rows, p, i, j);
    }
    DistinctFits(p, Ids(rows));
  }

  lemma ChainGrows(rows: seq<Decision>, a: string, p: seq<string>)
    requires Chain(rows, p) && Link(rows, a, p[0])
    ensures Chain(rows, [a] + p)
  {
    var q := [a] + p;
    forall k | 0 < k < |q| ensures Link(rows, q[k - 1], q[k]) {
      if k > 1 {
        assert q[k] == p[k - 1] && q[k - 1] == p[k - 2];
      }
    }
  }

  lemma ChainStarts(rows: seq<Decision>, p: seq<string>)
    requires Chain(rows, p)
    ensures |p| > 0
  {
  }

  lemma LinkFrom(rows: seq<Decision>, a: string, b: string)
    requires Link(rows, a, b)
    ensures a in Ids(rows)
  {
  }

  lemma {:induction false} GrowToLive(rows: seq<Decision>, p: seq<string>) returns (q: seq<string>)
    requires UniqueIds(rows) && Marked(rows) && Acyclic(rows) && Chain(rows, p) && forall x :: x in p ==> x in Ids(rows)
    ensures Chain(rows, q) && q[|q| - 1] == p[|p| - 1] && Live(rows, q[0])
    decreases |Ids(rows)| + 1 - |p|
  {
    hide Acyclic, UniqueIds, Chain, Link;
    ChainFits(rows, p);
    ChainStarts(rows, p);
    assert p[0] in Ids(rows);
    var r :| r in rows && r.id == p[0];
    if r.status != Superseded {
      q := p;
    } else {
      assert Replaced(rows, p[0]);
      var a :| Link(rows, a, p[0]);
      ChainGrows(rows, a, p);
      LinkFrom(rows, a, p[0]);
      q := GrowToLive(rows, [a] + p);
    }
  }

  /** Every decision of an accepted registry, and so every superseded one, is reached by a chain of replacements that
      starts at a decision still in force. */
  lemma ReplacedByLive(rows: seq<Decision>, sound: Decision -> bool, d: Decision) returns (p: seq<string>)
    requires Acceptable(rows, sound) && d in rows
    ensures Chain(rows, p) && Live(rows, p[0]) && p[|p| - 1] == d.id
    ensures d.status == Superseded ==> |p| > 1
  {
    p := GrowToLive(rows, [d.id]);
  }
}
