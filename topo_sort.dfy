/** A dependency ordering for the merged edge map.

    The regenerator hands its edge map to a third-party topological sort that is
    not part of this model. In its place the model orders the nodes itself, in
    rounds: every round takes, in the order the nodes are listed, all nodes whose
    dependencies are already placed. A node's dependency on itself is ignored (a
    table whose foreign key refers to itself must not block the ordering). When a
    round finds nothing to place while nodes remain, the remaining nodes depend on
    each other in a cycle and the ordering fails. */
module TopoSort {
  import opened Wrappers

  /** The nodes that must be placed before `x`: its dependencies other than itself.
      A node that is not a key of the map (a pure dependency) has none. */
  function DepsOf<T(==,!new)>(deps: map<T, set<T>>, x: T): set<T>
  {
    (if x in deps then deps[x] else {}) - {x}
  }

  predicate Ready<T(==,!new)>(deps: map<T, set<T>>, done: set<T>, x: T)
  {
    DepsOf(deps, x) <= done
  }

  /** The nodes of `pending` that can be placed now, in their listed order. */
  function ReadyOf<T(==,!new)>(deps: map<T, set<T>>, done: set<T>, pending: seq<T>): (r: seq<T>)
    ensures forall x :: x in r <==> x in pending && Ready(deps, done, x)
  {
    if pending == [] then []
    else
      (if Ready(deps, done, pending[0]) then [pending[0]] else []) + ReadyOf(deps, done, pending[1..])
  }

  /** The nodes of `pending` that must wait for a later round. */
  function Waiting<T(==,!new)>(deps: map<T, set<T>>, done: set<T>, pending: seq<T>): (r: seq<T>)
    ensures forall x :: x in r <==> x in pending && !Ready(deps, done, x)
    ensures multiset(ReadyOf(deps, done, pending)) + multiset(r) == multiset(pending)
  {
    if pending == [] then []
    else
      var rest := Waiting(deps, done, pending[1..]);
      assert pending == [pending[0]] + pending[1..];
      (if Ready(deps, done, pending[0]) then [] else [pending[0]]) + rest
  }

  /** The nodes listed in `s`. */
  function Elems<T(==,!new)>(s: seq<T>): (r: set<T>)
    ensures forall x :: x in r <==> x in s
  {
    set x | x in s
  }

  /** A round that places some nodes leaves fewer pending and continues with
      the rest. */
  lemma RoundsStep<T(!new)>(deps: map<T, set<T>>, done: set<T>, pending: seq<T>)
    requires ReadyOf(deps, done, pending) != []
    ensures var ready, waiting := ReadyOf(deps, done, pending), Waiting(deps, done, pending);
      |waiting| < |pending|
      && Rounds(deps, done, pending) ==
        match Rounds(deps, done + Elems(ready), waiting)
        case None => None
        case Some(rest) => Some(ready + rest)
  {
    var ready, waiting := ReadyOf(deps, done, pending), Waiting(deps, done, pending);
    assert |multiset(ready)| + |multiset(waiting)| == |multiset(pending)|;
  }

  /** Places every node of `pending`, round by round, given that the nodes in
      `done` are already placed; `None` when the remaining nodes are stuck. */
  function Rounds<T(==,!new)>(deps: map<T, set<T>>, done: set<T>, pending: seq<T>): (r: Option<seq<T>>)
    decreases |pending|
  {
    if pending == [] then Some([])
    else
      var ready := ReadyOf(deps, done, pending);
      if ready == [] then None
      else
        var waiting := Waiting(deps, done, pending);
        assert |ready| + |waiting| == |pending| by {
          assert |multiset(ready)| + |multiset(waiting)| == |multiset(pending)|;
        }
        match Rounds(deps, done + Elems(ready), waiting)
        case None => None
        case Some(rest) => Some(ready + rest)
  }

  /** Every node of `order` comes after all its dependencies (other than itself),
      or those dependencies were placed before `order` started. */
  ghost predicate DepsFirst<T(!new)>(deps: map<T, set<T>>, done: set<T>, order: seq<T>)
  {
    forall i, d :: 0 <= i < |order| && d in DepsOf(deps, order[i]) ==> d in done || d in order[..i]
  }

  lemma {:induction false} RoundsSound<T(!new)>(deps: map<T, set<T>>, done: set<T>, pending: seq<T>)
    requires Rounds(deps, done, pending).Some?
    ensures multiset(Rounds(deps, done, pending).value) == multiset(pending)
    ensures DepsFirst(deps, done, Rounds(deps, done, pending).value)
    decreases |pending|
  {
    if pending != [] {
      var ready := ReadyOf(deps, done, pending);
      var waiting := Waiting(deps, done, pending);
      var done' := done + Elems(ready);
      assert |multiset(ready)| + |multiset(waiting)| == |multiset(pending)|;
      RoundsSound(deps, done', waiting);
      var rest := Rounds(deps, done', waiting).value;
      assert Rounds(deps, done, pending).value == ready + rest;
      DepsFirstAppend(deps, done, ready, rest);
    }
  }

  /** A round of ready nodes followed by an ordering that may rely on them puts
      every dependency first. */
  lemma DepsFirstAppend<T(!new)>(deps: map<T, set<T>>, done: set<T>, ready: seq<T>, rest: seq<T>)
    requires forall x :: x in ready ==> Ready(deps, done, x)
    requires DepsFirst(deps, done + Elems(ready), rest)
    ensures DepsFirst(deps, done, ready + rest)
  {
    var order := ready + rest;
    forall i, d | 0 <= i < |order| && d in DepsOf(deps, order[i])
      ensures d in done || d in order[..i]
    {
      if i < |ready| {
        assert order[i] == ready[i] && order[i] in ready;
      } else {
        var j := i - |ready|;
        assert order[i] == rest[j];
        assert d in done + Elems(ready) || d in rest[..j];
        assert order[..i] == ready + rest[..j];
      }
    }
  }

  /** The model's ordering of `nodes` under the dependency map `deps`. */
  function Order<T(==,!new)>(nodes: seq<T>, deps: map<T, set<T>>): Option<seq<T>>
  {
    Rounds(deps, {}, nodes)
  }

  /** An ordering, when there is one, lists exactly the given nodes (with their
      multiplicities) and puts every dependency of a node strictly before it. */
  lemma OrderSound<T(!new)>(nodes: seq<T>, deps: map<T, set<T>>)
    requires Order(nodes, deps).Some?
    ensures multiset(Order(nodes, deps).value) == multiset(nodes)
    ensures var o := Order(nodes, deps).value;
      forall i, d :: 0 <= i < |o| && d in DepsOf(deps, o[i]) ==> d in o[..i]
  {
    RoundsSound(deps, {}, nodes);
  }

  /** A rearrangement of a list without repetitions has none either, and
      lists the same elements. */
  lemma PermutationDistinct<T>(s: seq<T>, t: seq<T>)
    requires multiset(s) == multiset(t)
    requires forall i, j :: 0 <= i < j < |s| ==> s[i] != s[j]
    ensures forall x :: x in t <==> x in s
    ensures forall i, j :: 0 <= i < j < |t| ==> t[i] != t[j]
  {
    forall x
      ensures x in t <==> x in s
    {
      assert x in t <==> x in multiset(t);
      assert x in s <==> x in multiset(s);
    }
    forall i, j | 0 <= i < j < |t|
      ensures t[i] != t[j]
    {
      DistinctCount(s, t[i]);
      RepeatCounted(t, i, j);
    }
  }

  /** An element listed at two positions occurs at least twice. */
  lemma RepeatCounted<T>(t: seq<T>, i: nat, j: nat)
    requires i < j < |t|
    ensures t[i] == t[j] ==> multiset(t)[t[i]] >= 2
  {
    if t[i] == t[j] {
      assert t == t[..i] + [t[i]] + t[i + 1..j] + [t[j]] + t[j + 1..];
    }
  }

  /** In a list without repetitions each listed element occurs once. */
  lemma {:induction false} DistinctCount<T>(s: seq<T>, x: T)
    requires forall i, j :: 0 <= i < j < |s| ==> s[i] != s[j]
    ensures multiset(s)[x] <= 1
  {
    if s != [] {
      DistinctCount(s[1..], x);
      assert s == [s[0]] + s[1..];
      if s[0] == x {
        assert x !in s[1..];
      }
    }
  }

  /** The first position of `x` in `s`. */
  function IndexOf<T(==,!new)>(s: seq<T>, x: T): (i: nat)
    requires x in s
    ensures i < |s| && s[i] == x && x !in s[..i]
  {
    if s[0] == x then 0 else 1 + IndexOf(s[1..], x)
  }

  /** In an ordering, a node's dependency is first listed before the node is. */
  lemma DependencyFirstListed<T(!new)>(nodes: seq<T>, deps: map<T, set<T>>, a: T, b: T)
    requires Order(nodes, deps).Some?
    requires a in nodes && b in DepsOf(deps, a)
    ensures var o := Order(nodes, deps).value;
      a in o && b in o && IndexOf(o, b) < IndexOf(o, a)
  {
    var o := Order(nodes, deps).value;
    OrderSound(nodes, deps);
    assert a in multiset(o);
    var i := IndexOf(o, a);
    assert b in o[..i];
    var k :| 0 <= k < i && o[k] == b;
    assert IndexOf(o, b) <= k by {
      assert o[k] == b;
    }
  }

  /** A non-empty set of nodes each of which depends on another node of the
      set: no node of it can ever be placed first. Every cycle of the graph
      gives one, and every such set holds a cycle. */
  ghost predicate Stuck<T(!new)>(deps: map<T, set<T>>, S: set<T>)
  {
    S != {} && forall x {:trigger Blocked(deps, S, x)} :: x in S ==> Blocked(deps, S, x)
  }

  /** `x` depends on a node of `S`. */
  ghost predicate Blocked<T(!new)>(deps: map<T, set<T>>, S: set<T>, x: T)
  {
    DepsOf(deps, x) * S != {}
  }

  /** When the rounds fail and the dependencies of the pending nodes are all
      placed or pending, the nodes that are left are stuck. */
  lemma {:induction false} RoundsStuck<T(!new)>(deps: map<T, set<T>>, done: set<T>, pending: seq<T>)
    returns (S: set<T>)
    requires Closed(deps, done, pending)
    requires Rounds(deps, done, pending) == None
    ensures S <= Elems(pending) && Stuck(deps, S)
    decreases |pending|
  {
    var ready := ReadyOf(deps, done, pending);
    if ready == [] {
      S := Elems(pending);
      NoneReadyStuck(deps, done, pending);
    } else {
      var waiting := Waiting(deps, done, pending);
      RoundsStep(deps, done, pending);
      ClosedAfterRound(deps, done, pending);
      S := RoundsStuck(deps, done + Elems(ready), waiting);
    }
  }

  /** The dependencies of the pending nodes are placed or pending. */
  ghost predicate Closed<T(!new)>(deps: map<T, set<T>>, done: set<T>, pending: seq<T>)
  {
    forall x :: x in pending ==> DepsOf(deps, x) <= done + Elems(pending)
  }

  /** When no pending node is ready, the pending nodes are stuck. */
  lemma NoneReadyStuck<T(!new)>(deps: map<T, set<T>>, done: set<T>, pending: seq<T>)
    requires Closed(deps, done, pending)
    requires pending != [] && ReadyOf(deps, done, pending) == []
    ensures Stuck(deps, Elems(pending))
  {
    var S := Elems(pending);
    assert S != {} by { assert pending[0] in S; }
    forall x | x in S
      ensures Blocked(deps, S, x)
    {
      assert x !in ReadyOf(deps, done, pending);
      WaitsOnPending(deps, done, pending, x);
    }
  }

  /** A pending node that is not ready, while its dependencies are placed or
      pending, waits for a pending node. */
  lemma WaitsOnPending<T(!new)>(deps: map<T, set<T>>, done: set<T>, pending: seq<T>, x: T)
    requires Closed(deps, done, pending)
    requires x in pending && !Ready(deps, done, x)
    ensures DepsOf(deps, x) * Elems(pending) != {}
  {
    var d :| d in DepsOf(deps, x) && d !in done;
    assert d in DepsOf(deps, x) * Elems(pending);
  }

  /** A round keeps the dependencies of the nodes still waiting placed or
      pending. */
  lemma ClosedAfterRound<T(!new)>(deps: map<T, set<T>>, done: set<T>, pending: seq<T>)
    requires Closed(deps, done, pending)
    ensures Closed(deps, done + Elems(ReadyOf(deps, done, pending)), Waiting(deps, done, pending))
  {
    var ready, waiting := ReadyOf(deps, done, pending), Waiting(deps, done, pending);
    forall x, d | x in waiting && d in DepsOf(deps, x)
      ensures d in done + Elems(ready) + Elems(waiting)
    {
      assert x in pending;
      if d !in done && d !in ready {
        assert d in pending;
      }
    }
  }

  /** A stuck set among the pending nodes, none of them placed, makes the
      rounds fail. */
  lemma {:induction false} StuckBlocks<T(!new)>(deps: map<T, set<T>>, done: set<T>, pending: seq<T>, S: set<T>)
    requires S <= Elems(pending) && Stuck(deps, S) && S * done == {}
    ensures Rounds(deps, done, pending) == None
    decreases |pending|
  {
    var x0 :| x0 in S;
    assert x0 in pending;
    var ready := ReadyOf(deps, done, pending);
    if ready != [] {
      RoundsStep(deps, done, pending);
      StuckWaits(deps, done, pending, S);
      StuckBlocks(deps, done + Elems(ready), Waiting(deps, done, pending), S);
    }
  }

  /** A round places no node of a stuck set that is not yet placed. */
  lemma StuckWaits<T(!new)>(deps: map<T, set<T>>, done: set<T>, pending: seq<T>, S: set<T>)
    requires S <= Elems(pending) && Stuck(deps, S) && S * done == {}
    ensures S <= Elems(Waiting(deps, done, pending))
    ensures S * (done + Elems(ReadyOf(deps, done, pending))) == {}
  {
    forall x | x in S
      ensures x in Waiting(deps, done, pending) && x !in ReadyOf(deps, done, pending)
    {
      assert Blocked(deps, S, x);
      var d :| d in DepsOf(deps, x) * S;
      assert d !in done;
      assert !Ready(deps, done, x);
    }
  }

  /** When every dependency of a listed node is listed, the ordering fails
      exactly when some listed nodes are stuck, that is, when they depend on
      each other in a cycle. */
  lemma OrderFailsIffStuck<T(!new)>(nodes: seq<T>, deps: map<T, set<T>>)
    requires Closed(deps, {}, nodes)
    ensures Order(nodes, deps) == None <==> exists S :: S <= Elems(nodes) && Stuck(deps, S)
  {
    if Order(nodes, deps) == None {
      var S := RoundsStuck(deps, {}, nodes);
    }
    if S: set<T> :| S <= Elems(nodes) && Stuck(deps, S) {
      StuckBlocks(deps, {}, nodes, S);
    }
  }

  // ---------------------------------------------------------------------------
  // The edge map built from (dependent, dependency) pairs
  // ---------------------------------------------------------------------------

  /** The edge map after folding in the pairs one by one: each dependent gains
      the dependency of its pair. */
  function MergeEdges<T(==,!new)>(ps: seq<(T, T)>): map<T, set<T>>
  {
    if ps == [] then map[]
    else
      var m := MergeEdges(ps[..|ps| - 1]);
      var (a, b) := ps[|ps| - 1];
      m[a := (if a in m then m[a] else {}) + {b}]
  }

  /** The edge map sends each dependent to exactly the dependencies it appears
      with in some pair: duplicates collapse and nothing else gets in. */
  lemma {:induction false} MergeEdgesSpec<T(!new)>(ps: seq<(T, T)>)
    ensures forall a :: a in MergeEdges(ps) <==> exists b :: (a, b) in ps
    ensures forall a, b :: a in MergeEdges(ps) ==> (b in MergeEdges(ps)[a] <==> (a, b) in ps)
  {
    if ps != [] {
      var init := ps[..|ps| - 1];
      var last := ps[|ps| - 1];
      MergeEdgesSpec(init);
      assert ps == init + [last];
      assert forall q :: q in ps <==> q in init || q == last;
      var m := MergeEdges(ps);
      forall x
        ensures x in m <==> exists y :: (x, y) in ps
      {
        if x == last.0 {
          assert (x, last.1) in ps;
        } else if x in m {
          var y :| (x, y) in init;
          assert (x, y) in ps;
        }
      }
    }
  }

  /** The edge map depends only on the set of pairs, so neither the order of
      the rows nor repeated rows change it. */
  lemma MergeEdgesOrderFree<T(!new)>(ps1: seq<(T, T)>, ps2: seq<(T, T)>)
    requires forall p :: p in ps1 <==> p in ps2
    ensures MergeEdges(ps1) == MergeEdges(ps2)
  {
    MergeEdgesSpec(ps1);
    MergeEdgesSpec(ps2);
    var m1, m2 := MergeEdges(ps1), MergeEdges(ps2);
    assert m1.Keys == m2.Keys;
    forall a | a in m1
      ensures m1[a] == m2[a]
    {
      forall b ensures b in m1[a] <==> b in m2[a] {
      }
    }
  }

  /** Folding in one more pair. */
  lemma MergeEdgesStep<T(!new)>(ps: seq<(T, T)>, a: T, b: T)
    ensures MergeEdges(ps + [(a, b)]) ==
      var m := MergeEdges(ps); m[a := (if a in m then m[a] else {}) + {b}]
    ensures NodesOf(ps + [(a, b)]) == AddNew(AddNew(NodesOf(ps), a), b)
  {
    assert (ps + [(a, b)])[..|ps|] == ps;
  }

  /** Appends `x` unless it is already listed. */
  function AddNew<T(==,!new)>(s: seq<T>, x: T): (r: seq<T>)
    ensures x in r && forall y :: y in r <==> y in s || y == x
  {
    if x in s then s else s + [x]
  }

  /** The graph's nodes in order of first appearance (for each pair, its
      dependent before its dependency). */
  function NodesOf<T(==,!new)>(ps: seq<(T, T)>): (r: seq<T>)
  {
    if ps == [] then []
    else
      var (a, b) := ps[|ps| - 1];
      AddNew(AddNew(NodesOf(ps[..|ps| - 1]), a), b)
  }

  /** Every node of the edge map (key or dependency) is listed, once. */
  lemma {:induction false} NodesOfSpec<T(!new)>(ps: seq<(T, T)>)
    ensures forall x :: x in NodesOf(ps) <==> exists p :: p in ps && (x == p.0 || x == p.1)
    ensures forall i, j :: 0 <= i < j < |NodesOf(ps)| ==> NodesOf(ps)[i] != NodesOf(ps)[j]
  {
    if ps != [] {
      var init := ps[..|ps| - 1];
      NodesOfSpec(init);
      var p := ps[|ps| - 1];
      assert ps == init + [p];
      AddNewDistinct(NodesOf(init), p.0);
      AddNewDistinct(AddNew(NodesOf(init), p.0), p.1);
      forall x | x in NodesOf(ps)
        ensures exists q :: q in ps && (x == q.0 || x == q.1)
      {
        if x !in NodesOf(init) {
          assert x == p.0 || x == p.1;
        } else {
          var q :| q in init && (x == q.0 || x == q.1);
          assert q in ps;
        }
      }
    }
  }

  lemma AddNewDistinct<T(!new)>(s: seq<T>, x: T)
    requires forall i, j :: 0 <= i < j < |s| ==> s[i] != s[j]
    ensures var r := AddNew(s, x); forall i, j :: 0 <= i < j < |r| ==> r[i] != r[j]
  {
  }

  /** What `_read_edges_` returns: the nodes of the merged edge map in an order
      that puts every dependency first, or `None` when the rows form a cycle
      (`OrderedNodesFailsIffCyclic`). */
  function OrderedNodes<T(==,!new)>(ps: seq<(T, T)>): Option<seq<T>>
  {
    Order(NodesOf(ps), MergeEdges(ps))
  }

  /** An ordering lists every node of the edge rows exactly once, and every
      dependency of a node other than the node itself before it. */
  lemma OrderedNodesSound<T(!new)>(ps: seq<(T, T)>)
    requires OrderedNodes(ps).Some?
    ensures var o := OrderedNodes(ps).value;
      (forall x :: x in o <==> exists p :: p in ps && (x == p.0 || x == p.1))
      && (forall i, j :: 0 <= i < j < |o| ==> o[i] != o[j])
      && (forall i, j :: 0 <= j < |o| && 0 <= i < |o| && o[i] != o[j] && (o[j], o[i]) in ps ==> i < j)
  {
    var o := OrderedNodes(ps).value;
    var nodes := NodesOf(ps);
    OrderSound(nodes, MergeEdges(ps));
    NodesOfSpec(ps);
    PermutationDistinct(nodes, o);
    OrderedDepsFirst(ps);
  }

  lemma OrderedDepsFirst<T(!new)>(ps: seq<(T, T)>)
    requires OrderedNodes(ps).Some?
    ensures var o := OrderedNodes(ps).value;
      forall i, j :: 0 <= j < |o| && 0 <= i < |o| && o[i] != o[j] && (o[j], o[i]) in ps ==> i < j
  {
    var o := OrderedNodes(ps).value;
    var edges := MergeEdges(ps);
    OrderSound(NodesOf(ps), edges);
    NodesOfSpec(ps);
    PermutationDistinct(NodesOf(ps), o);
    forall i, j | 0 <= j < |o| && 0 <= i < |o| && o[i] != o[j] && (o[j], o[i]) in ps
      ensures i < j
    {
      MergeEdgesHas(ps, o[j], o[i]);
      assert o[i] in DepsOf(edges, o[j]);
      assert o[i] in o[..j];
      var k :| 0 <= k < j && o[..j][k] == o[i];
      assert o[k] == o[i];
    }
  }

  /** A non-empty set of nodes each of which depends, by some row, on another
      node of the set: the rows hold a cycle through these nodes. */
  ghost predicate ReferenceCycle<T(!new)>(ps: seq<(T, T)>, S: set<T>)
  {
    S != {} && forall x {:trigger Refers(ps, S, x)} :: x in S ==> Refers(ps, S, x)
  }

  /** A row of `x` names another node of `S`. */
  ghost predicate Refers<T(!new)>(ps: seq<(T, T)>, S: set<T>, x: T)
  {
    exists y :: y in S && y != x && (x, y) in ps
  }

  /** The rows hold a cycle of dependencies between distinct nodes. */
  ghost predicate Cyclic<T(!new)>(ps: seq<(T, T)>)
  {
    exists S :: ReferenceCycle(ps, S)
  }

  /** The dependencies the ordering waits for are the rows' other nodes. */
  lemma DepsOfEdges<T(!new)>(ps: seq<(T, T)>, x: T, y: T)
    ensures y in DepsOf(MergeEdges(ps), x) <==> y != x && (x, y) in ps
  {
    MergeEdgesSpec(ps);
  }

  /** A set of nodes is stuck under the edge map exactly when the rows hold a
      cycle through it. */
  lemma StuckIffCycle<T(!new)>(ps: seq<(T, T)>, S: set<T>)
    ensures Stuck(MergeEdges(ps), S) <==> ReferenceCycle(ps, S)
  {
    if Stuck(MergeEdges(ps), S) {
      StuckIsCycle(ps, S);
    }
    if ReferenceCycle(ps, S) {
      CycleIsStuck(ps, S);
    }
  }

  lemma StuckIsCycle<T(!new)>(ps: seq<(T, T)>, S: set<T>)
    requires Stuck(MergeEdges(ps), S)
    ensures ReferenceCycle(ps, S)
  {
    var m := MergeEdges(ps);
    forall x | x in S
      ensures Refers(ps, S, x)
    {
      assert Blocked(m, S, x);
      var y :| y in DepsOf(m, x) * S;
      DepsOfEdges(ps, x, y);
    }
  }

  lemma CycleIsStuck<T(!new)>(ps: seq<(T, T)>, S: set<T>)
    requires ReferenceCycle(ps, S)
    ensures Stuck(MergeEdges(ps), S)
  {
    var m := MergeEdges(ps);
    forall x | x in S
      ensures Blocked(m, S, x)
    {
      assert Refers(ps, S, x);
      var y :| y in S && y != x && (x, y) in ps;
      DepsOfEdges(ps, x, y);
      assert y in DepsOf(m, x) * S;
    }
  }

  /** Every dependency of a node of the rows is a node of the rows, and so is
      every node of a cycle. */
  lemma NodesClosed<T(!new)>(ps: seq<(T, T)>)
    ensures Closed(MergeEdges(ps), {}, NodesOf(ps))
    ensures forall S :: ReferenceCycle(ps, S) ==> S <= Elems(NodesOf(ps))
  {
    NodesOfSpec(ps);
    var m, nodes := MergeEdges(ps), NodesOf(ps);
    forall x, d | x in nodes && d in DepsOf(m, x)
      ensures d in Elems(nodes)
    {
      DepsOfEdges(ps, x, d);
    }
    forall S, x | ReferenceCycle(ps, S) && x in S
      ensures x in Elems(nodes)
    {
      assert Refers(ps, S, x);
      var y :| y in S && y != x && (x, y) in ps;
    }
  }

  /** The ordering of the rows fails exactly when the rows hold a cycle of
      dependencies between distinct nodes, as a topological sort raises
      exactly on a cycle. */
  lemma OrderedNodesFailsIffCyclic<T(!new)>(ps: seq<(T, T)>)
    ensures OrderedNodes(ps) == None <==> Cyclic(ps)
  {
    var m, nodes := MergeEdges(ps), NodesOf(ps);
    NodesClosed(ps);
    OrderFailsIffStuck(nodes, m);
    if OrderedNodes(ps) == None {
      var S :| S <= Elems(nodes) && Stuck(m, S);
      StuckIffCycle(ps, S);
    }
    if Cyclic(ps) {
      var S :| ReferenceCycle(ps, S);
      StuckIffCycle(ps, S);
    }
  }

  /** The row of the i-th node of `c` names the next node, the last node's
      row naming the first. */
  ghost predicate Link<T(!new)>(ps: seq<(T, T)>, c: seq<T>, i: nat)
    requires i < |c|
  {
    var next := c[(i + 1) % |c|];
    c[i] != next && (c[i], next) in ps
  }

  /** A cycle of any length among distinct neighbours makes the ordering
      fail. */
  lemma CycleRejected<T(!new)>(ps: seq<(T, T)>, c: seq<T>)
    requires c != []
    requires forall i :: 0 <= i < |c| ==> Link(ps, c, i)
    ensures OrderedNodes(ps) == None
  {
    var S := Elems(c);
    assert S != {} by { assert c[0] in S; }
    forall x | x in S
      ensures Refers(ps, S, x)
    {
      var i :| 0 <= i < |c| && c[i] == x;
      assert Link(ps, c, i);
      assert c[(i + 1) % |c|] in S;
    }
    assert ReferenceCycle(ps, S);
    OrderedNodesFailsIffCyclic(ps);
  }

  /** Each pair is an edge of the map. */
  lemma MergeEdgesHas<T(!new)>(ps: seq<(T, T)>, a: T, b: T)
    requires (a, b) in ps
    ensures a in MergeEdges(ps) && b in MergeEdges(ps)[a]
  {
    MergeEdgesSpec(ps);
  }

}
