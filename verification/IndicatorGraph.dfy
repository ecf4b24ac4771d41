/** The indicator graph: layered topological order and execution along it. */
module IndicatorGraph {
  import opened Sequences
  import Resampling

  /** `parameters` stands for the node's parameter hash, `timeframe` for the configured timeframe of its role. */
  datatype Node = Node(id: nat, plugin: nat, role: nat, dependsOn: seq<nat>, parameters: nat, order: int,
                       timeframe: Option<nat>)

  datatype GraphError = DuplicateId | UnknownPlugin | MissingDependency | Cyclic

  datatype Ordering = Ordered(nodes: seq<Node>) | Refused(error: GraphError)

  predicate DistinctIds(nodes: seq<Node>) {
    forall i, j :: 0 <= i < j < |nodes| ==> nodes[i].id != nodes[j].id
  }

  function Ids(nodes: seq<Node>): set<nat> {
    set n | n in nodes :: n.id
  }

  predicate Ready(n: Node, completed: set<nat>) {
    forall k :: 0 <= k < |n.dependsOn| ==> n.dependsOn[k] in completed
  }

  predicate ByOrder(a: Node, b: Node) {
    a.order < b.order || (a.order == b.order && a.id <= b.id)
  }

  /** The nodes that are ready, or that are not. */
  function Split(nodes: seq<Node>, completed: set<nat>, ready: bool): seq<Node> {
    if nodes == [] then []
    else (if Ready(nodes[0], completed) == ready then [nodes[0]] else []) + Split(nodes[1..], completed, ready)
  }

  function Layer(nodes: seq<Node>, completed: set<nat>): seq<Node> {
    Sort(ByOrder, Split(nodes, completed, true))
  }

  /** Layer after layer; `None` when nothing that remains is ready. */
  function Layers(remaining: seq<Node>, completed: set<nat>): Option<seq<Node>>
    decreases |remaining|
  {
    if remaining == [] then Some([])
    else
      var layer, rest := Layer(remaining, completed), Split(remaining, completed, false);
      SplitSizes(remaining, completed);
      if layer == [] then None
      else
        After(layer, Layers(rest, completed + Ids(layer)))
  }

  function After(first: seq<Node>, later: Option<seq<Node>>): Option<seq<Node>> {
    if later.None? then None else Some(first + later.value)
  }

  lemma AfterNothing(later: Option<seq<Node>>)
    ensures After([], later) == later
  {
    assert later.Some? ==> [] + later.value == later.value;
  }

  lemma AfterTwice(a: seq<Node>, b: seq<Node>, later: Option<seq<Node>>)
    ensures After(a, After(b, later)) == After(a + b, later)
  {
    assert later.Some? ==> (a + b) + later.value == a + (b + later.value);
  }

  lemma {:induction false} SplitSizes(nodes: seq<Node>, completed: set<nat>)
    ensures |Split(nodes, completed, true)| + |Split(nodes, completed, false)| == |nodes|
  {
    if nodes != [] {
      SplitSizes(nodes[1..], completed);
    }
  }

  // ----- The loop

  lemma SplitStep(nodes: seq<Node>, completed: set<nat>, k: nat)
    requires k < |nodes|
    ensures Split(nodes[k..], completed, true)
         == (if Ready(nodes[k], completed) then [nodes[k]] else []) + Split(nodes[k + 1..], completed, true)
  {
    assert nodes[k..][1..] == nodes[k + 1..];
  }

  method ReadyNodes(remaining: seq<Node>, completed: set<nat>) returns (ready: seq<Node>)
    ensures ready == Layer(remaining, completed)
  {
    var found: seq<Node> := [];
    assert remaining[0..] == remaining;
    for k := 0 to |remaining|
      invariant found + Split(remaining[k..], completed, true) == Split(remaining, completed, true)
    {
      SplitStep(remaining, completed, k);
      if Ready(remaining[k], completed) {
        found := found + [remaining[k]];
      }
    }
    assert remaining[|remaining|..] == [] && found + Split([], completed, true) == found;
    ready := Sort(ByOrder, found);
  }

  /** Delete one layer from what remains. */
  method Complete(remaining: seq<Node>, completed: set<nat>, ready: seq<Node>)
    returns (rest: seq<Node>, after: set<nat>)
    requires DistinctIds(remaining) && ready == Layer(remaining, completed)
    ensures rest == Split(remaining, completed, false) && after == completed + Ids(ready)
  {
    rest, after := remaining, completed;
    WithoutNone(remaining);
    assert Ids(ready[..0]) == {};
    for k := 0 to |ready|
      invariant after == completed + Ids(ready[..k])
      invariant rest == Without(remaining, Ids(ready[..k]))
    {
      assert ready[..k + 1] == ready[..k] + [ready[k]];
      assert Ids(ready[..k + 1]) == Ids(ready[..k]) + {ready[k].id};
      WithoutTwice(remaining, Ids(ready[..k]), {ready[k].id});
      after := after + {ready[k].id};
      rest := Without(rest, {ready[k].id});
    }
    assert ready[..|ready|] == ready;
    LayerIds(remaining, completed);
    WithoutReady(remaining, completed, Ids(ready));
  }

  function Without(nodes: seq<Node>, gone: set<nat>): seq<Node> {
    if nodes == [] then [] else (if nodes[0].id in gone then [] else [nodes[0]]) + Without(nodes[1..], gone)
  }

  lemma {:induction false} WithoutNone(nodes: seq<Node>)
    ensures Without(nodes, {}) == nodes
  {
    if nodes != [] {
      WithoutNone(nodes[1..]);
    }
  }

  lemma {:induction false} WithoutTwice(nodes: seq<Node>, a: set<nat>, b: set<nat>)
    ensures Without(Without(nodes, a), b) == Without(nodes, a + b)
  {
    if nodes != [] {
      WithoutTwice(nodes[1..], a, b);
      var rest := Without(nodes[1..], a);
      if nodes[0].id !in a {
        assert Without(nodes, a) == [nodes[0]] + rest && ([nodes[0]] + rest)[1..] == rest;
      } else {
        assert Without(nodes, a) == [] + rest == rest;
      }
    }
  }

  lemma {:induction false} SplitMembers(nodes: seq<Node>, completed: set<nat>, ready: bool)
    ensures forall n :: n in Split(nodes, completed, ready) <==> n in nodes && Ready(n, completed) == ready
  {
    if nodes != [] {
      var rest := Split(nodes[1..], completed, ready);
      SplitMembers(nodes[1..], completed, ready);
      forall n ensures n in Split(nodes, completed, ready) <==> n in nodes && Ready(n, completed) == ready {
        assert n in nodes <==> n == nodes[0] || n in nodes[1..];
        assert n in rest <==> n in nodes[1..] && Ready(n, completed) == ready;
        assert n in Split(nodes, completed, ready) <==> (n == nodes[0] && Ready(n, completed) == ready) || n in rest;
      }
    }
  }

  lemma LayerMembers(nodes: seq<Node>, completed: set<nat>)
    ensures forall n :: n in Layer(nodes, completed) <==> n in nodes && Ready(n, completed)
  {
    SplitMembers(nodes, completed, true);
    SortPermutes(ByOrder, Split(nodes, completed, true));
    SameElements(Layer(nodes, completed), Split(nodes, completed, true));
  }

  lemma SameId(nodes: seq<Node>, a: Node, b: Node)
    requires DistinctIds(nodes) && a in nodes && b in nodes && a.id == b.id
    ensures a == b
  {
  }

  lemma LayerIds(nodes: seq<Node>, completed: set<nat>)
    requires DistinctIds(nodes)
    ensures forall n :: n in nodes ==> (n.id in Ids(Layer(nodes, completed)) <==> Ready(n, completed))
  {
    LayerMembers(nodes, completed);
    forall n | n in nodes && n.id in Ids(Layer(nodes, completed)) ensures Ready(n, completed) {
      var m :| m in Layer(nodes, completed) && m.id == n.id;
      SameId(nodes, m, n);
    }
  }

  lemma {:induction false} WithoutReady(nodes: seq<Node>, completed: set<nat>, gone: set<nat>)
    requires forall n :: n in nodes ==> (n.id in gone <==> Ready(n, completed))
    ensures Without(nodes, gone) == Split(nodes, completed, false)
  {
    if nodes != [] {
      WithoutReady(nodes[1..], completed, gone);
    }
  }

  /** The refusals in the order of their checks, then the layers. */
  ghost function OrderingOf(nodes: seq<Node>, factories: set<nat>): Ordering {
    if !DistinctIds(nodes) then Refused(DuplicateId)
    else if exists i :: 0 <= i < |nodes| && nodes[i].plugin !in factories then Refused(UnknownPlugin)
    else if exists i :: 0 <= i < |nodes| && !Ready(nodes[i], Ids(nodes)) then Refused(MissingDependency)
    else if Layers(nodes, {}).Some? then Ordered(Layers(nodes, {}).value) else Refused(Cyclic)
  }

  method TopologicalOrder(nodes: seq<Node>, factories: set<nat>) returns (ordering: Ordering)
    ensures ordering == OrderingOf(nodes, factories)
  {
    if !DistinctIds(nodes) {
      return Refused(DuplicateId);
    }
    if exists i :: 0 <= i < |nodes| && nodes[i].plugin !in factories {
      return Refused(UnknownPlugin);
    }
    if exists i :: 0 <= i < |nodes| && !Ready(nodes[i], Ids(nodes)) {
      return Refused(MissingDependency);
    }
    var remaining, completed, ordered: seq<Node> := nodes, {}, [];
    AfterNothing(Layers(nodes, {}));
    while remaining != []
      invariant DistinctIds(remaining)
      invariant Layers(nodes, {}) == After(ordered, Layers(remaining, completed))
      decreases |remaining|
    {
      var ready := ReadyNodes(remaining, completed);
      if ready == [] {
        return Refused(Cyclic);
      }
      SplitSizes(remaining, completed);
      SplitDistinct(remaining, completed, false);
      AfterTwice(ordered, ready, Layers(Split(remaining, completed, false), completed + Ids(ready)));
      ordered := ordered + ready;
      remaining, completed := Complete(remaining, completed, ready);
    }
    return Ordered(ordered);
  }

  lemma {:induction false} SplitDistinct(nodes: seq<Node>, completed: set<nat>, ready: bool)
    requires DistinctIds(nodes)
    ensures DistinctIds(Split(nodes, completed, ready))
  {
    if nodes != [] {
      SplitDistinct(nodes[1..], completed, ready);
      SplitMembers(nodes[1..], completed, ready);
      var rest := Split(nodes[1..], completed, ready);
      forall k | 0 <= k < |rest| ensures rest[k].id != nodes[0].id {
        assert rest[k] in rest;
        var q :| 0 <= q < |nodes[1..]| && nodes[1..][q] == rest[k];
        assert nodes[q + 1] == rest[k];
      }
    }
  }

  // ----- A successful order

  /** Every dependency is completed already or stands earlier in the list. */
  ghost predicate DependenciesFirst(nodes: seq<Node>, completed: set<nat>) {
    forall i :: 0 <= i < |nodes| ==> Ready(nodes[i], completed + Ids(nodes[..i]))
  }

  lemma ReadyGrows(n: Node, a: set<nat>, b: set<nat>)
    requires Ready(n, a) && a <= b
    ensures Ready(n, b)
  {
  }

  lemma {:induction false} SplitPermutes(nodes: seq<Node>, completed: set<nat>)
    ensures multiset(nodes) == multiset(Split(nodes, completed, true)) + multiset(Split(nodes, completed, false))
  {
    if nodes != [] {
      SplitPermutes(nodes[1..], completed);
      assert nodes == [nodes[0]] + nodes[1..];
    }
  }

  lemma IdsJoin(a: seq<Node>, b: seq<Node>)
    ensures Ids(a + b) == Ids(a) + Ids(b)
  {
    forall x ensures x in Ids(a + b) <==> x in Ids(a) + Ids(b) {
      if x in Ids(a) {
        var n :| n in a && n.id == x;
        assert n in a + b;
      }
      if x in Ids(b) {
        var n :| n in b && n.id == x;
        assert n in a + b;
      }
    }
  }

  lemma DependenciesJoin(layer: seq<Node>, later: seq<Node>, completed: set<nat>)
    requires forall n :: n in layer ==> Ready(n, completed)
    requires DependenciesFirst(later, completed + Ids(layer))
    ensures DependenciesFirst(layer + later, completed)
  {
    var all := layer + later;
    forall i | 0 <= i < |all| ensures Ready(all[i], completed + Ids(all[..i])) {
      if i < |layer| {
        assert all[i] == layer[i] && layer[i] in layer;
        ReadyGrows(all[i], completed, completed + Ids(all[..i]));
      } else {
        var k := i - |layer|;
        assert all[i] == later[k] && all[..i] == layer + later[..k];
        IdsJoin(layer, later[..k]);
        assert completed + Ids(layer) + Ids(later[..k]) == completed + Ids(all[..i]);
      }
    }
  }

  /** A successful order has each node once and every dependency earlier. */
  lemma {:induction false} OrderIsTopological(nodes: seq<Node>, completed: set<nat>)
    requires Layers(nodes, completed).Some?
    ensures multiset(Layers(nodes, completed).value) == multiset(nodes)
    ensures DependenciesFirst(Layers(nodes, completed).value, completed)
    decreases |nodes|
  {
    if nodes != [] {
      var layer, rest := Layer(nodes, completed), Split(nodes, completed, false);
      SplitSizes(nodes, completed);
      OrderIsTopological(rest, completed + Ids(layer));
      var later := Layers(rest, completed + Ids(layer)).value;
      SortPermutes(ByOrder, Split(nodes, completed, true));
      SplitPermutes(nodes, completed);
      LayerMembers(nodes, completed);
      DependenciesJoin(layer, later, completed);
    }
  }

  // ----- Cycles

  /** Some node `a` names `b` as a dependency. */
  ghost predicate Edge(nodes: seq<Node>, a: nat, b: nat) {
    exists i :: 0 <= i < |nodes| && nodes[i].id == a && b in nodes[i].dependsOn
  }

  ghost predicate Walk(nodes: seq<Node>, walk: seq<nat>) {
    forall i :: 0 < i < |walk| ==> Edge(nodes, walk[i - 1], walk[i])
  }

  /** A walk along dependencies that comes back to where it began. */
  ghost predicate Cycle(nodes: seq<Node>, walk: seq<nat>) {
    |walk| > 1 && Walk(nodes, walk) && walk[0] == walk[|walk| - 1]
  }

  ghost predicate Acyclic(nodes: seq<Node>) {
    forall walk :: !Cycle(nodes, walk)
  }

  function Position(nodes: seq<Node>, id: nat): (r: nat)
    ensures r <= |nodes|
    ensures r < |nodes| ==> nodes[r].id == id
    ensures forall k :: 0 <= k < r ==> nodes[k].id != id
  {
    if nodes == [] || nodes[0].id == id then 0 else 1 + Position(nodes[1..], id)
  }

  lemma EdgeGoesBack(nodes: seq<Node>, a: nat, b: nat)
    requires DistinctIds(nodes) && DependenciesFirst(nodes, {}) && Edge(nodes, a, b)
    ensures Position(nodes, b) < Position(nodes, a) < |nodes|
  {
    var i :| 0 <= i < |nodes| && nodes[i].id == a && b in nodes[i].dependsOn;
    var k :| 0 <= k < |nodes[i].dependsOn| && nodes[i].dependsOn[k] == b;
    assert Ready(nodes[i], {} + Ids(nodes[..i]));
    var n :| n in nodes[..i] && n.id == b;
    var j :| 0 <= j < i && nodes[j] == n;
  }

  lemma {:induction false} WalkGoesBack(nodes: seq<Node>, walk: seq<nat>, k: nat)
    requires DistinctIds(nodes) && DependenciesFirst(nodes, {}) && Walk(nodes, walk) && 0 < k < |walk|
    ensures Position(nodes, walk[k]) < Position(nodes, walk[0])
  {
    EdgeGoesBack(nodes, walk[k - 1], walk[k]);
    if k > 1 {
      WalkGoesBack(nodes, walk, k - 1);
    }
  }

  /** A list with every dependency earlier has no cycle. */
  lemma OrderedIsAcyclic(nodes: seq<Node>)
    requires DistinctIds(nodes) && DependenciesFirst(nodes, {})
    ensures Acyclic(nodes)
  {
    forall walk | |walk| > 1 && Walk(nodes, walk) ensures walk[0] != walk[|walk| - 1] {
      WalkGoesBack(nodes, walk, |walk| - 1);
    }
  }

  lemma {:induction false} Repeats(s: seq<nat>, range: set<nat>) returns (i: nat, j: nat)
    requires |s| > |range| && forall k :: 0 <= k < |s| ==> s[k] in range
    ensures i < j < |s| && s[i] == s[j]
  {
    var n := |s| - 1;
    if k :| 0 <= k < n && s[k] == s[n] {
      i, j := k, n;
    } else {
      i, j := Repeats(s[..n], range - {s[n]});
    }
  }

  /** A node that waits names another that remains. */
  lemma WaitsFor(nodes: seq<Node>, completed: set<nat>, a: nat) returns (b: nat)
    requires Split(nodes, completed, true) == [] && a in Ids(nodes)
    requires forall n :: n in nodes ==> Ready(n, completed + Ids(nodes))
    ensures b in Ids(nodes) && Edge(nodes, a, b)
  {
    var n :| n in nodes && n.id == a;
    SplitMembers(nodes, completed, true);
    assert n !in Split(nodes, completed, true);
    var k :| 0 <= k < |n.dependsOn| && n.dependsOn[k] !in completed;
    b := n.dependsOn[k];
    assert Ready(n, completed + Ids(nodes));
    var i :| 0 <= i < |nodes| && nodes[i] == n;
  }

  /** Where every node waits for another that remains, one can walk on forever. */
  lemma {:induction false} LongWalk(nodes: seq<Node>, completed: set<nat>, length: nat) returns (walk: seq<nat>)
    requires nodes != [] && length >= 1 && Split(nodes, completed, true) == []
    requires forall n :: n in nodes ==> Ready(n, completed + Ids(nodes))
    ensures |walk| == length && Walk(nodes, walk) && forall k :: 0 <= k < |walk| ==> walk[k] in Ids(nodes)
  {
    if length == 1 {
      assert nodes[0] in nodes;
      walk := [nodes[0].id];
    } else {
      var before := LongWalk(nodes, completed, length - 1);
      var next := WaitsFor(nodes, completed, before[|before| - 1]);
      walk := before + [next];
      WalkOn(nodes, before, next);
    }
  }

  lemma WalkOn(nodes: seq<Node>, walk: seq<nat>, next: nat)
    requires walk != [] && Walk(nodes, walk) && Edge(nodes, walk[|walk| - 1], next)
    ensures Walk(nodes, walk + [next])
  {
    var longer := walk + [next];
    forall i | 0 < i < |longer| ensures Edge(nodes, longer[i - 1], longer[i]) {
      assert longer[i - 1] == walk[i - 1];
    }
  }

  lemma StuckHasCycle(nodes: seq<Node>, completed: set<nat>) returns (cycle: seq<nat>)
    requires nodes != [] && Split(nodes, completed, true) == []
    requires forall n :: n in nodes ==> Ready(n, completed + Ids(nodes))
    ensures Cycle(nodes, cycle)
  {
    hide Edge, Ready, Split;
    var walk := LongWalk(nodes, completed, |Ids(nodes)| + 1);
    var i, j := Repeats(walk, Ids(nodes));
    cycle := walk[i..j + 1];
    forall k | 0 < k < |cycle| ensures Edge(nodes, cycle[k - 1], cycle[k]) {
      assert cycle[k - 1] == walk[i + k - 1] && cycle[k] == walk[i + k];
    }
  }

  lemma CycleGrows(nodes: seq<Node>, more: seq<Node>, cycle: seq<nat>)
    requires Cycle(nodes, cycle) && forall n :: n in nodes ==> n in more
    ensures Cycle(more, cycle)
  {
    forall k | 0 < k < |cycle| ensures Edge(more, cycle[k - 1], cycle[k]) {
      assert Edge(nodes, cycle[k - 1], cycle[k]);
      var i :| 0 <= i < |nodes| && nodes[i].id == cycle[k - 1] && cycle[k] in nodes[i].dependsOn;
      assert nodes[i] in nodes;
      var j :| 0 <= j < |more| && more[j] == nodes[i];
    }
  }

  /** If the layers run out, the nodes that remain hold a cycle. */
  lemma {:induction false} FailureHasCycle(nodes: seq<Node>, completed: set<nat>) returns (cycle: seq<nat>)
    requires Layers(nodes, completed).None? && forall n :: n in nodes ==> Ready(n, completed + Ids(nodes))
    ensures Cycle(nodes, cycle)
    decreases |nodes|
  {
    var layer, rest := Layer(nodes, completed), Split(nodes, completed, false);
    SplitSizes(nodes, completed);
    if layer == [] {
      cycle := StuckHasCycle(nodes, completed);
    } else {
      SplitMembers(nodes, completed, false);
      LayerMembers(nodes, completed);
      forall n | n in rest ensures Ready(n, completed + Ids(layer) + Ids(rest)) {
        assert Ids(nodes) <= Ids(layer) + Ids(rest);
        ReadyGrows(n, completed + Ids(nodes), completed + Ids(layer) + Ids(rest));
      }
      cycle := FailureHasCycle(rest, completed + Ids(layer));
      CycleGrows(rest, nodes, cycle);
    }
  }

  /** With distinct ids and no dependency missing, the order exists exactly if the graph has no cycle. */
  lemma OrderIffAcyclic(nodes: seq<Node>)
    requires DistinctIds(nodes) && forall n :: n in nodes ==> Ready(n, Ids(nodes))
    ensures Layers(nodes, {}).Some? <==> Acyclic(nodes)
  {
    if Layers(nodes, {}).None? {
      assert {} + Ids(nodes) == Ids(nodes);
      var cycle := FailureHasCycle(nodes, {});
    } else {
      var order := Layers(nodes, {}).value;
      OrderIsTopological(nodes, {});
      SameElements(order, nodes);
      PermutedIds(nodes, order);
      OrderedIsAcyclic(order);
      forall walk | Cycle(nodes, walk) ensures Cycle(order, walk) {
        CycleGrows(nodes, order, walk);
      }
    }
  }

  /** A permutation of nodes with distinct ids has distinct ids. */
  lemma {:induction false} PermutedIds(nodes: seq<Node>, order: seq<Node>)
    requires DistinctIds(nodes) && multiset(nodes) == multiset(order)
    ensures DistinctIds(order)
  {
    forall i, j | 0 <= i < j < |order| ensures order[i].id != order[j].id {
      SameElements(nodes, order);
      assert order[i] in order && order[j] in order;
      if order[i].id == order[j].id {
        SameId(nodes, order[i], order[j]);
        TwiceInOrder(order, i, j);
        OnceInNodes(nodes, order[i]);
      }
    }
  }

  lemma TwiceInOrder(order: seq<Node>, i: nat, j: nat)
    requires i < j < |order| && order[i] == order[j]
    ensures multiset(order)[order[i]] >= 2
  {
    assert order == order[..j] + order[j..];
    assert order[i] in order[..j] && order[j] in order[j..];
  }

  lemma {:induction false} OnceInNodes(nodes: seq<Node>, n: Node)
    requires DistinctIds(nodes)
    ensures multiset(nodes)[n] <= 1
  {
    if nodes != [] {
      OnceInNodes(nodes[1..], n);
      assert nodes == [nodes[0]] + nodes[1..];
      if n == nodes[0] {
        assert n !in nodes[1..];
      }
    }
  }

  // ----- The order from the nodes alone

  /** Nodes stand by level, and within one level by order and then by id. */
  ghost predicate Lined(ordered: seq<Node>, lowest: nat, levels: seq<nat>) {
    && |levels| == |ordered| && (forall i :: 0 <= i < |levels| ==> levels[i] >= lowest)
    && forall i, j :: 0 <= i < j < |ordered| ==>
         || levels[i] < levels[j]
         || (levels[i] == levels[j]
             && (ordered[i].order < ordered[j].order
                 || (ordered[i].order == ordered[j].order && ordered[i].id <= ordered[j].id)))
  }

  /** A node of the id stands on a level below that of node `i`. */
  ghost predicate Lower(ordered: seq<Node>, levels: seq<nat>, i: nat, id: nat)
    requires i < |levels| == |ordered|
  {
    exists j :: 0 <= j < |ordered| && ordered[j].id == id && levels[j] < levels[i]
  }

  /** A dependency of node `i` stands on the level under its own. */
  ghost predicate Rests(ordered: seq<Node>, levels: seq<nat>, i: nat)
    requires i < |levels| == |ordered|
  {
    exists j :: 0 <= j < |ordered| && ordered[j].id in ordered[i].dependsOn && levels[j] + 1 == levels[i]
  }

  /** Each dependency is completed or stands on a lower level. */
  ghost predicate Above(ordered: seq<Node>, completed: set<nat>, levels: seq<nat>) {
    && |levels| == |ordered|
    && forall i, d :: 0 <= i < |ordered| && d in ordered[i].dependsOn ==> d in completed || Lower(ordered, levels, i, d)
  }

  /** A node above the lowest level has a dependency on the level under its own. */
  ghost predicate Supported(ordered: seq<Node>, lowest: nat, levels: seq<nat>) {
    && |levels| == |ordered|
    && forall i :: 0 <= i < |ordered| && levels[i] > lowest ==> Rests(ordered, levels, i)
  }

  ghost predicate Levelled(ordered: seq<Node>, completed: set<nat>, lowest: nat, levels: seq<nat>) {
    Lined(ordered, lowest, levels) && Above(ordered, completed, levels) && Supported(ordered, lowest, levels)
  }

  lemma LayerSorted(nodes: seq<Node>, completed: set<nat>)
    ensures var layer := Layer(nodes, completed);
      forall i, j :: 0 <= i < j < |layer| ==>
        || layer[i].order < layer[j].order || (layer[i].order == layer[j].order && layer[i].id <= layer[j].id)
  {
    ByOrderTotal();
    SortSorts(ByOrder, Split(nodes, completed, true));
    var layer := Layer(nodes, completed);
    forall i, j | 0 <= i < j < |layer| ensures ByOrder(layer[i], layer[j]) {
    }
  }

  lemma IdAt(nodes: seq<Node>, id: nat) returns (j: nat)
    requires id in Ids(nodes)
    ensures j < |nodes| && nodes[j].id == id
  {
    var n :| n in nodes && n.id == id;
    j :| 0 <= j < |nodes| && nodes[j] == n;
  }

  function Flat(n: nat, level: nat): (r: seq<nat>)
    ensures |r| == n && forall i :: 0 <= i < n ==> r[i] == level
  {
    seq(n, _ => level)
  }

  lemma LinedJoin(layer: seq<Node>, later: seq<Node>, lowest: nat, next: nat, levels: seq<nat>)
    requires next == lowest + 1 && Lined(later, next, levels)
    requires forall i, j :: 0 <= i < j < |layer| ==>
      layer[i].order < layer[j].order || (layer[i].order == layer[j].order && layer[i].id <= layer[j].id)
    ensures Lined(layer + later, lowest, Flat(|layer|, lowest) + levels)
  {
  }

  lemma JoinedBelow(layer: seq<Node>, later: seq<Node>, flat: seq<nat>, levels: seq<nat>, k: nat, i: nat, d: nat)
    requires |flat| == |layer| && |levels| == |later| && k < |later| && i == |layer| + k
    ensures Lower(later, levels, k, d) ==> Lower(layer + later, flat + levels, i, d)
    ensures Rests(later, levels, k) ==> Rests(layer + later, flat + levels, i)
  {
    var ordered, all := layer + later, flat + levels;
    forall j | 0 <= j < |later| ensures ordered[|layer| + j] == later[j] && all[|layer| + j] == levels[j] {
    }
  }

  lemma LayerBelow(layer: seq<Node>, later: seq<Node>, flat: seq<nat>, levels: seq<nat>, k: nat, i: nat, j: nat)
    requires |flat| == |layer| && |levels| == |later| && k < |later| && i == |layer| + k && j < |layer|
    requires flat[j] < levels[k]
    ensures Lower(layer + later, flat + levels, i, layer[j].id)
    ensures flat[j] + 1 == levels[k] && layer[j].id in later[k].dependsOn ==> Rests(layer + later, flat + levels, i)
  {
    var ordered, all := layer + later, flat + levels;
    assert ordered[j] == layer[j] && all[j] == flat[j] && ordered[i] == later[k] && all[i] == levels[k];
  }

  lemma AboveJoin(layer: seq<Node>, later: seq<Node>, completed: set<nat>, lowest: nat, next: nat, levels: seq<nat>)
    requires next == lowest + 1 && Lined(later, next, levels) && Above(later, completed + Ids(layer), levels)
    requires forall n :: n in layer ==> Ready(n, completed)
    ensures Above(layer + later, completed, Flat(|layer|, lowest) + levels)
  {
    hide Lower;
    var ordered, flat := layer + later, Flat(|layer|, lowest);
    forall i: nat, d | i < |ordered| && d in ordered[i].dependsOn
      ensures d in completed || Lower(ordered, flat + levels, i, d)
    {
      if i < |layer| {
        assert layer[i] in layer;
      } else {
        var k := i - |layer|;
        assert ordered[i] == later[k];
        JoinedBelow(layer, later, flat, levels, k, i, d);
        if d in Ids(layer) {
          var j := IdAt(layer, d);
          LayerBelow(layer, later, flat, levels, k, i, j);
        }
      }
    }
  }

  lemma SupportedJoin(layer: seq<Node>, later: seq<Node>, completed: set<nat>, lowest: nat, next: nat,
                      levels: seq<nat>)
    requires next == lowest + 1 && Levelled(later, completed + Ids(layer), next, levels)
    requires forall i :: 0 <= i < |later| ==> !Ready(later[i], completed)
    ensures Supported(layer + later, lowest, Flat(|layer|, lowest) + levels)
  {
    hide Rests, Ready, Above;
    var ordered, flat := layer + later, Flat(|layer|, lowest);
    forall i: nat | i < |ordered| && (flat + levels)[i] > lowest ensures Rests(ordered, flat + levels, i) {
      var k := i - |layer|;
      assert !Ready(later[k], completed);
      if levels[k] == next {
        var j := WaitsForLayer(layer, later, completed, next, levels, k);
        LayerBelow(layer, later, flat, levels, k, i, j);
      } else {
        JoinedBelow(layer, later, flat, levels, k, i, 0);
      }
    }
  }

  /** A lowest node that was not ready before the layer names a node of the layer. */
  lemma WaitsForLayer(layer: seq<Node>, later: seq<Node>, completed: set<nat>, lowest: nat, levels: seq<nat>, k: nat)
    returns (j: nat)
    requires Levelled(later, completed + Ids(layer), lowest, levels) && k < |later| && levels[k] == lowest
    requires !Ready(later[k], completed)
    ensures j < |layer| && layer[j].id in later[k].dependsOn
  {
    var m :| 0 <= m < |later[k].dependsOn| && later[k].dependsOn[m] !in completed;
    var d := later[k].dependsOn[m];
    assert d in later[k].dependsOn;
    assert d in completed + Ids(layer);
    j := IdAt(layer, d);
  }

  /** A successful order has levels. */
  lemma {:induction false} LayersLevel(nodes: seq<Node>, completed: set<nat>, lowest: nat) returns (levels: seq<nat>)
    requires Layers(nodes, completed).Some?
    ensures Levelled(Layers(nodes, completed).value, completed, lowest, levels)
    decreases |nodes|
  {
    hide Lined, Above, Supported, Ready, Split;
    if nodes == [] {
      levels := [];
      NothingLevelled(completed, lowest);
    } else {
      var layer, rest := Layer(nodes, completed), Split(nodes, completed, false);
      SplitSizes(nodes, completed);
      var later := Layers(rest, completed + Ids(layer)).value;
      levels := LayersLevel(rest, completed + Ids(layer), lowest + 1);
      LayerSorted(nodes, completed);
      LayerMembers(nodes, completed);
      SplitMembers(nodes, completed, false);
      OrderIsTopological(rest, completed + Ids(layer));
      SameElements(later, rest);
      forall i | 0 <= i < |later| ensures !Ready(later[i], completed) {
        assert later[i] in later;
      }
      LinedJoin(layer, later, lowest, lowest + 1, levels);
      AboveJoin(layer, later, completed, lowest, lowest + 1, levels);
      SupportedJoin(layer, later, completed, lowest, lowest + 1, levels);
      levels := Flat(|layer|, lowest) + levels;
    }
  }

  lemma NothingLevelled(completed: set<nat>, lowest: nat)
    ensures Levelled([], completed, lowest, [])
  {
  }

  predicate Repeated(nodes: seq<Node>) {
    exists i, j :: 0 <= i < j < |nodes| && nodes[i].id == nodes[j].id
  }

  predicate Unmade(nodes: seq<Node>, factories: set<nat>) {
    exists i :: 0 <= i < |nodes| && nodes[i].plugin !in factories
  }

  predicate Dangling(nodes: seq<Node>) {
    exists i, k :: 0 <= i < |nodes| && 0 <= k < |nodes[i].dependsOn| &&
      forall j :: 0 <= j < |nodes| ==> nodes[j].id != nodes[i].dependsOn[k]
  }

  lemma DanglingIff(nodes: seq<Node>)
    ensures Dangling(nodes) <==> exists i :: 0 <= i < |nodes| && !Ready(nodes[i], Ids(nodes))
  {
    forall i, k | 0 <= i < |nodes| && 0 <= k < |nodes[i].dependsOn|
      ensures nodes[i].dependsOn[k] in Ids(nodes) <==>
        exists j :: 0 <= j < |nodes| && nodes[j].id == nodes[i].dependsOn[k]
    {
      if nodes[i].dependsOn[k] in Ids(nodes) {
        var j := IdAt(nodes, nodes[i].dependsOn[k]);
      }
      forall j | 0 <= j < |nodes| && nodes[j].id == nodes[i].dependsOn[k] ensures nodes[j].id in Ids(nodes) {
        assert nodes[j] in nodes;
      }
    }
  }

  /** Why an order is refused, and what one is otherwise. */
  lemma OrderingOutcome(nodes: seq<Node>, factories: set<nat>) returns (levels: seq<nat>)
    ensures OrderingOf(nodes, factories) == Refused(DuplicateId) <==> Repeated(nodes)
    ensures OrderingOf(nodes, factories) == Refused(UnknownPlugin) <==> !Repeated(nodes) && Unmade(nodes, factories)
    ensures OrderingOf(nodes, factories) == Refused(MissingDependency) <==>
      !Repeated(nodes) && !Unmade(nodes, factories) && Dangling(nodes)
    ensures OrderingOf(nodes, factories) == Refused(Cyclic) <==>
      && !Repeated(nodes) && !Unmade(nodes, factories) && !Dangling(nodes)
      && exists walk :: Cycle(nodes, walk)
    ensures OrderingOf(nodes, factories).Ordered? ==>
      var ordered := OrderingOf(nodes, factories).nodes;
      multiset(ordered) == multiset(nodes) && Levelled(ordered, {}, 0, levels)
  {
    hide Layers, Levelled, Cycle, Ready, DependenciesFirst;
    levels := [];
    DanglingIff(nodes);
    assert Repeated(nodes) <==> !DistinctIds(nodes);
    if !Repeated(nodes) && !Unmade(nodes, factories) && !Dangling(nodes) {
      forall n | n in nodes ensures Ready(n, Ids(nodes)) {
        var i :| 0 <= i < |nodes| && nodes[i] == n;
      }
      OrderIffAcyclic(nodes);
      if Layers(nodes, {}).Some? {
        levels := LayersLevel(nodes, {}, 0);
        OrderIsTopological(nodes, {});
      }
    }
  }

  // ----- The order does not depend on the order of the input

  lemma {:induction false} SplitCount(nodes: seq<Node>, completed: set<nat>, ready: bool, n: Node)
    ensures multiset(Split(nodes, completed, ready))[n] ==
      if Ready(n, completed) == ready then multiset(nodes)[n] else 0
  {
    if nodes != [] {
      SplitCount(nodes[1..], completed, ready, n);
      assert nodes == [nodes[0]] + nodes[1..];
    }
  }

  lemma SplitOfPermutation(a: seq<Node>, b: seq<Node>, completed: set<nat>, ready: bool)
    requires multiset(a) == multiset(b)
    ensures multiset(Split(a, completed, ready)) == multiset(Split(b, completed, ready))
  {
    forall n ensures multiset(Split(a, completed, ready))[n] == multiset(Split(b, completed, ready))[n] {
      SplitCount(a, completed, ready, n);
      SplitCount(b, completed, ready, n);
    }
  }

  lemma SameLayer(a: seq<Node>, b: seq<Node>, completed: set<nat>)
    requires DistinctIds(a) && multiset(a) == multiset(b)
    ensures Layer(a, completed) == Layer(b, completed)
  {
    var x, y := Split(a, completed, true), Split(b, completed, true);
    SplitOfPermutation(a, b, completed, true);
    SortPermutes(ByOrder, x);
    SortPermutes(ByOrder, y);
    ByOrderTotal();
    SortSorts(ByOrder, x);
    SortSorts(ByOrder, y);
    LayerMembers(a, completed);
    forall m, n | m in Layer(a, completed) && n in Layer(a, completed) ensures Antisym(ByOrder, m, n) {
      if m.id == n.id {
        SameId(a, m, n);
      }
    }
    SortedUnique(ByOrder, Layer(a, completed), Layer(b, completed));
  }

  lemma ByOrderTotal()
    ensures TotalPreorder(ByOrder)
  {
  }

  lemma {:induction false} OrderIndependent(a: seq<Node>, b: seq<Node>, completed: set<nat>)
    requires DistinctIds(a) && multiset(a) == multiset(b)
    ensures Layers(a, completed) == Layers(b, completed)
    decreases |a|
  {
    assert |a| == |multiset(a)| == |multiset(b)| == |b|;
    if a != [] {
      SameLayer(a, b, completed);
      SplitOfPermutation(a, b, completed, false);
      SplitDistinct(a, completed, false);
      SplitSizes(a, completed);
      SplitSizes(b, completed);
      if Layer(a, completed) != [] {
        OrderIndependent(Split(a, completed, false), Split(b, completed, false), completed + Ids(Layer(a, completed)));
      }
    }
  }

  // ----- Execution

  datatype Observation = Observation(signal: nat, instrument: nat, timeframe: nat, dependencyIds: seq<nat>,
                                     parameters: nat, knownMs: Option<int>, status: nat)

  /** The series of each role, and the timeframes of the roles where the context is given them. */
  datatype Context = Context(instrument: nat, evaluationMs: int, candles: map<nat, seq<Resampling.Derived>>,
                             timeframes: map<nat, nat>)

  /** A role's timeframe: the one given, or the only one its bars have; `None` where the code raises. */
  function TimeframeOf(c: Context, role: nat): (r: Option<nat>)
    ensures role in c.timeframes ==> r == Some(c.timeframes[role])
    ensures role !in c.timeframes ==> forall m ::
      r == Some(m) <==>
        && role in c.candles && c.candles[role] != []
        && forall k :: 0 <= k < |c.candles[role]| ==> c.candles[role][k].minutes == m
  {
    if role in c.timeframes then Some(c.timeframes[role])
    else if role in c.candles && c.candles[role] != []
            && forall k :: 0 <= k < |c.candles[role]| ==> c.candles[role][k].minutes == c.candles[role][0].minutes
    then Some(c.candles[role][0].minutes)
    else None
  }

  /** What a plugin can learn from a context: who, when, and the series and the timeframe of each role. */
  datatype View = View(instrument: nat, evaluationMs: int, candles: map<nat, seq<Resampling.Derived>>,
                       timeframes: map<nat, Option<nat>>)

  function ViewOf(c: Context): View {
    View(c.instrument, c.evaluationMs, c.candles, map role | role in c.candles :: TimeframeOf(c, role))
  }

  /** A plugin sees the context as it is, and for each role with a series the timeframe it has. */
  lemma ViewOutcome(c: Context, role: nat)
    ensures var v := ViewOf(c);
      && v.instrument == c.instrument && v.evaluationMs == c.evaluationMs && v.candles == c.candles
      && (role in v.timeframes <==> role in c.candles)
      && (role in c.candles && role in c.timeframes ==> v.timeframes[role] == Some(c.timeframes[role]))
      && (role in c.candles && role !in c.timeframes ==> forall m ::
            v.timeframes[role] == Some(m) <==>
              c.candles[role] != [] && forall k :: 0 <= k < |c.candles[role]| ==> c.candles[role][k].minutes == m)
  {
  }

  /** What a factory makes for a node: a plugin of some role. */
  datatype Making = Made(role: nat) | FactoryRaised

  datatype Answer = Answered(observation: Observation) | NotAnObservation | PluginRaised

  /** Arbitrary plugins: what each factory makes, and what each plugin answers to a context and its inputs. */
  datatype Plugins = Plugins(make: Node -> Making, evaluate: (Node, View, map<nat, Observation>) -> Answer)

  datatype Mismatch =
    | WrongSignal | WrongInstrument | WrongTimeframe | WrongDependencies | WrongParameters | KnownTooLate

  datatype ExecutionError =
    | MissingRole | CannotMake | RoleDiffers | CannotEvaluate | NotObservation | Rejected(mismatch: Mismatch)

  datatype Execution = Executed(observations: map<nat, Observation>) | Failed(at: nat, reason: ExecutionError)

  /** The first respect in which an observation is not one of the node, in the order of the checks. */
  function MismatchOf(o: Observation, n: Node, c: Context): Option<Mismatch> {
    if o.signal != n.id then Some(WrongSignal)
    else if o.instrument != c.instrument then Some(WrongInstrument)
    else if n.timeframe.Some? && o.timeframe != n.timeframe.value then Some(WrongTimeframe)
    else if o.dependencyIds != n.dependsOn then Some(WrongDependencies)
    else if o.parameters != n.parameters then Some(WrongParameters)
    else if o.knownMs.Some? && o.knownMs.value > c.evaluationMs then Some(KnownTooLate)
    else None
  }

  /** The observation belongs to the node and uses nothing later than the evaluation. */
  predicate Belongs(o: Observation, n: Node, c: Context) {
    && o.signal == n.id && o.instrument == c.instrument && (n.timeframe.Some? ==> o.timeframe == n.timeframe.value)
    && o.dependencyIds == n.dependsOn && o.parameters == n.parameters
    && (o.knownMs.Some? ==> o.knownMs.value <= c.evaluationMs)
  }

  /** The place of a check of an observation in their order. */
  function CheckPlace(m: Mismatch): nat {
    match m
    case WrongSignal => 0
    case WrongInstrument => 1
    case WrongTimeframe => 2
    case WrongDependencies => 3
    case WrongParameters => 4
    case KnownTooLate => 5
  }

  predicate Differs(o: Observation, n: Node, c: Context, m: Mismatch) {
    match m
    case WrongSignal => o.signal != n.id
    case WrongInstrument => o.instrument != c.instrument
    case WrongTimeframe => n.timeframe.Some? && o.timeframe != n.timeframe.value
    case WrongDependencies => o.dependencyIds != n.dependsOn
    case WrongParameters => o.parameters != n.parameters
    case KnownTooLate => o.knownMs.Some? && o.knownMs.value > c.evaluationMs
  }

  /** The mismatch is the first respect in which the observation differs. */
  lemma FirstMismatch(o: Observation, n: Node, c: Context, m: Mismatch)
    ensures MismatchOf(o, n, c) == Some(m) <==>
      Differs(o, n, c, m) && forall d :: CheckPlace(d) < CheckPlace(m) ==> !Differs(o, n, c, d)
  {
    var first := MismatchOf(o, n, c);
    if first.Some? {
      assert Differs(o, n, c, first.value);
      assert forall d :: CheckPlace(d) < CheckPlace(first.value) ==> !Differs(o, n, c, d);
      assert CheckPlace(first.value) == CheckPlace(m) ==> first.value == m;
    }
  }

  /** What a plugin is given: the observations of its dependencies, and nothing else. */
  function Inputs(n: Node, observations: map<nat, Observation>): (r: map<nat, Observation>)
    requires Ready(n, observations.Keys)
    ensures forall id :: id in r <==> id in n.dependsOn
    ensures forall id :: id in r ==> id in observations && r[id] == observations[id]
  {
    map k | 0 <= k < |n.dependsOn| :: n.dependsOn[k] := observations[n.dependsOn[k]]
  }

  /** One observation for each of the nodes, made by its plugin from those of its dependencies. */
  ghost predicate Observed(nodes: seq<Node>, c: Context, plugins: Plugins,
                           observations: map<nat, Observation>)
  {
    && observations.Keys == Ids(nodes)
    && forall i :: 0 <= i < |nodes| ==>
         && nodes[i].role in c.candles && nodes[i].id in observations && Ready(nodes[i], observations.Keys)
         && plugins.make(nodes[i]) == Made(nodes[i].role)
         && plugins.evaluate(nodes[i], ViewOf(c), Inputs(nodes[i], observations)) == Answered(observations[nodes[i].id])
         && Belongs(observations[nodes[i].id], nodes[i], c)
  }

  /** Every node was observed, or the nodes before one were and that one stops the execution. */
  ghost predicate Executes(ordered: seq<Node>, c: Context, plugins: Plugins, execution: Execution) {
    match execution
    case Executed(observations) => Observed(ordered, c, plugins, observations)
    case Failed(at, reason) =>
      && at < |ordered|
      && exists before :: Observed(ordered[..at], c, plugins, before) && Stops(ordered[at], c, plugins, before, reason)
  }

  /** Along a topological order each dependency has been observed before it is needed, so no lookup fails. */
  method Execute(ordered: seq<Node>, c: Context, plugins: Plugins)
    returns (execution: Execution)
    requires DistinctIds(ordered) && DependenciesFirst(ordered, {})
    ensures Executes(ordered, c, plugins, execution)
  {
    var observations: map<nat, Observation> := map[];
    for i := 0 to |ordered|
      invariant Observed(ordered[..i], c, plugins, observations)
    {
      var n := ordered[i];
      assert {} + Ids(ordered[..i]) == observations.Keys;
      if n.role !in c.candles {
        assert Stops(n, c, plugins, observations, MissingRole);
        return Failed(i, MissingRole);
      }
      var made := plugins.make(n);
      if made.FactoryRaised? {
        assert Stops(n, c, plugins, observations, CannotMake);
        return Failed(i, CannotMake);
      }
      if made.role != n.role {
        assert Stops(n, c, plugins, observations, RoleDiffers);
        return Failed(i, RoleDiffers);
      }
      var answer := plugins.evaluate(n, ViewOf(c), Inputs(n, observations));
      if answer.PluginRaised? {
        assert Stops(n, c, plugins, observations, CannotEvaluate);
        return Failed(i, CannotEvaluate);
      }
      if answer.NotAnObservation? {
        assert Stops(n, c, plugins, observations, NotObservation);
        return Failed(i, NotObservation);
      }
      var mismatch := MismatchOf(answer.observation, n, c);
      if mismatch.Some? {
        assert Stops(n, c, plugins, observations, Rejected(mismatch.value));
        return Failed(i, Rejected(mismatch.value));
      }
      ObservedStep(ordered, i, c, plugins, observations, answer.observation);
      observations := observations[n.id := answer.observation];
    }
    assert ordered[..|ordered|] == ordered;
    return Executed(observations);
  }

  /** Why execution stops at a node. */
  ghost predicate Stops(n: Node, c: Context, plugins: Plugins,
                        before: map<nat, Observation>, reason: ExecutionError)
  {
    if n.role !in c.candles then reason == MissingRole
    else match plugins.make(n)
      case FactoryRaised => reason == CannotMake
      case Made(role) =>
        if role != n.role then reason == RoleDiffers
        else
          && Ready(n, before.Keys)
          && match plugins.evaluate(n, ViewOf(c), Inputs(n, before))
             case PluginRaised => reason == CannotEvaluate
             case NotAnObservation => reason == NotObservation
             case Answered(o) => !Belongs(o, n, c) && reason == Rejected(MismatchOf(o, n, c).value)
  }

  lemma FreshId(ordered: seq<Node>, i: nat)
    requires DistinctIds(ordered) && i < |ordered|
    ensures ordered[i].id !in Ids(ordered[..i])
  {
    forall m | m in ordered[..i] ensures m.id != ordered[i].id {
      var k :| 0 <= k < i && ordered[..i][k] == m;
      assert ordered[k] == m;
    }
  }

  lemma SameInputs(n: Node, before: map<nat, Observation>, id: nat, o: Observation)
    requires Ready(n, before.Keys) && id !in before
    ensures Ready(n, before[id := o].Keys) && Inputs(n, before[id := o]) == Inputs(n, before)
  {
    var after := before[id := o];
    forall k | 0 <= k < |n.dependsOn|
      ensures n.dependsOn[k] in after && after[n.dependsOn[k]] == before[n.dependsOn[k]]
    {
      assert n.dependsOn[k] in before.Keys;
    }
  }

  lemma ObservedStep(ordered: seq<Node>, i: nat, c: Context, plugins: Plugins,
                     observations: map<nat, Observation>, o: Observation)
    requires DistinctIds(ordered) && i < |ordered| && Observed(ordered[..i], c, plugins, observations)
    requires ordered[i].role in c.candles && Ready(ordered[i], observations.Keys)
    requires plugins.make(ordered[i]) == Made(ordered[i].role)
    requires plugins.evaluate(ordered[i], ViewOf(c), Inputs(ordered[i], observations)) == Answered(o)
    requires Belongs(o, ordered[i], c)
    ensures Observed(ordered[..i + 1], c, plugins, observations[ordered[i].id := o])
  {
    hide Inputs, Belongs, ViewOf;
    var nodes, n, after := ordered[..i], ordered[i], observations[ordered[i].id := o];
    var longer := ordered[..i + 1];
    assert longer == nodes + [n];
    IdsJoin(nodes, [n]);
    FreshId(ordered, i);
    assert after.Keys == Ids(longer) by {
      assert Ids([n]) == {n.id};
    }
    forall k | 0 <= k < |longer|
      ensures longer[k].role in c.candles && longer[k].id in after && Ready(longer[k], after.Keys)
      ensures plugins.make(longer[k]) == Made(longer[k].role)
      ensures plugins.evaluate(longer[k], ViewOf(c), Inputs(longer[k], after)) == Answered(after[longer[k].id])
      ensures Belongs(after[longer[k].id], longer[k], c)
    {
      if k < i {
        assert longer[k] == nodes[k];
      }
      SameInputs(longer[k], observations, n.id, o);
    }
  }

  // ----- Execution is determined by what a plugin can learn

  lemma ObservedAt(ordered: seq<Node>, i: nat, c: Context, plugins: Plugins, o: map<nat, Observation>, k: nat)
    requires k < i <= |ordered| && Observed(ordered[..i], c, plugins, o)
    ensures var n := ordered[k];
      && n.role in c.candles && n.id in o && Ready(n, o.Keys) && plugins.make(n) == Made(n.role)
      && plugins.evaluate(n, ViewOf(c), Inputs(n, o)) == Answered(o[n.id]) && Belongs(o[n.id], n, c)
  {
    hide Belongs;
    assert ordered[..i][k] == ordered[k];
  }

  /** The first `k` nodes have the same observations in both. */
  ghost predicate Coincide(ordered: seq<Node>, o: map<nat, Observation>, p: map<nat, Observation>, k: nat) {
    forall m :: 0 <= m < k && m < |ordered| ==>
      ordered[m].id in o && ordered[m].id in p && o[ordered[m].id] == p[ordered[m].id]
  }

  lemma SameDependencies(ordered: seq<Node>, k: nat, o: map<nat, Observation>, p: map<nat, Observation>)
    requires k < |ordered| && DependenciesFirst(ordered, {}) && Coincide(ordered, o, p, k)
    ensures Ready(ordered[k], o.Keys) && Ready(ordered[k], p.Keys) && Inputs(ordered[k], o) == Inputs(ordered[k], p)
  {
    var n := ordered[k];
    var earlier := Ids(ordered[..k]);
    assert {} + earlier == earlier && Ready(n, earlier);
    forall j | 0 <= j < |n.dependsOn|
      ensures n.dependsOn[j] in o && n.dependsOn[j] in p && o[n.dependsOn[j]] == p[n.dependsOn[j]]
    {
      assert n.dependsOn[j] in earlier;
      var d :| d in ordered[..k] && d.id == n.dependsOn[j];
      var m :| 0 <= m < k && ordered[..k][m] == d;
      assert ordered[m] == d;
    }
  }

  lemma {:induction false} SameObservations(ordered: seq<Node>, a: Context, b: Context, plugins: Plugins,
                                            o: map<nat, Observation>, i: nat, p: map<nat, Observation>, j: nat, k: nat)
    requires DependenciesFirst(ordered, {}) && ViewOf(a) == ViewOf(b) && k <= i <= |ordered| && k <= j <= |ordered|
    requires Observed(ordered[..i], a, plugins, o) && Observed(ordered[..j], b, plugins, p)
    ensures Coincide(ordered, o, p, k)
  {
    hide Observed, DependenciesFirst, Inputs, Belongs, ViewOf;
    if k > 0 {
      SameObservations(ordered, a, b, plugins, o, i, p, j, k - 1);
      SameDependencies(ordered, k - 1, o, p);
      ObservedAt(ordered, i, a, plugins, o, k - 1);
      ObservedAt(ordered, j, b, plugins, p, k - 1);
    }
  }

  /** A node that stops one execution is not observed by the other. */
  lemma StopsBoth(ordered: seq<Node>, a: Context, b: Context, plugins: Plugins, at: nat, reason: ExecutionError,
                  before: map<nat, Observation>, p: map<nat, Observation>, j: nat)
    requires DependenciesFirst(ordered, {}) && ViewOf(a) == ViewOf(b) && at < |ordered| && at <= j <= |ordered|
    requires Observed(ordered[..at], a, plugins, before) && Stops(ordered[at], a, plugins, before, reason)
    requires Observed(ordered[..j], b, plugins, p)
    ensures j == at && Stops(ordered[at], b, plugins, p, reason)
  {
    hide Observed, DependenciesFirst, Inputs;
    SameObservations(ordered, a, b, plugins, before, at, p, j, at);
    SameDependencies(ordered, at, before, p);
    if at < j {
      ObservedAt(ordered, j, b, plugins, p, at);
      assert false;
    }
  }

  lemma OneReason(n: Node, c: Context, plugins: Plugins, before: map<nat, Observation>, x: ExecutionError,
                  y: ExecutionError)
    requires Stops(n, c, plugins, before, x) && Stops(n, c, plugins, before, y)
    ensures x == y
  {
  }

  lemma SameMap(ordered: seq<Node>, a: Context, b: Context, plugins: Plugins, o: map<nat, Observation>,
                p: map<nat, Observation>)
    requires DependenciesFirst(ordered, {}) && ViewOf(a) == ViewOf(b)
    requires Observed(ordered, a, plugins, o) && Observed(ordered, b, plugins, p)
    ensures o == p
  {
    assert ordered[..|ordered|] == ordered;
    SameObservations(ordered, a, b, plugins, o, |ordered|, p, |ordered|, |ordered|);
    forall id | id in o ensures o[id] == p[id] {
      var n :| n in ordered && n.id == id;
      var m :| 0 <= m < |ordered| && ordered[m] == n;
    }
  }

  /** Two contexts from which a plugin learns the same give the same execution, observations and refusals alike. */
  lemma ExecutionDetermined(ordered: seq<Node>, a: Context, b: Context, plugins: Plugins, x: Execution, y: Execution)
    requires DependenciesFirst(ordered, {}) && ViewOf(a) == ViewOf(b)
    requires Executes(ordered, a, plugins, x) && Executes(ordered, b, plugins, y)
    ensures x == y
  {
    hide Observed, DependenciesFirst, Stops, ViewOf;
    assert ordered[..|ordered|] == ordered;
    if x.Executed? && y.Executed? {
      SameMap(ordered, a, b, plugins, x.observations, y.observations);
    } else if x.Failed? && y.Executed? {
      FailsBoth(ordered, a, b, plugins, x.at, x.reason, y.observations, |ordered|);
    } else if x.Executed? {
      FailsBoth(ordered, b, a, plugins, y.at, y.reason, x.observations, |ordered|);
    } else if x.at <= y.at {
      var p :| Observed(ordered[..y.at], b, plugins, p) && Stops(ordered[y.at], b, plugins, p, y.reason);
      FailsBoth(ordered, a, b, plugins, x.at, x.reason, p, y.at);
      OneReason(ordered[x.at], b, plugins, p, x.reason, y.reason);
    } else {
      var p :| Observed(ordered[..x.at], a, plugins, p) && Stops(ordered[x.at], a, plugins, p, x.reason);
      FailsBoth(ordered, b, a, plugins, y.at, y.reason, p, x.at);
    }
  }

  /** If one execution fails at a node, another fails there for the same reason. */
  lemma FailsBoth(ordered: seq<Node>, a: Context, b: Context, plugins: Plugins, at: nat, reason: ExecutionError,
                  p: map<nat, Observation>, j: nat)
    requires DependenciesFirst(ordered, {}) && ViewOf(a) == ViewOf(b) && at <= j <= |ordered|
    requires Executes(ordered, a, plugins, Failed(at, reason)) && Observed(ordered[..j], b, plugins, p)
    ensures j == at < |ordered| && Stops(ordered[at], b, plugins, p, reason)
  {
    hide Observed, DependenciesFirst, Stops, ViewOf;
    var before :| Observed(ordered[..at], a, plugins, before) && Stops(ordered[at], a, plugins, before, reason);
    StopsBoth(ordered, a, b, plugins, at, reason, before, p, j);
  }
}
