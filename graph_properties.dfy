/**
 * What the React Flow projection promises, proved about the specification
 * functions of module Graph (which its methods are proved to compute).
 */
module GraphProperties {
  import opened Wrappers
  import opened Decimal
  import opened Graph

  // ---------------------------------------------------------------------
  // Reading an edge id back
  // ---------------------------------------------------------------------

  /** The part of `s` before its first `-` (all of `s` when there is none). */
  function BeforeDash(s: string): string {
    if s == [] || s[0] == '-' then [] else [s[0]] + BeforeDash(s[1..])
  }

  /** The part of `s` after its first `-` (empty when there is none). */
  function AfterDash(s: string): string {
    if s == [] then [] else if s[0] == '-' then s[1..] else AfterDash(s[1..])
  }

  lemma {:induction false} SplitAtFirstDash(a: string, b: string)
    requires '-' !in a
    ensures BeforeDash(a + "-" + b) == a && AfterDash(a + "-" + b) == b
  {
    var s := a + "-" + b;
    if a == [] {
      assert s == ['-'] + b;
    } else {
      assert a[0] in a;
      assert s[1..] == a[1..] + "-" + b;
      SplitAtFirstDash(a[1..], b);
      assert [a[0]] + a[1..] == a;
    }
  }

  lemma {:induction false} BeforeDashWithoutDash(a: string)
    requires '-' !in a
    ensures BeforeDash(a) == a
  {
    if a != [] {
      assert a[0] in a;
      BeforeDashWithoutDash(a[1..]);
      assert [a[0]] + a[1..] == a;
    }
  }

  /** Reads `e-<source>-<target>` or `e-<source>-<target>-<n>` back into its parts. */
  function ParseEdgeId(id: string): Option<(string, string, nat)> {
    if |id| < 2 || id[..2] != "e-" then None
    else
      var rest := id[2..];
      if '-' !in rest then None
      else
        var source := BeforeDash(rest);
        var afterSource := AfterDash(rest);
        if '-' !in afterSource then Some((source, afterSource, 0))
        else
          var digits := AfterDash(afterSource);
          if digits != [] && AllDigits(digits) then Some((source, BeforeDash(afterSource), ParseNat(digits)))
          else None
  }

  /** When neither endpoint contains `-`, an edge id determines its source, target and count. */
  lemma EdgeIdRoundTrip(source: string, target: string, earlier: nat)
    requires '-' !in source && '-' !in target
    ensures ParseEdgeId(EdgeId(EdgeKey(source, target), earlier)) == Some((source, target, earlier))
  {
    var id := EdgeId(EdgeKey(source, target), earlier);
    assert id[..2] == "e-";
    if earlier == 0 {
      assert id[2..] == source + "-" + target;
      assert id[2..][|source|] == '-';
      SplitAtFirstDash(source, target);
    } else {
      var digits := NatToString(earlier);
      var afterSource := target + "-" + digits;
      assert id[2..] == source + "-" + afterSource;
      assert id[2..][|source|] == '-';
      assert afterSource[|target|] == '-';
      SplitAtFirstDash(source, afterSource);
      SplitAtFirstDash(target, digits);
      ParseNatToString(earlier);
    }
  }

  lemma EdgeIdInjective(s1: string, t1: string, k1: nat, s2: string, t2: string, k2: nat)
    requires '-' !in s1 && '-' !in t1 && '-' !in s2 && '-' !in t2
    ensures EdgeId(EdgeKey(s1, t1), k1) == EdgeId(EdgeKey(s2, t2), k2) ==> s1 == s2 && t1 == t2 && k1 == k2
  {
    EdgeIdRoundTrip(s1, t1, k1);
    EdgeIdRoundTrip(s2, t2, k2);
  }

  // ---------------------------------------------------------------------
  // Edges
  // ---------------------------------------------------------------------

  /** A transition is kept by the filter exactly when it is drawable. */
  lemma {:induction false} DrawnMembers(transitions: seq<TransRec>, t: TransRec)
    ensures t in Drawn(transitions) <==> t in transitions && Drawable(t)
  {
    if transitions != [] {
      var n := |transitions| - 1;
      DrawnMembers(transitions[..n], t);
      assert transitions == transitions[..n] + [transitions[n]];
    }
  }

  /** Edge `e` is the one `d` draws: from its source to its resolved target, labelled by its trigger. */
  predicate DrawnAs(d: TransRec, e: Edge) {
    Drawable(d) && e.source == d.source.value && e.target == Target(d).value && e.caption == Trigger(d)
  }

  /** One edge per drawable transition, in input order; nothing else. */
  lemma {:induction false} EdgesFollowTransitions(transitions: seq<TransRec>)
    ensures |Edges(transitions)| == |Drawn(transitions)|
    ensures forall i :: 0 <= i < |Edges(transitions)| ==> DrawnAs(Drawn(transitions)[i], Edges(transitions)[i])
  {
    if transitions != [] {
      var n := |transitions| - 1;
      EdgesFollowTransitions(transitions[..n]);
    }
  }

  /** Every edge's id is built from its key and the number of earlier edges with that key. */
  ghost predicate IdsFollowRule(edges: seq<Edge>) {
    forall i :: 0 <= i < |edges| ==> edges[i].id == EdgeId(KeyOf(edges[i]), CountKey(edges[..i], KeyOf(edges[i])))
  }

  lemma {:induction false} EdgeIdsCountEarlier(transitions: seq<TransRec>)
    ensures IdsFollowRule(Edges(transitions))
  {
    if transitions != [] {
      var n := |transitions| - 1;
      var earlier := Edges(transitions[..n]);
      EdgeIdsCountEarlier(transitions[..n]);
      if Drawable(transitions[n]) {
        var edges := Edges(transitions);
        assert edges[..|earlier|] == earlier;
        forall i | 0 <= i < |earlier| ensures edges[..i] == earlier[..i] {
        }
      }
    }
  }

  /** A later edge with the same key has seen strictly more edges with that key. */
  lemma {:induction false} CountGrows(edges: seq<Edge>, i: nat, j: nat, key: string)
    requires i < j <= |edges| && KeyOf(edges[i]) == key
    ensures CountKey(edges[..j], key) > CountKey(edges[..i], key)
    decreases j
  {
    assert edges[..j][..j - 1] == edges[..j - 1];
    if j > i + 1 {
      CountGrows(edges, i, j - 1, key);
    }
  }

  lemma EdgeIdsDistinct(edges: seq<Edge>)
    requires IdsFollowRule(edges)
    requires forall i :: 0 <= i < |edges| ==> '-' !in edges[i].source && '-' !in edges[i].target
    ensures forall i, j :: 0 <= i < j < |edges| ==> edges[i].id != edges[j].id
  {
    forall i, j | 0 <= i < j < |edges| ensures edges[i].id != edges[j].id {
      var ei, ej := edges[i], edges[j];
      if KeyOf(ei) == KeyOf(ej) {
        CountGrows(edges, i, j, KeyOf(ei));
      }
      EdgeIdInjective(ei.source, ei.target, CountKey(edges[..i], KeyOf(ei)),
                      ej.source, ej.target, CountKey(edges[..j], KeyOf(ej)));
    }
  }

  /** Edge ids are pairwise distinct when no drawn source or target contains `-`. */
  lemma EdgeIdsUnique(transitions: seq<TransRec>)
    requires forall t :: t in transitions && Drawable(t) ==> '-' !in t.source.value && '-' !in Target(t).value
    ensures forall i, j :: 0 <= i < j < |Edges(transitions)| ==> Edges(transitions)[i].id != Edges(transitions)[j].id
  {
    var edges := Edges(transitions);
    EdgeIdsCountEarlier(transitions);
    EdgesFollowTransitions(transitions);
    forall i | 0 <= i < |edges| ensures '-' !in edges[i].source && '-' !in edges[i].target {
      DrawnMembers(transitions, Drawn(transitions)[i]);
    }
    EdgeIdsDistinct(edges);
  }

  /**
   * Without that condition ids can collide: after two `a -> b` transitions,
   * a third `a -> b-1` one gets the id the second already has,
   * `e-a-b-1`.
   */
  lemma DashInNameBreaksUniqueness(a: string, b: string)
    requires a != "" && b != ""
    ensures var edges := Edges([Trans("go", a, b), Trans("again", a, b), Trans("jump", a, b + "-1")]);
            |edges| == 3 && edges[1].id == edges[2].id == "e-" + a + "-" + b + "-1"
  {
    var t1, t2, t3 := Trans("go", a, b), Trans("again", a, b), Trans("jump", a, b + "-1");
    var key := EdgeKey(a, b);
    SamePairIds([t1, t2], a, b);
    var first := Edges([t1, t2]);
    assert NatToString(1) == "1";
    assert first[1].id == "e-" + a + "-" + b + "-1";
    var key3 := EdgeKey(a, b + "-1");
    assert |key3| == |key| + 2;
    assert KeyOf(first[0]) == key && KeyOf(first[1]) == key;
    CountKeySnoc([], first[0], key3);
    assert [] + [first[0]] == first[..1];
    CountKeySnoc(first[..1], first[1], key3);
    assert first[..1] + [first[1]] == first;
    assert CountKey(first, key3) == 0;
    EdgesSnoc([t1, t2], t3);
    assert [t1, t2] + [t3] == [t1, t2, t3];
    assert "e-" + key3 == "e-" + a + "-" + b + "-1";
  }

  // ---------------------------------------------------------------------
  // Used state ids
  // ---------------------------------------------------------------------

  /** The used set holds exactly the sources and targets of the edges. */
  lemma {:induction false} UsedIdsAreEndpoints(edges: seq<Edge>, x: string)
    ensures x in UsedIds(edges) <==> exists e :: e in edges && (e.source == x || e.target == x)
  {
    if edges != [] {
      var n := |edges| - 1;
      UsedIdsAreEndpoints(edges[..n], x);
      assert edges == edges[..n] + [edges[n]];
    }
  }

  // ---------------------------------------------------------------------
  // Nodes
  // ---------------------------------------------------------------------

  /**
   * The nodes are the kept states, in declaration order: node `j` is the
   * node of state `KeptIndices[j]`, those positions increase, and every kept
   * state is among them.
   */
  lemma {:induction false} NodesAreKeptStatesInOrder(states: seq<StateRec>, used: set<string>)
    ensures var ks := KeptIndices(states, used); |ks| == |Nodes(states, used)|
    ensures var ks := KeptIndices(states, used);
            forall j :: 0 <= j < |ks| ==>
              ks[j] < |states| && Kept(states[ks[j]], used) && Nodes(states, used)[j] == NodeFor(states[ks[j]])
    ensures var ks := KeptIndices(states, used); forall j1, j2 :: 0 <= j1 < j2 < |ks| ==> ks[j1] < ks[j2]
    ensures forall i :: 0 <= i < |states| && Kept(states[i], used) ==> i in KeptIndices(states, used)
  {
    if states != [] {
      var n := |states| - 1;
      var prefix := states[..n];
      NodesAreKeptStatesInOrder(prefix, used);
      var ks := KeptIndices(states, used);
      var pks := KeptIndices(prefix, used);
      forall j | 0 <= j < |pks| ensures states[pks[j]] == prefix[pks[j]] {
      }
    }
  }

  /** A node is the node of some kept state, and every kept state has its node. */
  lemma NodesMembership(states: seq<StateRec>, used: set<string>, node: Node)
    ensures node in Nodes(states, used) <==> exists s :: s in states && Kept(s, used) && node == NodeFor(s)
  {
    NodesAreKeptStatesInOrder(states, used);
    var nodes, ks := Nodes(states, used), KeptIndices(states, used);
    if node in nodes {
      var j :| 0 <= j < |nodes| && nodes[j] == node;
      assert states[ks[j]] in states;
    }
    if exists s :: s in states && Kept(s, used) && node == NodeFor(s) {
      var s :| s in states && Kept(s, used) && node == NodeFor(s);
      var i :| 0 <= i < |states| && states[i] == s;
      var j :| 0 <= j < |ks| && ks[j] == i;
      assert nodes[j] == node;
    }
  }

  /** Each node: id is a used, non-empty state name; label is the state's label or its name; position (0, 0). */
  lemma NodeShape(states: seq<StateRec>, used: set<string>, node: Node)
    requires node in Nodes(states, used)
    ensures node.id in used && node.id != "" && node.position == Position(0, 0)
    ensures exists s :: s in states && s.name == Some(node.id) && node.data.caption == s.caption.GetOr(node.id)
  {
    NodesMembership(states, used, node);
  }

  /** No two named states share a name. */
  ghost predicate DistinctNames(states: seq<StateRec>) {
    forall i, j :: 0 <= i < j < |states| && Named(states[i]) && Named(states[j]) ==> states[i].name != states[j].name
  }

  lemma NodeIdsDistinct(states: seq<StateRec>, used: set<string>)
    requires DistinctNames(states)
    ensures forall j1, j2 :: 0 <= j1 < j2 < |Nodes(states, used)| ==> Nodes(states, used)[j1].id != Nodes(states, used)[j2].id
  {
    NodesAreKeptStatesInOrder(states, used);
  }

  lemma {:induction false} NoUsedIdsNoNodes(states: seq<StateRec>)
    ensures Nodes(states, {}) == []
  {
    if states != [] {
      NoUsedIdsNoNodes(states[..|states| - 1]);
    }
  }

  // ---------------------------------------------------------------------
  // The snapshot
  // ---------------------------------------------------------------------

  /** Every node id is the source or target of some edge: unused states, unused parents included, are left out. */
  lemma NodesAreEdgeEndpoints(states: seq<StateRec>, transitions: seq<TransRec>, node: Node)
    requires node in Project(states, transitions).nodes
    ensures exists e :: e in Project(states, transitions).edges && (e.source == node.id || e.target == node.id)
  {
    var edges := Edges(transitions);
    NodeShape(states, UsedIds(edges), node);
    UsedIdsAreEndpoints(edges, node.id);
  }

  /** A name no edge uses has no node. */
  lemma UnreferencedStatesExcluded(states: seq<StateRec>, transitions: seq<TransRec>, name: string)
    requires forall e :: e in Edges(transitions) ==> e.source != name && e.target != name
    ensures forall node :: node in Project(states, transitions).nodes ==> node.id != name
  {
    forall node | node in Project(states, transitions).nodes ensures node.id != name {
      NodesAreEdgeEndpoints(states, transitions, node);
    }
  }

  /** With distinct state names, a named state some edge uses appears exactly once among the nodes. */
  lemma ReferencedStatesAppearOnce(states: seq<StateRec>, transitions: seq<TransRec>, s: StateRec)
    requires DistinctNames(states)
    requires s in states && Named(s)
    requires exists e :: e in Edges(transitions) && (e.source == s.name.value || e.target == s.name.value)
    ensures var nodes := Project(states, transitions).nodes;
            exists j :: 0 <= j < |nodes| && nodes[j] == NodeFor(s) &&
              forall k :: 0 <= k < |nodes| && nodes[k].id == s.name.value ==> k == j
  {
    var used := UsedIds(Edges(transitions));
    var nodes := Nodes(states, used);
    UsedIdsAreEndpoints(Edges(transitions), s.name.value);
    NodesMembership(states, used, NodeFor(s));
    NodeIdsDistinct(states, used);
    var j :| 0 <= j < |nodes| && nodes[j] == NodeFor(s);
    assert forall k :: 0 <= k < |nodes| && nodes[k].id == s.name.value ==> k == j;
  }

  /** No transitions: no edges and, since nothing is used, no nodes. */
  lemma EmptyTransitionsEmptyGraph(states: seq<StateRec>)
    ensures Project(states, []) == Snapshot([], [])
  {
    NoUsedIdsNoNodes(states);
  }

  // ---------------------------------------------------------------------
  // Appending one element
  // ---------------------------------------------------------------------

  lemma DrawnSnoc(transitions: seq<TransRec>, t: TransRec)
    ensures Drawn(transitions + [t]) == Drawn(transitions) + if Drawable(t) then [t] else []
  {
    assert (transitions + [t])[..|transitions|] == transitions;
  }

  lemma UsedIdsSnoc(edges: seq<Edge>, e: Edge)
    ensures UsedIds(edges + [e]) == UsedIds(edges) + {e.source, e.target}
  {
    assert (edges + [e])[..|edges|] == edges;
  }

  lemma NodesSnoc(states: seq<StateRec>, s: StateRec, used: set<string>)
    ensures Nodes(states + [s], used) == Nodes(states, used) + if Kept(s, used) then [NodeFor(s)] else []
  {
    assert (states + [s])[..|states|] == states;
  }

  // ---------------------------------------------------------------------
  // Scenarios of the repository's tests
  // ---------------------------------------------------------------------

  function State(name: string): StateRec {
    StateRec(Some(name), None)
  }

  function Trans(trigger: string, source: string, dest: string): TransRec {
    TransRec(Some(source), Some(dest), Some(trigger))
  }

  function PlainNode(name: string): Node {
    Node(name, NodeData(name), Position(0, 0))
  }

  /** A transition without a destination loops on its source. */
  lemma SelfLoopScenario(source: string, trigger: string)
    requires source != ""
    ensures Edges([TransRec(Some(source), None, Some(trigger))])
         == [Edge("e-" + source + "-" + source, source, source, trigger)]
  {
    var t := TransRec(Some(source), None, Some(trigger));
    EdgesSnoc([], t);
    assert [] + [t] == [t];
    assert "e-" + EdgeKey(source, source) == "e-" + source + "-" + source;
  }

  /** Two transitions over one pair get ids `e-<source>-<target>` and `e-<source>-<target>-1`. */
  lemma DuplicatePairScenario(source: string, target: string)
    requires source != "" && target != ""
    ensures var edges := Edges([Trans("start", source, target), Trans("restart", source, target)]);
            |edges| == 2 &&
            edges[0].id == "e-" + source + "-" + target &&
            edges[1].id == "e-" + source + "-" + target + "-1"
  {
    SamePairIds([Trans("start", source, target), Trans("restart", source, target)], source, target);
    assert NatToString(1) == "1";
  }

  /** When every transition is drawable the filter keeps them all. */
  lemma {:induction false} DrawnAll(transitions: seq<TransRec>)
    requires forall i :: 0 <= i < |transitions| ==> Drawable(transitions[i])
    ensures Drawn(transitions) == transitions
  {
    if transitions != [] {
      var n := |transitions| - 1;
      DrawnAll(transitions[..n]);
      assert transitions[..n] + [transitions[n]] == transitions;
    }
  }

  /** When every edge has key `key`, the count of `key` is the length. */
  lemma {:induction false} CountAllSame(edges: seq<Edge>, key: string)
    requires forall i :: 0 <= i < |edges| ==> KeyOf(edges[i]) == key
    ensures CountKey(edges, key) == |edges|
  {
    if edges != [] {
      CountAllSame(edges[..|edges| - 1], key);
    }
  }

  /**
   * N drawable transitions over one `source -> target` pair give N edges
   * whose ids are `e-<key>`, `e-<key>-1`, ..., `e-<key>-(N-1)`.
   */
  lemma SamePairIds(transitions: seq<TransRec>, source: string, target: string)
    requires source != "" && target != ""
    requires forall i :: 0 <= i < |transitions| ==> transitions[i].source == Some(source) && transitions[i].dest == Some(target)
    ensures |Edges(transitions)| == |transitions|
    ensures forall i :: 0 <= i < |transitions| ==> Edges(transitions)[i].id == EdgeId(EdgeKey(source, target), i)
  {
    var edges, key := Edges(transitions), EdgeKey(source, target);
    DrawnAll(transitions);
    EdgesFollowTransitions(transitions);
    EdgeIdsCountEarlier(transitions);
    forall i | 0 <= i < |edges| ensures edges[i].id == EdgeId(key, i) {
      assert DrawnAs(transitions[i], edges[i]);
      CountAllSame(edges[..i], key);
    }
  }

  /** Two drawable transitions: two edges, in order, and the used set is their four endpoints. */
  lemma TwoTransitions(t1: TransRec, t2: TransRec)
    requires Drawable(t1) && Drawable(t2)
    ensures var edges := Edges([t1, t2]);
            |edges| == 2 && DrawnAs(t1, edges[0]) && DrawnAs(t2, edges[1]) &&
            forall x :: x in UsedIds(edges) <==>
              x == t1.source.value || x == Target(t1).value || x == t2.source.value || x == Target(t2).value
  {
    EdgesSnoc([], t1);
    assert [] + [t1] == [t1];
    EdgesSnoc([t1], t2);
    assert [t1] + [t2] == [t1, t2];
    var edges := Edges([t1, t2]);
    UsedIdsSnoc([], edges[0]);
    assert [] + [edges[0]] == [edges[0]];
    UsedIdsSnoc([edges[0]], edges[1]);
    assert [edges[0]] + [edges[1]] == edges;
  }

  /**
   * A parent state that no transition names directly is not a node, while
   * its children that transitions use are: with states `idle`, `processing`,
   * `processing_validating`, `processing_payment`, `completed` and
   * transitions `idle -> processing_validating -> completed`, the nodes are
   * `idle`, `processing_validating`, `completed`.
   */
  lemma UnusedParentScenario(idle: string, parent: string, child: string, sibling: string, done: string)
    requires idle != "" && child != "" && done != ""
    requires parent !in {idle, child, done} && sibling !in {idle, child, done}
    ensures Project([State(idle), State(parent), State(child), State(sibling), State(done)],
                    [Trans("start", idle, child), Trans("finish", child, done)]).nodes
         == [PlainNode(idle), PlainNode(child), PlainNode(done)]
  {
    TwoTransitions(Trans("start", idle, child), Trans("finish", child, done));
    UnusedParentNodes(idle, parent, child, sibling, done,
                      UsedIds(Edges([Trans("start", idle, child), Trans("finish", child, done)])));
  }

  lemma UnusedParentNodes(idle: string, parent: string, child: string, sibling: string, done: string, used: set<string>)
    requires idle != "" && child != "" && done != ""
    requires idle in used && child in used && done in used && parent !in used && sibling !in used
    ensures Nodes([State(idle), State(parent), State(child), State(sibling), State(done)], used)
         == [PlainNode(idle), PlainNode(child), PlainNode(done)]
  {
    var s1, s2, s3, s4, s5 := State(idle), State(parent), State(child), State(sibling), State(done);
    assert Nodes([s1], used) == [PlainNode(idle)] by {
      NodesSnoc([], s1, used);
      assert [] + [s1] == [s1];
    }
    assert Nodes([s1, s2], used) == [PlainNode(idle)] by {
      NodesSnoc([s1], s2, used);
      assert [s1] + [s2] == [s1, s2];
    }
    assert Nodes([s1, s2, s3], used) == [PlainNode(idle), PlainNode(child)] by {
      NodesSnoc([s1, s2], s3, used);
      assert [s1, s2] + [s3] == [s1, s2, s3];
    }
    assert Nodes([s1, s2, s3, s4], used) == [PlainNode(idle), PlainNode(child)] by {
      NodesSnoc([s1, s2, s3], s4, used);
      assert [s1, s2, s3] + [s4] == [s1, s2, s3, s4];
    }
    NodesSnoc([s1, s2, s3, s4], s5, used);
    assert [s1, s2, s3, s4] + [s5] == [s1, s2, s3, s4, s5];
  }

  /**
   * A transition with two sources, once expanded, gives two edges with its
   * trigger, one from each source, and the nodes are the three states they
   * touch: `stop` from `running` and `paused` to `stopped`, with `idle`
   * unused.
   */
  lemma FanOutScenario(idle: string, first: string, second: string, dest: string)
    requires first != "" && second != "" && dest != ""
    requires idle !in {first, second, dest}
    ensures var g := Project([State(idle), State(first), State(second), State(dest)],
                             [Trans("stop", first, dest), Trans("stop", second, dest)]);
            |g.edges| == 2 &&
            g.edges[0].source == first && g.edges[1].source == second &&
            g.edges[0].target == dest && g.edges[1].target == dest &&
            g.edges[0].caption == "stop" && g.edges[1].caption == "stop" &&
            g.nodes == [PlainNode(first), PlainNode(second), PlainNode(dest)]
  {
    TwoTransitions(Trans("stop", first, dest), Trans("stop", second, dest));
    FanOutNodes(idle, first, second, dest, UsedIds(Edges([Trans("stop", first, dest), Trans("stop", second, dest)])));
  }

  lemma FanOutNodes(idle: string, first: string, second: string, dest: string, used: set<string>)
    requires first != "" && second != "" && dest != ""
    requires first in used && second in used && dest in used && idle !in used
    ensures Nodes([State(idle), State(first), State(second), State(dest)], used)
         == [PlainNode(first), PlainNode(second), PlainNode(dest)]
  {
    var s1, s2, s3, s4 := State(idle), State(first), State(second), State(dest);
    assert Nodes([s1], used) == [] by {
      NodesSnoc([], s1, used);
      assert [] + [s1] == [s1];
    }
    assert Nodes([s1, s2], used) == [PlainNode(first)] by {
      NodesSnoc([s1], s2, used);
      assert [s1] + [s2] == [s1, s2];
    }
    assert Nodes([s1, s2, s3], used) == [PlainNode(first), PlainNode(second)] by {
      NodesSnoc([s1, s2], s3, used);
      assert [s1, s2] + [s3] == [s1, s2, s3];
    }
    NodesSnoc([s1, s2, s3], s4, used);
    assert [s1, s2, s3] + [s4] == [s1, s2, s3, s4];
  }
}
