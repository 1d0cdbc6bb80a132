/**
 * The React Flow projection of a state machine: `ReactFlowGraph.get_graph`
 * and its three passes over the resolved state and transition records.
 *
 * Each pass is a method with the loop of the original, proved equal to a
 * specification function defined element by element from the front of its
 * input (appending to the result of the shorter prefix), which is the order
 * in which the loop works.
 */
module Graph {
  import opened Wrappers
  import opened Decimal

  // ---------------------------------------------------------------------
  // Records
  // ---------------------------------------------------------------------

  /**
   * A resolved state record; `None` stands for a key the record lacks.
   * `caption` is the record's `label` key (`label` is a Dafny keyword).
   */
  datatype StateRec = StateRec(name: Option<string>, caption: Option<string>)

  /**
   * A resolved transition record with a single source (list sources and the
   * `*` wildcard are expanded before the projection sees them).
   */
  datatype TransRec = TransRec(source: Option<string>, dest: Option<string>, trigger: Option<string>)

  /** The wire shape of a node: `{id, data: {label}, position: {x, y}}`; `caption` is `data.label`. */
  datatype Position = Position(x: int, y: int)
  datatype NodeData = NodeData(caption: string)
  datatype Node = Node(id: string, data: NodeData, position: Position)

  /** The wire shape of an edge, with a flat `label`, here `caption`. */
  datatype Edge = Edge(id: string, source: string, target: string, caption: string)

  /** The `{nodes, edges}` dictionary `get_graph` returns. */
  datatype Snapshot = Snapshot(nodes: seq<Node>, edges: seq<Edge>)

  /**
   * What the element resolution hands to `get_graph`; `None` stands for a
   * value that is not a list (for example Python's `None`).
   */
  datatype Elements = Elements(states: Option<seq<StateRec>>, transitions: Option<seq<TransRec>>)

  // ---------------------------------------------------------------------
  // Edges
  // ---------------------------------------------------------------------

  /** Python truthiness of an optional string: present and non-empty. */
  predicate Truthy(o: Option<string>) {
    o.Some? && o.value != ""
  }

  /** `transition.get('dest', source)`: the destination, or the source when the key is absent. */
  function Target(t: TransRec): Option<string> {
    if t.dest.Some? then t.dest else t.source
  }

  /** `transition.get('trigger', '')`. */
  function Trigger(t: TransRec): string {
    t.trigger.GetOr("")
  }

  /** A transition the diagram can show: both its source and its resolved target are truthy. */
  predicate Drawable(t: TransRec) {
    Truthy(t.source) && Truthy(Target(t))
  }

  function EdgeKey(source: string, target: string): string {
    source + "-" + target
  }

  function KeyOf(e: Edge): string {
    EdgeKey(e.source, e.target)
  }

  /** The id of an edge with key `key` after `earlier` edges with the same key. */
  function EdgeId(key: string, earlier: nat): string {
    if earlier > 0 then "e-" + key + "-" + NatToString(earlier) else "e-" + key
  }

  /** The number of edges in `edges` whose key is `key`. */
  function CountKey(edges: seq<Edge>, key: string): nat {
    if edges == [] then 0
    else CountKey(edges[..|edges| - 1], key) + (if KeyOf(edges[|edges| - 1]) == key then 1 else 0)
  }

  /** `counter` holds, for each key that occurs in `edges`, how often it occurs, and no other key. */
  ghost predicate Tallies(counter: map<string, nat>, edges: seq<Edge>) {
    forall key ::
      (key in counter <==> CountKey(edges, key) > 0) &&
      (key in counter ==> counter[key] == CountKey(edges, key))
  }

  /** The edge drawn for `t` after `earlier` edges with the same key. */
  function EdgeFor(t: TransRec, earlier: nat): Edge
    requires Drawable(t)
  {
    var source := t.source.value;
    var target := Target(t).value;
    Edge(EdgeId(EdgeKey(source, target), earlier), source, target, Trigger(t))
  }

  /** The edges `_build_edges` produces, one transition at a time. */
  function Edges(transitions: seq<TransRec>): seq<Edge> {
    if transitions == [] then []
    else
      var earlier := Edges(transitions[..|transitions| - 1]);
      var t := transitions[|transitions| - 1];
      if Drawable(t) then
        earlier + [EdgeFor(t, CountKey(earlier, EdgeKey(t.source.value, Target(t).value)))]
      else earlier
  }

  /** The drawable transitions, in input order: a reference filter for `Edges`. */
  function Drawn(transitions: seq<TransRec>): seq<TransRec> {
    if transitions == [] then []
    else
      var t := transitions[|transitions| - 1];
      Drawn(transitions[..|transitions| - 1]) + (if Drawable(t) then [t] else [])
  }

  lemma EdgesSnoc(transitions: seq<TransRec>, t: TransRec)
    ensures Edges(transitions + [t]) ==
      if Drawable(t)
      then Edges(transitions) + [EdgeFor(t, CountKey(Edges(transitions), EdgeKey(t.source.value, Target(t).value)))]
      else Edges(transitions)
  {
    assert (transitions + [t])[..|transitions|] == transitions;
  }

  lemma CountKeySnoc(edges: seq<Edge>, e: Edge, key: string)
    ensures CountKey(edges + [e], key) == CountKey(edges, key) + if KeyOf(e) == key then 1 else 0
  {
    assert (edges + [e])[..|edges|] == edges;
  }

  /** One loop step keeps `counter` a tally of the edges. */
  lemma TalliesStep(counter: map<string, nat>, edges: seq<Edge>, e: Edge)
    requires Tallies(counter, edges)
    ensures var key := KeyOf(e);
            Tallies(counter[key := (if key in counter then counter[key] else 0) + 1], edges + [e])
  {
    forall key ensures CountKey(edges + [e], key) == CountKey(edges, key) + if KeyOf(e) == key then 1 else 0 {
      CountKeySnoc(edges, e, key);
    }
  }

  /**
   * `_build_edges`. The ghost `counter` is the final value of the
   * source's `edge_counter` dictionary.
   */
  method BuildEdges(transitions: seq<TransRec>) returns (edges: seq<Edge>, ghost counter: map<string, nat>)
    ensures edges == Edges(transitions)
    ensures Tallies(counter, edges)
  {
    edges := [];
    var edgeCounter: map<string, nat> := map[];
    for i := 0 to |transitions|
      invariant edges == Edges(transitions[..i])
      invariant Tallies(edgeCounter, edges)
    {
      assert transitions[..i + 1] == transitions[..i] + [transitions[i]];
      EdgesSnoc(transitions[..i], transitions[i]);
      var transition := transitions[i];
      var source := transition.source;
      var target := if transition.dest.Some? then transition.dest else source;
      var trigger := transition.trigger.GetOr("");
      if !Truthy(source) || !Truthy(target) {
        continue;
      }
      var edgeKey := source.value + "-" + target.value;
      var edgeCount := if edgeKey in edgeCounter then edgeCounter[edgeKey] else 0;
      ghost var counted := edgeCounter;
      edgeCounter := edgeCounter[edgeKey := edgeCount + 1];
      var edgeId := if edgeCount > 0 then "e-" + edgeKey + "-" + NatToString(edgeCount) else "e-" + edgeKey;
      var edge := Edge(edgeId, source.value, target.value, trigger);
      TalliesStep(counted, edges, edge);
      edges := edges + [edge];
    }
    assert transitions[..|transitions|] == transitions;
    counter := edgeCounter;
  }

  // ---------------------------------------------------------------------
  // Used state ids
  // ---------------------------------------------------------------------

  /** Every source and every target of `edges`. */
  function UsedIds(edges: seq<Edge>): set<string> {
    if edges == [] then {}
    else
      var e := edges[|edges| - 1];
      UsedIds(edges[..|edges| - 1]) + {e.source, e.target}
  }

  /** `_get_used_state_ids`. */
  method GetUsedStateIds(edges: seq<Edge>) returns (usedStateIds: set<string>)
    ensures usedStateIds == UsedIds(edges)
  {
    usedStateIds := {};
    for i := 0 to |edges|
      invariant usedStateIds == UsedIds(edges[..i])
    {
      assert edges[..i + 1][..i] == edges[..i];
      var edge := edges[i];
      usedStateIds := usedStateIds + {edge.source};
      usedStateIds := usedStateIds + {edge.target};
    }
    assert edges[..|edges|] == edges;
  }

  // ---------------------------------------------------------------------
  // Nodes
  // ---------------------------------------------------------------------

  predicate Named(s: StateRec) {
    Truthy(s.name)
  }

  /** A state that becomes a node: it has a name and some edge uses it. */
  predicate Kept(s: StateRec, used: set<string>) {
    Named(s) && s.name.value in used
  }

  /** The node of a named state: its label defaults to its name; the position is a placeholder. */
  function NodeFor(s: StateRec): Node
    requires Named(s)
  {
    var name := s.name.value;
    Node(name, NodeData(s.caption.GetOr(name)), Position(0, 0))
  }

  /** The nodes `_build_nodes` produces, one state at a time. */
  function Nodes(states: seq<StateRec>, used: set<string>): seq<Node> {
    if states == [] then []
    else
      var s := states[|states| - 1];
      Nodes(states[..|states| - 1], used) + (if Kept(s, used) then [NodeFor(s)] else [])
  }

  /** The positions in `states` of the kept states, in increasing order. */
  function KeptIndices(states: seq<StateRec>, used: set<string>): seq<nat> {
    if states == [] then []
    else
      var n := |states| - 1;
      KeptIndices(states[..n], used) + (if Kept(states[n], used) then [n] else [])
  }

  /** `_build_nodes`. */
  method BuildNodes(states: seq<StateRec>, usedStateIds: set<string>) returns (nodes: seq<Node>)
    ensures nodes == Nodes(states, usedStateIds)
  {
    nodes := [];
    for i := 0 to |states|
      invariant nodes == Nodes(states[..i], usedStateIds)
    {
      assert states[..i + 1][..i] == states[..i];
      var state := states[i];
      var stateName := state.name;
      if !Truthy(stateName) {
        continue;
      }
      if stateName.value !in usedStateIds {
        continue;
      }
      nodes := nodes + [Node(stateName.value, NodeData(state.caption.GetOr(stateName.value)), Position(0, 0))];
    }
    assert states[..|states|] == states;
  }

  // ---------------------------------------------------------------------
  // get_graph
  // ---------------------------------------------------------------------

  const GraphFailure := "Failed to generate React Flow graph"
  const InvalidElements := "Invalid states or transitions data from _get_elements()"

  /** The message of the error `get_graph` raises for an underlying cause. */
  function FailureMessage(cause: string): (m: string)
    ensures GraphFailure <= m
  {
    GraphFailure + ": " + cause
  }

  /** The snapshot the three passes build, chained as `get_graph` chains them. */
  function Project(states: seq<StateRec>, transitions: seq<TransRec>): Snapshot {
    var edges := Edges(transitions);
    Snapshot(Nodes(states, UsedIds(edges)), edges)
  }

  /**
   * `get_graph`: an error whose message starts with the failure prefix
   * exactly when either input is not a list, and otherwise the whole
   * snapshot; there is no partial result.
   */
  method GetGraph(elements: Elements) returns (r: Result<Snapshot, string>)
    ensures r.Err? <==> elements.states.None? || elements.transitions.None?
    ensures r.Err? ==> r.error == FailureMessage(InvalidElements) && GraphFailure <= r.error
    ensures r.Ok? ==> r.value == Project(elements.states.value, elements.transitions.value)
  {
    if elements.states.None? || elements.transitions.None? {
      return Err(FailureMessage(InvalidElements));
    }
    var states, transitions := elements.states.value, elements.transitions.value;
    var edges, _ := BuildEdges(transitions);
    var usedStateIds := GetUsedStateIds(edges);
    var nodes := BuildNodes(states, usedStateIds);
    r := Ok(Snapshot(nodes, edges));
  }
}
