# React Flow projection of a state machine

`ReactFlowGraph` turns the states and transitions of a pytransitions state
machine into the `{nodes, edges}` JSON document that React Flow draws.
`get_graph` runs three passes over the resolved records:

1. `_build_edges`: one edge for each transition that has both a source and a
   destination. A missing `dest` falls back to the source, which gives a
   self-loop. Each edge's id is `e-<source>-<target>`. A repeated
   source/target pair gets `-1`, `-2` and so on appended.
2. `_get_used_state_ids`: the set of all edge sources and targets.
3. `_build_nodes`: one node for each named state that some edge uses, in
   declaration order. The node's label defaults to the state's name and its
   position is `(0, 0)`.

If either input is not a list, `get_graph` fails with
`Failed to generate React Flow graph: Invalid states or transitions data from _get_elements()`.

The modules:

- `Wrappers` (`wrappers.dfy`): `Option` and `Result`.
- `Decimal` (`decimal.dfy`): renders the counter in an edge id as text and
  reads it back.
- `Graph` (`graph.dfy`): the records, the three passes and `get_graph`.
  - Each pass is a method with the loop of the original.
  - Each method is proved equal to a specification function (`Edges`,
    `UsedIds`, `Nodes`).
  - The `get_graph` method is proved against `Project`, which composes those
    functions.
- `GraphProperties` (`graph_properties.dfy`): what the specification
  functions guarantee, plus the scenarios of the repository's tests, stated
  over arbitrary state names.

Records are dictionaries in the source. Here they are datatypes whose
`Option` fields say whether a key is present. `label` is a Dafny keyword,
so the `label` keys are called `caption`.

Edge ids are unique only when no drawn source or target contains `-`.
- `GraphProperties.EdgeIdsUnique` proves uniqueness under that condition.
- `GraphProperties.DashInNameBreaksUniqueness` shows two equal ids once a
  name contains `-`.

The tests import the class from `transitions_reactflow.diagrams_reactflow`.
The class text modelled here is `transitions_reactflow/graph.py`.

## Model

| member | source | states |
|---|---|---|
| Graph.BuildEdges | transitions_reactflow/graph.py:58-93 | The loop returns exactly `Edges(transitions)`, and its final counter dictionary maps each key to the number of edges with that key (no other key appears). |
| Graph.TalliesStep | transitions_reactflow/graph.py:80-82 | Incrementing the counter at an edge's key (starting from 0 when the key is absent) keeps the counter a tally of the edges built so far. |
| Graph.GetUsedStateIds | transitions_reactflow/graph.py:95-113 | The loop returns exactly `UsedIds(edges)`. |
| Graph.BuildNodes | transitions_reactflow/graph.py:115-144 | The loop returns exactly `Nodes(states, usedStateIds)`. It skips unnamed states and states no edge uses. |
| Graph.GetGraph | transitions_reactflow/graph.py:22-56 | Fails exactly when the states or the transitions are not a list, with the "Failed to generate React Flow graph" message wrapping the invalid-data cause. Otherwise returns the nodes and edges of `Project`. |
| Graph.FailureMessage | transitions_reactflow/graph.py:54-56 | Every wrapped error message starts with "Failed to generate React Flow graph". |
| Decimal.NatToString | transitions_reactflow/graph.py:84 | The count in an id is a non-empty run of decimal digits with no leading zero. |
| Decimal.ParseNatToString | transitions_reactflow/graph.py:84 | Reading the rendered count back gives the count (round trip). |
| Decimal.NatToStringInjective | transitions_reactflow/graph.py:84 | Different counts render as different strings. |
| GraphProperties.EdgeIdRoundTrip | transitions_reactflow/graph.py:80-84 | If neither endpoint contains `-`, the id can be parsed back into its source, target and earlier count. |
| GraphProperties.EdgeIdInjective | transitions_reactflow/graph.py:80-84 | If no endpoint contains `-`, equal ids mean equal source, target and count. |
| GraphProperties.DrawnMembers | transitions_reactflow/graph.py:72-77 | A transition is kept by the filter exactly when it is in the input and both its source and its `dest` (default: the source) are non-empty. |
| GraphProperties.EdgesFollowTransitions | transitions_reactflow/graph.py:71-91 | There is one edge per kept transition, in input order. Each edge runs from the transition's source to its resolved target, and its label is the trigger (default ""). |
| GraphProperties.EdgeIdsCountEarlier | transitions_reactflow/graph.py:80-84 | Every edge's id is `e-<key>`, with `-<n>` appended when n > 0, where n counts the earlier edges with the same key. |
| GraphProperties.CountGrows | transitions_reactflow/graph.py:81-82 | A later edge with the same key has seen strictly more edges with that key. |
| GraphProperties.EdgeIdsDistinct | transitions_reactflow/graph.py:79-84 | Edges whose ids follow the counting rule, with no endpoint containing `-`, have pairwise distinct ids. |
| GraphProperties.EdgeIdsUnique | transitions_reactflow/graph.py:58-93 | If no drawn source or target contains `-`, all edge ids are pairwise distinct (the "unique IDs" the docstring promises). |
| GraphProperties.DashInNameBreaksUniqueness | transitions_reactflow/graph.py:80-84 | Transitions a→b, a→b and a→"b-1" make the second and third edges share the id `e-a-b-1`. |
| GraphProperties.UsedIdsAreEndpoints | transitions_reactflow/graph.py:105-113 | A name is used exactly when some edge has it as source or target. |
| GraphProperties.NodesAreKeptStatesInOrder | transitions_reactflow/graph.py:128-142 | Node j is the node of the j-th kept state. The kept positions increase strictly, and every kept state is among them. |
| GraphProperties.NodesMembership | transitions_reactflow/graph.py:128-142 | A node is in the result exactly when it is the node of some named, used state. |
| GraphProperties.NodeShape | transitions_reactflow/graph.py:138-142 | Each node's id is a used, non-empty state name. Its label is that state's `label`, or else its name. Its position is (0, 0). |
| GraphProperties.NodeIdsDistinct | transitions_reactflow/graph.py:128-142 | With distinct state names, node ids are pairwise distinct. |
| GraphProperties.NoUsedIdsNoNodes | transitions_reactflow/graph.py:134-136 | With no used names there are no nodes. |
| GraphProperties.NodesAreEdgeEndpoints | transitions_reactflow/graph.py:43-50 | Every node of the snapshot is the source or target of one of its edges. |
| GraphProperties.UnreferencedStatesExcluded | tests/test_extensions.py:46-60 | A name that no edge uses has no node. |
| GraphProperties.ReferencedStatesAppearOnce | transitions_reactflow/graph.py:43-50 | With distinct names, every named state that some edge uses appears exactly once among the nodes. |
| GraphProperties.EmptyTransitionsEmptyGraph | tests/test_graph.py:101-112 | No transitions gives no edges and no nodes, whatever the states. |
| GraphProperties.SelfLoopScenario | transitions_reactflow/graph.py:72-73 | A transition without `dest` gives one self-loop edge with id `e-s-s` and the trigger as label. |
| GraphProperties.DuplicatePairScenario | tests/test_machine.py:103-119 | Two transitions over one pair give ids `e-s-t` and `e-s-t-1`. |
| GraphProperties.SamePairIds | transitions_reactflow/graph.py:80-84 | If every transition joins the same pair, edge i has id `EdgeId(key, i)`, and there are as many edges as transitions. |
| GraphProperties.UnusedParentScenario | tests/test_machine.py:80-101 | With transitions idle → child → done, the parent and the unused sibling get no node. The nodes are idle, child and done, in that order. |
| GraphProperties.FanOutScenario | tests/test_graph.py:81-99 | An expanded two-source `stop` transition gives two `stop` edges, one from each source. The nodes are the two sources and the destination, and the unused state is left out. |

## Left out

- `generate`, `set_previous_transition`, `set_node_style` and `reset_styling`
  (`transitions_reactflow/graph.py:15-20`, `147-157`) do nothing and have no
  state, so they have nothing to model.
- `_get_elements`, `BaseGraph` and the transitions library are not part of
  this model. Their resolved records are the input. Expanding list sources
  and the `*` wildcard into single-source records, and flattening nested
  states into `parent_child` names, happen there. The scenarios start from
  records that are already expanded.
- The `title` and `roi_state` parameters of `get_graph` are accepted and
  ignored by the source. The model omits them.
- A key present with the value `None` is not told apart from an absent key.
  For example, `dest: None` is modelled as an absent `dest`. The source would
  then skip the transition instead of drawing a self-loop.
- Source, target and name values are strings here. The source's `str()`
  conversion of other values inside the f-strings, and the truthiness of
  values that are not strings, are not modelled.
- `Graph.GetGraph` models only the cause the source raises itself, the
  non-list check. Other exceptions that the `except` clause would wrap (a
  record that is not a dictionary, an unhashable name) cannot arise with
  typed records.
- The `'source' in edge` and `'target' in edge` tests in
  `_get_used_state_ids` always hold for the edges `_build_edges` makes. The
  model adds both endpoints unconditionally.
- `Graph.BuildEdges`: the source's local `edge_counter` dictionary is
  returned as a ghost out-parameter so that its final contents can be stated.
- `transitions_reactflow/machine.py` (the machine classes that select this
  graph engine), the locked and asynchronous variants, the demo
  applications and the packaging files are not part of this model.
- The JSON encoding of the result dictionary is not modelled: `Snapshot` is
  the dictionary itself.
