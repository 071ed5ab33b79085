# family-tree, modelled in Dafny

`family-tree.py` draws a family tree with Graphviz. The author registers
families with `FamilyNetwork.add_family`. Each family is a `Couple` (husband,
wife, generation) and, optionally, a `Children` group (an ordered list of
names). The registry files every unit under a generation number: a couple at
its own generation, and its group of children at the next one.
`create_graph` then walks the registry twice:

- the first pass declares one same-rank subgraph per generation, holding each
  couple's invisible marriage junction with its two spousal edges and a box
  node per child;
- the second pass links every group to its parents. A group with one child
  gets one edge from the parents' junction. A group of n > 1 children gets a
  group junction, one junction per child, a chain of edges through those
  junctions that fixes sibling order, one descent edge per child and an edge
  from the parents' junction. The junctions and chain edges go into one
  same-rank cluster per generation.

The model has four modules:

- `FamilyUnits` (`family_units.dfy`) holds the `Couple` and `Children` values,
  their tagged union `Unit`, and the identifier helpers `get_id`, `get_ids`
  and `get_generation`. It also has `Join`/`Split` for `'/'.join`, used to
  prove that group identifiers determine their children.
- `Registry` (`registry.dfy`) holds the `people_by_generation` table as a
  `map<int, seq<Unit>>` and the pure meaning of one `add_family` call
  (`Register`). It states the invariant registration keeps (`RegistryValid`):
  every group has its parent set, sits one generation below that parent, and
  the parent couple is listed there.
- `Layout` (`layout.dfy`) represents the graph description as abstract
  statements: `Node(id, Box | Point)`, `Edge(tail, head)`, and same-rank
  subgraphs `SameRank(body)`. It defines `Graph`, the specification of the two
  passes, and the imperative loops of `create_graph` proved equal to it. The
  rest of the module is lemmas: where each couple's and each group's
  statements land, and how many junctions, person nodes and edges are emitted.
- `Network` (`network.dfy`) holds the class `FamilyNetwork`. Its field
  `peopleByGeneration` is updated in place by `AddFamily`, and `CreateGraph`
  runs the two passes. The module also has the sample families of
  `create_family_graph`, with the counts their graph must have.

Python's dictionary iteration order is not fixed, so `CreateGraph` takes the
order in which the generations are visited as a parameter `order`. It must
list every generation exactly once (`Enumerates`). Both passes use that same
order. The properties about counts hold for every such order.

An empty `Children` list makes the second pass index `children[0]` out of
range, which raises `IndexError`. The model returns `Err(EmptyChildrenGroup)`
for this. `GraphFails` proves that this happens exactly when some registered
group is empty.

## Model

| member | source | states |
|---|---|---|
| FamilyUnits.CoupleIdShape | family-tree.py:32-33 | the couple identifier is `couple_`, then the husband's name, `_`, then the wife's name, with the exact length |
| FamilyUnits.CoupleIdInjective | family-tree.py:32-33 | if neither husband's name contains `_`, equal couple identifiers imply the same husband and the same wife |
| FamilyUnits.CoupleIdsCollide | family-tree.py:32-33 | without that restriction two different couples share an identifier (`a_b`+`c` and `a`+`b_c`) |
| FamilyUnits.ChildIds | family-tree.py:51-52 | `get_ids` has one identifier per child |
| FamilyUnits.ChildIdsAt | family-tree.py:51-52 | the i-th child identifier is `child_` followed by the i-th name |
| FamilyUnits.SplitJoin | family-tree.py:48-49 | splitting a `/`-join of `/`-free pieces gives the pieces back, in order |
| FamilyUnits.ChildrenIdInjective | family-tree.py:48-52 | if no child's name contains `/`, equal group identifiers imply the same list of children in the same order |
| Registry.Append | family-tree.py:73 | one `append` adds the generation as a key, puts the unit at the end of that generation's list and changes no other generation |
| Registry.Adopted | family-tree.py:54-55 | setting the parent keeps the names; the group's generation is then the parent's generation + 1 |
| Registry.Register | family-tree.py:73-77 | the new key set; the couple is appended to its generation; the adopted group, if given, is appended to the next generation; every other list is unchanged; every old list is a prefix of the new one |
| Registry.RegisterValid | family-tree.py:65-77 | registration keeps the invariant that every group has its parent set, sits at its parent's generation + 1 and has its parent couple listed there |
| Network.FamilyNetwork.AddFamily | family-tree.py:65-77 | the table is updated in place to exactly `Register` of the old table, and the invariant is kept |
| Network.FamilyNetwork.CreateGraph | family-tree.py:79-125 | both passes, visiting the generations in `order`, give exactly `Graph` of the registry, including the failure on an empty group |
| Layout.DeclareCouple | family-tree.py:88-93 | a couple's statements are its point junction, the edge husband → junction, and the edge junction → wife, in that order |
| Layout.DeclareChildren | family-tree.py:94-97 | one box node per child, in sibling order |
| Layout.DeclareGeneration | family-tree.py:87-97 | the first-pass body of one generation is its units' declarations in registry order |
| Layout.DeclareAll | family-tree.py:84-98 | the first pass emits one same-rank group per generation, in `order` |
| Layout.ChainEdges | family-tree.py:117-118 | the loop over `children_nodes` emits an edge between each consecutive pair, in list order |
| Layout.LinkSiblings | family-tree.py:110-120 | for several children: the cluster is the group junction, the child junctions and the chain; the top-level edges are the descent edges, then parents → group junction |
| Layout.LinkGroup | family-tree.py:103-122 | a group is linked exactly when it names a child, with its top-level edges and cluster statements |
| Layout.LinkGeneration | family-tree.py:101-124 | one generation's links are its top-level edges, then its cluster if it holds a group; it fails exactly when one of its groups is empty |
| Layout.LinkAll | family-tree.py:100-124 | the second pass succeeds exactly when every visited generation's groups name a child, and then emits the links of every generation in `order` |
| Layout.EnumeratedNonEmpty | family-tree.py:101 | over an enumeration of all generations, "every visited group names a child" is the same as "every registered group does" |
| Layout.GroupLinks | family-tree.py:110-122 | position by position: one child gives no junction and the edge parents → child; n > 1 children give n + 1 junctions, n chain edges in sibling order, n descent edges, and the edge parents → group junction |
| Layout.GroupRankShape | family-tree.py:112-118 | the cluster of a group of n > 1 children, position by position |
| Layout.GroupTopShape | family-tree.py:114-119 | the top-level edges of a group of n > 1 children, position by position |
| Layout.NodesAt | family-tree.py:96-97 | the i-th declared node belongs to the i-th identifier |
| Layout.PairsAt | family-tree.py:114-115 | the i-th descent edge goes from the i-th child junction to the i-th child |
| Layout.ChainAt | family-tree.py:117-118 | the i-th chain edge joins the i-th and (i+1)-th node of `children_nodes` |
| Layout.GraphDeclaresCouple | family-tree.py:88-93 | every registered couple has its junction and two spousal edges as three consecutive statements of its generation's same-rank group |
| Layout.GenerationLinksGroup | family-tree.py:103-124 | every group's top-level edges and cluster statements are contiguous runs of its generation's links, and the cluster closes those links |
| Layout.GraphLinksGeneration | family-tree.py:100-124 | the output is the first pass, then each generation's links in visiting order |
| Layout.GroupCount | family-tree.py:110-122 | a group of n > 1 children adds n + 1 junctions and 2n + 1 edges; a single child adds one edge |
| Layout.UnitCountSplit | family-tree.py:84-124 | a unit's statements from both passes add up to its expected count |
| Layout.GenerationLinksCount | family-tree.py:84-124 | a generation's statements from both passes add up to the sum of its units' counts |
| Layout.GraphCount | family-tree.py:79-125 | on a registry with no empty group, the graph is produced, and its numbers of junctions, person nodes and edges are the registry's expected counts, for every visiting order |
| Layout.GraphFails | family-tree.py:121-122 | the graph fails exactly when some registered group names no child |
| Layout.RegisterNonEmpty | family-tree.py:65-77 | registering a family whose group names a child keeps the graph producible |
| Layout.RegisterCount | family-tree.py:65-77 | each `add_family` adds exactly its couple's and its group's contribution to the expected counts |
| Layout.RegisterCommutesForCount | family-tree.py:65-77 | registering two families in either order gives the same counts |
| Network.CreateFamilyGraph | family-tree.py:6-17 | the sample families' registry is valid and equals `SampleRegistry` |
| Network.SampleGraph | family-tree.py:6-17 | for every visiting order, the sample's graph is produced and has 11 junctions, 7 person nodes and 22 edges |

## Left out

- Graphviz itself is not modelled: the `Digraph` object, `attr` calls and node or edge styles (`shape`, `height`, `color`, `dir`). A statement keeps only its identifiers and whether the node is a box or a point.
- Subgraph names are not modelled: `generation_N` and the `children_…` name of a generation's cluster. A same-rank subgraph is only its body.
- Rendering, output format and opening a viewer (family-tree.py:128-133) are not modelled. They are I/O.
- Dictionary iteration order is a parameter of `CreateGraph`, not a model of CPython's hash order.
- The `type(...) ==` assertions in `add_family` are not modelled. The `Unit` datatype makes them always true.
- `people_by_generation` is a per-instance field. In the source it is a class attribute shared by every `FamilyNetwork`, so a second instance would see the first one's families.
- The `__repr__` methods are not modelled.
- Network.FamilyNetwork.AddFamily: `Children` is a value, so the caller's own object is not updated when the registry copy's parent is set. Registering the same group object twice, where the source would rewrite the parent of the copy already stored, is not modelled.
- Layout.UnitTop: the function also returns, for a group without a parent or without children, the empty list. The second pass never reaches that case: it fails first on an empty group, and the registry invariant rules out a missing parent.
- Duplicate names are not handled: identifiers are plain string concatenations and can collide (see `FamilyUnits.CoupleIdsCollide`). The identifier lemmas assume separator-free names.
- People are drawn only as edge endpoints or child nodes. A spouse gets no node of their own and is created implicitly by the rendering library. The model counts only declared nodes.
