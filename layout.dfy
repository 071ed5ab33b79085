/**
 * The layout builder (family-tree.py:79-125): the graph description that
 * `create_graph` hands to the rendering library, as a sequence of abstract
 * statements. The first pass declares, per generation, a same-rank group of
 * marriage junctions, spousal edges and child nodes; the second pass links
 * every group of children to its parents.
 */
module Layout {
  import opened FamilyUnits
  import opened Registry

  /** `box` for people, `point` for the invisible junctions. */
  datatype Shape = Box | Point

  datatype Stmt = Node(id: string, shape: Shape) | Edge(tail: string, head: string)

  /** An entry of the top-level graph: a statement of its own, or a same-rank subgraph. */
  datatype Entry = Line(stmt: Stmt) | SameRank(body: seq<Stmt>)

  /** `children[0]` on an empty list. */
  datatype LayoutError = EmptyChildrenGroup

  datatype Result<T> = Ok(value: T) | Err(error: LayoutError)

  // ---------------------------------------------------------------------------
  // Statement lists built one statement at a time

  lemma AppendAssoc<T>(a: seq<T>, b: seq<T>, c: seq<T>)
    ensures a + b + c == a + (b + c)
  {
  }

  lemma SplitAt<T>(s: seq<T>, k: int)
    requires 0 <= k < |s|
    ensures s == s[..k] + [s[k]] + s[k + 1..]
  {
  }

  lemma SliceMiddle<T>(a: seq<T>, b: seq<T>, c: seq<T>)
    ensures (a + b + c)[|a|..|a| + |b|] == b
  {
  }

  /** One node per identifier, built in identifier order. */
  function Nodes(ids: seq<string>, shape: Shape): (s: seq<Stmt>)
    ensures |s| == |ids|
  {
    if ids == [] then [] else Nodes(ids[..|ids| - 1], shape) + [Node(ids[|ids| - 1], shape)]
  }

  /** One edge per position, from `tails[i]` to `heads[i]`, built in position order. */
  function Pairs(tails: seq<string>, heads: seq<string>): (s: seq<Stmt>)
    requires |tails| == |heads|
    ensures |s| == |tails|
  {
    if tails == [] then []
    else Pairs(tails[..|tails| - 1], heads[..|heads| - 1]) + [Edge(tails[|tails| - 1], heads[|heads| - 1])]
  }

  /** An edge between every two consecutive identifiers, built in list order. */
  function Chain(ids: seq<string>): (s: seq<Stmt>)
    ensures |s| == if ids == [] then 0 else |ids| - 1
  {
    if |ids| <= 1 then [] else Chain(ids[..|ids| - 1]) + [Edge(ids[|ids| - 2], ids[|ids| - 1])]
  }

  /** The i-th node is that of the i-th identifier. */
  lemma {:induction false} NodesAt(ids: seq<string>, shape: Shape, i: int)
    requires 0 <= i < |ids|
    ensures Nodes(ids, shape)[i] == Node(ids[i], shape)
  {
    if i < |ids| - 1 {
      NodesAt(ids[..|ids| - 1], shape, i);
    }
  }

  /** The i-th edge joins the i-th tail to the i-th head. */
  lemma {:induction false} PairsAt(tails: seq<string>, heads: seq<string>, i: int)
    requires |tails| == |heads| && 0 <= i < |tails|
    ensures Pairs(tails, heads)[i] == Edge(tails[i], heads[i])
  {
    if i < |tails| - 1 {
      PairsAt(tails[..|tails| - 1], heads[..|heads| - 1], i);
    }
  }

  /** The i-th chain edge joins the i-th identifier to the next one. */
  lemma {:induction false} ChainAt(ids: seq<string>, i: int)
    requires 0 <= i < |ids| - 1
    ensures Chain(ids)[i] == Edge(ids[i], ids[i + 1])
  {
    if i < |ids| - 2 {
      ChainAt(ids[..|ids| - 1], i);
    }
  }

  /** The entries of statements that go straight into the top-level graph. */
  function Lines(s: seq<Stmt>): (e: seq<Entry>)
    ensures |e| == |s|
  {
    if s == [] then [] else Lines(s[..|s| - 1]) + [Line(s[|s| - 1])]
  }

  // ---------------------------------------------------------------------------
  // First pass: people and marriage junctions (family-tree.py:84-98)

  /** The marriage junction of a couple and its two spousal edges. */
  function CoupleDecls(c: Couple): seq<Stmt> {
    var id := c.GetId();
    [Node(id, Point), Edge(c.husband, id), Edge(id, c.wife)]
  }

  function UnitDecls(u: Unit): seq<Stmt> {
    match u
    case CoupleU(c) => CoupleDecls(c)
    case ChildrenU(ch) => Nodes(ch.children, Box)
  }

  /** The body of a generation's same-rank group. */
  function GenerationDecls(units: seq<Unit>): seq<Stmt> {
    if units == [] then [] else GenerationDecls(units[..|units| - 1]) + UnitDecls(units[|units| - 1])
  }

  /** One same-rank group per generation, in the order the generations are visited. */
  function DeclPass(p: People, order: seq<int>): (e: seq<Entry>)
    ensures |e| == |order|
  {
    if order == [] then []
    else DeclPass(p, order[..|order| - 1]) + [SameRank(GenerationDecls(Members(p, order[|order| - 1])))]
  }

  // ---------------------------------------------------------------------------
  // Second pass: descent edges and sibling order (family-tree.py:100-124)

  /** A group can be linked: its parent is set and it names at least one child. */
  predicate Linkable(u: Unit) {
    u.ChildrenU? ==> u.group.parent.Some? && |u.group.children| > 0
  }

  predicate GroupsParented(units: seq<Unit>) {
    forall k :: 0 <= k < |units| && units[k].ChildrenU? ==> units[k].group.parent.Some?
  }

  predicate GroupsNonEmpty(units: seq<Unit>) {
    forall k :: 0 <= k < |units| && units[k].ChildrenU? ==> |units[k].group.children| > 0
  }

  predicate NoEmptyGroup(p: People) {
    forall g :: g in p ==> GroupsNonEmpty(p[g])
  }

  /**
   * What a group adds to the generation's same-rank cluster: for two or more
   * children, the group junction, one junction per child and the chain between
   * them; for one child, nothing.
   */
  function GroupRank(ch: Children): seq<Stmt> {
    if |ch.children| > 1 then
      [Node(ch.GetId(), Point)] + Nodes(ch.GetIds(), Point) + Chain([ch.GetId()] + ch.GetIds())
    else []
  }

  /**
   * What a group adds to the top-level graph: for two or more children, an edge
   * from each child's junction to the child and one from the parents' junction
   * to the group junction; for one child, the parents' junction to that child.
   */
  function GroupTop(ch: Children): seq<Stmt>
    requires ch.parent.Some? && |ch.children| > 0
  {
    var parentId := ch.parent.value.GetId();
    if |ch.children| > 1 then Pairs(ch.GetIds(), ch.children) + [Edge(parentId, ch.GetId())]
    else [Edge(parentId, ch.children[0])]
  }

  function UnitRank(u: Unit): seq<Stmt> {
    match u
    case CoupleU(_) => []
    case ChildrenU(ch) => GroupRank(ch)
  }

  /** A unit's top-level edges; a group that cannot be linked is never reached here (see `Graph`). */
  function UnitTop(u: Unit): seq<Stmt> {
    match u
    case CoupleU(_) => []
    case ChildrenU(ch) => if Linkable(u) then GroupTop(ch) else []
  }

  function GenerationRank(units: seq<Unit>): seq<Stmt> {
    if units == [] then [] else GenerationRank(units[..|units| - 1]) + UnitRank(units[|units| - 1])
  }

  function GenerationTop(units: seq<Unit>): seq<Stmt> {
    if units == [] then [] else GenerationTop(units[..|units| - 1]) + UnitTop(units[|units| - 1])
  }

  /** Whether the generation holds a group of children (the `_g is None` test). */
  function HasChildren(units: seq<Unit>): bool {
    units != [] && (units[|units| - 1].ChildrenU? || HasChildren(units[..|units| - 1]))
  }

  /** A generation's links: its top-level edges, then its cluster if it has any group. */
  function GenerationLinks(units: seq<Unit>): seq<Entry> {
    if HasChildren(units) then Lines(GenerationTop(units)) + [SameRank(GenerationRank(units))]
    else Lines(GenerationTop(units))
  }

  function LinkPass(p: People, order: seq<int>): seq<Entry> {
    if order == [] then []
    else LinkPass(p, order[..|order| - 1]) + GenerationLinks(Members(p, order[|order| - 1]))
  }

  /** Every generation's groups have their parent set under the registry invariant. */
  lemma ValidParented(p: People, g: int)
    requires RegistryValid(p)
    ensures GroupsParented(Members(p, g))
  {
  }

  /**
   * The graph description of a registry, visiting its generations in `order`,
   * or the failure of the second pass on a group without children.
   */
  function Graph(p: People, order: seq<int>): Result<seq<Entry>>
    requires RegistryValid(p)
  {
    if NoEmptyGroup(p) then Ok(DeclPass(p, order) + LinkPass(p, order)) else Err(EmptyChildrenGroup)
  }

  /** `order` visits every generation of the registry exactly once (one `iteritems()` order). */
  predicate Enumerates(order: seq<int>, keys: set<int>) {
    && (forall i, j :: 0 <= i < j < |order| ==> order[i] != order[j])
    && (forall g :: g in keys ==> g in order)
    && (forall i :: 0 <= i < |order| ==> order[i] in keys)
  }

  // ---------------------------------------------------------------------------
  // The emitting loops

  /** The inner loop of the first pass over one generation's units. */
  method DeclareGeneration(units: seq<Unit>) returns (body: seq<Stmt>)
    ensures body == GenerationDecls(units)
  {
    body := [];
    var j := 0;
    while j < |units|
      invariant 0 <= j <= |units|
      invariant body == GenerationDecls(units[..j])
    {
      assert units[..j + 1][..j] == units[..j];
      var more: seq<Stmt>;
      match units[j] {
        case CoupleU(c) =>
          more := DeclareCouple(c);
        case ChildrenU(ch) =>
          more := DeclareChildren(ch.children);
      }
      body := body + more;
      j := j + 1;
    }
    assert units[..j] == units;
  }

  /** A couple's marriage junction and the two spousal edges through it. */
  method DeclareCouple(c: Couple) returns (s: seq<Stmt>)
    ensures s == CoupleDecls(c)
  {
    var parentId := c.GetId();
    s := [Node(parentId, Point)];
    s := s + [Edge(c.husband, parentId)];
    s := s + [Edge(parentId, c.wife)];
  }

  /** One box node per child, in sibling order. */
  method DeclareChildren(children: seq<string>) returns (s: seq<Stmt>)
    ensures s == Nodes(children, Box)
  {
    s := [];
    var i := 0;
    while i < |children|
      invariant 0 <= i <= |children|
      invariant s == Nodes(children[..i], Box)
    {
      assert children[..i + 1][..i] == children[..i];
      s := s + [Node(children[i], Box)];
      i := i + 1;
    }
    assert children[..i] == children;
  }

  /**
   * The statements for a group of two or more children, from its identifiers
   * and names: the cluster statements and the top-level edges.
   */
  method LinkSiblings(childrenId: string, childIds: seq<string>, children: seq<string>, parentId: string)
    returns (rank: seq<Stmt>, top: seq<Stmt>)
    requires |childIds| == |children|
    ensures rank == [Node(childrenId, Point)] + Nodes(childIds, Point) + Chain([childrenId] + childIds)
    ensures top == Pairs(childIds, children) + [Edge(parentId, childrenId)]
  {
    var childrenNodes := [childrenId];
    var junctions := [];
    top := [];
    var i := 0;
    while i < |children|
      invariant 0 <= i <= |children|
      invariant junctions == Nodes(childIds[..i], Point)
      invariant top == Pairs(childIds[..i], children[..i])
      invariant childrenNodes == [childrenId] + childIds[..i]
    {
      assert childIds[..i + 1][..i] == childIds[..i];
      assert children[..i + 1][..i] == children[..i];
      AppendAssoc([childrenId], childIds[..i], [childIds[i]]);
      junctions := junctions + [Node(childIds[i], Point)];
      top := top + [Edge(childIds[i], children[i])];
      childrenNodes := childrenNodes + [childIds[i]];
      i := i + 1;
    }
    assert childIds[..i] == childIds && children[..i] == children;
    var chain := ChainEdges(childrenNodes);
    rank := [Node(childrenId, Point)] + junctions + chain;
    top := top + [Edge(parentId, childrenId)];
  }

  /** The edges between consecutive identifiers, emitted from the second onwards. */
  method ChainEdges(ids: seq<string>) returns (s: seq<Stmt>)
    ensures s == Chain(ids)
  {
    s := [];
    var k := 1;
    while k < |ids|
      invariant ids == [] ==> k == 1 && s == []
      invariant ids != [] ==> 1 <= k <= |ids| && s == Chain(ids[..k])
    {
      assert ids[..k + 1][..k] == ids[..k];
      s := s + [Edge(ids[k - 1], ids[k])];
      k := k + 1;
    }
    assert ids == [] || ids[..k] == ids;
  }


  /**
   * The second pass over one group: its top-level edges and cluster
   * statements, or `false` when it names no child (`children[0]` fails).
   */
  method LinkGroup(ch: Children) returns (ok: bool, top: seq<Stmt>, rank: seq<Stmt>)
    requires ch.parent.Some?
    ensures ok <==> |ch.children| > 0
    ensures ok ==> top == GroupTop(ch) && rank == GroupRank(ch)
  {
    var parentId := ch.parent.value.GetId();
    if |ch.children| > 1 {
      rank, top := LinkSiblings(ch.GetId(), ch.GetIds(), ch.children, parentId);
      ok := true;
    } else if |ch.children| == 1 {
      ok, top, rank := true, [Edge(parentId, ch.children[0])], [];
    } else {
      ok, top, rank := false, [], [];
    }
  }

  /**
   * The second pass over one generation: its top-level edges and, when it has
   * a group, its same-rank cluster; or the failure on an empty group.
   */
  method LinkGeneration(units: seq<Unit>) returns (r: Result<seq<Entry>>)
    requires GroupsParented(units)
    ensures r == if GroupsNonEmpty(units) then Ok(GenerationLinks(units)) else Err(EmptyChildrenGroup)
  {
    var top: seq<Stmt> := [];
    var rank: seq<Stmt> := [];
    var hasCluster := false;
    var j := 0;
    while j < |units|
      invariant 0 <= j <= |units|
      invariant forall k :: 0 <= k < j && units[k].ChildrenU? ==> |units[k].group.children| > 0
      invariant top == GenerationTop(units[..j])
      invariant rank == GenerationRank(units[..j])
      invariant hasCluster == HasChildren(units[..j])
    {
      ghost var done := units[..j + 1];
      assert done[..j] == units[..j] && done[j] == units[j];
      if units[j].ChildrenU? {
        var ok, groupTop, groupRank := LinkGroup(units[j].group);
        if !ok {
          assert !GroupsNonEmpty(units) by {
            assert units[j].ChildrenU? && |units[j].group.children| == 0;
          }
          return Err(EmptyChildrenGroup);
        }
        hasCluster := true;
        top := top + groupTop;
        rank := rank + groupRank;
      }
      j := j + 1;
    }
    assert units[..j] == units;
    assert GroupsNonEmpty(units);
    if hasCluster {
      r := Ok(Lines(top) + [SameRank(rank)]);
    } else {
      r := Ok(Lines(top));
    }
  }

  /** The first loop of `create_graph`: one same-rank group per generation, in `order`. */
  method DeclareAll(p: People, order: seq<int>) returns (e: seq<Entry>)
    ensures e == DeclPass(p, order)
  {
    e := [];
    var i := 0;
    while i < |order|
      invariant 0 <= i <= |order|
      invariant e == DeclPass(p, order[..i])
    {
      assert order[..i + 1][..i] == order[..i];
      var units := Members(p, order[i]);
      var body := DeclareGeneration(units);
      e := e + [SameRank(body)];
      i := i + 1;
    }
    assert order[..i] == order;
  }

  /**
   * The second loop of `create_graph`: the links of every generation, in
   * `order`, or the failure on the first group that names no child.
   */
  method LinkAll(p: People, order: seq<int>) returns (r: Result<seq<Entry>>)
    requires RegistryValid(p)
    ensures r.Ok? <==> VisitedNonEmpty(p, order)
    ensures r.Ok? ==> r.value == LinkPass(p, order)
    ensures r.Err? ==> r.error == EmptyChildrenGroup
  {
    var e: seq<Entry> := [];
    var i := 0;
    while i < |order|
      invariant 0 <= i <= |order|
      invariant VisitedNonEmpty(p, order[..i])
      invariant e == LinkPass(p, order[..i])
    {
      ghost var done := order[..i + 1];
      assert done[..i] == order[..i] && done[i] == order[i];
      var units := Members(p, order[i]);
      ValidParented(p, order[i]);
      var links := LinkGeneration(units);
      if links.Err? {
        VisitedNonEmptyAt(p, order, i);
        return Err(EmptyChildrenGroup);
      }
      assert LinkPass(p, done) == e + GenerationLinks(units);
      assert VisitedNonEmpty(p, done);
      e := e + links.value;
      i := i + 1;
    }
    assert order[..i] == order;
    r := Ok(e);
  }

  /** Every generation visited in `order` holds only groups that name a child. */
  predicate VisitedNonEmpty(p: People, order: seq<int>) {
    order == [] || (VisitedNonEmpty(p, order[..|order| - 1]) && GroupsNonEmpty(Members(p, order[|order| - 1])))
  }

  /** A visited generation with an empty group makes the whole visit fail. */
  lemma {:induction false} VisitedNonEmptyAt(p: People, order: seq<int>, i: int)
    requires 0 <= i < |order|
    ensures VisitedNonEmpty(p, order) ==> GroupsNonEmpty(Members(p, order[i]))
  {
    if i < |order| - 1 {
      VisitedNonEmptyAt(p, order[..|order| - 1], i);
    }
  }

  lemma {:induction false} VisitedNonEmptyAll(p: People, order: seq<int>)
    requires forall i :: 0 <= i < |order| ==> GroupsNonEmpty(Members(p, order[i]))
    ensures VisitedNonEmpty(p, order)
  {
    if order != [] {
      VisitedNonEmptyAll(p, order[..|order| - 1]);
    }
  }

  /** Over an enumeration of the generations, the groups visited all name a child exactly when every group does. */
  lemma EnumeratedNonEmpty(p: People, order: seq<int>)
    requires Enumerates(order, p.Keys)
    ensures NoEmptyGroup(p) <==> VisitedNonEmpty(p, order)
  {
    if NoEmptyGroup(p) {
      VisitedNonEmptyAll(p, order);
    } else {
      var g :| g in p && !GroupsNonEmpty(p[g]);
      var i :| 0 <= i < |order| && order[i] == g;
      VisitedNonEmptyAt(p, order, i);
    }
  }

  // ---------------------------------------------------------------------------
  // What a group's links look like

  /**
   * The statements of one group: with a single child, no junction and one edge
   * from the parents' junction to the child; with n > 1 children, the group
   * junction, the n child junctions in sibling order, the n chain edges group
   * junction -> first child junction -> ... -> last child junction, the n
   * descent edges child junction -> child, and the edge from the parents'
   * junction to the group junction.
   */
  lemma GroupLinks(ch: Children)
    requires ch.parent.Some? && |ch.children| > 0
    ensures var n, ids, groupId, parentId := |ch.children|, ch.GetIds(), ch.GetId(), ch.parent.value.GetId();
      && (n == 1 ==> GroupRank(ch) == [] && GroupTop(ch) == [Edge(parentId, ch.children[0])])
      && (n > 1 ==>
        && |GroupRank(ch)| == 2 * n + 1
        && GroupRank(ch)[0] == Node(groupId, Point)
        && (forall i :: 0 <= i < n ==> GroupRank(ch)[1 + i] == Node("child_" + ch.children[i], Point))
        && GroupRank(ch)[n + 1] == Edge(groupId, ids[0])
        && (forall i :: 0 <= i < n - 1 ==> GroupRank(ch)[n + 2 + i] == Edge(ids[i], ids[i + 1]))
        && |GroupTop(ch)| == n + 1
        && (forall i :: 0 <= i < n ==> GroupTop(ch)[i] == Edge(ids[i], ch.children[i]))
        && GroupTop(ch)[n] == Edge(parentId, groupId))
  {
    if |ch.children| > 1 {
      GroupRankShape(ch);
      GroupTopShape(ch);
    }
  }

  /** The cluster of a group of n > 1 children, position by position. */
  lemma GroupRankShape(ch: Children)
    requires |ch.children| > 1
    ensures var n, ids, groupId := |ch.children|, ch.GetIds(), ch.GetId();
      && |GroupRank(ch)| == 2 * n + 1
      && GroupRank(ch)[0] == Node(groupId, Point)
      && (forall i :: 0 <= i < n ==> GroupRank(ch)[1 + i] == Node("child_" + ch.children[i], Point))
      && GroupRank(ch)[n + 1] == Edge(groupId, ids[0])
      && (forall i :: 0 <= i < n - 1 ==> GroupRank(ch)[n + 2 + i] == Edge(ids[i], ids[i + 1]))
  {
    var n, ids, groupId := |ch.children|, ch.GetIds(), ch.GetId();
    var junctions, chain := Nodes(ids, Point), Chain([groupId] + ids);
    var rank := [Node(groupId, Point)] + junctions + chain;
    assert GroupRank(ch) == rank;
    forall i | 0 <= i < n ensures rank[1 + i] == Node("child_" + ch.children[i], Point) {
      NodesAt(ids, Point, i);
      ChildIdsAt(ch.children, i);
    }
    ChainAt([groupId] + ids, 0);
    forall i | 0 <= i < n - 1 ensures rank[n + 2 + i] == Edge(ids[i], ids[i + 1]) {
      ChainAt([groupId] + ids, i + 1);
    }
  }

  /** The top-level edges of a group of n > 1 children, position by position. */
  lemma GroupTopShape(ch: Children)
    requires ch.parent.Some? && |ch.children| > 1
    ensures var n, ids := |ch.children|, ch.GetIds();
      && |GroupTop(ch)| == n + 1
      && (forall i :: 0 <= i < n ==> GroupTop(ch)[i] == Edge(ids[i], ch.children[i]))
      && GroupTop(ch)[n] == Edge(ch.parent.value.GetId(), ch.GetId())
  {
    var ids := ch.GetIds();
    forall i | 0 <= i < |ch.children| ensures GroupTop(ch)[i] == Edge(ids[i], ch.children[i]) {
      PairsAt(ids, ch.children, i);
    }
  }

  // ---------------------------------------------------------------------------
  // Where each unit's statements land

  lemma {:induction false} GenerationDeclsConcat(a: seq<Unit>, b: seq<Unit>)
    ensures GenerationDecls(a + b) == GenerationDecls(a) + GenerationDecls(b)
  {
    if b != [] {
      assert (a + b)[..|a + b| - 1] == a + b[..|b| - 1];
      GenerationDeclsConcat(a, b[..|b| - 1]);
      AppendAssoc(GenerationDecls(a), GenerationDecls(b[..|b| - 1]), UnitDecls(b[|b| - 1]));
    } else {
      assert a + b == a;
    }
  }

  lemma {:induction false} DeclPassAt(p: People, order: seq<int>, i: int)
    requires 0 <= i < |order|
    ensures DeclPass(p, order)[i] == SameRank(GenerationDecls(Members(p, order[i])))
  {
    if i < |order| - 1 {
      DeclPassAt(p, order[..|order| - 1], i);
    }
  }

  /**
   * Every couple of a visited generation gets, inside that generation's
   * same-rank group, its marriage junction followed by its two spousal edges,
   * husband -> junction and junction -> wife.
   */
  lemma GraphDeclaresCouple(p: People, order: seq<int>, i: int, k: int) returns (offset: nat)
    requires RegistryValid(p) && NoEmptyGroup(p)
    requires 0 <= i < |order| && 0 <= k < |Members(p, order[i])| && Members(p, order[i])[k].CoupleU?
    ensures Graph(p, order).Ok? && i < |Graph(p, order).value|
    ensures var entry, c := Graph(p, order).value[i], Members(p, order[i])[k].couple;
      && entry.SameRank?
      && offset + 3 <= |entry.body|
      && entry.body[offset..offset + 3] == [Node(c.GetId(), Point), Edge(c.husband, c.GetId()), Edge(c.GetId(), c.wife)]
  {
    var units := Members(p, order[i]);
    DeclPassAt(p, order, i);
    GenerationDeclsSplit(units, k);
    offset := |GenerationDecls(units[..k])|;
    SliceMiddle(GenerationDecls(units[..k]), UnitDecls(units[k]), GenerationDecls(units[k + 1..]));
  }

  lemma GenerationDeclsSplit(units: seq<Unit>, k: int)
    requires 0 <= k < |units|
    ensures GenerationDecls(units) == GenerationDecls(units[..k]) + UnitDecls(units[k]) + GenerationDecls(units[k + 1..])
  {
    SplitAt(units, k);
    GenerationDeclsConcat(units[..k] + [units[k]], units[k + 1..]);
    GenerationDeclsConcat(units[..k], [units[k]]);
    assert [units[k]][..0] == [];
    assert GenerationDecls([units[k]]) == [] + UnitDecls(units[k]);
  }

  lemma GenerationTopSplit(units: seq<Unit>, k: int)
    requires 0 <= k < |units|
    ensures GenerationTop(units) == GenerationTop(units[..k]) + UnitTop(units[k]) + GenerationTop(units[k + 1..])
  {
    SplitAt(units, k);
    GenerationTopConcat(units[..k] + [units[k]], units[k + 1..]);
    GenerationTopConcat(units[..k], [units[k]]);
    assert [units[k]][..0] == [];
    assert GenerationTop([units[k]]) == [] + UnitTop(units[k]);
  }

  lemma GenerationRankSplit(units: seq<Unit>, k: int)
    requires 0 <= k < |units|
    ensures GenerationRank(units) == GenerationRank(units[..k]) + UnitRank(units[k]) + GenerationRank(units[k + 1..])
  {
    SplitAt(units, k);
    GenerationRankConcat(units[..k] + [units[k]], units[k + 1..]);
    GenerationRankConcat(units[..k], [units[k]]);
    assert [units[k]][..0] == [];
    assert GenerationRank([units[k]]) == [] + UnitRank(units[k]);
  }

  lemma {:induction false} GenerationTopConcat(a: seq<Unit>, b: seq<Unit>)
    ensures GenerationTop(a + b) == GenerationTop(a) + GenerationTop(b)
  {
    if b != [] {
      assert (a + b)[..|a + b| - 1] == a + b[..|b| - 1];
      GenerationTopConcat(a, b[..|b| - 1]);
      AppendAssoc(GenerationTop(a), GenerationTop(b[..|b| - 1]), UnitTop(b[|b| - 1]));
    } else {
      assert a + b == a;
    }
  }

  lemma {:induction false} GenerationRankConcat(a: seq<Unit>, b: seq<Unit>)
    ensures GenerationRank(a + b) == GenerationRank(a) + GenerationRank(b)
  {
    if b != [] {
      assert (a + b)[..|a + b| - 1] == a + b[..|b| - 1];
      GenerationRankConcat(a, b[..|b| - 1]);
      AppendAssoc(GenerationRank(a), GenerationRank(b[..|b| - 1]), UnitRank(b[|b| - 1]));
    } else {
      assert a + b == a;
    }
  }

  /**
   * Every group of a generation contributes its top-level edges as one
   * contiguous run of the generation's top-level edges, and its cluster
   * statements as one contiguous run of the generation's cluster, which
   * closes the generation's links.
   */
  lemma GenerationLinksGroup(units: seq<Unit>, k: int) returns (topAt: nat, rankAt: nat)
    requires GroupsParented(units) && GroupsNonEmpty(units)
    requires 0 <= k < |units| && units[k].ChildrenU?
    ensures var ch := units[k].group;
      && HasChildren(units)
      && GenerationLinks(units)[|GenerationLinks(units)| - 1] == SameRank(GenerationRank(units))
      && topAt + |GroupTop(ch)| <= |GenerationTop(units)|
      && GenerationTop(units)[topAt..topAt + |GroupTop(ch)|] == GroupTop(ch)
      && rankAt + |GroupRank(ch)| <= |GenerationRank(units)|
      && GenerationRank(units)[rankAt..rankAt + |GroupRank(ch)|] == GroupRank(ch)
  {
    var u := units[k];
    assert Linkable(u) && UnitTop(u) == GroupTop(u.group) && UnitRank(u) == GroupRank(u.group);
    HasChildrenAt(units, k);
    GenerationTopSplit(units, k);
    GenerationRankSplit(units, k);
    topAt := |GenerationTop(units[..k])|;
    rankAt := |GenerationRank(units[..k])|;
    SliceMiddle(GenerationTop(units[..k]), UnitTop(u), GenerationTop(units[k + 1..]));
    SliceMiddle(GenerationRank(units[..k]), UnitRank(u), GenerationRank(units[k + 1..]));
  }

  lemma {:induction false} HasChildrenAt(units: seq<Unit>, k: int)
    requires 0 <= k < |units| && units[k].ChildrenU?
    ensures HasChildren(units)
  {
    if k < |units| - 1 {
      assert units[..|units| - 1][k] == units[k];
      HasChildrenAt(units[..|units| - 1], k);
    }
  }

  lemma {:induction false} LinkPassConcat(p: People, a: seq<int>, b: seq<int>)
    ensures LinkPass(p, a + b) == LinkPass(p, a) + LinkPass(p, b)
  {
    if b != [] {
      var front := b[..|b| - 1];
      assert (a + b)[..|a + b| - 1] == a + front;
      LinkPassConcat(p, a, front);
      AppendAssoc(LinkPass(p, a), LinkPass(p, front), GenerationLinks(Members(p, b[|b| - 1])));
    } else {
      assert a + b == a;
    }
  }

  /**
   * The links of the i-th visited generation form one contiguous run of the
   * output, after the whole first pass and the links of the generations
   * visited before it.
   */
  lemma GraphLinksGeneration(p: People, order: seq<int>, i: int)
    requires RegistryValid(p) && NoEmptyGroup(p)
    requires 0 <= i < |order|
    ensures Graph(p, order).Ok?
    ensures Graph(p, order).value ==
      DeclPass(p, order) + LinkPass(p, order[..i]) + GenerationLinks(Members(p, order[i])) + LinkPass(p, order[i + 1..])
  {
    SplitAt(order, i);
    var before, links, after := LinkPass(p, order[..i]), GenerationLinks(Members(p, order[i])), LinkPass(p, order[i + 1..]);
    LinkPassConcat(p, order[..i] + [order[i]], order[i + 1..]);
    LinkPassConcat(p, order[..i], [order[i]]);
    assert [order[i]][..0] == [];
    assert LinkPass(p, [order[i]]) == [] + links;
    AppendAssoc(DeclPass(p, order), before + links, after);
    AppendAssoc(DeclPass(p, order), before, links);
  }

  // ---------------------------------------------------------------------------
  // Counting what is emitted

  /** The three kinds of statement that are counted: junction nodes, person nodes and edges. */
  datatype Kind = Junction | Person | Link

  function KindOf(s: Stmt): Kind {
    match s
    case Node(_, Point) => Junction
    case Node(_, Box) => Person
    case Edge(_, _) => Link
  }

  /** The number of statements of kind `k`. */
  function Count(s: seq<Stmt>, k: Kind): nat {
    if s == [] then 0 else Count(s[..|s| - 1], k) + if KindOf(s[|s| - 1]) == k then 1 else 0
  }

  /** All statements of the graph, with each same-rank group opened in place. */
  function Flatten(e: seq<Entry>): seq<Stmt> {
    if e == [] then []
    else
      Flatten(e[..|e| - 1]) + match e[|e| - 1] { case Line(x) => [x] case SameRank(b) => b }
  }

  /**
   * The count a unit should produce: a couple one marriage junction and two
   * spousal edges; a group of n > 1 children n person nodes, n + 1 junctions
   * and 2n + 1 edges (n chain, n descent, one from the parents); a single
   * child its person node and one edge.
   */
  function UnitCount(u: Unit, k: Kind): nat {
    match u
    case CoupleU(_) => (match k case Junction => 1 case Person => 0 case Link => 2)
    case ChildrenU(ch) =>
      var n := |ch.children|;
      match k
      case Junction => if n > 1 then n + 1 else 0
      case Person => n
      case Link => if n > 1 then 2 * n + 1 else 1
  }

  function GenerationCount(units: seq<Unit>, k: Kind): nat {
    if units == [] then 0 else GenerationCount(units[..|units| - 1], k) + UnitCount(units[|units| - 1], k)
  }

  function OrderCount(p: People, order: seq<int>, k: Kind): nat {
    if order == [] then 0 else OrderCount(p, order[..|order| - 1], k) + GenerationCount(Members(p, order[|order| - 1]), k)
  }

  /** The expected count of the whole registry, whatever the order of its generations. */
  ghost function RegistryCount(p: People, k: Kind): nat
    decreases |p.Keys|
  {
    if p == map[] then 0
    else
      NonEmptyHasKey(p);
      var g :| g in p;
      assert (p - {g}).Keys == p.Keys - {g};
      GenerationCount(p[g], k) + RegistryCount(p - {g}, k)
  }

  lemma NonEmptyHasKey(p: People)
    requires p != map[]
    ensures exists g :: g in p
  {
    if forall g :: g !in p {
      assert false;
    }
  }

  lemma {:induction false} CountConcat(a: seq<Stmt>, b: seq<Stmt>, k: Kind)
    ensures Count(a + b, k) == Count(a, k) + Count(b, k)
  {
    if b == [] {
      assert a + b == a;
    } else {
      assert (a + b)[..|a + b| - 1] == a + b[..|b| - 1];
      CountConcat(a, b[..|b| - 1], k);
    }
  }

  lemma {:induction false} FlattenConcat(a: seq<Entry>, b: seq<Entry>)
    ensures Flatten(a + b) == Flatten(a) + Flatten(b)
  {
    if b == [] {
      assert a + b == a;
    } else {
      assert (a + b)[..|a + b| - 1] == a + b[..|b| - 1];
      FlattenConcat(a, b[..|b| - 1]);
      AppendAssoc(Flatten(a), Flatten(b[..|b| - 1]), match b[|b| - 1] { case Line(x) => [x] case SameRank(body) => body });
    }
  }

  lemma {:induction false} FlattenLines(s: seq<Stmt>)
    ensures Flatten(Lines(s)) == s
  {
    if s != [] {
      FlattenLines(s[..|s| - 1]);
      FlattenConcat(Lines(s[..|s| - 1]), [Line(s[|s| - 1])]);
      assert [Line(s[|s| - 1])][..0] == [];
    }
  }

  lemma {:induction false} CountNodes(ids: seq<string>, shape: Shape, k: Kind)
    ensures Count(Nodes(ids, shape), k) == if KindOf(Node("", shape)) == k then |ids| else 0
  {
    if ids != [] {
      CountNodes(ids[..|ids| - 1], shape, k);
    }
  }

  lemma {:induction false} CountPairs(tails: seq<string>, heads: seq<string>, k: Kind)
    requires |tails| == |heads|
    ensures Count(Pairs(tails, heads), k) == if k == Link then |tails| else 0
  {
    if tails != [] {
      CountPairs(tails[..|tails| - 1], heads[..|heads| - 1], k);
    }
  }

  lemma {:induction false} CountChain(ids: seq<string>, k: Kind)
    ensures Count(Chain(ids), k) == if k == Link && ids != [] then |ids| - 1 else 0
  {
    if |ids| > 1 {
      CountChain(ids[..|ids| - 1], k);
    }
  }

  lemma CountCouple(c: Couple, k: Kind)
    ensures Count(CoupleDecls(c), k) == UnitCount(CoupleU(c), k)
  {
    var d := CoupleDecls(c);
    var d1, d2 := [d[0]], [d[0], d[1]];
    assert d1[..0] == [] && d2[..1] == d1 && d[..2] == d2;
    assert Count(d1, k) == if k == Junction then 1 else 0;
    assert Count(d2, k) == Count(d1, k) + if k == Link then 1 else 0;
  }

  /** A unit's declarations, top-level edges and cluster statements together meet its expected count. */
  lemma UnitCountSplit(u: Unit, k: Kind)
    requires Linkable(u)
    ensures Count(UnitDecls(u), k) + Count(UnitTop(u), k) + Count(UnitRank(u), k) == UnitCount(u, k)
  {
    match u
    case CoupleU(c) =>
      CountCouple(c, k);
    case ChildrenU(ch) =>
      CountNodes(ch.children, Box, k);
      assert UnitTop(u) == GroupTop(ch) && UnitRank(u) == GroupRank(ch);
      GroupCount(ch, k);
  }

  /** A group's top-level edges and cluster statements: n + 1 junctions and 2n + 1 edges, or one edge. */
  lemma GroupCount(ch: Children, k: Kind)
    requires ch.parent.Some? && |ch.children| > 0
    ensures Count(GroupTop(ch), k) + Count(GroupRank(ch), k) ==
      var n := |ch.children|;
      match k
      case Junction => if n > 1 then n + 1 else 0
      case Person => 0
      case Link => if n > 1 then 2 * n + 1 else 1
  {
    var n, ids, groupId := |ch.children|, ch.GetIds(), ch.GetId();
    var parentId := ch.parent.value.GetId();
    if n > 1 {
      var top, junctions, chain := Pairs(ids, ch.children), Nodes(ids, Point), Chain([groupId] + ids);
      assert GroupTop(ch) == top + [Edge(parentId, groupId)];
      assert GroupRank(ch) == [Node(groupId, Point)] + junctions + chain;
      CountPairs(ids, ch.children, k);
      CountConcat(top, [Edge(parentId, groupId)], k);
      CountNodes(ids, Point, k);
      CountChain([groupId] + ids, k);
      CountConcat([Node(groupId, Point)], junctions, k);
      CountConcat([Node(groupId, Point)] + junctions, chain, k);
    } else {
      var edge := [Edge(parentId, ch.children[0])];
      assert GroupTop(ch) == edge && GroupRank(ch) == [];
      assert edge[..0] == [];
    }
  }

  lemma {:induction false} GenerationCountSplit(units: seq<Unit>, k: Kind)
    requires GroupsParented(units) && GroupsNonEmpty(units)
    ensures Count(GenerationDecls(units), k) + Count(GenerationTop(units), k) + Count(GenerationRank(units), k)
      == GenerationCount(units, k)
  {
    if units != [] {
      var front, last := units[..|units| - 1], units[|units| - 1];
      GenerationCountSplit(front, k);
      assert Linkable(last);
      UnitCountSplit(last, k);
      CountConcat(GenerationDecls(front), UnitDecls(last), k);
      CountConcat(GenerationTop(front), UnitTop(last), k);
      CountConcat(GenerationRank(front), UnitRank(last), k);
    }
  }

  lemma {:induction false} NoChildrenNoRank(units: seq<Unit>)
    requires !HasChildren(units)
    ensures GenerationRank(units) == []
  {
    if units != [] {
      NoChildrenNoRank(units[..|units| - 1]);
    }
  }

  lemma GenerationLinksCount(units: seq<Unit>, k: Kind)
    requires GroupsParented(units) && GroupsNonEmpty(units)
    ensures Count(GenerationDecls(units), k) + Count(Flatten(GenerationLinks(units)), k) == GenerationCount(units, k)
  {
    GenerationCountSplit(units, k);
    var top := Lines(GenerationTop(units));
    FlattenLines(GenerationTop(units));
    if HasChildren(units) {
      FlattenConcat(top, [SameRank(GenerationRank(units))]);
      assert [SameRank(GenerationRank(units))][..0] == [];
      CountConcat(GenerationTop(units), GenerationRank(units), k);
    } else {
      NoChildrenNoRank(units);
      assert GenerationLinks(units) == top;
    }
  }

  lemma {:induction false} PassesCount(p: People, order: seq<int>, k: Kind)
    requires RegistryValid(p) && NoEmptyGroup(p)
    ensures Count(Flatten(DeclPass(p, order)), k) + Count(Flatten(LinkPass(p, order)), k) == OrderCount(p, order, k)
  {
    if order != [] {
      var front, units := order[..|order| - 1], Members(p, order[|order| - 1]);
      PassesCount(p, front, k);
      ValidParented(p, order[|order| - 1]);
      GenerationLinksCount(units, k);
      PassCountStep(DeclPass(p, front), LinkPass(p, front), GenerationDecls(units), GenerationLinks(units), k);
    }
  }

  /** Counting over one more generation of both passes. */
  lemma PassCountStep(decls: seq<Entry>, links: seq<Entry>, body: seq<Stmt>, more: seq<Entry>, k: Kind)
    ensures Count(Flatten(decls + [SameRank(body)]), k) + Count(Flatten(links + more), k)
      == Count(Flatten(decls), k) + Count(Flatten(links), k) + Count(body, k) + Count(Flatten(more), k)
  {
    FlattenSnoc(decls, body);
    FlattenConcat(links, more);
    CountConcat(Flatten(decls), body, k);
    CountConcat(Flatten(links), Flatten(more), k);
  }

  lemma FlattenSnoc(e: seq<Entry>, body: seq<Stmt>)
    ensures Flatten(e + [SameRank(body)]) == Flatten(e) + body
  {
    assert (e + [SameRank(body)])[..|e|] == e;
  }

  /** The registry's count splits off any one generation. */
  lemma {:induction false} RegistryCountRemove(p: People, g: int, k: Kind)
    requires g in p
    ensures RegistryCount(p, k) == GenerationCount(p[g], k) + RegistryCount(p - {g}, k)
    decreases |p.Keys|
  {
    var h :| h in p.Keys && RegistryCount(p, k) == GenerationCount(p[h], k) + RegistryCount(p - {h}, k);
    if h != g {
      assert (p - {h}).Keys == p.Keys - {h};
      assert (p - {g}).Keys == p.Keys - {g};
      RegistryCountRemove(p - {h}, g, k);
      RegistryCountRemove(p - {g}, h, k);
      assert p - {h} - {g} == p - {g} - {h};
    }
  }

  /** The registry restricted to the generations in `order`. */
  function Restrict(p: People, order: seq<int>): (r: People)
    ensures forall g :: g in r <==> g in p && g in order
  {
    map g | g in p && g in order :: p[g]
  }

  lemma RestrictLast(p: People, order: seq<int>)
    requires order != []
    requires forall i, j :: 0 <= i < j < |order| ==> order[i] != order[j]
    ensures Restrict(p, order) - {order[|order| - 1]} == Restrict(p, order[..|order| - 1])
  {
    var front, g := order[..|order| - 1], order[|order| - 1];
    var a, b := Restrict(p, order) - {g}, Restrict(p, front);
    assert g !in front;
    forall h ensures h in a <==> h in b {
      assert h in order <==> h == g || h in front;
    }
    assert a.Keys == b.Keys;
  }

  lemma {:induction false} OrderCountRestrict(p: People, order: seq<int>, k: Kind)
    requires forall i, j :: 0 <= i < j < |order| ==> order[i] != order[j]
    requires forall i :: 0 <= i < |order| ==> order[i] in p
    ensures OrderCount(p, order, k) == RegistryCount(Restrict(p, order), k)
  {
    if order == [] {
      assert Restrict(p, order).Keys == {};
    } else {
      var front, g := order[..|order| - 1], order[|order| - 1];
      OrderCountRestrict(p, front, k);
      var r := Restrict(p, order);
      RestrictLast(p, order);
      RegistryCountRemove(r, g, k);
    }
  }

  /**
   * The graph description is produced for a registry whose groups all name a child, and the
   * numbers of junctions, person nodes and edges it emits are the registry's
   * expected counts, whatever the order the generations are visited in.
   */
  lemma GraphCount(p: People, order: seq<int>, k: Kind)
    requires RegistryValid(p) && NoEmptyGroup(p)
    requires Enumerates(order, p.Keys)
    ensures Graph(p, order).Ok?
    ensures Count(Flatten(Graph(p, order).value), k) == RegistryCount(p, k)
  {
    PassesCount(p, order, k);
    FlattenConcat(DeclPass(p, order), LinkPass(p, order));
    CountConcat(Flatten(DeclPass(p, order)), Flatten(LinkPass(p, order)), k);
    OrderCountRestrict(p, order, k);
    RestrictAll(p, order);
  }

  /** Restricting to an enumeration of all generations keeps the whole registry. */
  lemma RestrictAll(p: People, order: seq<int>)
    requires Enumerates(order, p.Keys)
    ensures Restrict(p, order) == p
  {
    var r := Restrict(p, order);
    forall g ensures g in r <==> g in p {
      assert g in p ==> g in p.Keys;
    }
    assert r.Keys == p.Keys;
    forall g | g in r ensures r[g] == p[g] {
    }
  }

  /** The graph description fails exactly when a registered group names no child. */
  lemma GraphFails(p: People, order: seq<int>)
    requires RegistryValid(p)
    ensures Graph(p, order).Err? <==>
      exists g, k :: g in p && 0 <= k < |p[g]| && p[g][k].ChildrenU? && p[g][k].group.children == []
  {
  }

  /** Registering a family whose group, if any, names a child keeps the graph producible. */
  lemma RegisterNonEmpty(p: People, c: Couple, ch: Option<Children>)
    requires NoEmptyGroup(p)
    requires ch.Some? ==> |ch.value.children| > 0
    ensures NoEmptyGroup(Register(p, c, ch))
  {
    var q := Append(p, c.generation, CoupleU(c));
    AppendNonEmpty(p, c.generation, CoupleU(c));
    if ch.Some? {
      AppendNonEmpty(q, c.generation + 1, ChildrenU(Adopted(ch.value, c)));
    }
  }

  lemma AppendNonEmpty(p: People, g: int, u: Unit)
    requires NoEmptyGroup(p)
    requires u.ChildrenU? ==> |u.group.children| > 0
    ensures NoEmptyGroup(Append(p, g, u))
  {
    var r := Append(p, g, u);
    forall h | h in r ensures GroupsNonEmpty(r[h]) {
      assert r[h] == Members(r, h);
      if h != g {
        assert r[h] == p[h];
      } else {
        var before := Members(p, g);
        assert GroupsNonEmpty(before);
        assert r[h] == before + [u];
      }
    }
  }

  // ---------------------------------------------------------------------------
  // Counts across registrations

  /** The count one `add_family` call adds. */
  function FamilyCount(c: Couple, ch: Option<Children>, k: Kind): nat {
    match ch
    case None => UnitCount(CoupleU(c), k)
    case Some(group) => UnitCount(CoupleU(c), k) + UnitCount(ChildrenU(Adopted(group, c)), k)
  }

  lemma AppendCount(p: People, g: int, u: Unit, k: Kind)
    ensures RegistryCount(Append(p, g, u), k) == RegistryCount(p, k) + UnitCount(u, k)
  {
    var r := Append(p, g, u);
    RegistryCountRemove(r, g, k);
    assert r - {g} == p - {g};
    var s := Members(p, g) + [u];
    assert s[..|s| - 1] == Members(p, g);
    if g in p {
      RegistryCountRemove(p, g, k);
    } else {
      assert p - {g} == p;
    }
  }

  /** Each registration adds exactly the count of the family it registers. */
  lemma RegisterCount(p: People, c: Couple, ch: Option<Children>, k: Kind)
    ensures RegistryCount(Register(p, c, ch), k) == RegistryCount(p, k) + FamilyCount(c, ch, k)
  {
    var q := Append(p, c.generation, CoupleU(c));
    AppendCount(p, c.generation, CoupleU(c), k);
    if ch.Some? {
      var adopted := Adopted(ch.value, c);
      AppendCount(q, adopted.GetGeneration(), ChildrenU(adopted), k);
    }
  }

  /**
   * Registering two families in either order gives registries with the same
   * counts, so what is emitted is counted the same whatever the order of the
   * `add_family` calls.
   */
  lemma RegisterCommutesForCount(p: People, c1: Couple, ch1: Option<Children>, c2: Couple, ch2: Option<Children>, k: Kind)
    ensures RegistryCount(Register(Register(p, c1, ch1), c2, ch2), k)
         == RegistryCount(Register(Register(p, c2, ch2), c1, ch1), k)
  {
    RegisterCount(p, c1, ch1, k);
    RegisterCount(Register(p, c1, ch1), c2, ch2, k);
    RegisterCount(p, c2, ch2, k);
    RegisterCount(Register(p, c2, ch2), c1, ch1, k);
  }
}
