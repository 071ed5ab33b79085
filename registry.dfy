/**
 * The family registry: a table from generation number to the family units
 * placed at that generation, in insertion order (family-tree.py:61-77).
 */
module Registry {
  import opened FamilyUnits

  /** Generation number to its units, left to right. */
  type People = map<int, seq<Unit>>

  /** The list of a generation, empty if nothing was placed there (the `defaultdict(list)` default). */
  function Members(p: People, g: int): seq<Unit> {
    if g in p then p[g] else []
  }

  /**
   * What registration guarantees of every group of children: its parent is
   * set, it sits at its parent's generation + 1, and its parent couple is
   * listed in the generation above.
   */
  predicate RegistryValid(p: People) {
    forall g, k :: g in p && 0 <= k < |p[g]| && p[g][k].ChildrenU? ==>
      && p[g][k].group.parent.Some?
      && p[g][k].group.GetGeneration() == g
      && CoupleU(p[g][k].group.parent.value) in Members(p, g - 1)
  }

  /** One `list.append` at generation `g`. */
  function Append(p: People, g: int, u: Unit): (r: People)
    ensures r.Keys == p.Keys + {g}
    ensures Members(r, g) == Members(p, g) + [u]
    ensures forall h :: h != g ==> Members(r, h) == Members(p, h)
  {
    p[g := Members(p, g) + [u]]
  }

  /** The group as `add_family` leaves it: its parent back-reference set to the couple. */
  function Adopted(ch: Children, c: Couple): (r: Children)
    ensures r.children == ch.children && r.parent == Some(c)
    ensures r.GetGeneration() == c.generation + 1
  {
    ch.(parent := Some(c))
  }

  /**
   * The registry after `add_family(c, ch)`: the couple is appended to its own
   * generation and, when a group is given, the adopted group to the next.
   */
  function Register(p: People, c: Couple, ch: Option<Children>): (r: People)
    ensures r.Keys == p.Keys + {c.generation} + (if ch.Some? then {c.generation + 1} else {})
    ensures Members(r, c.generation) == Members(p, c.generation) + [CoupleU(c)]
    ensures ch.Some? ==>
      Members(r, c.generation + 1) == Members(p, c.generation + 1) + [ChildrenU(Adopted(ch.value, c))]
    ensures forall g :: g != c.generation && (ch.None? || g != c.generation + 1) ==>
      Members(r, g) == Members(p, g)
    ensures forall g :: Members(p, g) <= Members(r, g)
  {
    var q := Append(p, c.generation, CoupleU(c));
    match ch
    case None => q
    case Some(group) =>
      var adopted := Adopted(group, c);
      Append(q, adopted.GetGeneration(), ChildrenU(adopted))
  }

  /** Appending keeps a list a prefix, so what it held stays where it was. */
  lemma MembersGrow(p: People, r: People, g: int, u: Unit)
    requires Members(p, g) <= Members(r, g)
    requires u in Members(p, g)
    ensures u in Members(r, g)
  {
    var k :| 0 <= k < |Members(p, g)| && Members(p, g)[k] == u;
    assert Members(r, g)[k] == u;
  }

  /** Appending a unit that meets the invariant's demands keeps the invariant. */
  lemma AppendValid(p: People, g: int, u: Unit)
    requires RegistryValid(p)
    requires u.ChildrenU? ==>
      u.group.parent.Some? && u.group.GetGeneration() == g && CoupleU(u.group.parent.value) in Members(p, g - 1)
    ensures RegistryValid(Append(p, g, u))
  {
    var r: People := Append(p, g, u);
    forall h: int, k: int | h in r && 0 <= k < |r[h]| && r[h][k].ChildrenU?
      ensures r[h][k].group.parent.Some?
      ensures r[h][k].group.GetGeneration() == h
      ensures CoupleU(r[h][k].group.parent.value) in Members(r, h - 1)
    {
      var v := r[h][k];
      assert Members(r, h) == r[h];
      if h == g && k == |Members(p, g)| {
        assert v == u;
      } else {
        assert h in p && v == p[h][k];
      }
      MembersGrow(p, r, h - 1, CoupleU(v.group.parent.value));
    }
  }

  /** Registration keeps the registry's invariant. */
  lemma RegisterValid(p: People, c: Couple, ch: Option<Children>)
    requires RegistryValid(p)
    ensures RegistryValid(Register(p, c, ch))
  {
    var q := Append(p, c.generation, CoupleU(c));
    AppendValid(p, c.generation, CoupleU(c));
    if ch.Some? {
      var adopted := Adopted(ch.value, c);
      assert Members(q, c.generation)[|Members(p, c.generation)|] == CoupleU(c);
      AppendValid(q, c.generation + 1, ChildrenU(adopted));
    }
  }
}
