/**
 * The collection of families (family-tree.py:61-125): a registry of family
 * units by generation that `add_family` appends to in place, and
 * `create_graph`, which walks the registry twice to emit the graph
 * description.
 */
module Network {
  import opened FamilyUnits
  import opened Registry
  import opened Layout

  class FamilyNetwork {
    /** Generation number to its couples and groups of children, in insertion order. */
    var peopleByGeneration: People

    ghost predicate Valid()
      reads this
    {
      RegistryValid(peopleByGeneration)
    }

    constructor ()
      ensures Valid() && peopleByGeneration == map[]
    {
      peopleByGeneration := map[];
    }

    /**
     * Appends the couple to its generation's list and, when a group of
     * children is given, points the group at the couple and appends it to
     * the next generation's list.
     */
    method AddFamily(couple: Couple, children: Option<Children>)
      requires Valid()
      modifies this
      ensures Valid()
      ensures peopleByGeneration == Register(old(peopleByGeneration), couple, children)
    {
      ghost var before := peopleByGeneration;
      var g := couple.generation;
      var list := if g in peopleByGeneration then peopleByGeneration[g] else [];
      peopleByGeneration := peopleByGeneration[g := list + [CoupleU(couple)]];
      if children.Some? {
        var group := children.value.(parent := Some(couple));
        var h := group.GetGeneration();
        var next := if h in peopleByGeneration then peopleByGeneration[h] else [];
        peopleByGeneration := peopleByGeneration[h := next + [ChildrenU(group)]];
      }
      RegisterValid(before, couple, children);
    }

    /**
     * The graph description: the first pass over the generations, in the
     * dictionary's iteration order `order`, then the second pass in the same
     * order; or the failure when a group names no child.
     */
    method CreateGraph(order: seq<int>) returns (r: Result<seq<Entry>>)
      requires Valid()
      requires Enumerates(order, peopleByGeneration.Keys)
      ensures r == Graph(peopleByGeneration, order)
    {
      var people := peopleByGeneration;
      forall i | 0 <= i < |order| ensures GroupsParented(Members(people, order[i])) {
        ValidParented(people, order[i]);
      }
      EnumeratedNonEmpty(people, order);
      var decls := DeclareAll(people, order);
      var links := LinkAll(people, order);
      if links.Err? {
        return Err(EmptyChildrenGroup);
      }
      r := Ok(decls + links.value);
    }
  }

  // ---------------------------------------------------------------------------
  // The sample families of `create_family_graph` (family-tree.py:6-17)

  const Namihei := Couple("波平", "舟", 0)
  const Masuo := Couple("マスオ", "サザエ", 1)
  const Katsuo := Couple("カツオ", "嫁1", 1)
  const Tarao := Couple("タラオ", "嫁2", 2)

  const NamiheiChildren := Children(["ワカメ", "カツオ", "サザエ"], None)
  const MasuoChildren := Children(["タラオ"], None)
  const KatsuoChildren := Children(["子1"], None)
  const TaraoChildren := Children(["子2", "子3"], None)

  /** The registry after the four `add_family` calls. */
  function SampleRegistry(): People {
    var p1 := Register(map[], Namihei, Some(NamiheiChildren));
    var p2 := Register(p1, Masuo, Some(MasuoChildren));
    var p3 := Register(p2, Katsuo, Some(KatsuoChildren));
    Register(p3, Tarao, Some(TaraoChildren))
  }

  method CreateFamilyGraph() returns (families: FamilyNetwork)
    ensures fresh(families)
    ensures families.Valid() && families.peopleByGeneration == SampleRegistry()
  {
    families := new FamilyNetwork();
    families.AddFamily(Namihei, Some(NamiheiChildren));
    families.AddFamily(Masuo, Some(MasuoChildren));
    families.AddFamily(Katsuo, Some(KatsuoChildren));
    families.AddFamily(Tarao, Some(TaraoChildren));
  }

  /**
   * Whatever order the generations are visited in, the sample's graph
   * description is produced and holds 11 junction nodes, 7 person nodes and
   * 22 edges.
   */
  lemma SampleGraph(order: seq<int>)
    requires Enumerates(order, SampleRegistry().Keys)
    ensures RegistryValid(SampleRegistry()) && Graph(SampleRegistry(), order).Ok?
    ensures Count(Flatten(Graph(SampleRegistry(), order).value), Junction) == 11
    ensures Count(Flatten(Graph(SampleRegistry(), order).value), Person) == 7
    ensures Count(Flatten(Graph(SampleRegistry(), order).value), Link) == 22
  {
    SampleValid();
    SampleNonEmpty();
    GraphCount(SampleRegistry(), order, Junction);
    GraphCount(SampleRegistry(), order, Person);
    GraphCount(SampleRegistry(), order, Link);
    SampleCount(Junction);
    SampleCount(Person);
    SampleCount(Link);
  }

  lemma SampleValid()
    ensures RegistryValid(SampleRegistry())
  {
    var p0: People := map[];
    var p1 := Register(p0, Namihei, Some(NamiheiChildren));
    var p2 := Register(p1, Masuo, Some(MasuoChildren));
    var p3 := Register(p2, Katsuo, Some(KatsuoChildren));
    RegisterValid(p0, Namihei, Some(NamiheiChildren));
    RegisterValid(p1, Masuo, Some(MasuoChildren));
    RegisterValid(p2, Katsuo, Some(KatsuoChildren));
    RegisterValid(p3, Tarao, Some(TaraoChildren));
  }

  /** The sample's expected counts, one family at a time. */
  lemma SampleCount(k: Kind)
    ensures RegistryCount(SampleRegistry(), k) == match k case Junction => 11 case Person => 7 case Link => 22
  {
    var p0: People := map[];
    var p1 := Register(p0, Namihei, Some(NamiheiChildren));
    var p2 := Register(p1, Masuo, Some(MasuoChildren));
    var p3 := Register(p2, Katsuo, Some(KatsuoChildren));
    RegisterCount(p0, Namihei, Some(NamiheiChildren), k);
    RegisterCount(p1, Masuo, Some(MasuoChildren), k);
    RegisterCount(p2, Katsuo, Some(KatsuoChildren), k);
    RegisterCount(p3, Tarao, Some(TaraoChildren), k);
  }

  lemma SampleNonEmpty()
    ensures NoEmptyGroup(SampleRegistry())
  {
    var p0: People := map[];
    var p1 := Register(p0, Namihei, Some(NamiheiChildren));
    var p2 := Register(p1, Masuo, Some(MasuoChildren));
    var p3 := Register(p2, Katsuo, Some(KatsuoChildren));
    RegisterNonEmpty(p0, Namihei, Some(NamiheiChildren));
    RegisterNonEmpty(p1, Masuo, Some(MasuoChildren));
    RegisterNonEmpty(p2, Katsuo, Some(KatsuoChildren));
    RegisterNonEmpty(p3, Tarao, Some(TaraoChildren));
  }
}
