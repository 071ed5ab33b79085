/**
 * The family units of a family tree: couples and groups of children, and the
 * node identifiers the diagram derives from them (family-tree.py:20-58).
 */
module FamilyUnits {

  datatype Option<T> = None | Some(value: T)

  /** A husband and a wife, placed by the author at a generation (a rank of the diagram). */
  datatype Couple = Couple(husband: string, wife: string, generation: int) {

    /** Identifier of the couple's marriage junction. */
    function GetId(): string {
      "couple_" + husband + "_" + wife
    }
  }

  /**
   * The children of one couple, in their left-to-right display order. The
   * back-reference `parent` is unset until the group is registered.
   */
  datatype Children = Children(children: seq<string>, parent: Option<Couple>) {

    /** One junction identifier per child. */
    function GetIds(): seq<string> {
      ChildIds(children)
    }

    /** Identifier of the group junction: `children_` followed by the child identifiers joined with `/`. */
    function GetId(): string {
      "children_" + Join('/', GetIds())
    }

    /** The generation below the parent couple; defined only once the parent is set. */
    function GetGeneration(): int
      requires parent.Some?
    {
      parent.value.generation + 1
    }
  }

  /** A family unit of the registry: the tagged union of the two kinds. */
  datatype Unit = CoupleU(couple: Couple) | ChildrenU(group: Children)

  /** The list comprehension over the children's names. */
  function ChildIds(names: seq<string>): (ids: seq<string>)
    ensures |ids| == |names|
  {
    if names == [] then [] else ["child_" + names[0]] + ChildIds(names[1..])
  }

  /** The i-th child identifier is `child_` followed by the i-th name. */
  lemma {:induction false} ChildIdsAt(names: seq<string>, i: int)
    requires 0 <= i < |names|
    ensures ChildIds(names)[i] == "child_" + names[i]
  {
    if i > 0 {
      ChildIdsAt(names[1..], i - 1);
    }
  }

  /**
   * The couple identifier reads `couple_`, the husband's name, `_` and the
   * wife's name, in that order.
   */
  lemma CoupleIdShape(c: Couple)
    ensures var id := c.GetId();
      && |id| == 8 + |c.husband| + |c.wife|
      && id[..7] == "couple_"
      && id[7..7 + |c.husband|] == c.husband
      && id[7 + |c.husband|] == '_'
      && id[8 + |c.husband|..] == c.wife
  {
  }

  /** `sep.join(parts)`. */
  function Join(sep: char, parts: seq<string>): string {
    if |parts| == 0 then ""
    else if |parts| == 1 then parts[0]
    else parts[0] + [sep] + Join(sep, parts[1..])
  }

  /** `s.split(sep)`: the pieces between the separators; the inverse of Join. */
  function Split(sep: char, s: string): (parts: seq<string>)
    ensures |parts| > 0
  {
    if s == [] then [""]
    else
      var rest := Split(sep, s[1..]);
      if s[0] == sep then [""] + rest else [[s[0]] + rest[0]] + rest[1..]
  }

  /** Splitting a separator-free prefix glues it onto the first piece. */
  lemma {:induction false} SplitPrefix(sep: char, x: string, s: string)
    requires sep !in x
    ensures Split(sep, x + s) == [x + Split(sep, s)[0]] + Split(sep, s)[1..]
  {
    if x != [] {
      assert (x + s)[0] == x[0] && (x + s)[1..] == x[1..] + s;
      SplitPrefix(sep, x[1..], s);
      assert [x[0]] + (x[1..] + Split(sep, s)[0]) == x + Split(sep, s)[0];
    } else {
      var parts := Split(sep, s);
      assert x + s == s && x + parts[0] == parts[0];
      assert [parts[0]] + parts[1..] == parts;
    }
  }

  /** Joining separator-free pieces and splitting again gives the pieces back. */
  lemma {:induction false} SplitJoin(sep: char, parts: seq<string>)
    requires |parts| > 0
    requires forall i :: 0 <= i < |parts| ==> sep !in parts[i]
    ensures Split(sep, Join(sep, parts)) == parts
  {
    if |parts| == 1 {
      SplitPrefix(sep, parts[0], "");
      assert parts[0] + "" == parts[0];
    } else {
      var tail := Join(sep, parts[1..]);
      assert Join(sep, parts) == parts[0] + ([sep] + tail);
      SplitPrefix(sep, parts[0], [sep] + tail);
      assert ([sep] + tail)[1..] == tail;
      SplitJoin(sep, parts[1..]);
      assert Split(sep, [sep] + tail) == [""] + parts[1..];
      assert parts[0] + "" == parts[0];
      assert [parts[0]] + parts[1..] == parts;
    }
  }

  /** A non-empty join starts with its first piece. */
  lemma JoinStartsWithFirst(sep: char, parts: seq<string>)
    requires |parts| > 0
    ensures |Join(sep, parts)| >= |parts[0]| && Join(sep, parts)[..|parts[0]|] == parts[0]
  {
  }

  /**
   * Two couples whose husbands' names hold no `_` have the same junction
   * identifier only if they are the same pair of names.
   */
  lemma CoupleIdInjective(a: Couple, b: Couple)
    requires '_' !in a.husband && '_' !in b.husband
    requires a.GetId() == b.GetId()
    ensures a.husband == b.husband && a.wife == b.wife
  {
    CoupleIdShape(a);
    CoupleIdShape(b);
  }

  /** Without the `_` restriction couple identifiers collide: duplicate handling is absent. */
  lemma CoupleIdsCollide()
    ensures Couple("a_b", "c", 0).GetId() == Couple("a", "b_c", 0).GetId()
  {
  }

  /**
   * When no child's name holds a `/`, the group identifier determines the
   * list of children, in order.
   */
  lemma ChildrenIdInjective(a: Children, b: Children)
    requires forall i :: 0 <= i < |a.children| ==> '/' !in a.children[i]
    requires forall i :: 0 <= i < |b.children| ==> '/' !in b.children[i]
    requires a.GetId() == b.GetId()
    ensures a.children == b.children
  {
    var ia, ib := a.GetIds(), b.GetIds();
    var ja, jb := Join('/', ia), Join('/', ib);
    assert ja == a.GetId()[9..] && jb == b.GetId()[9..];
    forall i | 0 <= i < |ia| ensures '/' !in ia[i] {
      ChildIdsAt(a.children, i);
    }
    forall i | 0 <= i < |ib| ensures '/' !in ib[i] {
      ChildIdsAt(b.children, i);
    }
    if |ia| > 0 && |ib| > 0 {
      SplitJoin('/', ia);
      SplitJoin('/', ib);
      assert ia == ib;
      forall i | 0 <= i < |a.children| ensures a.children[i] == b.children[i] {
        ChildIdsAt(a.children, i);
        ChildIdsAt(b.children, i);
        assert a.children[i] == ia[i][6..];
      }
    } else if |ia| > 0 {
      JoinStartsWithFirst('/', ia);
    } else if |ib| > 0 {
      JoinStartsWithFirst('/', ib);
    }
  }
}
