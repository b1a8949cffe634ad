/**
 * The server's files as a tree: nodes keyed by the names from one starting directory. Every
 * component is one name.
 */
module RemoteTree {
  import opened Basics

  type Path = seq<string>

  datatype Node = Dir(mode: Mode) | File(content: seq<byte>, mode: Mode) | Link(target: Path)

  type Nodes = map<Path, Node>

  /** One path component as a server lists it. */
  predicate IsName(name: string) {
    name != "" && name != "." && name != ".." && '/' !in name
  }

  /** Every node but the start lies in a directory, and every component is a name. */
  ghost predicate WellFormed(nodes: Nodes) {
    forall q {:trigger Placed(nodes, q)} :: q in nodes ==> Placed(nodes, q)
  }

  predicate Placed(nodes: Nodes, q: Path) {
    q == [] || (IsName(Last(q)) && Parent(q) in nodes && nodes[Parent(q)].Dir?)
  }

  function Parent(q: Path): (r: Path)
    requires q != []
    ensures r < q && r + [Last(q)] == q
  {
    q[..|q| - 1]
  }

  function Last(q: Path): string
    requires q != []
  {
    q[|q| - 1]
  }

  /** The nodes at or below `p`. */
  ghost function Under(nodes: Nodes, p: Path): set<Path> {
    set q | q in nodes && p <= q
  }

  /** The names a directory lists. */
  function Entries(nodes: Nodes, p: Path): set<string> {
    set q | q in nodes && |q| == |p| + 1 && p <= q :: q[|p|]
  }

  lemma EntryIn(nodes: Nodes, p: Path, name: string)
    ensures name in Entries(nodes, p) <==> p + [name] in nodes
  {
    if name in Entries(nodes, p) {
      var q :| q in nodes && |q| == |p| + 1 && p <= q && q[|p|] == name;
      assert q == p + [name];
    }
    if p + [name] in nodes {
      var q := p + [name];
      assert p <= q && q[|p|] == name;
    }
  }

  /** A node below `p` lies at or below one of its entries, so `p` is a directory. */
  lemma {:induction false} FirstStep(nodes: Nodes, p: Path, q: Path)
    requires WellFormed(nodes) && q in nodes && p < q
    ensures p in nodes && nodes[p].Dir?
    ensures q[|p|] in Entries(nodes, p) && p + [q[|p|]] <= q && IsName(q[|p|])
    decreases |q|
  {
    assert Placed(nodes, q);
    if |q| == |p| + 1 {
      assert Parent(q) == p && q == p + [q[|p|]];
      EntryIn(nodes, p, q[|p|]);
    } else {
      FirstStep(nodes, p, Parent(q));
      assert Parent(q)[|p|] == q[|p|];
    }
  }

  lemma LeafHasNothingUnder(nodes: Nodes, p: Path)
    requires WellFormed(nodes) && (p in nodes && nodes[p].Dir? ==> Entries(nodes, p) == {})
    ensures Under(nodes, p) == if p in nodes then {p} else {}
  {
    forall q | q in Under(nodes, p) ensures q == p {
      if q != p { FirstStep(nodes, p, q); }
    }
  }

  /** Taking away a node with nothing below it keeps the tree well formed. */
  lemma RemoveLeaf(nodes: Nodes, p: Path)
    requires WellFormed(nodes) && Under(nodes, p) <= {p}
    ensures WellFormed(nodes - {p})
  {
    forall q | q in nodes - {p} ensures Placed(nodes - {p}, q) {
      assert Placed(nodes, q);
      assert q != [] && Parent(q) == p ==> q in Under(nodes, p);
    }
  }

  lemma UnderShrinks(nodes: Nodes, p: Path, name: string)
    requires p in nodes
    ensures |Under(nodes, p + [name])| < |Under(nodes, p)|
  {
    assert p in Under(nodes, p) && p !in Under(nodes, p + [name]);
    Subset(Under(nodes, p + [name]), Under(nodes, p));
  }

  lemma {:induction false} Subset(a: set<Path>, b: set<Path>)
    requires a < b
    ensures |a| < |b|
  {
    var rest := b - a;
    assert b == a + rest;
    assert rest != {};
  }

  lemma PlacedStays(nodes: Nodes, p: Path, node: Node)
    requires WellFormed(nodes) && Placed(nodes, p) && (p in nodes && nodes[p].Dir? ==> node.Dir?)
    ensures WellFormed(nodes[p := node])
  {
    var now := nodes[p := node];
    forall q | q in now ensures Placed(now, q) {
      assert Placed(nodes, q);
    }
  }

  /** Changing a node's content or mode leaves the tree well formed. */
  lemma SameShape(nodes: Nodes, p: Path, node: Node)
    requires WellFormed(nodes) && p in nodes && (nodes[p].Dir? ==> node.Dir?)
    ensures WellFormed(nodes[p := node])
  {
    assert Placed(nodes, p);
    PlacedStays(nodes, p, node);
  }

  /** A path that is free has nothing below it. */
  lemma Fresh(nodes: Nodes, to: Path, q: Path)
    requires WellFormed(nodes) && to !in nodes && q in nodes
    ensures !(to <= q)
  {
    assert q != to;
    if to <= q { FirstStep(nodes, to, q); }
  }

  // ----- Symbolic links -----

  /** The node a path leads to; None when it is missing or the links go round in a circle. */
  function Follow(nodes: Nodes, p: Path, seen: set<Path>): (r: Option<Path>)
    ensures r.Some? ==> r.value in nodes && !nodes[r.value].Link?
    ensures r.Some? ==> p in nodes && (!nodes[p].Link? ==> r.value == p)
    decreases nodes.Keys - seen
  {
    if p !in nodes || p in seen then None
    else if nodes[p].Link? then Follow(nodes, nodes[p].target, seen + {p})
    else Some(p)
  }

  /** Every path looked at on the way. */
  function Hops(nodes: Nodes, p: Path, seen: set<Path>): (r: set<Path>)
    ensures p !in seen ==> p in r
    ensures Follow(nodes, p, seen).Some? ==> Follow(nodes, p, seen).value in r
    decreases nodes.Keys - seen
  {
    if p in seen then {}
    else if p !in nodes || !nodes[p].Link? then {p}
    else {p} + Hops(nodes, nodes[p].target, seen + {p})
  }

  /** `after` is `before` with some nodes added at or below `p`. */
  ghost predicate OnlyAddedUnder(before: Nodes, after: Nodes, p: Path) {
    before.Keys <= after.Keys
    && (forall q | q in before :: after[q] == before[q])
    && (forall q | q in after && q !in before :: p <= q)
  }

  /** Additions at or below `p` do not change where links lead that never come by there. */
  lemma {:induction false} FollowFrame(before: Nodes, after: Nodes, p: Path, q: Path, seen: set<Path>)
    requires OnlyAddedUnder(before, after, p)
    requires forall h | h in Hops(before, q, seen) :: !(p <= h)
    ensures Follow(after, q, seen) == Follow(before, q, seen) && Hops(after, q, seen) == Hops(before, q, seen)
    decreases before.Keys - seen
  {
    if q !in seen {
      assert q in Hops(before, q, seen);
      if q in before && before[q].Link? {
        FollowFrame(before, after, p, before[q].target, seen + {q});
      }
    }
  }
}
