/**
 * Walking a remote tree by names, following links at every step, as a server resolves the paths that a
 * recursive copy sends; and when such walks are finite.
 */
module RemoteWalk {
  import opened Basics
  import opened RemoteTree
  import opened RemoteNames

  /** The entry of that name in a directory; None from anything else. */
  function EntryOf(nodes: Nodes, place: Option<Path>, name: string): Option<Path>
    requires place.Some? ==> place.value in nodes
  {
    if place.Some? && nodes[place.value].Dir? then Some(place.value + [name]) else None
  }

  function FollowEntry(nodes: Nodes, entry: Option<Path>): (r: Option<Path>)
    ensures r.Some? ==> r.value in nodes && !nodes[r.value].Link?
  {
    match entry
    case None => None
    case Some(p) => Follow(nodes, p, {})
  }

  /** What the path `rel` below `from` leads to. */
  function Walk(nodes: Nodes, from: Path, rel: Path): (r: Option<Path>)
    ensures r.Some? ==> r.value in nodes && !nodes[r.value].Link?
    decreases |rel|
  {
    if rel == [] then Follow(nodes, from, {})
    else FollowEntry(nodes, EntryOf(nodes, Walk(nodes, from, Parent(rel)), Last(rel)))
  }

  /** Where the entry `rel` below `from` lies, its own last link not followed. */
  function At(nodes: Nodes, from: Path, rel: Path): Option<Path> {
    if rel == [] then Some(from) else EntryOf(nodes, Walk(nodes, from, Parent(rel)), Last(rel))
  }

  /** There is an entry of that name, whatever it leads to. */
  predicate Entry(nodes: Nodes, from: Path, rel: Path) {
    var p := At(nodes, from, rel);
    p.Some? && p.value in nodes
  }

  lemma WalkFollows(nodes: Nodes, from: Path, rel: Path)
    ensures Walk(nodes, from, rel) == FollowEntry(nodes, At(nodes, from, rel))
  {
  }

  lemma Step(nodes: Nodes, from: Path, rel: Path, name: string)
    ensures Parent(rel + [name]) == rel && Last(rel + [name]) == name
    ensures Walk(nodes, from, rel).Some? && nodes[Walk(nodes, from, rel).value].Dir? ==>
      At(nodes, from, rel + [name]) == Some(Walk(nodes, from, rel).value + [name])
    ensures !(Walk(nodes, from, rel).Some? && nodes[Walk(nodes, from, rel).value].Dir?) ==>
      At(nodes, from, rel + [name]) == None && Walk(nodes, from, rel + [name]) == None
  {
    assert (rel + [name])[..|rel|] == rel;
  }

  /** Walking on from where a walk led is walking the longer path. */
  lemma {:induction false} Compose(nodes: Nodes, from: Path, rel: Path, ext: Path)
    requires Walk(nodes, from, rel).Some?
    ensures Walk(nodes, from, rel + ext) == Walk(nodes, Walk(nodes, from, rel).value, ext)
    decreases |ext|
  {
    if ext == [] {
      assert rel + ext == rel;
    } else {
      var short := Parent(ext);
      Compose(nodes, from, rel, short);
      assert Parent(rel + ext) == rel + short && Last(rel + ext) == Last(ext);
    }
  }

  /** Below anything that a walk leads past there is a directory. */
  lemma {:induction false} DirAbove(nodes: Nodes, from: Path, rel: Path, ext: Path)
    requires ext != [] && At(nodes, from, rel + ext).Some?
    ensures Walk(nodes, from, rel).Some? && nodes[Walk(nodes, from, rel).value].Dir?
    ensures Entry(nodes, from, rel + ext) ==> Entry(nodes, from, rel + [ext[0]])
    decreases |ext|
  {
    assert Parent(rel + ext) == rel + Parent(ext);
    if |ext| == 1 {
      assert rel + Parent(ext) == rel && ext == [ext[0]];
    } else {
      WalkFollows(nodes, from, rel + Parent(ext));
      DirAbove(nodes, from, rel, Parent(ext));
      assert Parent(ext)[0] == ext[0];
    }
  }

  /** Where `p` lies decides where everything below it lies. */
  lemma {:induction false} Rebase(nodes: Nodes, from: Path, p: Path, rel: Path)
    requires At(nodes, from, p).Some?
    ensures Walk(nodes, from, p + rel) == Walk(nodes, At(nodes, from, p).value, rel)
    ensures At(nodes, from, p + rel) == At(nodes, At(nodes, from, p).value, rel)
    decreases |rel|
  {
    if rel == [] {
      assert p + rel == p;
      WalkFollows(nodes, from, p);
    } else {
      Rebase(nodes, from, p, Parent(rel));
      assert Parent(p + rel) == p + Parent(rel) && Last(p + rel) == Last(rel);
    }
  }

  /** `now` has everything that `before` has. */
  ghost predicate Grown(before: Nodes, now: Nodes) {
    before.Keys <= now.Keys && forall q | q in before :: now[q] == before[q]
  }

  lemma {:induction false} FollowStays(before: Nodes, now: Nodes, p: Path, seen: set<Path>)
    requires Grown(before, now) && Follow(before, p, seen).Some?
    ensures Follow(now, p, seen) == Follow(before, p, seen)
    decreases before.Keys - seen
  {
    if before[p].Link? { FollowStays(before, now, before[p].target, seen + {p}); }
  }

  /** Whatever a path led to it still leads to when nodes are added. */
  lemma {:induction false} WalkStays(before: Nodes, now: Nodes, from: Path, rel: Path)
    requires Grown(before, now)
    ensures Walk(before, from, rel).Some? ==> Walk(now, from, rel) == Walk(before, from, rel)
    ensures At(before, from, rel).Some? ==> At(now, from, rel) == At(before, from, rel)
    decreases |rel|
  {
    if rel != [] { WalkStays(before, now, from, Parent(rel)); }
    WalkFollows(before, from, rel);
    WalkFollows(now, from, rel);
    if Walk(before, from, rel).Some? { FollowStays(before, now, At(before, from, rel).value, {}); }
  }

  /** Directories themselves are reached without a link. */
  lemma {:induction false} PlainDown(nodes: Nodes, from: Path, rel: Path)
    requires WellFormed(nodes) && from + rel in nodes && !nodes[from + rel].Link?
    ensures Walk(nodes, from, rel) == Some(from + rel)
    decreases |rel|
  {
    if rel == [] {
      assert from + rel == from;
    } else {
      assert Placed(nodes, from + rel) && Parent(from + rel) == from + Parent(rel) && Last(from + rel) == Last(rel);
      PlainDown(nodes, from, Parent(rel));
    }
  }

  // ----- Finite walks -----

  /** The path ends where it came by after k steps. */
  predicate Returns(nodes: Nodes, from: Path, rel: Path, k: nat)
    requires k < |rel|
  {
    Walk(nodes, from, rel).Some? && Walk(nodes, from, rel) == Walk(nodes, from, rel[..k])
  }

  /** No path comes by the same place twice; names that end in white space are never sent. */
  ghost predicate NoLoop(nodes: Nodes, from: Path) {
    forall rel: Path, k: nat | k < |rel| && Clean(rel) :: !Returns(nodes, from, rel, k)
  }

  /** The places a walk comes by. */
  function Places(nodes: Nodes, from: Path, rel: Path): (r: set<Path>)
    requires Walk(nodes, from, rel).Some?
    ensures r <= nodes.Keys
    decreases |rel|
  {
    (if rel == [] then {} else Places(nodes, from, Parent(rel))) + {Walk(nodes, from, rel).value}
  }

  lemma {:induction false} PlaceIsPrefix(nodes: Nodes, from: Path, rel: Path, place: Path) returns (k: nat)
    requires Walk(nodes, from, rel).Some? && place in Places(nodes, from, rel)
    ensures k <= |rel| && Walk(nodes, from, rel[..k]) == Some(place)
    decreases |rel|
  {
    if place == Walk(nodes, from, rel).value {
      k := |rel|;
      assert rel[..k] == rel;
    } else {
      k := PlaceIsPrefix(nodes, from, Parent(rel), place);
      assert Parent(rel)[..k] == rel[..k];
    }
  }

  /** Without loops every walk comes by one more place than it has steps. */
  lemma {:induction false} PlacesCount(nodes: Nodes, from: Path, rel: Path)
    requires NoLoop(nodes, from) && Walk(nodes, from, rel).Some? && Clean(rel)
    ensures |Places(nodes, from, rel)| == |rel| + 1
    decreases |rel|
  {
    if rel == [] {
      assert Places(nodes, from, rel) == {Walk(nodes, from, rel).value};
    } else {
      NewPlace(nodes, from, rel);
      PlacesCount(nodes, from, Parent(rel));
      var before, here := Places(nodes, from, Parent(rel)), Walk(nodes, from, rel).value;
      assert Places(nodes, from, rel) == before + {here};
      AddedOne(before, here);
    }
  }

  lemma AddedOne(places: set<Path>, place: Path)
    requires place !in places
    ensures |places + {place}| == |places| + 1
  {}

  lemma NewPlace(nodes: Nodes, from: Path, rel: Path)
    requires rel != [] && NoLoop(nodes, from) && Walk(nodes, from, rel).Some? && Clean(rel)
    ensures Walk(nodes, from, Parent(rel)).Some?
    ensures Walk(nodes, from, rel).value !in Places(nodes, from, Parent(rel))
  {
    var here := Walk(nodes, from, rel).value;
    if here in Places(nodes, from, Parent(rel)) {
      var k := EarlierPlace(nodes, from, rel, here);
      assert Returns(nodes, from, rel, k);
      assert false;
    }
  }

  lemma EarlierPlace(nodes: Nodes, from: Path, rel: Path, place: Path) returns (k: nat)
    requires rel != [] && Walk(nodes, from, Parent(rel)).Some? && place in Places(nodes, from, Parent(rel))
    ensures k < |rel| && Walk(nodes, from, rel[..k]) == Some(place)
  {
    k := PlaceIsPrefix(nodes, from, Parent(rel), place);
    assert Parent(rel)[..k] == rel[..k];
  }

  lemma {:induction false} SubsetSize(a: set<Path>, b: set<Path>)
    requires a <= b
    ensures |a| <= |b|
  {
    if a != b { Subset(a, b); }
  }

  lemma WalksAreShort(nodes: Nodes, from: Path, rel: Path)
    requires NoLoop(nodes, from) && Walk(nodes, from, rel).Some? && Clean(rel)
    ensures |rel| < |nodes|
  {
    PlacesCount(nodes, from, rel);
    SubsetSize(Places(nodes, from, rel), nodes.Keys);
  }

  /** A loop can be gone round any number of times. */
  lemma {:induction false} RoundAndRound(nodes: Nodes, from: Path, rel: Path, place: Path, loop: Path, n: nat)
    returns (long: Path)
    requires loop != [] && Clean(rel) && Clean(loop)
    requires Walk(nodes, from, rel) == Some(place) == Walk(nodes, place, loop)
    ensures |long| >= n && Clean(long) && Walk(nodes, from, long) == Some(place)
  {
    if n == 0 {
      long := rel;
    } else {
      var less := RoundAndRound(nodes, from, rel, place, loop, n - 1);
      Compose(nodes, from, less, loop);
      long := less + loop;
    }
  }

  lemma LongWalk(nodes: Nodes, from: Path, n: nat) returns (long: Path)
    requires !NoLoop(nodes, from)
    ensures |long| >= n && Clean(long) && Walk(nodes, from, long).Some?
  {
    var rel: Path, k: nat :| k < |rel| && Clean(rel) && Returns(nodes, from, rel, k);
    var before, loop := rel[..k], rel[k..];
    assert before + loop == rel;
    Compose(nodes, from, before, loop);
    long := RoundAndRound(nodes, from, before, Walk(nodes, from, before).value, loop, n);
  }

  /** Without loops no walk has as many steps as there are nodes; with one there are walks of any length. */
  lemma FiniteIffNoLoop(nodes: Nodes, from: Path)
    ensures NoLoop(nodes, from) <==> forall rel: Path | Clean(rel) && Walk(nodes, from, rel).Some? :: |rel| < |nodes|
  {
    if NoLoop(nodes, from) {
      forall rel: Path | Clean(rel) && Walk(nodes, from, rel).Some? ensures |rel| < |nodes| {
        WalksAreShort(nodes, from, rel);
      }
    } else {
      var long := LongWalk(nodes, from, |nodes|);
    }
  }

  lemma OneLink(nodes: Nodes, q: Path, target: Path)
    requires q in nodes && nodes[q] == Link(target) && target in nodes && !nodes[target].Link?
    ensures Follow(nodes, q, {}) == Some(target)
  {
    assert Follow(nodes, q, {}) == Follow(nodes, target, {} + {q});
  }

  /** Where no link below leads to a directory, walks just go down: there is no loop. */
  lemma {:induction false} PlainWalk(nodes: Nodes, from: Path, rel: Path)
    requires Walk(nodes, from, []).Some? && Walk(nodes, from, rel).Some?
    requires forall q | q in nodes && Walk(nodes, from, []).value < q && nodes[q].Link? && Follow(nodes, q, {}).Some? ::
      nodes[Follow(nodes, q, {}).value].File?
    ensures nodes[Walk(nodes, from, rel).value].Dir? ==>
      Walk(nodes, from, rel).value == Walk(nodes, from, []).value + rel
    decreases |rel|
  {
    var start := Walk(nodes, from, []).value;
    if rel != [] {
      PlainWalk(nodes, from, Parent(rel));
      var q := start + Parent(rel) + [Last(rel)];
      assert q == start + rel && start < q;
    }
  }

  lemma PlainTreesHaveNoLoop(nodes: Nodes, from: Path)
    requires Walk(nodes, from, []).Some?
    requires forall q | q in nodes && Walk(nodes, from, []).value < q && nodes[q].Link? && Follow(nodes, q, {}).Some? ::
      nodes[Follow(nodes, q, {}).value].File?
    ensures NoLoop(nodes, from)
  {
    forall rel: Path, k: nat | k < |rel| && Clean(rel) ensures !Returns(nodes, from, rel, k) {
      if Returns(nodes, from, rel, k) {
        assert rel[..k] + rel[k..] == rel;
        DirBetween(nodes, from, rel[..k], rel[k..]);
        PlainWalk(nodes, from, rel);
        PlainWalk(nodes, from, rel[..k]);
      }
    }
  }

  lemma DirBetween(nodes: Nodes, from: Path, rel: Path, ext: Path)
    requires ext != [] && Walk(nodes, from, rel + ext).Some?
    ensures Walk(nodes, from, rel).Some? && nodes[Walk(nodes, from, rel).value].Dir?
  {
    WalkFollows(nodes, from, rel + ext);
    DirAbove(nodes, from, rel, ext);
  }
}
