/** Recursive removal on the server. Any call may fail, and a failed call may have been carried out. */
module RemoteRemove {
  import opened Basics
  import opened RemoteTree
  import opened RemoteNames
  import opened RemoteWalk

  /** `after` is `before` without some nodes at or below `p`. */
  ghost predicate OnlyRemovedUnder(before: Nodes, after: Nodes, p: Path) {
    after.Keys <= before.Keys
    && (forall q | q in after :: after[q] == before[q])
    && (forall q | q in before && !(p <= q) :: q in after)
  }

  /** Where canonicalize finds the entry a path names, and what it leads to: links followed, `..` one level up. */
  function EntryAt(nodes: Nodes, names: Path): Option<Path>
    decreases |names|, 0
  {
    if names == [] then Some([])
    else
      var d := Canonical(nodes, Parent(names));
      if Last(names) == ".." then
        if d.Some? && nodes[d.value].Dir? then Some(if d.value == [] then [] else Parent(d.value)) else None
      else EntryOf(nodes, d, Last(names))
  }

  function Canonical(nodes: Nodes, names: Path): (r: Option<Path>)
    ensures r.Some? ==> r.value in nodes && !nodes[r.value].Link?
    decreases |names|, 1
  {
    if names == [] then FollowEntry(nodes, Some([])) else FollowEntry(nodes, EntryAt(nodes, names))
  }

  /** `..` leads one level up from where the path before it led, and not above the root. */
  lemma DotDotIsUp(nodes: Nodes, names: Path, d: Path)
    requires WellFormed(nodes) && Canonical(nodes, names) == Some(d) && nodes[d].Dir?
    ensures Canonical(nodes, names + [".."]) == Some(if d == [] then [] else d[..|d| - 1])
  {
    var up := if d == [] then [] else d[..|d| - 1];
    UpEntry(nodes, names, d);
    if d != [] { assert Placed(nodes, d); }
    assert FollowEntry(nodes, Some(up)) == Some(up);
  }

  lemma UpEntry(nodes: Nodes, names: Path, d: Path)
    requires Canonical(nodes, names) == Some(d) && nodes[d].Dir?
    ensures EntryAt(nodes, names + [".."]) == Some(if d == [] then [] else d[..|d| - 1])
  {
    var path := names + [".."];
    assert Parent(path) == names && Last(path) == "..";
  }

  /** On a path without `..` that is where any other call finds it. */
  lemma {:induction false} CanonicalIsWalk(nodes: Nodes, names: Path)
    requires forall i | 0 <= i < |names| :: names[i] != ".."
    ensures Canonical(nodes, names) == Walk(nodes, [], names) && EntryAt(nodes, names) == At(nodes, [], names)
    decreases |names|
  {
    if names != [] { CanonicalIsWalk(nodes, Parent(names)); }
  }

  class Server {
    var nodes: Nodes
    const home: Path
    /** No call fails. */
    const reliable: bool

    constructor (nodes: Nodes, home: Path, reliable: bool)
      ensures this.nodes == nodes && this.home == home && this.reliable == reliable
    {
      this.nodes, this.home, this.reliable := nodes, home, reliable;
    }

    /** Whether some call fails here. */
    method Fails() returns (fails: bool)
      ensures reliable ==> !fails
    {
      fails := *;
      if reliable { fails := false; }
    }

    /** remove_file and remove_dir: the server takes away one node with nothing in it, or refuses. */
    method RemoveNode(p: Path) returns (ok: bool)
      requires WellFormed(nodes) && p in nodes
      modifies this
      ensures WellFormed(nodes)
      ensures nodes == old(nodes) || nodes == old(nodes) - {p}
      ensures ok ==> nodes == old(nodes) - {p}
      ensures reliable && (old(nodes)[p].Dir? ==> Entries(old(nodes), p) == {}) ==> ok
    {
      if nodes[p].Dir? && Entries(nodes, p) != {} { return false; }
      LeafHasNothingUnder(nodes, p);
      RemoveLeaf(nodes, p);
      var fails := Fails();
      var carriedOut := *;
      if !fails || carriedOut { nodes := nodes - {p}; }
      return !fails;
    }

    /**
     * Success removes exactly the nodes at or below the path; whatever happens, nothing else goes and
     * nothing changes. A symlink is one node: what it points to is not below it.
     */
    method RemoveResolved(p: Path) returns (ok: bool)
      requires WellFormed(nodes)
      modifies this
      ensures WellFormed(nodes)
      ensures OnlyRemovedUnder(old(nodes), nodes, p)
      ensures ok ==> p in old(nodes) && nodes == old(nodes) - Under(old(nodes), p)
      ensures reliable && p in old(nodes) ==> ok
      decreases |Under(nodes, p)|
    {
      ok := false;
      if p !in nodes { return; }
      var fails := Fails();
      if fails { return; }
      if !nodes[p].Dir? {
        LeafHasNothingUnder(nodes, p);
        ok := RemoveNode(p);
        return;
      }
      fails := Fails();
      if fails { return; }
      var listed := Entries(nodes, p) + {".", ".."};
      ok := RemoveEntries(p, listed);
      if !ok { return; }
      NothingLeft(old(nodes), nodes, p, listed);
      AloneIsEmpty(nodes, p);
      ok := RemoveNode(p);
    }

    /**
     * The public call resolves its argument first. On a server whose canonical path follows links this
     * removes what the path leads to: the entry it names goes exactly when it lies at or below that.
     */
    method Remove(path: string) returns (ok: bool)
      requires WellFormed(nodes)
      modifies this
      ensures WellFormed(nodes)
      ensures var names := Locate(home, RemotePath(path));
        var entry, target := EntryAt(old(nodes), names), Canonical(old(nodes), names);
        if ok then
          && entry.Some? && target.Some? && target.value != []
          && nodes == old(nodes) - Under(old(nodes), target.value)
          && (entry.value !in nodes <==> target.value <= entry.value)
        else
          nodes == old(nodes) || (target.Some? && OnlyRemovedUnder(old(nodes), nodes, target.value))
      ensures reliable && !ok ==> Canonical(old(nodes), Locate(home, RemotePath(path))) in {None, Some([])}
      ensures ok && SpellsHome(path) ==>
        Canonical(old(nodes), home).Some? && nodes == old(nodes) - Under(old(nodes), Canonical(old(nodes), home).value)
    {
      ok := false;
      if SpellsHome(path) { HomeLeadsHome(home, path); }
      var fails := Fails();
      if fails { return; }
      var target := Canonical(nodes, Locate(home, RemotePath(path)));
      if target.None? || target.value == [] { return; }
      ok := RemoveResolved(target.value);
    }

    /** A link given to the public call: when it succeeds the link is still there and what it led to is gone. */
    method RemoveLink(path: string, ghost link: Path, ghost target: Path) returns (ok: bool)
      requires WellFormed(nodes) && EntryAt(nodes, Locate(home, RemotePath(path))) == Some(link)
      requires link in nodes && nodes[link] == Link(target)
      requires target in nodes && !nodes[target].Link? && !(target <= link)
      modifies this
      ensures ok ==> link in nodes && target !in nodes
    {
      OneLink(nodes, link, target);
      ok := Remove(path);
    }

    /** The loop over a directory listing, in any order. */
    method RemoveEntries(p: Path, listed: set<string>) returns (ok: bool)
      requires WellFormed(nodes) && p in nodes
      requires forall name | name in listed && name != "." && name != ".." :: name in Entries(nodes, p)
      modifies this
      ensures WellFormed(nodes) && p in nodes && nodes[p] == old(nodes)[p]
      ensures OnlyRemovedUnder(old(nodes), nodes, p)
      ensures ok ==> forall name | name in listed && IsName(name) :: Under(nodes, p + [name]) == {}
      ensures reliable ==> ok
      decreases |Under(nodes, p)|, 0
    {
      var todo := listed;
      forall name | name in todo && name != "." && name != ".." ensures p + [name] in nodes { EntryIn(nodes, p, name); }
      while todo != {}
        invariant todo <= listed
        invariant WellFormed(nodes) && p in nodes && nodes[p] == old(nodes)[p]
        invariant OnlyRemovedUnder(old(nodes), nodes, p)
        invariant forall name | name in listed - todo && IsName(name) :: Under(nodes, p + [name]) == {}
        invariant forall name | name in todo && name != "." && name != ".." :: p + [name] in nodes
        decreases todo
      {
        var name :| name in todo;
        todo := todo - {name};
        if name != "." && name != ".." {
          ghost var before := nodes;
          Shrunk(old(nodes), nodes, p, name);
          var gone := RemoveResolved(p + [name]);
          StillGone(old(nodes), before, nodes, p, name);
          OthersStay(before, nodes, p, name);
          if !gone { return false; }
        }
      }
      return true;
    }
  }

  lemma Shrunk(start: Nodes, now: Nodes, p: Path, name: string)
    requires p in start && now.Keys <= start.Keys
    ensures |Under(now, p + [name])| < |Under(start, p)|
  {
    UnderShrinks(start, p, name);
    var a, b := Under(now, p + [name]), Under(start, p + [name]);
    assert a <= b;
    if a != b { Subset(a, b); }
  }

  lemma StillGone(start: Nodes, before: Nodes, now: Nodes, p: Path, name: string)
    requires p in before && OnlyRemovedUnder(start, before, p) && OnlyRemovedUnder(before, now, p + [name])
    ensures OnlyRemovedUnder(start, now, p) && p in now && now[p] == before[p]
    ensures forall other: string | Under(before, p + [other]) == {} :: Under(now, p + [other]) == {}
  {
    assert !(p + [name] <= p);
    forall q | q in start && !(p <= q) ensures q in now {
      assert q in before && !(p + [name] <= q);
    }
    forall other: string | Under(before, p + [other]) == {} ensures Under(now, p + [other]) == {} {
      assert Under(now, p + [other]) <= Under(before, p + [other]);
    }
  }

  lemma AloneIsEmpty(nodes: Nodes, p: Path)
    requires Under(nodes, p) == {p}
    ensures Entries(nodes, p) == {}
  {
    forall name ensures name !in Entries(nodes, p) {
      EntryIn(nodes, p, name);
      assert p + [name] in nodes ==> p + [name] in Under(nodes, p);
    }
  }

  lemma OthersStay(before: Nodes, now: Nodes, p: Path, name: string)
    requires OnlyRemovedUnder(before, now, p + [name])
    ensures forall other | other != name && p + [other] in before :: p + [other] in now
  {
    forall other | other != name && p + [other] in before ensures p + [other] in now {
      assert (p + [other])[|p|] == other && (p + [name])[|p|] == name;
    }
  }

  /** Once every entry's subtree is gone, only the directory itself is left. */
  lemma NothingLeft(start: Nodes, now: Nodes, p: Path, listed: set<string>)
    requires WellFormed(now) && p in now && OnlyRemovedUnder(start, now, p)
    requires listed == Entries(start, p) + {".", ".."}
    requires forall name | name in listed && IsName(name) :: Under(now, p + [name]) == {}
    ensures Under(now, p) == {p}
    ensures now - {p} == start - Under(start, p)
  {
    forall q | q in Under(now, p) ensures q == p {
      if q != p {
        var name := q[|p|];
        FirstStep(now, p, q);
        assert q in Under(now, p + [name]);
        EntryIn(now, p, name);
        EntryIn(start, p, name);
      }
    }
    forall q ensures q in now - {p} <==> q in start - Under(start, p) {
      if q in now - {p} { assert q !in Under(now, p); }
    }
  }
}
