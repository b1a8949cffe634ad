/**
 * Recursive copy on the server, on the strings the client sends: every call passes its two paths through
 * remote_path again and every server call resolves a string, links included. Any call may fail, and a
 * failed call may have been carried out. A run is followed for a given number of levels, since it need
 * not end.
 */
module RemoteCopy {
  import opened Basics
  import opened RemoteTree
  import opened RemoteNames
  import opened RemoteWalk
  import opened RemoteDescent

  /** Cut: the run goes deeper than it was followed. */
  datatype End = Done | Failed | Cut

  /** The two paths of a copy as names from the root and as places in the tree it starts with. */
  datatype Job = Job(before: Nodes, source: Path, target: Path, from: Path, to: Path) {
    ghost predicate Bounded() {
      Apart(before, from, to) && NoLoop(before, from)
    }

    /** Nothing but a failing call stands in the way of the copy. */
    ghost predicate Copyable() {
      Unhindered(before, from, to)
    }

    /** The copy does not go down for ever. */
    ghost predicate Finite() {
      NoLoop(before, from) && NeverRunsInto(before, from, to)
    }

    ghost predicate Valid() {
      WellFormed(before) && from in before && At(before, [], source) == Some(from) && At(before, [], target) == Some(to)
    }
  }

  /** `copy` is what stat and read report for `source`; modes only if they are reported. */
  predicate Same(source: Node, copy: Node, modes: bool) {
    match source
    case Dir(m) => copy.Dir? && (modes ==> copy.mode == m)
    case File(c, m) => copy.File? && copy.content == c && (modes ==> copy.mode == m)
    case Link(_) => false
  }

  /** The entry `rel` of the source has a copy, and that is what it leads to; or neither is there. */
  ghost predicate CopiedAt(before: Nodes, now: Nodes, from: Path, to: Path, rel: Path, modes: bool) {
    var source := Walk(before, from, rel);
    && (Entry(before, from, rel) <==> to + rel in now)
    && (to + rel in now ==> Clean(rel) && source.Some? && Same(before[source.value], now[to + rel], modes))
  }

  ghost predicate CopiedBelow(before: Nodes, now: Nodes, from: Path, to: Path, rel: Path, modes: bool) {
    forall q: Path | rel <= q :: CopiedAt(before, now, from, to, q, modes)
  }

  /** The tree at `to` is the tree at `from` in shape, content and reported permission bits. */
  ghost predicate Copied(before: Nodes, now: Nodes, from: Path, to: Path, modes: bool) {
    CopiedBelow(before, now, from, to, [], modes)
  }

  /** No name in the source ends in white space. */
  ghost predicate CleanTree(nodes: Nodes, from: Path) {
    forall rel: Path | Entry(nodes, from, rel) :: Clean(rel)
  }

  /** No directory of the source contains the target. */
  ghost predicate Outside(nodes: Nodes, from: Path, to: Path) {
    forall rel: Path | Clean(rel) :: OutsideAt(nodes, from, to, rel)
  }

  predicate OutsideAt(nodes: Nodes, from: Path, to: Path, rel: Path) {
    var source := Walk(nodes, from, rel);
    source.Some? && nodes[source.value].Dir? ==> !(source.value <= to)
  }

  /** Every entry of the source leads somewhere. */
  ghost predicate NoDangling(nodes: Nodes, from: Path) {
    forall rel: Path | Entry(nodes, from, rel) :: Walk(nodes, from, rel).Some?
  }

  /** No link of the source leads into the target. */
  ghost predicate NoLinkInto(nodes: Nodes, from: Path, to: Path) {
    forall rel: Path | Clean(rel) :: NoLinkAt(nodes, from, to, rel)
  }

  ghost predicate NoLinkAt(nodes: Nodes, from: Path, to: Path, rel: Path) {
    var at := At(nodes, from, rel);
    at.Some? && at.value in nodes && nodes[at.value].Link? ==> forall h | h in Hops(nodes, at.value, {}) :: !(to <= h)
  }

  /** The copy does not run into its own target: neither through a directory it lists nor through a link. */
  ghost predicate Apart(nodes: Nodes, from: Path, to: Path) {
    Outside(nodes, from, to) && NoLinkInto(nodes, from, to)
  }

  /** One node was added where nothing was, with the given kind and content and some mode. */
  ghost predicate Made(before: Nodes, now: Nodes, p: Path, node: Node) {
    p !in before && p in now && now == before[p := now[p]]
    && match node
       case Dir(_) => now[p].Dir?
       case File(c, _) => now[p].File? && now[p].content == c
       case Link(_) => false
  }

  /** `now` is on the way from the job's start: only the target tree has grown. */
  ghost predicate OnTheWay(job: Job, now: Nodes) {
    && job.Valid() && WellFormed(now) && OnlyAddedUnder(job.before, now, job.to) && NoNewLinks(job.before, now)
    && (job.to in job.before ==> now == job.before)
  }

  /** The directory that is to hold the copy of `rel` has been made. */
  ghost predicate Ready(job: Job, now: Nodes, rel: Path) {
    rel != [] ==> job.to !in job.before && job.to + Parent(rel) in now && now[job.to + Parent(rel)].Dir?
  }

  class Server {
    var nodes: Nodes
    const reportsModes: bool
    const reading: Reading
    /** No call fails. */
    const reliable: bool

    constructor (nodes: Nodes, reportsModes: bool, home: Path, reliable: bool)
      ensures this.nodes == nodes && this.reportsModes == reportsModes && this.reliable == reliable
      ensures reading == PlainReading(home) && Lawful(reading)
    {
      this.nodes, this.reportsModes, this.reading, this.reliable := nodes, reportsModes, PlainReading(home), reliable;
      PlainIsLawful(home);
    }

    /** Whether some call fails here. */
    method Fails() returns (fails: bool)
      ensures reliable ==> !fails
    {
      fails := *;
      if reliable { fails := false; }
    }

    /** The path of an entry: join, then the remote_path of the call it is passed to. */
    method PathOfEntry(dir: string, name: string, ghost names: Path, ghost rel: Path) returns (path: string)
      requires Lawful(reading) && reading(dir) == Some(names + rel) && '/' !in name
      ensures reading(path) == Some(names + (rel + Component(TrimEnd(name))))
    {
      path := RemotePath(Join(dir, name));
      assert names + rel + Component(TrimEnd(name)) == names + (rel + Component(TrimEnd(name)));
    }

    /** Exclusive creation at `p`, where the path leads: refused when something is there. */
    method Create(path: string, node: Node, ghost p: Path) returns (ok: bool)
      requires WellFormed(nodes) && !node.Link? && reading(path).Some? && At(nodes, [], reading(path).value) == Some(p)
      modifies this
      ensures WellFormed(nodes)
      ensures nodes == old(nodes) || Made(old(nodes), nodes, p, node)
      ensures ok ==> Made(old(nodes), nodes, p, node)
      ensures reliable && p != [] && p !in old(nodes) && Placed(old(nodes), p) ==> ok
    {
      var here := At(nodes, [], reading(path).value).value;
      if here in nodes || here == [] || !Placed(nodes, here) { return false; }
      var fails := Fails();
      var carriedOut := *;
      if fails && !carriedOut { return false; }
      var m: Mode :| true;
      NodeMade(nodes, here, node, m);
      nodes := nodes[here := node.(mode := m)];
      return !fails;
    }

    /** The bytes of the open file: all of them, or some first part and a failure. */
    method Write(path: string, content: seq<byte>, ghost p: Path) returns (ok: bool)
      requires WellFormed(nodes) && reading(path).Some?
      requires Walk(nodes, [], reading(path).value) == Some(p) && nodes[p].File?
      modifies this
      ensures WellFormed(nodes)
      ensures p in nodes && nodes[p].File? && nodes == old(nodes)[p := nodes[p]]
      ensures ok ==> nodes[p].content == content
      ensures reliable ==> ok
    {
      var here := Walk(nodes, [], reading(path).value).value;
      var fails := Fails();
      var landed: nat :| landed <= |content|;
      if !fails { landed := |content|; }
      SameShape(nodes, here, File(content[..landed], nodes[here].mode));
      nodes := nodes[here := File(content[..landed], nodes[here].mode)];
      ok := !fails;
    }

    /** keep_mode: chmod to the reported bits, or nothing when none were reported. */
    method KeepMode(path: string, mode: Mode, ghost p: Path) returns (ok: bool)
      requires WellFormed(nodes) && reading(path).Some? && Walk(nodes, [], reading(path).value) == Some(p)
      modifies this
      ensures WellFormed(nodes)
      ensures nodes == old(nodes) || nodes == old(nodes)[p := old(nodes)[p].(mode := mode)]
      ensures ok && reportsModes ==> nodes == old(nodes)[p := old(nodes)[p].(mode := mode)]
      ensures reliable ==> ok
    {
      if !reportsModes { return true; }
      var fails := Fails();
      var carriedOut := *;
      if fails && !carriedOut { return false; }
      var found := Walk(nodes, [], reading(path).value).value;
      SameShape(nodes, found, nodes[found].(mode := mode));
      nodes := nodes[found := nodes[found].(mode := mode)];
      return !fails;
    }

    /**
     * Whatever happens and however long it goes on, no node that was there changes and everything new lies
     * at or below the target. Success, when no directory of the source contains the target, means a
     * copy of the source tree exactly when every entry of it led somewhere; and no name ended in white
     * space. A run may be followed for some levels only. When the source neither loops nor leads into the
     * target under construction it may be followed to its end, since it has one, whatever the order of a
     * listing; and when the source keeps clear of the target that is within as many levels as there are nodes.
     */
    method Copy(from: string, to: string, depth: Option<nat>) returns (end: End)
      requires WellFormed(nodes) && Lawful(reading)
      requires reading(RemotePath(from)).Some? && reading(RemotePath(to)).Some?
      requires depth.None? ==>
        var f, t := PlaceOf(nodes, reading, from), PlaceOf(nodes, reading, to);
        f.Some? && t.Some? ==> NoLoop(nodes, f.value) && NeverRunsInto(nodes, f.value, t.value)
      modifies this
      ensures WellFormed(nodes)
      ensures var t := PlaceOf(old(nodes), reading, to);
        if t.Some? then OnlyAddedUnder(old(nodes), nodes, t.value) else nodes == old(nodes)
      ensures end.Done? ==>
        var f, t := PlaceOf(old(nodes), reading, from), PlaceOf(old(nodes), reading, to);
        f.Some? && t.Some? && Finished(old(nodes), nodes, f.value, t.value, reportsModes)
      ensures end.Cut? ==>
        var f, t := PlaceOf(old(nodes), reading, from), PlaceOf(old(nodes), reading, to);
        && depth.Some? && f.Some? && t.Some?
        && (Apart(old(nodes), f.value, t.value) && NoLoop(old(nodes), f.value) ==> depth.value <= |old(nodes)|)
      ensures reliable ==>
        var f, t := PlaceOf(old(nodes), reading, from), PlaceOf(old(nodes), reading, to);
        f.Some? && t.Some? && f.value in old(nodes) && Unhindered(old(nodes), f.value, t.value) ==> !end.Failed?
    {
      var source, target := RemotePath(from), RemotePath(to);
      var f, t := At(nodes, [], reading(source).value), At(nodes, [], reading(target).value);
      // Nothing to stat, or no directory to create anything in.
      if f.None? || f.value !in nodes || t.None? { return Failed; }
      ghost var job := Job(nodes, reading(source).value, reading(target).value, f.value, t.value);
      assert job.source + [] == job.source && job.target + [] == job.target && job.to + [] == job.to;
      end := CopyNode(source, target, depth, job, []);
      if end.Done? { WhatSuccessMeans(job, nodes, reportsModes); }
    }

    /** One call of the recursion: the entry `rel` of the source, to the same place below the target. */
    method CopyNode(source: string, target: string, depth: Option<nat>, ghost job: Job, ghost rel: Path)
      returns (end: End)
      requires Lawful(reading)
      requires OnTheWay(job, nodes) && Ready(job, nodes, rel) && Clean(rel) && MayStart(job, depth, nodes, rel)
      requires reading(source) == Some(job.source + rel) && reading(target) == Some(job.target + rel)
      modifies this
      ensures OnTheWay(job, nodes) && OnlyAddedUnder(old(nodes), nodes, job.to + rel)
      ensures end.Done? ==> job.to + rel !in old(nodes) && job.to + rel in nodes
      ensures end.Done? && Apart(job.before, job.from, job.to) ==>
        CopiedBelow(job.before, nodes, job.from, job.to, rel, reportsModes)
      ensures end.Cut? ==> depth.Some? && (depth.value == 0 || job.to + rel !in old(nodes))
      ensures end.Cut? && |rel| <= |job.before| && job.Bounded() ==> depth.value + |rel| <= |job.before|
      ensures reliable && job.Copyable() && Entry(job.before, job.from, rel) && job.to + rel !in old(nodes) ==>
        !end.Failed?
      decreases Phase(job, depth, rel), Size(job, nodes, depth, rel), if job.to + rel in nodes then 0 else 4
    {
      if depth == Some(0) { return Cut; }
      SourceFound(job, nodes, rel);
      var found := Walk(nodes, [], reading(source).value);
      if job.Copyable() && Entry(job.before, job.from, rel) { WillBeFound(job, nodes, rel); }
      if found.None? { return Failed; }
      var fails := Fails();
      if fails { return Failed; }
      if nodes[found.value].File? {
        end := CopyFile(target, nodes[found.value], job, rel);
        return;
      }
      ghost var start := nodes;
      var mode := nodes[found.value].mode;
      var ok := MakeDir(target, job, rel);
      if !ok { return Failed; }
      WalkStays(start, nodes, job.from, rel);
      MayGoOn(job, depth, start, nodes, rel);
      end := FillDir(source, target, mode, depth, job, rel, start);
    }

    method CopyFile(target: string, source: Node, ghost job: Job, ghost rel: Path) returns (end: End)
      requires OnTheWay(job, nodes) && Ready(job, nodes, rel) && Clean(rel)
      requires reading(target) == Some(job.target + rel)
      requires Walk(nodes, job.from, rel).Some? && nodes[Walk(nodes, job.from, rel).value] == source && source.File?
      modifies this
      ensures OnTheWay(job, nodes) && OnlyAddedUnder(old(nodes), nodes, job.to + rel)
      ensures end.Done? ==> job.to + rel !in old(nodes) && job.to + rel in nodes
      ensures end.Done? && Apart(job.before, job.from, job.to) ==>
        CopiedBelow(job.before, nodes, job.from, job.to, rel, reportsModes)
      ensures !end.Cut?
      ensures reliable && CanBeMade(job, old(nodes), rel) ==> end.Done?
    {
      ghost var start := nodes;
      TargetAt(job, nodes, rel);
      var ok := StoreFile(target, source, job.to + rel);
      Grew(job, start, nodes, rel);
      if !ok { return Failed; }
      if Apart(job.before, job.from, job.to) {
        SourceStays(job, start, rel);
        FileCopied(job.before, nodes, job.from, job.to, rel, reportsModes);
      }
      return Done;
    }

    /** The target directory has been made: fill it, then set its mode. */
    method FillDir(source: string, target: string, mode: Mode, depth: Option<nat>, ghost job: Job, ghost rel: Path,
                   ghost start: Nodes) returns (end: End)
      requires Lawful(reading) && depth != Some(0) && Clean(rel)
      requires Begun(job, start, nodes, rel) && OnTheWay(job, nodes)
      requires reading(source) == Some(job.source + rel) && reading(target) == Some(job.target + rel)
      requires job.to !in job.before && Bare(nodes, job.to + rel) && GoingOn(job, depth, nodes, rel)
      requires Listable(start, job.from, rel) && start[Walk(start, job.from, rel).value].mode == mode
      requires Walk(nodes, job.from, rel) == Walk(start, job.from, rel)
      modifies this
      ensures OnTheWay(job, nodes) && OnlyAddedUnder(start, nodes, job.to + rel)
      ensures end.Done? ==> job.to + rel in nodes
      ensures end.Done? && Apart(job.before, job.from, job.to) ==>
        CopiedBelow(job.before, nodes, job.from, job.to, rel, reportsModes)
      ensures end.Cut? ==> depth.Some? && (job.Bounded() ==> depth.value + |rel| <= |job.before|)
      ensures reliable && job.Copyable() ==> !end.Failed?
      decreases Phase(job, depth, rel), Size(job, nodes, depth, rel), 3
    {
      ghost var made := nodes;
      end := CopyEntries(source, target, depth, job, rel);
      StillBegun(job, start, made, nodes, rel);
      if !end.Done? { return; }
      ghost var filled := nodes;
      var ok := FinishDir(target, mode, job, rel, start);
      if !ok { return Failed; }
      if Apart(job.before, job.from, job.to) {
        SourceStays(job, start, rel);
        DirCopied(job.before, filled, nodes, job.from, job.to, rel, reportsModes);
      }
    }

    /** Exclusive creation of the target directory. */
    method MakeDir(target: string, ghost job: Job, ghost rel: Path) returns (ok: bool)
      requires OnTheWay(job, nodes) && Ready(job, nodes, rel) && reading(target) == Some(job.target + rel)
      modifies this
      ensures OnTheWay(job, nodes) && OnlyAddedUnder(old(nodes), nodes, job.to + rel)
      ensures ok ==> Begun(job, old(nodes), nodes, rel) && job.to !in job.before && Bare(nodes, job.to + rel)
      ensures reliable && CanBeMade(job, old(nodes), rel) ==> ok
    {
      ghost var start := nodes;
      TargetAt(job, nodes, rel);
      var initial: Mode := *; // the server's choice
      ok := Create(target, Dir(initial), job.to + rel);
      if nodes != start { DirMade(job, start, nodes, rel); }
    }

    /** The filled directory gets its mode. */
    method FinishDir(target: string, mode: Mode, ghost job: Job, ghost rel: Path, ghost start: Nodes) returns (ok: bool)
      requires OnTheWay(job, nodes) && reading(target) == Some(job.target + rel)
      requires Begun(job, start, nodes, rel)
      modifies this
      ensures OnTheWay(job, nodes) && Begun(job, start, nodes, rel)
      ensures nodes == old(nodes)[job.to + rel := nodes[job.to + rel]]
      ensures ok && reportsModes ==> nodes[job.to + rel].mode == mode
      ensures reliable ==> ok
    {
      ghost var filled := nodes;
      TargetWalk(job, nodes, rel);
      ok := KeepMode(target, mode, job.to + rel);
      ModeSet(job, start, filled, nodes, rel);
    }

    /** The loop over a directory listing, in any order. */
    method CopyEntries(source: string, target: string, depth: Option<nat>, ghost job: Job, ghost rel: Path)
      returns (end: End)
      requires Lawful(reading) && depth != Some(0) && OnTheWay(job, nodes) && Clean(rel) && job.to !in job.before
      requires reading(source) == Some(job.source + rel) && reading(target) == Some(job.target + rel)
      requires Listable(nodes, job.from, rel) && Bare(nodes, job.to + rel) && GoingOn(job, depth, nodes, rel)
      modifies this
      ensures OnTheWay(job, nodes) && OnlyAddedUnder(old(nodes), nodes, job.to + rel)
      ensures end.Done? && Apart(job.before, job.from, job.to) ==>
        EntriesCopied(job.before, nodes, job.from, job.to, rel, reportsModes)
      ensures end.Cut? ==> depth.Some? && (job.Bounded() ==> depth.value + |rel| <= |job.before|)
      ensures reliable && job.Copyable() ==> !end.Failed?
      decreases Phase(job, depth, rel), Size(job, nodes, depth, rel), 2
    {
      var fails := Fails();
      if fails { return Failed; }
      var listed := ListDir(source, job, rel);
      ghost var start := nodes;
      var todo := listed + {".", ".."};
      ghost var done: set<string> := {};
      while todo != {}
        invariant listed + {".", ".."} == todo + done && todo !! done
        invariant Filling(job, start, nodes, rel, listed, done, reportsModes)
        decreases todo
      {
        var name :| name in todo;
        if !IsDots(name) {
          KeepsGoing(job, depth, start, nodes, rel);
          end := CopyEntry(source, target, name, depth, job, rel, listed, done, start);
          if !end.Done? { return; }
        } else {
          SkipDots(job, start, nodes, rel, listed, done, name, reportsModes);
        }
        todo, done := todo - {name}, done + {name};
      }
      AllDone(job, start, nodes, rel, listed, done, reportsModes);
      return Done;
    }

    /** The names in a directory that is about to be copied. */
    method ListDir(source: string, ghost job: Job, ghost rel: Path) returns (listed: set<string>)
      requires OnTheWay(job, nodes) && Clean(rel) && job.to !in job.before && reading(source) == Some(job.source + rel)
      requires Listable(nodes, job.from, rel) && Bare(nodes, job.to + rel)
      ensures forall n | n in listed :: IsName(n)
      ensures Filling(job, nodes, nodes, rel, listed, {}, reportsModes)
    {
      SourceFound(job, nodes, rel);
      listed := Entries(nodes, Walk(nodes, [], reading(source).value).value);
      NamesListed(nodes, job.from, rel);
      StartFilling(job, nodes, rel, listed, reportsModes);
    }

    /** One entry: its two paths are joined and passed on. */
    method CopyEntry(source: string, target: string, name: string, depth: Option<nat>, ghost job: Job, ghost rel: Path,
                     ghost listed: set<string>, ghost done: set<string>, ghost start: Nodes) returns (end: End)
      requires Lawful(reading) && depth != Some(0)
      requires Clean(rel) && job.to !in job.before && !IsDots(name) && name !in done && IsName(name)
      requires reading(source) == Some(job.source + rel) && reading(target) == Some(job.target + rel)
      requires Filling(job, start, nodes, rel, listed, done, reportsModes) && done <= listed + {".", ".."}
      requires Listable(nodes, job.from, rel) && GoingOn(job, depth, nodes, rel)
      modifies this
      ensures OnTheWay(job, nodes) && OnlyAddedUnder(start, nodes, job.to + rel)
      ensures end.Done? ==> Filling(job, start, nodes, rel, listed, done + {name}, reportsModes)
      ensures end.Cut? ==> depth.Some? && (job.Bounded() ==> depth.value + |rel| <= |job.before|)
      ensures reliable && job.Copyable() && name in listed ==> !end.Failed?
      decreases Phase(job, depth, rel), Size(job, nodes, depth, rel), 1
    {
      ghost var mid, next := nodes, rel + Component(TrimEnd(name));
      if job.Copyable() && name in listed { NotMadeYet(job, nodes, rel, listed, done, name); }
      ChildReady(job, nodes, rel, name);
      ChildMayStart(job, depth, nodes, rel, name);
      ChildSmaller(job, depth, nodes, rel, name);
      var s := PathOfEntry(source, name, job.source, rel);
      var t := PathOfEntry(target, name, job.target, rel);
      end := CopyNode(s, t, Less(depth), job, next);
      ChildWithin(job, start, mid, nodes, rel, name);
      if end.Done? { ChildFilled(job, start, mid, nodes, rel, name, listed, done, reportsModes); }
      if end.Cut? { ChildLevel(job, start, mid, rel, name, listed, done, depth.value, reportsModes); }
    }

    /** Create, write, keep the mode: nothing but the new file changes, and success means all of it. */
    method StoreFile(path: string, source: Node, ghost p: Path) returns (ok: bool)
      requires WellFormed(nodes) && source.File? && reading(path).Some? && At(nodes, [], reading(path).value) == Some(p)
      modifies this
      ensures WellFormed(nodes)
      ensures nodes == old(nodes) ||
              (p !in old(nodes) && p in nodes && nodes[p].File? && nodes == old(nodes)[p := nodes[p]])
      ensures ok ==> p !in old(nodes) && p in nodes && Same(source, nodes[p], reportsModes)
      ensures reliable && p != [] && p !in old(nodes) && Placed(old(nodes), p) ==> ok
    {
      var fails := Fails();
      if fails { return false; }
      var initial: Mode := *;
      ok := Create(path, File([], initial), p);
      if !ok { return; }
      LeadsTo(old(nodes), nodes, reading(path).value, p);
      ok := Write(path, source.content, p);
      if !ok { return; }
      LeadsTo(old(nodes), nodes, reading(path).value, p);
      ok := KeepMode(path, source.mode, p);
    }
  }

  // ----- Why a run that is followed to its end has one -----

  function Less(depth: Option<nat>): Option<nat>
    requires depth != Some(0)
  {
    match depth
    case None => None
    case Some(n) => Some(n - 1)
  }

  predicate Beside(p: Path, q: Path) {
    !(p <= q) && !(q <= p)
  }

  /** Without a limit: the entry is one of the source's own, or lies in a finished part of the target. */
  ghost predicate MayStart(job: Job, depth: Option<nat>, now: Nodes, rel: Path) {
    depth.None? ==> job.Finite() && (At(job.before, job.from, rel).Some? || InFinished(job, now, rel))
  }

  ghost predicate InFinished(job: Job, now: Nodes, rel: Path) {
    var at := At(now, job.from, rel);
    at.Some? && at.value !in job.before && Beside(at.value, job.to + rel)
  }

  /** And so does the directory that it leads to. */
  ghost predicate GoingOn(job: Job, depth: Option<nat>, now: Nodes, rel: Path) {
    && MayStart(job, depth, now, rel)
    && (depth.None? ==>
          var place := Walk(now, job.from, rel);
          && place.Some? && Entry(now, job.from, rel)
          && (Walk(job.before, job.from, rel) == place
              || (place.value !in job.before && Beside(place.value, job.to + rel))))
  }

  /** A run goes down the source first, and then at most once into the target. */
  ghost function Phase(job: Job, depth: Option<nat>, rel: Path): nat {
    if depth.None? && At(job.before, job.from, rel).Some? then 1 else 0
  }

  /** The levels left; in the source, those that walks can have; in the target, what there is to copy. */
  ghost function Size(job: Job, now: Nodes, depth: Option<nat>, rel: Path): nat {
    match depth
    case Some(n) => n
    case None =>
      if At(job.before, job.from, rel).Some? then
        if |rel| <= |job.before| then |job.before| - |rel| else 0
      else
        match At(now, job.from, rel)
        case Some(p) => |Under(now, p)|
        case None => 0
  }

  /** What lies beside the copy of `rel` is not touched while that is made. */
  lemma BesideStays(start: Nodes, now: Nodes, p: Path, q: Path)
    requires OnlyAddedUnder(start, now, q) && Beside(p, q)
    ensures Under(now, p) == Under(start, p)
  {
    forall r | r in now && p <= r && q <= r ensures false { Comparable(p, q, r); }
  }

  lemma Comparable(p: Path, q: Path, r: Path)
    requires p <= r && q <= r
    ensures p <= q || q <= p
  {
    if |p| <= |q| { assert p == q[..|p|]; } else { assert q == p[..|q|]; }
  }

  lemma KeepsGoing(job: Job, depth: Option<nat>, start: Nodes, now: Nodes, rel: Path)
    requires OnlyAddedUnder(start, now, job.to + rel)
    requires GoingOn(job, depth, start, rel) && Listable(start, job.from, rel)
    ensures GoingOn(job, depth, now, rel) && Size(job, now, depth, rel) == Size(job, start, depth, rel)
    ensures Listable(now, job.from, rel)
  {
    WalkStays(start, now, job.from, rel);
    if depth.None? && At(job.before, job.from, rel).None? {
      BesideStays(start, now, At(start, job.from, rel).value, job.to + rel);
    }
  }

  /** A call that could start and has made its target directory may list: what it lists is not being made. */
  lemma MayGoOn(job: Job, depth: Option<nat>, start: Nodes, now: Nodes, rel: Path)
    requires OnTheWay(job, start) && OnTheWay(job, now) && Clean(rel) && MayStart(job, depth, start, rel)
    requires Begun(job, start, now, rel) && Walk(start, job.from, rel).Some?
    requires Walk(now, job.from, rel) == Walk(start, job.from, rel)
    ensures GoingOn(job, depth, now, rel) && Size(job, now, depth, rel) == Size(job, start, depth, rel)
  {
    if depth.None? {
      WalkStays(start, now, job.from, rel);
      WalkFollows(start, job.from, rel);
      if At(job.before, job.from, rel).Some? {
        LedBeside(job, start, rel);
      } else {
        BesideStays(start, now, At(start, job.from, rel).value, job.to + rel);
      }
    }
  }

  /** An entry of the source leads to a place of the source or to a finished part of the target. */
  lemma LedBeside(job: Job, start: Nodes, rel: Path)
    requires OnTheWay(job, start) && Clean(rel) && job.Finite() && At(job.before, job.from, rel).Some?
    requires job.to + rel !in start && Walk(start, job.from, rel).Some?
    ensures var place := Walk(start, job.from, rel);
      Walk(job.before, job.from, rel) == place || (place.value !in job.before && Beside(place.value, job.to + rel))
  {
    var place := Walk(start, job.from, rel).value;
    WalkStays(job.before, start, job.from, rel);
    WalkFollows(start, job.from, rel);
    WalkFollows(job.before, job.from, rel);
    if place in job.before {
      OldWay(job.before, start, At(start, job.from, rel).value, {});
    } else {
      var head := place[|job.to|..];
      assert place == job.to + head;
      Fresh(start, job.to + rel, place);
      if place <= job.to + rel {
        assert head <= rel && head != rel;
        UnfinishedIsRunInto(job.before, start, job.from, job.to, rel, head);
      }
    }
  }

  lemma StillBegun(job: Job, start: Nodes, made: Nodes, now: Nodes, rel: Path)
    requires Begun(job, start, made, rel) && OnTheWay(job, now) && OnlyAddedUnder(made, now, job.to + rel)
    ensures Begun(job, start, now, rel)
  {
  }

  lemma ChildMayStart(job: Job, depth: Option<nat>, now: Nodes, rel: Path, name: string)
    requires OnTheWay(job, now) && GoingOn(job, depth, now, rel) && Listable(now, job.from, rel) && depth != Some(0)
    ensures MayStart(job, Less(depth), now, rel + Component(TrimEnd(name)))
  {
    var c := TrimEnd(name);
    assert rel + [] == rel;
    if depth.None? && Component(c) != [] {
      Step(now, job.from, rel, c);
      Step(job.before, job.from, rel, c);
      var place := Walk(now, job.from, rel).value;
      if Walk(job.before, job.from, rel) != Some(place) {
        BesideBelow(place, job.to + rel, c);
        NewBelow(job, place, c);
        assert job.to + (rel + [c]) == job.to + rel + [c];
      }
    }
  }

  lemma BesideBelow(p: Path, q: Path, name: string)
    requires Beside(p, q)
    ensures Beside(p + [name], q + [name])
  {
    assert (p + [name])[..|p|] == p && (q + [name])[..|q|] == q;
  }

  lemma NewBelow(job: Job, p: Path, name: string)
    requires WellFormed(job.before) && p !in job.before
    ensures p + [name] !in job.before
  {
    assert Parent(p + [name]) == p;
    assert p + [name] in job.before ==> Placed(job.before, p + [name]);
  }

  lemma ChildSmaller(job: Job, depth: Option<nat>, now: Nodes, rel: Path, name: string)
    requires OnTheWay(job, now) && GoingOn(job, depth, now, rel) && Listable(now, job.from, rel) && Clean(rel)
    requires depth != Some(0) && job.to + rel in now
    ensures var next := rel + Component(TrimEnd(name));
      || Phase(job, Less(depth), next) < Phase(job, depth, rel)
      || (Phase(job, Less(depth), next) == Phase(job, depth, rel)
          && (Size(job, now, Less(depth), next) < Size(job, now, depth, rel)
              || (Size(job, now, Less(depth), next) == Size(job, now, depth, rel) && job.to + next in now)))
  {
    var c := TrimEnd(name);
    assert rel + [] == rel;
    if depth.None? && Component(c) != [] {
      Step(now, job.from, rel, c);
      Step(job.before, job.from, rel, c);
      WalkFollows(now, job.from, rel);
      WalkFollows(job.before, job.from, rel);
      if At(job.before, job.from, rel).Some? {
        if Walk(job.before, job.from, rel).Some? { WalksAreShort(job.before, job.from, rel); }
      } else {
        UnderShrinks(now, At(now, job.from, rel).value, c);
      }
    }
  }

  lemma NodeMade(nodes: Nodes, p: Path, node: Node, m: Mode)
    requires WellFormed(nodes) && p !in nodes && Placed(nodes, p) && !node.Link?
    ensures WellFormed(nodes[p := node.(mode := m)]) && Made(nodes, nodes[p := node.(mode := m)], p, node)
  {
    PlacedStays(nodes, p, node.(mode := m));
  }

  /** A path leads to the node that was made where it ends. */
  lemma LeadsTo(start: Nodes, now: Nodes, names: Path, p: Path)
    requires At(start, [], names) == Some(p) && Grown(start, now) && p in now && !now[p].Link?
    ensures Walk(now, [], names) == Some(p)
  {
    WalkStays(start, now, [], names);
    WalkFollows(now, [], names);
  }

  /** Where a path of the caller's ends. */
  function PlaceOf(nodes: Nodes, reading: Reading, path: string): Option<Path>
    requires reading(RemotePath(path)).Some?
  {
    At(nodes, [], reading(RemotePath(path)).value)
  }

  /** For a server that reads names between slashes: the place of a home spelling is the login directory. */
  lemma HomeIsItsPlace(nodes: Nodes, home: Path, path: string)
    requires SpellsHome(path)
    ensures PlainReading(home)(RemotePath(path)).Some?
    ensures PlaceOf(nodes, PlainReading(home), path) == At(nodes, [], home)
  {
    HomeLeadsHome(home, path);
  }

  /** And the place of a settled path is where its names lead. */
  lemma SettledPlace(nodes: Nodes, home: Path, path: string)
    requires Settled(path)
    ensures PlainReading(home)(RemotePath(path)).Some?
    ensures PlaceOf(nodes, PlainReading(home), path) == At(nodes, [], Locate(home, path))
  {
    NormalIff(path);
  }

  /** Nothing but a failing call stands in the way of a copy. */
  ghost predicate Unhindered(nodes: Nodes, from: Path, to: Path) {
    Apart(nodes, from, to) && Free(nodes, to) && NoDangling(nodes, from) && CleanTree(nodes, from)
  }

  /** What a success says about the tree there was and the tree there is. */
  ghost predicate Finished(before: Nodes, now: Nodes, from: Path, to: Path, modes: bool) {
    && to !in before
    && (Apart(before, from, to) ==> Copied(before, now, from, to, modes) && CleanTree(before, from))
    && (Outside(before, from, to) ==> (Copied(before, now, from, to, modes) <==> NoDangling(before, from)))
  }

  lemma WhatSuccessMeans(job: Job, now: Nodes, modes: bool)
    requires job.Valid() && job.to !in job.before
    requires Apart(job.before, job.from, job.to) ==> Copied(job.before, now, job.from, job.to, modes)
    ensures Finished(job.before, now, job.from, job.to, modes)
  {
    if Outside(job.before, job.from, job.to) && NoDangling(job.before, job.from) {
      ApartIfNoDangling(job.before, job.from, job.to);
    }
    if Copied(job.before, now, job.from, job.to, modes) { CopiedMeansClean(job.before, now, job.from, job.to, modes); }
  }

  lemma CopiedMeansClean(before: Nodes, now: Nodes, from: Path, to: Path, modes: bool)
    requires Copied(before, now, from, to, modes)
    ensures CleanTree(before, from) && NoDangling(before, from)
  {
    forall rel: Path | Entry(before, from, rel) ensures Clean(rel) && Walk(before, from, rel).Some? {
      assert CopiedAt(before, now, from, to, rel, modes);
    }
  }

  lemma {:induction false} HopsInside(nodes: Nodes, p: Path, seen: set<Path>)
    requires Follow(nodes, p, seen).Some?
    ensures Hops(nodes, p, seen) <= nodes.Keys
    decreases nodes.Keys - seen
  {
    if nodes[p].Link? { HopsInside(nodes, nodes[p].target, seen + {p}); }
  }

  /** Only a link that leads nowhere yet can lead into a target that is not there yet. */
  lemma ApartIfNoDangling(nodes: Nodes, from: Path, to: Path)
    requires WellFormed(nodes) && to !in nodes && Outside(nodes, from, to) && NoDangling(nodes, from)
    ensures Apart(nodes, from, to)
  {
    forall rel: Path | Clean(rel) ensures NoLinkAt(nodes, from, to, rel) {
      var at := At(nodes, from, rel);
      if at.Some? && at.value in nodes {
        assert Entry(nodes, from, rel);
        WalkFollows(nodes, from, rel);
        HopsInside(nodes, at.value, {});
        forall h | h in Hops(nodes, at.value, {}) ensures !(to <= h) { Fresh(nodes, to, h); }
      }
    }
  }

  /** What the path sent for `rel` leads to. */
  lemma SourceFound(job: Job, now: Nodes, rel: Path)
    requires OnTheWay(job, now)
    ensures Walk(now, [], job.source + rel) == Walk(now, job.from, rel)
  {
    WalkStays(job.before, now, [], job.source);
    Rebase(now, [], job.source, rel);
  }

  /** Where the copy of `rel` is to be made. */
  lemma TargetAt(job: Job, now: Nodes, rel: Path)
    requires OnTheWay(job, now) && Ready(job, now, rel)
    ensures At(now, [], job.target + rel) == Some(job.to + rel)
  {
    WalkStays(job.before, now, [], job.target);
    Rebase(now, [], job.target, rel);
    if rel == [] {
      assert job.to + rel == job.to;
    } else {
      PlainDown(now, job.to, Parent(rel));
      assert job.to + Parent(rel) + [Last(rel)] == job.to + rel;
    }
  }

  /** And what it leads to once it is made. */
  lemma TargetWalk(job: Job, now: Nodes, rel: Path)
    requires OnTheWay(job, now) && job.to + rel in now && !now[job.to + rel].Link?
    ensures Walk(now, [], job.target + rel) == Some(job.to + rel)
  {
    WalkStays(job.before, now, [], job.target);
    Rebase(now, [], job.target, rel);
    PlainDown(now, job.to, rel);
  }

  /** A step that only adds under the copy of `rel` stays on the way. */
  lemma Grew(job: Job, start: Nodes, now: Nodes, rel: Path)
    requires OnTheWay(job, start) && WellFormed(now) && Ready(job, start, rel)
    requires now == start || (job.to + rel !in start && OnlyAddedUnder(start, now, job.to + rel))
    requires NoNewLinks(start, now)
    ensures OnTheWay(job, now) && OnlyAddedUnder(start, now, job.to + rel)
  {
    assert job.to <= job.to + rel;
    assert rel == [] ==> job.to + rel == job.to;
  }

  /** An entry of a directory that does not contain the target is not in the target's tree. */
  lemma EntryFree(before: Nodes, to: Path, d: Path, name: string)
    requires WellFormed(before) && to !in before && d in before && !(d <= to)
    ensures !(to <= d + [name])
  {
    Fresh(before, to, d);
  }

  lemma FollowSame(before: Nodes, now: Nodes, to: Path, q: Path)
    requires OnlyAddedUnder(before, now, to) && !(to <= q)
    requires q in before && before[q].Link? ==> forall h | h in Hops(before, q, {}) :: !(to <= h)
    ensures Follow(now, q, {}) == Follow(before, q, {})
  {
    if q in before && before[q].Link? { FollowFrame(before, now, to, q, {}); }
  }

  /** Where the paths of the source lead does not change while the target is filled. */
  lemma {:induction false} WalkFrame(before: Nodes, now: Nodes, from: Path, to: Path, rel: Path)
    requires WellFormed(before) && OnlyAddedUnder(before, now, to) && Apart(before, from, to)
    requires to !in before && from in before && Clean(rel)
    ensures Walk(now, from, rel) == Walk(before, from, rel) && At(now, from, rel) == At(before, from, rel)
    decreases |rel|
  {
    assert NoLinkAt(before, from, to, rel);
    if rel == [] {
      Fresh(before, to, from);
      FollowSame(before, now, to, from);
    } else {
      WalkFrame(before, now, from, to, Parent(rel));
      assert OutsideAt(before, from, to, Parent(rel));
      var d := Walk(before, from, Parent(rel));
      if d.Some? && before[d.value].Dir? {
        EntryFree(before, to, d.value, Last(rel));
        FollowSame(before, now, to, d.value + [Last(rel)]);
      }
    }
  }

  /** A source that keeps clear of the target never runs into it. */
  lemma ApartNeverRunsInto(nodes: Nodes, from: Path, to: Path)
    requires WellFormed(nodes) && Free(nodes, to) && from in nodes && Apart(nodes, from, to)
    ensures NeverRunsInto(nodes, from, to)
  {
    forall states, p: Path, head: Path | RunsInto(states, from, to, p, head) ensures states[0] != nodes {
      if states[0] == nodes { NotInto(states, from, to, p, head); }
    }
  }

  lemma NotInto(states: seq<Nodes>, from: Path, to: Path, p: Path, head: Path)
    requires states != [] && WellFormed(states[0]) && Free(states[0], to) && from in states[0]
    requires Apart(states[0], from, to)
    ensures !RunsInto(states, from, to, p, head)
  {
    if RunsInto(states, from, to, p, head) {
      DescentMakes(states, from, to, p, |p|);
      AlongIsUnder(states[0], states[|p|], to, p);
      WalkFrame(states[0], states[|p|], from, to, p);
      Fresh(states[0], to, to + head);
      assert false;
    }
  }

  lemma SourceStays(job: Job, now: Nodes, rel: Path)
    requires OnTheWay(job, now) && Apart(job.before, job.from, job.to) && Clean(rel)
    ensures Walk(now, job.from, rel) == Walk(job.before, job.from, rel)
    ensures Walk(now, job.from, rel).Some? ==>
      var p := Walk(now, job.from, rel).value; p in job.before && now[p] == job.before[p]
  {
    if job.to !in job.before { WalkFrame(job.before, now, job.from, job.to, rel); }
  }

  lemma FileCopied(before: Nodes, now: Nodes, from: Path, to: Path, rel: Path, modes: bool)
    requires WellFormed(now) && to + rel in now && now[to + rel].File? && Walk(before, from, rel).Some? && Clean(rel)
    requires Same(before[Walk(before, from, rel).value], now[to + rel], modes)
    ensures CopiedBelow(before, now, from, to, rel, modes)
  {
    WalkFollows(before, from, rel);
    forall q: Path | rel <= q ensures CopiedAt(before, now, from, to, q, modes) {
      if q != rel {
        var ext := q[|rel|..];
        assert q == rel + ext;
        if At(before, from, q).Some? { DirAbove(before, from, rel, ext); }
        if to + q in now {
          assert to + rel < to + q;
          FirstStep(now, to + rel, to + q);
        }
      }
    }
  }

  /** The path leads to a directory. */
  predicate Listable(nodes: Nodes, from: Path, rel: Path) {
    Walk(nodes, from, rel).Some? && nodes[Walk(nodes, from, rel).value].Dir?
  }

  /** A directory with nothing in it. */
  ghost predicate Bare(nodes: Nodes, p: Path) {
    p in nodes && nodes[p].Dir? && forall q | q in nodes :: !(p < q)
  }

  predicate IsDots(name: string) {
    name == "." || name == ".."
  }

  /** Each name handled so far was sent, without the white space at its end, for a node of its own. */
  ghost predicate SentOnce(now: Nodes, p: Path, done: set<string>) {
    && (forall n | n in done && !IsDots(n) :: IsName(TrimEnd(n)) && p + [TrimEnd(n)] in now)
    && (forall m, n | m in done && n in done && !IsDots(m) && !IsDots(n) && TrimEnd(m) == TrimEnd(n) :: m == n)
  }

  /** Nothing lies below but what was sent for them. */
  ghost predicate OnlySent(now: Nodes, p: Path, done: set<string>) {
    forall q | q in now && p < q :: exists n | n in done && !IsDots(n) :: q[|p|] == TrimEnd(n)
  }

  /** The directory for the copy is there and the name is one, so it can be made. */
  ghost predicate CanBeMade(job: Job, now: Nodes, rel: Path) {
    job.to + rel != [] && job.to + rel !in now && Placed(now, job.to + rel)
  }

  /** When nothing stands in the way, what is stat'ed is found and its copy can be made. */
  lemma WillBeFound(job: Job, now: Nodes, rel: Path)
    requires OnTheWay(job, now) && Ready(job, now, rel) && Clean(rel) && job.Copyable()
    requires Entry(job.before, job.from, rel)
    ensures Walk(now, job.from, rel).Some?
    ensures job.to + rel !in now ==> CanBeMade(job, now, rel)
  {
    SourceStays(job, now, rel);
    var to := job.to;
    if rel == [] {
      assert to + rel == to && Placed(job.before, to);
    } else {
      var p := At(job.before, job.from, rel).value;
      assert Placed(job.before, p) && Last(p) == Last(rel);
      assert Parent(to + rel) == to + Parent(rel) && Last(to + rel) == Last(rel);
    }
  }

  /** An entry that has not been handled yet has not been made yet. */
  lemma NotMadeYet(job: Job, now: Nodes, rel: Path, listed: set<string>, done: set<string>, name: string)
    requires OnlySent(now, job.to + rel, done) && done <= listed + {".", ".."} && name in listed && name !in done
    requires job.Valid() && job.Copyable() && Listable(job.before, job.from, rel)
    requires listed == Entries(job.before, Walk(job.before, job.from, rel).value)
    ensures rel + Component(TrimEnd(name)) == rel + [name] && Entry(job.before, job.from, rel + [name])
    ensures job.to + (rel + [name]) !in now
  {
    ListedIsEntry(job, rel, listed, name);
    SentWhole(name);
    assert job.to + (rel + [name]) == job.to + rel + [name];
    forall n | n in done && !IsDots(n) ensures TrimEnd(n) != name {
      ListedIsEntry(job, rel, listed, n);
      SentWhole(n);
    }
    NotSentNotThere(now, job.to + rel, done, name);
  }

  lemma NotSentNotThere(now: Nodes, p: Path, done: set<string>, name: string)
    requires OnlySent(now, p, done) && forall n | n in done && !IsDots(n) :: TrimEnd(n) != name
    ensures p + [name] !in now
  {
    assert p < p + [name] && (p + [name])[|p|] == name;
  }

  lemma SentWhole(name: string)
    requires IsName(name) && CleanName(name)
    ensures TrimEnd(name) == name && Component(name) == [name]
  {
    EndKept(name);
  }

  lemma ListedIsEntry(job: Job, rel: Path, listed: set<string>, name: string)
    requires job.Valid() && job.Copyable() && Listable(job.before, job.from, rel) && name in listed
    requires listed == Entries(job.before, Walk(job.before, job.from, rel).value)
    ensures IsName(name) && CleanName(name) && Entry(job.before, job.from, rel + [name])
  {
    EntryOfListing(job.before, job.from, rel, name);
    NameIsClean(job.before, job.from, rel, name);
  }

  lemma EntryOfListing(before: Nodes, from: Path, rel: Path, name: string)
    requires WellFormed(before) && Listable(before, from, rel) && name in Entries(before, Walk(before, from, rel).value)
    ensures IsName(name) && Entry(before, from, rel + [name])
  {
    var place := Walk(before, from, rel).value;
    Step(before, from, rel, name);
    EntryIn(before, place, name);
    assert Placed(before, place + [name]) && Last(place + [name]) == name;
  }

  lemma NameIsClean(before: Nodes, from: Path, rel: Path, name: string)
    requires CleanTree(before, from) && Entry(before, from, rel + [name])
    ensures CleanName(name)
  {
    assert Clean(rel + [name]) && (rel + [name])[|rel|] == name;
  }

  /** Nothing but listed entries lies below `target`. */
  ghost predicate OnlyListed(now: Nodes, target: Path, listed: set<string>) {
    forall q | q in now && target < q :: q[|target|] in listed && IsName(q[|target|])
  }

  /** The names handled so far have been copied, and nothing else is there. */
  ghost predicate Progress(job: Job, now: Nodes, rel: Path, listed: set<string>, done: set<string>, modes: bool) {
    && Listable(job.before, job.from, rel) && listed == Entries(job.before, Walk(job.before, job.from, rel).value)
    && OnlyListed(now, job.to + rel, listed)
    && forall n | n in done && !IsDots(n) :: CopiedBelow(job.before, now, job.from, job.to, rel + [TrimEnd(n)], modes)
  }

  /** The loop over a listing: where it started, what it has handled. */
  ghost predicate Filling(job: Job, start: Nodes, now: Nodes, rel: Path, listed: set<string>, done: set<string>,
                          modes: bool) {
    && OnTheWay(job, now) && OnlyAddedUnder(start, now, job.to + rel)
    && job.to + rel in now && now[job.to + rel].Dir? && SentOnce(now, job.to + rel, done)
    && OnlySent(now, job.to + rel, done)
    && (Apart(job.before, job.from, job.to) ==> Progress(job, now, rel, listed, done, modes))
  }

  lemma StartFilling(job: Job, now: Nodes, rel: Path, listed: set<string>, modes: bool)
    requires OnTheWay(job, now) && Clean(rel) && job.to !in job.before && Listable(now, job.from, rel)
    requires Bare(now, job.to + rel) && listed == Entries(now, Walk(now, job.from, rel).value)
    ensures Filling(job, now, now, rel, listed, {}, modes)
  {
    if Apart(job.before, job.from, job.to) { ListedAsBefore(job, now, rel); }
  }

  lemma SkipDots(job: Job, start: Nodes, now: Nodes, rel: Path, listed: set<string>, done: set<string>, name: string,
                 modes: bool)
    requires Filling(job, start, now, rel, listed, done, modes) && IsDots(name)
    ensures Filling(job, start, now, rel, listed, done + {name}, modes)
  {
    forall n | n in done + {name} && !IsDots(n) ensures n in done {}
  }

  /** The copy of `rel` was made after `start`, and nothing changed outside it since. */
  ghost predicate Begun(job: Job, start: Nodes, now: Nodes, rel: Path) {
    && OnTheWay(job, start) && Ready(job, start, rel) && job.to + rel !in start
    && OnlyAddedUnder(start, now, job.to + rel) && NoNewLinks(start, now) && IsDir(now, job.to + rel)
  }

  lemma DirMade(job: Job, start: Nodes, now: Nodes, rel: Path)
    requires OnTheWay(job, start) && Ready(job, start, rel) && WellFormed(now) && Made(start, now, job.to + rel, Dir(0))
    ensures OnTheWay(job, now) && OnlyAddedUnder(start, now, job.to + rel)
    ensures job.to !in job.before && Bare(now, job.to + rel)
  {
    Grew(job, start, now, rel);
    assert rel == [] ==> job.to + rel == job.to;
    NothingBelow(start, now, job.to + rel);
  }

  lemma ModeSet(job: Job, start: Nodes, filled: Nodes, now: Nodes, rel: Path)
    requires OnTheWay(job, filled) && Begun(job, start, filled, rel)
    requires WellFormed(now) && job.to + rel in now && now[job.to + rel].Dir?
    requires now == filled[job.to + rel := now[job.to + rel]]
    ensures OnTheWay(job, now) && Begun(job, start, now, rel)
  {
    Grew(job, start, now, rel);
  }

  lemma ChildFilled(job: Job, start: Nodes, mid: Nodes, now: Nodes, rel: Path, name: string,
                    listed: set<string>, done: set<string>, modes: bool)
    requires Filling(job, start, mid, rel, listed, done, modes) && OnTheWay(job, now) && name !in done && !IsDots(name)
    requires var next := rel + Component(TrimEnd(name));
      && job.to + next !in mid && job.to + next in now && OnlyAddedUnder(mid, now, job.to + next)
      && (Apart(job.before, job.from, job.to) ==> CopiedBelow(job.before, now, job.from, job.to, next, modes))
    ensures Filling(job, start, now, rel, listed, done + {name}, modes)
  {
    ChildMade(start, mid, now, job.to, rel, name, done);
    if Apart(job.before, job.from, job.to) { ChildCopied(job, mid, now, rel, name, listed, done, modes); }
  }

  /** How deep a call is when it is cut. */
  lemma ChildLevel(job: Job, start: Nodes, mid: Nodes, rel: Path, name: string,
                   listed: set<string>, done: set<string>, depth: nat, modes: bool)
    requires Filling(job, start, mid, rel, listed, done, modes) && Clean(rel) && depth > 0
    requires var next := rel + Component(TrimEnd(name));
      && (depth == 1 || job.to + next !in mid)
      && (job.Bounded() && |next| <= |job.before| ==>
            depth - 1 + |next| <= |job.before|)
    ensures job.Bounded() ==> depth + |rel| <= |job.before|
  {
    if job.Bounded() {
      WalksAreShort(job.before, job.from, rel);
      assert rel + [] == rel;
    }
  }

  /** Every entry of the directory has been copied, and nothing else is there. */
  ghost predicate EntriesCopied(before: Nodes, now: Nodes, from: Path, to: Path, rel: Path, modes: bool) {
    && Listable(before, from, rel)
    && var listed := Entries(before, Walk(before, from, rel).value);
      && OnlyListed(now, to + rel, listed)
      && forall n | n in listed :: CopiedBelow(before, now, from, to, rel + [n], modes)
  }

  lemma NothingBelow(start: Nodes, now: Nodes, p: Path)
    requires WellFormed(start) && p !in start && p in now && now[p].Dir? && now == start[p := now[p]]
    ensures Bare(now, p)
  {
    forall q | q in now ensures !(p < q) {
      if q in start { Fresh(start, p, q); }
    }
  }

  /** What a server lists are names. */
  lemma NamesListed(nodes: Nodes, from: Path, rel: Path)
    requires WellFormed(nodes) && Listable(nodes, from, rel)
    ensures forall n | n in Entries(nodes, Walk(nodes, from, rel).value) :: IsName(n)
  {
    var place := Walk(nodes, from, rel).value;
    forall n | n in Entries(nodes, place) ensures IsName(n) {
      EntryIn(nodes, place, n);
      assert Placed(nodes, place + [n]);
    }
  }

  lemma ListedAsBefore(job: Job, now: Nodes, rel: Path)
    requires OnTheWay(job, now) && Apart(job.before, job.from, job.to) && job.to !in job.before && Clean(rel)
    requires Listable(now, job.from, rel)
    ensures Listable(job.before, job.from, rel)
    ensures Entries(now, Walk(now, job.from, rel).value) == Entries(job.before, Walk(job.before, job.from, rel).value)
  {
    SourceStays(job, now, rel);
    var place := Walk(job.before, job.from, rel).value;
    assert OutsideAt(job.before, job.from, job.to, rel);
    forall n ensures n in Entries(now, place) <==> n in Entries(job.before, place) {
      EntryIn(job.before, place, n);
      EntryIn(now, place, n);
      EntryFree(job.before, job.to, place, n);
    }
  }

  /** The directory for the next entry is there, and the name is sent without white space at its end. */
  lemma ChildReady(job: Job, now: Nodes, rel: Path, name: string)
    requires OnTheWay(job, now) && job.to !in job.before && Clean(rel)
    requires job.to + rel in now && now[job.to + rel].Dir?
    ensures var next := rel + Component(TrimEnd(name)); Ready(job, now, next) && Clean(next)
  {
    var c := TrimEnd(name);
    if Component(c) == [] {
      assert rel + Component(c) == rel;
      if rel != [] {
        assert Placed(now, job.to + rel) && Parent(job.to + rel) == job.to + Parent(rel);
      }
    } else {
      assert Parent(rel + [c]) == rel;
    }
  }

  lemma Within(start: Nodes, mid: Nodes, now: Nodes, p: Path, q: Path)
    requires OnlyAddedUnder(start, mid, p) && OnlyAddedUnder(mid, now, q) && p <= q
    ensures OnlyAddedUnder(start, now, p)
  {
  }

  lemma ChildWithin(job: Job, start: Nodes, mid: Nodes, now: Nodes, rel: Path, name: string)
    requires OnlyAddedUnder(start, mid, job.to + rel)
    requires OnlyAddedUnder(mid, now, job.to + (rel + Component(TrimEnd(name))))
    ensures OnlyAddedUnder(start, now, job.to + rel)
  {
    Within(start, mid, now, job.to + rel, job.to + (rel + Component(TrimEnd(name))));
  }

  /** A call that succeeded made a node that no earlier call had made. */
  lemma ChildMade(start: Nodes, mid: Nodes, now: Nodes, to: Path, rel: Path, name: string, done: set<string>)
    requires WellFormed(now) && OnlyAddedUnder(start, mid, to + rel) && to + rel in mid
    requires SentOnce(mid, to + rel, done) && name !in done
    requires var next := to + (rel + Component(TrimEnd(name)));
      next !in mid && next in now && OnlyAddedUnder(mid, now, next)
    ensures Component(TrimEnd(name)) == [TrimEnd(name)] && OnlyAddedUnder(start, now, to + rel)
    ensures SentOnce(now, to + rel, done + {name})
  {
    var c, p := TrimEnd(name), to + rel;
    assert rel + [] == rel;
    assert to + (rel + [c]) == p + [c];
    assert Placed(now, p + [c]);
    Within(start, mid, now, p, p + [c]);
  }

  lemma ChildCopied(job: Job, mid: Nodes, now: Nodes, rel: Path, name: string, listed: set<string>,
                    done: set<string>, modes: bool)
    requires WellFormed(now) && Progress(job, mid, rel, listed, done, modes)
    requires SentOnce(now, job.to + rel, done + {name}) && name !in done && !IsDots(name)
    requires Component(TrimEnd(name)) == [TrimEnd(name)]
    requires OnlyAddedUnder(mid, now, job.to + (rel + [TrimEnd(name)]))
    requires CopiedBelow(job.before, now, job.from, job.to, rel + [TrimEnd(name)], modes)
    ensures Progress(job, now, rel, listed, done + {name}, modes)
  {
    var c, p := TrimEnd(name), job.to + rel;
    assert job.to + (rel + [c]) == p + [c];
    SentIsListed(job, now, rel, c, modes);
    forall q | q in now && p < q ensures q[|p|] in listed && IsName(q[|p|]) {
      if q !in mid { assert p + [c] <= q && q[|p|] == c; }
    }
    forall n | n in done && !IsDots(n)
      ensures CopiedBelow(job.before, now, job.from, job.to, rel + [TrimEnd(n)], modes)
    {
      assert n in done + {name};
      OtherKept(job, mid, now, rel, TrimEnd(n), c, modes);
    }
  }

  lemma SentIsListed(job: Job, now: Nodes, rel: Path, c: string, modes: bool)
    requires Listable(job.before, job.from, rel) && job.to + (rel + [c]) in now
    requires CopiedBelow(job.before, now, job.from, job.to, rel + [c], modes)
    ensures c in Entries(job.before, Walk(job.before, job.from, rel).value)
  {
    assert CopiedAt(job.before, now, job.from, job.to, rel + [c], modes);
    Step(job.before, job.from, rel, c);
    EntryIn(job.before, Walk(job.before, job.from, rel).value, c);
  }

  lemma OtherKept(job: Job, mid: Nodes, now: Nodes, rel: Path, other: string, c: string, modes: bool)
    requires other != c && OnlyAddedUnder(mid, now, job.to + (rel + [c]))
    requires CopiedBelow(job.before, mid, job.from, job.to, rel + [other], modes)
    ensures CopiedBelow(job.before, now, job.from, job.to, rel + [other], modes)
  {
    var p := job.to + rel;
    forall q: Path | rel + [other] <= q ensures CopiedAt(job.before, now, job.from, job.to, q, modes) {
      assert CopiedAt(job.before, mid, job.from, job.to, q, modes);
      assert q[|rel|] == other && (job.to + q)[|p|] == other && (job.to + (rel + [c]))[|p|] == c;
    }
  }

  /**
   * A directory was listed and every call succeeded: no name ends in white space. Sent without it, such
   * a name would have been sent twice, or would lead nowhere.
   */
  lemma AllDone(job: Job, start: Nodes, now: Nodes, rel: Path, listed: set<string>, done: set<string>, modes: bool)
    requires Filling(job, start, now, rel, listed, done, modes)
    requires listed + {".", ".."} == {} + done && forall n | n in listed :: IsName(n)
    ensures Apart(job.before, job.from, job.to) ==> EntriesCopied(job.before, now, job.from, job.to, rel, modes)
  {
    if Apart(job.before, job.from, job.to) { NamesAreClean(job, now, rel, listed, done, modes); }
  }

  lemma NamesAreClean(job: Job, now: Nodes, rel: Path, listed: set<string>, done: set<string>, modes: bool)
    requires Progress(job, now, rel, listed, done, modes) && SentOnce(now, job.to + rel, done)
    requires done == listed + {".", ".."} && forall n | n in listed :: IsName(n)
    ensures EntriesCopied(job.before, now, job.from, job.to, rel, modes)
    ensures forall n | n in listed :: CleanName(n)
  {
    forall n | n in listed
      ensures CleanName(n) && CopiedBelow(job.before, now, job.from, job.to, rel + [n], modes)
    {
      var c := TrimEnd(n);
      assert n in done && !IsDots(n);
      assert job.to + (rel + [c]) == job.to + rel + [c];
      SentIsListed(job, now, rel, c, modes);
      assert c in done && TrimEnd(c) == c;
    }
  }

  lemma DirCopied(before: Nodes, filled: Nodes, now: Nodes, from: Path, to: Path, rel: Path, modes: bool)
    requires WellFormed(before) && EntriesCopied(before, filled, from, to, rel, modes) && Clean(rel)
    requires to + rel in filled && to + rel in now && now == filled[to + rel := now[to + rel]]
    requires Same(before[Walk(before, from, rel).value], now[to + rel], modes)
    ensures CopiedBelow(before, now, from, to, rel, modes)
  {
    WalkFollows(before, from, rel);
    forall q: Path | rel <= q ensures CopiedAt(before, now, from, to, q, modes) {
      if q != rel {
        EntryCopied(before, filled, from, to, rel, q, modes);
        assert to + q != to + rel;
      }
    }
  }

  lemma EntryCopied(before: Nodes, filled: Nodes, from: Path, to: Path, rel: Path, q: Path, modes: bool)
    requires rel < q && EntriesCopied(before, filled, from, to, rel, modes)
    ensures CopiedAt(before, filled, from, to, q, modes)
  {
    var name, ext, place := q[|rel|], q[|rel|..], Walk(before, from, rel).value;
    assert q == rel + ext && rel + [name] <= q;
    Step(before, from, rel, name);
    EntryIn(before, place, name);
    if name in Entries(before, place) {
      assert CopiedBelow(before, filled, from, to, rel + [name], modes);
    } else {
      if Entry(before, from, q) { DirAbove(before, from, rel, ext); }
      assert to + rel < to + q && (to + q)[|to + rel|] == name;
    }
  }
}
