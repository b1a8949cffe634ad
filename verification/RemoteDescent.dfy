/**
 * How deep a recursive copy goes. A call lists its directory after it has made the target directory, so
 * a copy can run into what it is making. Loops, and sources that lead into the target under
 * construction, take it down to every depth; in no other case does a run go on for ever, whatever it lists first.
 */
module RemoteDescent {
  import opened Basics
  import opened RemoteTree
  import opened RemoteNames
  import opened RemoteWalk

  /** A directory was made where nothing was. */
  predicate DirAdded(now: Nodes, later: Nodes, target: Path) {
    target !in now && Placed(now, target) && IsDir(later, target) && later == now[target := later[target]]
  }

  predicate IsDir(nodes: Nodes, p: Path) {
    p in nodes && nodes[p].Dir?
  }

  /**
   * The call for `above` leads to a directory, makes its target directory, lists, and goes on with `name`.
   * The tree is `now` when it begins and `later` when the next call begins.
   */
  predicate Down(now: Nodes, later: Nodes, from: Path, to: Path, above: Path, name: string) {
    var source := Walk(now, from, above);
    && source.Some? && IsDir(now, source.value) && DirAdded(now, later, to + above)
    && source.value + [name] in later && IsName(name) && CleanName(name)
  }

  /** One call and the next, as a relation between trees, the path of the call and the next name. */
  type Relation = (Nodes, Nodes, Path, string) -> bool

  function DownFrom(from: Path, to: Path): Relation {
    (now: Nodes, later: Nodes, above: Path, name: string) => Down(now, later, from, to, above, name)
  }

  ghost predicate Steps(step: Relation, states: seq<Nodes>, rel: Path) {
    |states| == |rel| + 1 && forall k | 0 <= k < |rel| :: step(states[k], states[k + 1], rel[..k], rel[k])
  }

  /** A run straight down `rel`: no call fails, and each listing begins with the next name. */
  ghost predicate Descent(states: seq<Nodes>, from: Path, to: Path, rel: Path) {
    Steps(DownFrom(from, to), states, rel)
  }

  ghost predicate Deep(nodes: Nodes, from: Path, to: Path, n: nat) {
    exists states, rel: Path :: |rel| == n && Descent(states, from, to, rel) && states[0] == nodes
  }

  /** There are runs of every depth. */
  ghost predicate Endless(nodes: Nodes, from: Path, to: Path) {
    forall n: nat :: Deep(nodes, from, to, n)
  }

  /** A place where a directory can be made. */
  predicate Free(nodes: Nodes, to: Path) {
    to != [] && to !in nodes && Placed(nodes, to)
  }

  predicate ProperNames(rel: Path) {
    Clean(rel) && forall i | 0 <= i < |rel| :: IsName(rel[i])
  }

  lemma Extend(step: Relation, states: seq<Nodes>, rel: Path, later: Nodes, name: string)
    requires Steps(step, states, rel) && step(states[|rel|], later, rel, name)
    ensures Steps(step, states + [later], rel + [name])
  {
    var more, path := states + [later], rel + [name];
    forall k | 0 <= k < |path| ensures step(more[k], more[k + 1], path[..k], path[k]) {
      assert path[..k] == rel[..k];
      if k == |rel| { assert rel[..k] == rel; }
    }
  }

  lemma Shorten(step: Relation, states: seq<Nodes>, rel: Path, n: nat)
    requires Steps(step, states, rel) && n <= |rel|
    ensures Steps(step, states[..n + 1], rel[..n])
  {
    var path := rel[..n];
    forall k | 0 <= k < n ensures step(states[..n + 1][k], states[..n + 1][k + 1], path[..k], path[k]) {
      assert path[..k] == rel[..k];
    }
  }

  /** What a descent has done: exactly the target directories along the way have been made. */
  ghost predicate MadeAlong(nodes: Nodes, now: Nodes, to: Path, rel: Path, k: nat)
    requires k <= |rel|
  {
    && Grown(nodes, now) && WellFormed(now)
    && (forall j | 0 <= j < k :: IsDir(now, to + rel[..j]))
    && (forall q | q in now && q !in nodes :: IsAlong(to, rel, k, q) && now[q].Dir?)
  }

  predicate IsAlong(to: Path, rel: Path, k: nat, q: Path)
    requires k <= |rel|
  {
    |to| <= |q| < |to| + k && q == to + rel[..|q| - |to|]
  }

  lemma StepIsDown(states: seq<Nodes>, from: Path, to: Path, rel: Path, k: nat)
    requires Descent(states, from, to, rel) && k < |rel|
    ensures Down(states[k], states[k + 1], from, to, rel[..k], rel[k])
  {
    assert DownFrom(from, to)(states[k], states[k + 1], rel[..k], rel[k]);
  }

  lemma {:induction false} DescentMakes(states: seq<Nodes>, from: Path, to: Path, rel: Path, k: nat)
    requires Descent(states, from, to, rel) && k <= |rel| && WellFormed(states[0])
    ensures MadeAlong(states[0], states[k], to, rel, k)
  {
    if k > 0 {
      DescentMakes(states, from, to, rel, k - 1);
      StepIsDown(states, from, to, rel, k - 1);
      OneMoreMade(states[0], states[k - 1], states[k], to, rel, k - 1);
    }
  }

  lemma OneMoreMade(nodes: Nodes, now: Nodes, later: Nodes, to: Path, rel: Path, k: nat)
    requires k < |rel| && MadeAlong(nodes, now, to, rel, k) && DirAdded(now, later, to + rel[..k])
    ensures MadeAlong(nodes, later, to, rel, k + 1)
  {
    var target := to + rel[..k];
    PlacedStays(now, target, later[target]);
    forall j | 0 <= j < k + 1 ensures IsDir(later, to + rel[..j]) {
      if j < k { assert IsDir(now, to + rel[..j]); }
    }
    forall q | q in later && q !in nodes ensures IsAlong(to, rel, k + 1, q) && later[q].Dir? {
      if q in now { assert IsAlong(to, rel, k, q); } else { assert q == target; }
    }
  }

  /** The next target directory can be made. */
  lemma CanMake(nodes: Nodes, now: Nodes, to: Path, rel: Path)
    requires WellFormed(nodes) && Free(nodes, to) && ProperNames(rel) && MadeAlong(nodes, now, to, rel, |rel|)
    ensures to + rel !in now && Placed(now, to + rel)
  {
    if to + rel in nodes { Fresh(nodes, to, to + rel); }
    if rel == [] {
      assert to + rel == to;
      assert Placed(nodes, to);
    } else {
      assert IsDir(now, to + rel[..|rel| - 1]);
      assert Parent(to + rel) == to + rel[..|rel| - 1] && Last(to + rel) == Last(rel);
    }
  }

  /** One call deeper, from the place the path leads to by way of a name that is listed there. */
  lemma OneDeeper(states: seq<Nodes>, from: Path, to: Path, rel: Path, place: Path, name: string)
    returns (later: Nodes)
    requires Descent(states, from, to, rel) && WellFormed(states[0]) && Free(states[0], to) && ProperNames(rel)
    requires Walk(states[|rel|], from, rel) == Some(place) && IsDir(states[|rel|], place)
    requires place + [name] in states[|rel|] || place + [name] == to + rel
    requires IsName(name) && CleanName(name)
    ensures Descent(states + [later], from, to, rel + [name])
    ensures DirAdded(states[|rel|], later, to + rel)
  {
    DescentMakes(states, from, to, rel, |rel|);
    later := MakeDown(states[0], states[|rel|], from, to, rel, place, name);
    Extend(DownFrom(from, to), states, rel, later, name);
  }

  lemma MakeDown(nodes: Nodes, now: Nodes, from: Path, to: Path, rel: Path, place: Path, name: string)
    returns (later: Nodes)
    requires WellFormed(nodes) && Free(nodes, to) && ProperNames(rel) && MadeAlong(nodes, now, to, rel, |rel|)
    requires Walk(now, from, rel) == Some(place) && IsDir(now, place)
    requires place + [name] in now || place + [name] == to + rel
    requires IsName(name) && CleanName(name)
    ensures DownFrom(from, to)(now, later, rel, name) && DirAdded(now, later, to + rel)
  {
    CanMake(nodes, now, to, rel);
    later := now[to + rel := Dir(0)];
  }

  /** Wherever the source tree goes down, a run goes down. */
  lemma {:induction false} WalkIsDescent(nodes: Nodes, from: Path, to: Path, rel: Path) returns (states: seq<Nodes>)
    requires WellFormed(nodes) && Free(nodes, to) && ProperNames(rel) && Walk(nodes, from, rel).Some?
    ensures Descent(states, from, to, rel) && states[0] == nodes
    decreases |rel|
  {
    if rel == [] {
      states := [nodes];
    } else {
      var above, name := Parent(rel), Last(rel);
      WalkFollows(nodes, from, rel);
      assert ProperNames(above);
      var earlier := WalkIsDescent(nodes, from, to, above);
      var place := Walk(nodes, from, above).value;
      DescentMakes(earlier, from, to, above, |above|);
      WalkStays(nodes, earlier[|above|], from, above);
      var later := OneDeeper(earlier, from, to, above, place, name);
      states := earlier + [later];
      assert above + [name] == rel;
    }
  }

  /** Names on a walk are names. */
  lemma {:induction false} WalkNames(nodes: Nodes, from: Path, rel: Path)
    requires WellFormed(nodes) && Walk(nodes, from, rel).Some?
    ensures forall i | 0 <= i < |rel| :: IsName(rel[i])
    decreases |rel|
  {
    if rel != [] {
      WalkNames(nodes, from, Parent(rel));
      WalkFollows(nodes, from, rel);
      var p := At(nodes, from, rel).value;
      assert Placed(nodes, p) && Last(p) == Last(rel);
      forall i | 0 <= i < |rel| ensures IsName(rel[i]) {
        if i < |rel| - 1 { assert rel[i] == Parent(rel)[i]; }
      }
    }
  }

  lemma {:induction false} WalkOfPrefix(nodes: Nodes, from: Path, rel: Path, n: nat)
    requires n <= |rel| && Walk(nodes, from, rel).Some?
    ensures Walk(nodes, from, rel[..n]).Some?
    decreases |rel|
  {
    if n == |rel| {
      assert rel[..n] == rel;
    } else {
      WalkOfPrefix(nodes, from, Parent(rel), n);
      assert Parent(rel)[..n] == rel[..n];
    }
  }

  /** A source in which some path loops is copied down to every depth. */
  lemma LoopIsEndless(nodes: Nodes, from: Path, to: Path)
    requires WellFormed(nodes) && Free(nodes, to) && !NoLoop(nodes, from)
    ensures Endless(nodes, from, to)
  {
    forall n: nat ensures Deep(nodes, from, to, n) {
      var long := LongWalk(nodes, from, n);
      var rel := long[..n];
      WalkOfPrefix(nodes, from, long, n);
      WalkNames(nodes, from, rel);
      var states := WalkIsDescent(nodes, from, to, rel);
      assert |rel| == n;
    }
  }

  // ----- Running into the target -----

  /** A run that leads to a target directory it has made: the copy of its own path's first part. */
  ghost predicate RunsInto(states: seq<Nodes>, from: Path, to: Path, p: Path, head: Path) {
    head < p && ProperNames(p) && Descent(states, from, to, p) && Walk(states[|p|], from, p) == Some(to + head)
  }

  lemma IsRunsInto(states: seq<Nodes>, from: Path, to: Path, p: Path, head: Path)
    requires head < p && ProperNames(p) && Descent(states, from, to, p)
    requires Walk(states[|p|], from, p) == Some(to + head)
    ensures RunsInto(states, from, to, p, head)
  {
  }

  /** No run from this tree does. */
  ghost predicate NeverRunsInto(nodes: Nodes, from: Path, to: Path) {
    forall states, p: Path, head: Path | RunsInto(states, from, to, p, head) :: states[0] != nodes
  }

  /** Once a path has run into the target, so do longer ones, name after name: the copy copies itself. */
  lemma {:induction false} Unroll(first: seq<Nodes>, from: Path, to: Path, p: Path, head: Path, n: nat)
    returns (states: seq<Nodes>, w: Path, earlier: Path)
    requires RunsInto(first, from, to, p, head) && WellFormed(first[0]) && Free(first[0], to)
    ensures RunsInto(states, from, to, w, earlier) && states[0] == first[0] && |w| >= n
  {
    if n == 0 {
      states, w, earlier := first, p, head;
    } else {
      var less, short, before := Unroll(first, from, to, p, head, n - 1);
      states, w, earlier := UnrollOne(less, from, to, short, before);
    }
  }

  lemma UnrollOne(states: seq<Nodes>, from: Path, to: Path, w: Path, earlier: Path)
    returns (more: seq<Nodes>, next: Path, after: Path)
    requires RunsInto(states, from, to, w, earlier) && WellFormed(states[0]) && Free(states[0], to)
    ensures RunsInto(more, from, to, next, after) && more[0] == states[0] && |next| == |w| + 1
  {
    var name := NextName(w, earlier);
    var later := Proceed(states, from, to, w, earlier, name);
    MoreNames(w, name);
    more, next, after := states + [later], w + [name], earlier + [name];
    IsRunsInto(more, from, to, next, after);
  }

  lemma Proceed(states: seq<Nodes>, from: Path, to: Path, w: Path, earlier: Path, name: string) returns (later: Nodes)
    requires Descent(states, from, to, w) && WellFormed(states[0]) && Free(states[0], to) && ProperNames(w)
    requires Walk(states[|w|], from, w) == Some(to + earlier) && earlier + [name] <= w
    requires IsName(name) && CleanName(name)
    ensures Descent(states + [later], from, to, w + [name])
    ensures Walk(later, from, w + [name]) == Some(to + (earlier + [name]))
  {
    DescentMakes(states, from, to, w, |w|);
    ListedAlong(states[0], states[|w|], to, w, earlier, name);
    later := OneDeeper(states, from, to, w, to + earlier, name);
    WalkOn(states[|w|], later, from, to, w, earlier, name);
  }

  lemma NextName(w: Path, earlier: Path) returns (name: string)
    requires ProperNames(w) && earlier < w
    ensures earlier + [name] <= w && IsName(name) && CleanName(name)
  {
    name := w[|earlier|];
  }

  lemma MoreNames(w: Path, name: string)
    requires ProperNames(w) && IsName(name) && CleanName(name)
    ensures ProperNames(w + [name])
  {
  }

  /** The directories made along the way list each other. */
  lemma ListedAlong(nodes: Nodes, now: Nodes, to: Path, w: Path, earlier: Path, name: string)
    requires earlier + [name] <= w && MadeAlong(nodes, now, to, w, |w|)
    ensures IsDir(now, to + earlier)
    ensures earlier + [name] == w || IsDir(now, to + earlier + [name])
    ensures to + earlier + [name] == to + (earlier + [name])
  {
    Along(nodes, now, to, w, earlier);
    assert to + earlier + [name] == to + (earlier + [name]);
    if earlier + [name] != w { Along(nodes, now, to, w, earlier + [name]); }
  }

  lemma WalkOn(now: Nodes, later: Nodes, from: Path, to: Path, w: Path, earlier: Path, name: string)
    requires Walk(now, from, w) == Some(to + earlier) && IsDir(now, to + earlier) && DirAdded(now, later, to + w)
    requires earlier + [name] == w || IsDir(now, to + earlier + [name])
    ensures Walk(later, from, w + [name]) == Some(to + (earlier + [name]))
  {
    assert to + earlier + [name] == to + (earlier + [name]);
    EntryWalk(now, later, from, w, to + earlier, name);
  }

  lemma Along(nodes: Nodes, now: Nodes, to: Path, rel: Path, s: Path)
    requires s < rel && MadeAlong(nodes, now, to, rel, |rel|)
    ensures IsDir(now, to + s)
  {
    assert s == rel[..|s|];
  }

  lemma EntryWalk(now: Nodes, later: Nodes, from: Path, rel: Path, place: Path, name: string)
    requires Walk(now, from, rel) == Some(place) && IsDir(now, place) && Grown(now, later)
    requires IsDir(later, place + [name])
    ensures Walk(later, from, rel + [name]) == Some(place + [name])
  {
    WalkStays(now, later, from, rel);
    Step(later, from, rel, name);
    WalkFollows(later, from, rel + [name]);
  }

  /** A source that leads into the target under construction is copied down to every depth. */
  lemma OwnTargetIsEndless(first: seq<Nodes>, from: Path, to: Path, p: Path, head: Path)
    requires RunsInto(first, from, to, p, head) && WellFormed(first[0]) && Free(first[0], to)
    ensures Endless(first[0], from, to)
  {
    forall n: nat ensures Deep(first[0], from, to, n) {
      var states, w, earlier := Unroll(first, from, to, p, head, n);
      DeepEnough(states, from, to, w, n);
    }
  }

  lemma DeepEnough(states: seq<Nodes>, from: Path, to: Path, w: Path, n: nat)
    requires Descent(states, from, to, w) && n <= |w|
    ensures Deep(states[0], from, to, n)
  {
    Shorten(DownFrom(from, to), states, w, n);
    assert |w[..n]| == n && states[..n + 1][0] == states[0];
  }

  // ----- Nothing else goes on for ever -----

  /** No link was added. */
  ghost predicate NoNewLinks(before: Nodes, now: Nodes) {
    forall q | q in now && q !in before :: !now[q].Link?
  }

  /** Added nodes end a link's way, so a way that ends in an old place is an old way. */
  lemma {:induction false} OldWay(before: Nodes, now: Nodes, p: Path, seen: set<Path>)
    requires Grown(before, now) && Follow(now, p, seen).Some? && Follow(now, p, seen).value in before
    requires NoNewLinks(before, now)
    ensures Follow(before, p, seen) == Follow(now, p, seen)
    decreases now.Keys - seen
  {
    if p in before && before[p].Link? { OldWay(before, now, before[p].target, seen + {p}); }
  }

  /** A run that has not met the target has gone down the source as it was. */
  lemma {:induction false} DescentIsWalk(states: seq<Nodes>, from: Path, to: Path, rel: Path)
    requires Descent(states, from, to, rel) && ProperNames(rel) && WellFormed(states[0])
    requires NeverRunsInto(states[0], from, to) && Walk(states[|rel|], from, rel).Some?
    ensures Walk(states[0], from, rel) == Walk(states[|rel|], from, rel)
    decreases |rel|
  {
    if rel == [] {
    } else {
      var n := |rel| - 1;
      var above := rel[..n];
      Shorten(DownFrom(from, to), states, rel, n);
      StepIsDown(states, from, to, rel, n);
      DescentIsWalk(states[..n + 1], from, to, above);
      DescentMakes(states, from, to, rel, |rel|);
      InOldPlace(states, from, to, rel);
      SameWalk(states[0], states[|rel|], from, rel);
    }
  }

  lemma InOldPlace(states: seq<Nodes>, from: Path, to: Path, rel: Path)
    requires Descent(states, from, to, rel) && ProperNames(rel) && WellFormed(states[0])
    requires NeverRunsInto(states[0], from, to) && Walk(states[|rel|], from, rel).Some?
    ensures Walk(states[|rel|], from, rel).value in states[0]
  {
    var place := Walk(states[|rel|], from, rel).value;
    if place !in states[0] {
      var head := NewIsAlong(states, from, to, rel, place);
      IsRunsInto(states, from, to, rel, head);
      assert false;
    }
  }

  lemma NewIsAlong(states: seq<Nodes>, from: Path, to: Path, rel: Path, place: Path) returns (head: Path)
    requires Descent(states, from, to, rel) && WellFormed(states[0]) && place in states[|rel|] && place !in states[0]
    ensures head < rel && place == to + head
  {
    DescentMakes(states, from, to, rel, |rel|);
    assert IsAlong(to, rel, |rel|, place);
    head := rel[..|place| - |to|];
  }

  lemma SameWalk(before: Nodes, now: Nodes, from: Path, rel: Path)
    requires rel != [] && Grown(before, now) && forall q | q in now && q !in before :: now[q].Dir?
    requires Walk(before, from, Parent(rel)).Some? && Walk(now, from, rel).Some? && Walk(now, from, rel).value in before
    ensures Walk(before, from, rel) == Walk(now, from, rel)
  {
    WalkStays(before, now, from, Parent(rel));
    WalkFollows(now, from, rel);
    WalkFollows(before, from, rel);
    OldWay(before, now, At(now, from, rel).value, {});
  }

  /** Which copies go down without end: those whose source loops or leads into the target under construction. */
  lemma EndlessIff(nodes: Nodes, from: Path, to: Path)
    requires WellFormed(nodes) && Free(nodes, to)
    ensures Endless(nodes, from, to) <==> !NoLoop(nodes, from) || !NeverRunsInto(nodes, from, to)
  {
    if !NoLoop(nodes, from) {
      LoopIsEndless(nodes, from, to);
    } else if !NeverRunsInto(nodes, from, to) {
      var states, p: Path, head: Path :| RunsInto(states, from, to, p, head) && states[0] == nodes;
      OwnTargetIsEndless(states, from, to, p, head);
    } else {
      assert !Deep(nodes, from, to, |nodes| + 1) by { NotSoDeep(nodes, from, to); }
    }
  }

  lemma NotSoDeep(nodes: Nodes, from: Path, to: Path)
    requires WellFormed(nodes) && NoLoop(nodes, from) && NeverRunsInto(nodes, from, to)
    ensures !Deep(nodes, from, to, |nodes| + 1)
  {
    if Deep(nodes, from, to, |nodes| + 1) {
      var states, rel: Path :| |rel| == |nodes| + 1 && Descent(states, from, to, rel) && states[0] == nodes;
      DescentIsShort(states, from, to, rel);
    }
  }

  lemma DescentIsShort(states: seq<Nodes>, from: Path, to: Path, rel: Path)
    requires Descent(states, from, to, rel) && WellFormed(states[0])
    requires NoLoop(states[0], from) && NeverRunsInto(states[0], from, to)
    ensures |rel| <= |states[0]|
  {
    if rel != [] {
      var n := |rel| - 1;
      DescentNames(states, from, to, rel, n);
      LastLeads(states, from, to, rel, n);
      Shorten(DownFrom(from, to), states, rel, n);
      DescentIsWalk(states[..n + 1], from, to, rel[..n]);
      WalksAreShort(states[0], from, rel[..n]);
    }
  }

  lemma LastLeads(states: seq<Nodes>, from: Path, to: Path, rel: Path, k: nat)
    requires Descent(states, from, to, rel) && k < |rel|
    ensures Walk(states[k], from, rel[..k]).Some? && IsName(rel[k]) && CleanName(rel[k])
  {
    StepIsDown(states, from, to, rel, k);
  }

  lemma {:induction false} DescentNames(states: seq<Nodes>, from: Path, to: Path, rel: Path, k: nat)
    requires Descent(states, from, to, rel) && k <= |rel|
    ensures ProperNames(rel[..k])
  {
    if k > 0 {
      DescentNames(states, from, to, rel, k - 1);
      LastLeads(states, from, to, rel, k - 1);
      MoreNames(rel[..k - 1], rel[k - 1]);
      assert rel[..k] == rel[..k - 1] + [rel[k - 1]];
    }
  }

  lemma AlongIsUnder(nodes: Nodes, now: Nodes, to: Path, rel: Path)
    requires MadeAlong(nodes, now, to, rel, |rel|)
    ensures OnlyAddedUnder(nodes, now, to)
  {
    forall q | q in now && q !in nodes ensures to <= q {
      assert IsAlong(to, rel, |rel|, q);
    }
  }

  // ----- Runs in any order -----

  /** A link's way that ends in a new place is the same in any other tree grown from the old one that has that place. */
  lemma {:induction false} SameEnd(before: Nodes, now: Nodes, later: Nodes, p: Path, seen: set<Path>)
    requires Grown(before, now) && NoNewLinks(before, now) && Grown(before, later)
    requires Follow(now, p, seen).Some? && Follow(now, p, seen).value !in before
    requires var end := Follow(now, p, seen).value; end in later && !later[end].Link?
    ensures Follow(later, p, seen) == Follow(now, p, seen)
    decreases now.Keys - seen
  {
    if p in before && before[p].Link? { SameEnd(before, now, later, before[p].target, seen + {p}); }
  }

  /** A target in which something has been made was free. */
  lemma WasFree(nodes: Nodes, now: Nodes, from: Path, to: Path, place: Path)
    requires WellFormed(nodes) && WellFormed(now) && OnlyAddedUnder(nodes, now, to) && from in nodes && to !in nodes
    requires place in now && place !in nodes
    ensures Free(nodes, to)
  {
    Fresh(nodes, to, from);
    if place != to { FirstStep(now, to, place); }
    assert Placed(now, to) && to != [];
    assert !(to <= Parent(to));
  }

  /**
   * Whatever order a run copies in: if an entry of the source leads to an unfinished directory of the target, so
   * does the run straight down to that entry.
   */
  lemma UnfinishedIsRunInto(nodes: Nodes, now: Nodes, from: Path, to: Path, rel: Path, head: Path)
    requires WellFormed(nodes) && WellFormed(now) && OnlyAddedUnder(nodes, now, to) && NoNewLinks(nodes, now)
    requires from in nodes && to !in nodes && Clean(rel) && head < rel && At(nodes, from, rel).Some?
    requires Walk(now, from, rel) == Some(to + head) && to + head !in nodes
    ensures !NeverRunsInto(nodes, from, to)
  {
    var above, name := Parent(rel), Last(rel);
    var d := Walk(nodes, from, above).value;
    assert rel == above + [name];
    WasFree(nodes, now, from, to, to + head);
    WalkNames(nodes, from, above);
    AtIsFollowed(nodes, now, from, rel);
    var states := LastCall(nodes, now, from, to, above, d, name, head);
    IsRunsInto(states, from, to, rel, head);
  }

  lemma AtIsFollowed(nodes: Nodes, now: Nodes, from: Path, rel: Path)
    requires Grown(nodes, now) && At(nodes, from, rel).Some?
    ensures Walk(now, from, rel) == Follow(now, At(nodes, from, rel).value, {})
  {
    WalkStays(nodes, now, from, rel);
    WalkFollows(now, from, rel);
  }

  lemma LastCall(nodes: Nodes, now: Nodes, from: Path, to: Path, above: Path, d: Path, name: string, head: Path)
    returns (states: seq<Nodes>)
    requires WellFormed(nodes) && OnlyAddedUnder(nodes, now, to) && NoNewLinks(nodes, now) && Free(nodes, to)
    requires ProperNames(above) && CleanName(name) && head < above + [name]
    requires Walk(nodes, from, above) == Some(d) && IsDir(nodes, d)
    requires Follow(now, d + [name], {}) == Some(to + head) && to + head !in nodes
    ensures Descent(states, from, to, above + [name]) && states[0] == nodes && ProperNames(above + [name])
    ensures Walk(states[|above| + 1], from, above + [name]) == Some(to + head)
  {
    var first := WalkIsDescent(nodes, from, to, above);
    var later;
    if d + [name] in nodes {
      later := ByLink(nodes, now, first, from, to, above, d, name, head);
    } else {
      later := ByTarget(nodes, now, first, from, to, above, d, name, head);
    }
    MoreNames(above, name);
    states := first + [later];
  }

  lemma ByLink(nodes: Nodes, now: Nodes, states: seq<Nodes>, from: Path, to: Path, above: Path, d: Path, name: string,
               head: Path) returns (later: Nodes)
    requires WellFormed(nodes) && OnlyAddedUnder(nodes, now, to) && NoNewLinks(nodes, now) && Free(nodes, to)
    requires Descent(states, from, to, above) && states[0] == nodes && ProperNames(above) && head < above + [name]
    requires Walk(nodes, from, above) == Some(d) && IsDir(nodes, d) && d + [name] in nodes && CleanName(name)
    requires Follow(now, d + [name], {}) == Some(to + head) && to + head !in nodes
    ensures IsName(name) && Descent(states + [later], from, to, above + [name])
    ensures Walk(later, from, above + [name]) == Some(to + head)
  {
    assert Placed(nodes, d + [name]) && Last(d + [name]) == name;
    DescentMakes(states, from, to, above, |above|);
    WalkStays(nodes, states[|above|], from, above);
    later := OneDeeper(states, from, to, above, d, name);
    var more, rel := states + [later], above + [name];
    DescentMakes(more, from, to, rel, |rel|);
    Along(nodes, later, to, rel, head);
    LinkWalk(nodes, now, later, from, above, d, name, to + head);
  }

  lemma LinkWalk(nodes: Nodes, now: Nodes, later: Nodes, from: Path, above: Path, d: Path, name: string, end: Path)
    requires Grown(nodes, now) && NoNewLinks(nodes, now) && Grown(nodes, later) && IsDir(later, end) && end !in nodes
    requires Walk(nodes, from, above) == Some(d) && IsDir(nodes, d) && Follow(now, d + [name], {}) == Some(end)
    ensures Walk(later, from, above + [name]) == Some(end)
  {
    SameEnd(nodes, now, later, d + [name], {});
    WalkStays(nodes, later, from, above);
    Step(later, from, above, name);
    WalkFollows(later, from, above + [name]);
  }

  lemma ByTarget(nodes: Nodes, now: Nodes, states: seq<Nodes>, from: Path, to: Path, above: Path, d: Path, name: string,
                 head: Path) returns (later: Nodes)
    requires WellFormed(nodes) && OnlyAddedUnder(nodes, now, to) && NoNewLinks(nodes, now) && Free(nodes, to)
    requires Descent(states, from, to, above) && states[0] == nodes && ProperNames(above)
    requires Walk(nodes, from, above) == Some(d) && IsDir(nodes, d) && d + [name] !in nodes && CleanName(name)
    requires Follow(now, d + [name], {}) == Some(to + head)
    ensures IsName(name) && Descent(states + [later], from, to, above + [name])
    ensures Walk(later, from, above + [name]) == Some(to + head)
  {
    Fresh(nodes, to, d);
    assert to <= d + [name] && to == d + [name] && to + head == to && head == [];
    assert Last(to) == name && Placed(nodes, to);
    later := IntoTarget(states, from, to, above, d, name);
  }

  // ----- The failing inputs -----

  /** A link to the directory it lies in. */
  lemma LinkToItsDirectory(nodes: Nodes, from: Path, to: Path, name: string)
    requires WellFormed(nodes) && Free(nodes, to) && IsDir(nodes, from) && CleanName(name)
    requires from + [name] in nodes && nodes[from + [name]] == Link(from)
    ensures Endless(nodes, from, to)
  {
    var rel := [name];
    assert Walk(nodes, from, []) == Some(from);
    assert Parent(rel) == [] && Last(rel) == name && rel[..0] == [];
    OneLink(nodes, from + [name], from);
    assert Returns(nodes, from, rel, 0);
    LoopIsEndless(nodes, from, to);
  }

  /** A link to the place where the copy will be. It leads nowhere when the copy starts, and nothing loops. */
  lemma LinkToTheTarget(nodes: Nodes, from: Path, to: Path, name: string)
    requires WellFormed(nodes) && Free(nodes, to) && IsDir(nodes, from) && CleanName(name)
    requires from + [name] in nodes && nodes[from + [name]] == Link(to)
    ensures Endless(nodes, from, to)
  {
    var later := ToTheTarget(nodes, from, to, name);
    MoreNames([], name);
    assert [] + [name] == [name];
    IsRunsInto([nodes] + [later], from, to, [name], []);
    OwnTargetIsEndless([nodes] + [later], from, to, [name], []);
  }

  lemma ToTheTarget(nodes: Nodes, from: Path, to: Path, name: string) returns (later: Nodes)
    requires WellFormed(nodes) && Free(nodes, to) && IsDir(nodes, from) && CleanName(name)
    requires from + [name] in nodes && nodes[from + [name]] == Link(to)
    ensures Descent([nodes] + [later], from, to, [name]) && Walk(later, from, [name]) == Some(to + []) && IsName(name)
  {
    assert Walk(nodes, from, []) == Some(from) && to + [] == to && [] + [name] == [name];
    assert Placed(nodes, from + [name]) && Last(from + [name]) == name;
    later := OneDeeper([nodes], from, to, [], from, name);
    LinkLeads(nodes, later, from, to, name);
  }

  lemma LinkLeads(nodes: Nodes, later: Nodes, from: Path, to: Path, name: string)
    requires IsDir(nodes, from) && from + [name] in nodes && nodes[from + [name]] == Link(to)
    requires DirAdded(nodes, later, to)
    ensures Walk(later, from, [name]) == Some(to)
  {
    assert [] + [name] == [name] && Walk(later, from, []) == Some(from);
    OneLink(later, from + [name], to);
    Step(later, from, [], name);
    WalkFollows(later, from, [name]);
  }

  /** A target inside the source. */
  lemma TargetInside(nodes: Nodes, from: Path, to: Path)
    requires WellFormed(nodes) && Free(nodes, to) && IsDir(nodes, from) && from < to && ProperNames(to[|from|..])
    ensures Endless(nodes, from, to)
  {
    var p := to[|from|..];
    var above, name := Parent(p), Last(p);
    assert to == from + p && Parent(to) == from + above && above + [name] == p && from + above + [name] == to;
    PlainDown(nodes, from, above);
    var states := WalkIsDescent(nodes, from, to, above);
    var later := IntoTarget(states, from, to, above, from + above, name);
    IsRunsInto(states + [later], from, to, p, []);
    OwnTargetIsEndless(states + [later], from, to, p, []);
  }

  /** A run that comes by the directory of the target goes on into the target. */
  lemma IntoTarget(states: seq<Nodes>, from: Path, to: Path, rel: Path, place: Path, name: string)
    returns (later: Nodes)
    requires Descent(states, from, to, rel) && WellFormed(states[0]) && Free(states[0], to) && ProperNames(rel)
    requires Walk(states[0], from, rel) == Some(place) && IsDir(states[0], place) && place + [name] == to
    requires IsName(name) && CleanName(name)
    ensures Descent(states + [later], from, to, rel + [name]) && Walk(later, from, rel + [name]) == Some(to + [])
  {
    var now := states[|rel|];
    DescentMakes(states, from, to, rel, |rel|);
    WalkStays(states[0], now, from, rel);
    TargetThere(states[0], now, to, rel);
    later := OneDeeper(states, from, to, rel, place, name);
    IntoNew(now, later, from, to, rel, place, name);
  }

  lemma IntoNew(now: Nodes, later: Nodes, from: Path, to: Path, rel: Path, place: Path, name: string)
    requires Walk(now, from, rel) == Some(place) && IsDir(now, place) && DirAdded(now, later, to + rel)
    requires place + [name] == to && (rel == [] || IsDir(now, to))
    ensures Walk(later, from, rel + [name]) == Some(to + [])
  {
    assert to + [] == to && (rel == [] ==> to + rel == to);
    EntryWalk(now, later, from, rel, place, name);
  }

  lemma TargetThere(nodes: Nodes, now: Nodes, to: Path, rel: Path)
    requires MadeAlong(nodes, now, to, rel, |rel|)
    ensures rel != [] ==> IsDir(now, to)
    ensures to + [] == to && (rel == [] ==> to + rel == to)
  {
    assert to + [] == to;
    if rel != [] { Along(nodes, now, to, rel, []); }
  }

  /** The smallest tree without a loop whose copy never ends: `a/l` is a link to `b`, and `a` is copied to `b`. */
  lemma NoLoopYetEndless()
    ensures var nodes: Nodes := map[[] := Dir(0), ["a"] := Dir(0), ["a", "l"] := Link(["b"])];
      WellFormed(nodes) && NoLoop(nodes, ["a"]) && Endless(nodes, ["a"], ["b"])
  {
    var from, to, link := ["a"], ["b"], ["a", "l"];
    var nodes: Nodes := map[[] := Dir(0), from := Dir(0), link := Link(to)];
    assert from + ["l"] == link && Parent(from) == [] && Parent(link) == from && Parent(to) == [];
    assert Placed(nodes, []) && Placed(nodes, from) && Placed(nodes, link);
    assert Walk(nodes, from, []) == Some(from);
    OneDangling(nodes, link, to);
    PlainTreesHaveNoLoop(nodes, from);
    LinkToTheTarget(nodes, from, to, "l");
  }

  lemma OneDangling(nodes: Nodes, q: Path, target: Path)
    requires q in nodes && nodes[q] == Link(target) && target !in nodes
    ensures Follow(nodes, q, {}) == None
  {
    assert Follow(nodes, q, {}) == Follow(nodes, target, {} + {q});
  }
}
