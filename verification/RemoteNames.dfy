/** The path strings the client sends, and the names a server reads in them. */
module RemoteNames {
  import opened Basics
  import opened RemoteTree

  /** `~` is the login directory, which SFTP calls `.`. */
  function RemotePath(path: string): string {
    var p := Trim(path);
    if p == "" || p == "~" then "."
    else if "~/" <= p then p[2..]
    else p
  }

  function Join(dir: string, name: string): string {
    if dir != "" && dir[|dir| - 1] == '/' then dir + name else dir + "/" + name
  }

  /** A string that remote_path leaves alone. */
  predicate Normal(path: string) {
    RemotePath(path) == path
  }

  /** Not home-relative, not empty, and no white space at either end. */
  predicate Settled(path: string) {
    path != "" && path != "~" && !("~/" <= path) && Trimmed(path)
  }

  lemma NormalIff(path: string)
    ensures Normal(path) <==> Settled(path)
  {
    TrimResult(path);
    var p := Trim(path);
    if p == "" || p == "~" {
      HomeIsNotNormal(path, p);
    } else if "~/" <= p {
      assert |p[2..]| < |path|;
    }
  }

  lemma HomeIsNotNormal(path: string, p: string)
    requires p == Trim(path) && (p == "" || p == "~")
    ensures path != "." && (path == "" || path == "~" || !Trimmed(path))
  {
    if Trimmed(path) && path != "" {
      StartKept(path);
      EndKept(path);
      assert path == p;
    }
  }

  // ----- What a server reads -----

  /** The parts between slashes. */
  function Parts(path: string): (r: seq<string>)
    ensures r != []
  {
    if path == "" then [""]
    else
      var n := |path| - 1;
      var before := Parts(path[..n]);
      if path[n] == '/' then before + [""]
      else before[..|before| - 1] + [before[|before| - 1] + [path[n]]]
  }

  /** A part that names something: empty parts and single dots do not. */
  function Component(part: string): Path {
    if part == "" || part == "." then [] else [part]
  }

  function Components(parts: seq<string>): Path {
    if parts == [] then [] else Components(parts[..|parts| - 1]) + Component(parts[|parts| - 1])
  }

  /** The names from the root; a relative path starts at the login directory. */
  function Locate(home: Path, path: string): Path {
    Start(home, path) + Components(Parts(path))
  }

  function Start(home: Path, path: string): Path {
    if path != "" && path[0] == '/' then [] else home
  }

  lemma {:induction false} PartsOfJoin(dir: string, name: string)
    requires '/' !in name
    ensures Parts(dir + "/" + name) == Parts(dir) + [name]
    decreases |name|
  {
    var path := dir + "/" + name;
    var n := |path| - 1;
    if name == "" {
      assert path[..n] == dir;
    } else {
      var short := name[..|name| - 1];
      PartsOfJoin(dir, short);
      assert path[..n] == dir + "/" + short && path[n] == name[|name| - 1];
      assert short + [name[|name| - 1]] == name;
      assert (Parts(dir) + [short])[..|Parts(dir)|] == Parts(dir);
    }
  }

  lemma ComponentsAppend(parts: seq<string>, part: string)
    ensures Components(parts + [part]) == Components(parts) + Component(part)
  {
    assert (parts + [part])[..|parts|] == parts;
  }

  /** Joining adds the name, whether or not the directory ends in a slash. */
  lemma ComponentsOfJoin(dir: string, name: string)
    requires '/' !in name
    ensures Components(Parts(Join(dir, name))) == Components(Parts(dir)) + Component(name)
  {
    if dir != "" && dir[|dir| - 1] == '/' {
      var d := dir[..|dir| - 1];
      assert dir == d + "/" + "" && Join(dir, name) == d + "/" + name;
      PartsOfJoin(d, "");
      PartsOfJoin(d, name);
      ComponentsAppend(Parts(d), "");
      ComponentsAppend(Parts(d), name);
    } else {
      PartsOfJoin(dir, name);
      ComponentsAppend(Parts(dir), name);
    }
  }

  lemma LocateJoin(home: Path, dir: string, name: string)
    requires dir != "" && '/' !in name
    ensures Locate(home, Join(dir, name)) == Locate(home, dir) + Component(name)
  {
    ComponentsOfJoin(dir, name);
    SameStart(home, dir, name);
  }

  lemma SameStart(home: Path, dir: string, name: string)
    requires dir != ""
    ensures Start(home, Join(dir, name)) == Start(home, dir)
  {
    assert Join(dir, name)[0] == dir[0];
  }

  // ----- remote_path once more, on every level of a recursive copy -----

  lemma {:induction false} TrimEndOfConcat(a: string, b: string)
    ensures TrimEnd(a + b) == if TrimEnd(b) == "" then TrimEnd(a) else a + TrimEnd(b)
    decreases |b|
  {
    if b == "" {
      assert a + b == a;
    } else if IsWhite(b[|b| - 1]) {
      assert (a + b)[..|a + b| - 1] == a + b[..|b| - 1];
      TrimEndOfConcat(a, b[..|b| - 1]);
    }
  }

  lemma StartKept(text: string)
    requires text != "" && !IsWhite(text[0])
    ensures TrimStart(text) == text
  {}

  lemma EndKept(text: string)
    requires text != "" && !IsWhite(text[|text| - 1])
    ensures TrimEnd(text) == text
  {}

  lemma TrimConcat(a: string, b: string)
    requires a != "" && Trimmed(a)
    ensures Trim(a + b) == a + TrimEnd(b)
  {
    assert (a + b)[0] == a[0];
    OnlyEndTrimmed(a + b);
    TrimEndAfter(a, b);
  }

  lemma TrimEndAfter(a: string, b: string)
    requires a != "" && !IsWhite(a[|a| - 1])
    ensures TrimEnd(a + b) == a + TrimEnd(b)
  {
    TrimEndOfConcat(a, b);
    if TrimEnd(b) == "" {
      EndKept(a);
      assert a + TrimEnd(b) == a;
    }
  }

  lemma OnlyEndTrimmed(text: string)
    requires text != "" && !IsWhite(text[0])
    ensures Trim(text) == TrimEnd(text)
  {
    StartKept(text);
  }

  /** What trimming makes of a joined path: the name loses the white space at its end. */
  lemma TrimmedJoin(dir: string, name: string)
    requires dir != "" && Trimmed(dir)
    ensures Trim(Join(dir, name)) == Join(dir, TrimEnd(name))
  {
    var a := if dir[|dir| - 1] == '/' then dir else dir + "/";
    SlashTrimmed(dir);
    TrimConcat(a, name);
  }

  lemma SlashTrimmed(dir: string)
    requires dir != "" && Trimmed(dir)
    ensures Trimmed(dir + "/")
  {
    assert (dir + "/")[0] == dir[0];
  }

  /** How a server reads the strings it is sent: the names from the root. */
  type Reading = string -> Option<Path>

  /** The path sent for an entry is read as its directory's names and its own, without white space at its end. */
  ghost predicate Lawful(reading: Reading) {
    forall dir: string, name: string | reading(dir).Some? && '/' !in name ::
      reading(RemotePath(Join(dir, name))) == Some(reading(dir).value + Component(TrimEnd(name)))
  }

  /** Names between slashes, for the strings that remote_path leaves alone. */
  function PlainReading(home: Path): Reading {
    (path: string) => if Settled(path) then Some(Locate(home, path)) else None
  }

  lemma PlainIsLawful(home: Path)
    ensures Lawful(PlainReading(home))
  {
    var reading := PlainReading(home);
    forall dir: string, name: string | reading(dir).Some? && '/' !in name
      ensures reading(RemotePath(Join(dir, name))) == Some(reading(dir).value + Component(TrimEnd(name)))
    {
      SentIsJoined(dir, name);
      LocateJoin(home, dir, TrimEnd(name));
    }
  }

  lemma SentIsJoined(dir: string, name: string)
    requires Settled(dir) && '/' !in name
    ensures RemotePath(Join(dir, name)) == Join(dir, TrimEnd(name)) && Settled(Join(dir, TrimEnd(name)))
  {
    TrimmedJoin(dir, name);
    JoinedIsNotHome(dir, TrimEnd(name));
    TrimResult(Join(dir, name));
  }

  lemma JoinedIsNotHome(dir: string, name: string)
    requires dir != "" && dir != "~" && !("~/" <= dir)
    ensures var path := Join(dir, name); path != "" && path != "~" && !("~/" <= path)
  {
    var path := Join(dir, name);
    if |dir| == 1 { assert path[..1] == dir; } else { assert path[..2] == dir[..2]; }
  }

  predicate CleanName(name: string) {
    name != "" && !IsWhite(name[|name| - 1])
  }

  predicate Clean(p: Path) {
    forall i | 0 <= i < |p| :: CleanName(p[i])
  }

  // ----- Where the spellings of a path lead -----

  /** The spellings of the login directory: nothing, or a tilde, with white space around it. */
  ghost predicate SpellsHome(path: string) {
    exists a, b :: AllWhite(a) && AllWhite(b) && (path == a + b || path == a + "~" + b)
  }

  lemma {:induction false} WhiteTrimmed(text: string)
    requires AllWhite(text)
    ensures TrimStart(text) == ""
  {
    if text != "" { WhiteTrimmed(text[1..]); }
  }

  lemma {:induction false} TrimAround(a: string, middle: string, b: string)
    requires AllWhite(a) && AllWhite(b) && middle != "" && Trimmed(middle)
    ensures Trim(a + middle + b) == middle
  {
    if a == "" {
      assert a + middle + b == middle + b;
      TrimConcat(middle, b);
      WhiteEnd(b);
      assert middle + "" == middle;
    } else {
      assert (a + middle + b)[1..] == a[1..] + middle + b;
      TrimAround(a[1..], middle, b);
    }
  }

  lemma {:induction false} WhiteEnd(text: string)
    requires AllWhite(text)
    ensures TrimEnd(text) == ""
  {
    if text != "" { WhiteEnd(text[..|text| - 1]); }
  }

  lemma HomeTrims(path: string)
    requires SpellsHome(path)
    ensures Trim(path) == "" || Trim(path) == "~"
  {
    var a, b :| AllWhite(a) && AllWhite(b) && (path == a + b || path == a + "~" + b);
    if path == a + b { WhiteTrimmed(path); } else { TrimAround(a, "~", b); }
  }

  /** Every spelling of the login directory leads to it. */
  lemma HomeLeadsHome(home: Path, path: string)
    requires SpellsHome(path)
    ensures Locate(home, RemotePath(path)) == home && Settled(RemotePath(path))
  {
    HomeIsDot(path);
    DotIsHome(home);
  }

  lemma HomeIsDot(path: string)
    requires SpellsHome(path)
    ensures RemotePath(path) == "." && Settled(".")
  {
    HomeTrims(path);
  }

  lemma DotIsHome(home: Path)
    ensures Locate(home, ".") == home
  {
    NoSlash(".");
    ComponentsAppend([], ".");
    assert [] + ["."] == ["."];
  }

  /** What follows `~/` is read from the login directory. */
  lemma HomeRelative(home: Path, x: string)
    requires x != "" && Trimmed(x) && x[0] != '/'
    ensures Locate(home, RemotePath("~/" + x)) == home + Components(Parts(x))
  {
    HomeTrimmed(x);
    HomeDropped(x);
  }

  /** A path that starts with a slash is read from the root, any other from the login directory. */
  lemma SlashIsRoot(home: Path, name: string)
    requires IsName(name)
    ensures Locate(home, "/") == [] && Locate(home, "/" + name) == [name] && Locate(home, name) == home + [name]
  {
    RootIsEmpty(home);
    LocateJoin(home, "/", name);
    assert Join("/", name) == "/" + name && [] + [name] == [name];
    OneName(name);
  }

  lemma RootIsEmpty(home: Path)
    ensures Locate(home, "/") == []
  {
    assert "/"[..0] == "" && Parts("/") == Parts("") + [""];
    ComponentsAppend([""], "");
    ComponentsAppend([], "");
  }

  // ----- Paths that do not settle -----

  /**
   * A path that does not settle at once strays. `~/~/x` is sent as `~/x`, which names a directory `~`; its entries
   * are then looked for as `x/name`, elsewhere.
   */
  lemma UnsettledStrays(home: Path, x: string, name: string)
    requires IsName(x) && Trimmed(x) && IsName(name) && CleanName(name)
    ensures var sent := "~/" + x;
      && RemotePath("~/" + sent) == sent && Locate(home, sent) == home + ["~", x]
      && Locate(home, RemotePath(Join(sent, name))) == home + [x, name]
  {
    HomeTrimmed(x);
    HomeTrimmed("~/" + x);
    HomeDropped("~/" + x);
    assert "~/" + x == "~" + "/" + x;
    TwoNames(home, "~", x);
    EntryStrays(x, name);
    TwoNames(home, x, name);
  }

  lemma HomeTrimmed(rest: string)
    requires rest != "" && Trimmed(rest)
    ensures Trimmed("~/" + rest)
  {
    var path := "~/" + rest;
    assert path[0] == '~' && path[|path| - 1] == rest[|rest| - 1];
  }

  lemma HomeDropped(rest: string)
    requires rest != "" && Trimmed("~/" + rest)
    ensures RemotePath("~/" + rest) == rest
  {
    var path := "~/" + rest;
    OnlyEndTrimmed(path);
    EndKept(path);
    assert path[2..] == rest && |path| > 2 && "~/" <= path;
  }

  lemma EntryStrays(x: string, name: string)
    requires IsName(x) && Trimmed(x) && IsName(name) && CleanName(name)
    ensures RemotePath(Join("~/" + x, name)) == x + "/" + name
  {
    var dir, rest := "~/" + x, x + "/" + name;
    assert dir[|dir| - 1] == x[|x| - 1];
    assert Join(dir, name) == "~/" + rest;
    HomeTrimmed(rest);
    HomeDropped(rest);
  }

  lemma TwoNames(home: Path, one: string, two: string)
    requires IsName(one) && IsName(two)
    ensures Locate(home, one + "/" + two) == home + [one, two]
  {
    OneName(one);
    ComponentsOfJoin(one, two);
    SameStart(home, one, two);
    assert Join(one, two) == one + "/" + two;
  }

  lemma OneName(name: string)
    requires IsName(name)
    ensures Components(Parts(name)) == [name]
  {
    NoSlash(name);
    ComponentsAppend([], name);
    assert [] + [name] == [name];
  }

  lemma {:induction false} NoSlash(part: string)
    requires '/' !in part
    ensures Parts(part) == [part]
    decreases |part|
  {
    if part != "" {
      var n := |part| - 1;
      NoSlash(part[..n]);
      assert part[..n] + [part[n]] == part;
    }
  }
}
