/**
 * Resumable transfers through a part file. Every read length, every failure, every cancellation and
 * every lost reply is nondeterministic; the file store keeps the list of states it went through.
 */
module SftpTransfer {
  import opened Basics

  type Content = seq<byte>

  datatype File = File(content: Content, mode: Mode)

  type Files = map<string, File>

  datatype End = Done | Cancelled | Failed

  const PART_SUFFIX := ".portix-part"

  const TRANSFER_BUFFER := 256 * 1024

  function PartOf(path: string): (r: string)
    ensures r != path && path <= r && r[|path|..] == ".portix-part"
  {
    path + PART_SUFFIX
  }

  /** Where a transfer restarts: the part's length, unless the part is longer than the source. */
  function ResumeOffset(partLength: Option<nat>, total: nat): (r: nat)
    ensures r <= total && (r == 0 || partLength == Some(r))
    ensures forall n | n <= total && partLength == Some(n) :: r == n
  {
    if partLength.Some? && partLength.value <= total then partLength.value else 0
  }

  /** A part that an interrupted transfer of `source` can leave behind. */
  ghost predicate Resumable(files: Files, part: string, source: Content) {
    part in files ==> files[part].content <= source || |files[part].content| > |source|
  }

  class FileStore {
    var files: Files
    ghost var history: seq<Files>
    /** No call fails; what may still happen is that the user cancels. */
    const reliable: bool

    constructor (initial: Files, reliable: bool)
      ensures files == initial && history == [] && this.reliable == reliable
    {
      files, this.reliable := initial, reliable;
      history := [];
    }

    /** Whether some call fails here. */
    method Fails() returns (fails: bool)
      ensures reliable ==> !fails
    {
      fails := *;
      if reliable { fails := false; }
    }

    method Replace(newFiles: Files)
      modifies this
      ensures files == newFiles && history == old(history) + [newFiles]
    {
      files := newFiles;
      history := history + [newFiles];
    }

    /** Opens for writing; a new file gets some default mode, an existing one keeps its own. */
    method OpenPart(path: string, truncate: bool) returns (ok: bool)
      modifies this
      ensures reliable ==> ok
      ensures !ok ==> files == old(files) && history == old(history)
      ensures ok ==> path in files && files == old(files)[path := files[path]] && history == old(history) + [files]
      ensures ok && path in old(files) ==> files[path].mode == old(files)[path].mode
      ensures ok ==> files[path].content == if truncate || path !in old(files) then [] else old(files)[path].content
    {
      var fails := Fails();
      if fails { return false; }
      var mode: Mode :| true;
      if path in files { mode := files[path].mode; }
      var content := if truncate || path !in files then [] else files[path].content;
      Replace(files[path := File(content, mode)]);
      return true;
    }

    /** Bytes written but not flushed may be lost, from the end. */
    method LoseBuffered(path: string, keep: nat)
      requires path in files && keep <= |files[path].content|
      modifies this
      ensures path in files && files == old(files)[path := files[path]] && history == old(history) + [files]
      ensures files[path].mode == old(files)[path].mode
      ensures keep <= |files[path].content| && files[path].content <= old(files)[path].content
    {
      var k: nat :| keep <= k <= |files[path].content|;
      Replace(files[path := File(files[path].content[..k], files[path].mode)]);
    }

    /**
     * Copies source[done..] after the `done` bytes the file holds, reporting before every read.
     * Done: everything is there. Cancelled: exactly what was reported. Failed: some prefix.
     */
    method CopyWithProgress(path: string, source: Content, start: nat)
      returns (end: End, upto: nat, reports: seq<nat>)
      requires path in files && |files[path].content| == start <= |source|
      modifies this
      ensures start <= upto <= |source|
      ensures files == old(files)[path := Grown(old(files)[path], source, start, upto)]
      ensures end.Done? ==> upto == |source|
      ensures reliable ==> !end.Failed?
      ensures reports != [] && reports[0] == start
      ensures end.Cancelled? ==> reports[|reports| - 1] == upto
      ensures old(history) <= history
      ensures forall i | |old(history)| <= i < |history| :: OnlyGrew(old(files), history[i], path, source, start)
    {
      var done := start;
      reports := [];
      Unchanged(files, path, source, start);
      while true
        invariant start <= done <= |source|
        invariant files == old(files)[path := Grown(old(files)[path], source, start, done)]
        invariant old(history) <= history
        invariant forall i | |old(history)| <= i < |history| :: OnlyGrew(old(files), history[i], path, source, start)
        invariant reports == [] ==> done == start
        invariant reports != [] ==> reports[0] == start
        decreases |source| - done
      {
        reports := reports + [done];
        if * { return Cancelled, done, reports; }
        var lost := Fails();
        if lost { break; }
        if done == |source| { return Done, done, reports; }
        var n: nat :| 0 < n <= TRANSFER_BUFFER && done + n <= |source|;
        var chunk := source[done..done + n];
        Append(old(files), path, source, start, done, n);
        Replace(files[path := File(files[path].content + chunk, files[path].mode)]);
        assert OnlyGrew(old(files), files, path, source, start);
        done := done + n;
        lost := Fails();
        if lost { break; }
      }
      LoseBuffered(path, start);
      upto := |files[path].content|;
      Cut(old(files)[path].content, files[path].content, source, start, done);
      return Failed, upto, reports;
    }
  }

  /** `f`, which holds `start` bytes, extended by source[start..upto]. */
  function Grown(f: File, source: Content, start: nat, upto: nat): File
    requires start <= upto <= |source|
  {
    File(f.content + source[start..upto], f.mode)
  }

  /** `now` differs from `before` only in that the file at `path` was extended from the source. */
  ghost predicate OnlyGrew(before: Files, now: Files, path: string, source: Content, start: nat)
    requires path in before && start <= |source|
  {
    exists k | start <= k <= |source| :: now == before[path := Grown(before[path], source, start, k)]
  }

  lemma Unchanged(files: Files, path: string, source: Content, start: nat)
    requires path in files && start <= |source|
    ensures files == files[path := Grown(files[path], source, start, start)]
  {
    assert files[path].content + source[start..start] == files[path].content;
  }

  lemma Append(before: Files, path: string, source: Content, start: nat, done: nat, n: nat)
    requires path in before && start <= done && done + n <= |source|
    ensures Grown(before[path], source, start, done).content + source[done..done + n]
         == Grown(before[path], source, start, done + n).content
  {
    assert source[start..done] + source[done..done + n] == source[start..done + n];
  }

  lemma Cut(head: Content, kept: Content, source: Content, start: nat, done: nat)
    requires |head| == start <= done <= |source| && start <= |kept|
    requires kept <= head + source[start..done]
    ensures kept == head + source[start..|kept|]
  {
    assert source[start..done][..|kept| - start] == source[start..|kept|];
  }
}
