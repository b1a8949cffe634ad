/** Downloads into `<local>.portix-part`, resuming by its size, then renames it to the target. */
module Download {
  import opened Basics
  import opened SftpTransfer

  /** Everything one attempt may do to the local disk, given the remote file's content. */
  ghost predicate Attempt(source: Content, local: string, before: Files, after: Files, end: End, resumed: nat,
                          lastReport: nat) {
    var part := PartOf(local);
    && before - {local, part} == after - {local, part}
    && resumed <= |source|
    && (resumed > 0 ==> part in before && |before[part].content| == resumed)
    && (end.Done? ==>
          && part !in after && local in after
          && after[local].content == (if resumed > 0 then before[part].content else []) + source[resumed..])
    && (!end.Done? ==>
          && (local in after <==> local in before) && (local in before ==> after[local] == before[local])
          && (part in after ==>
                || (part in before && after[part] == before[part])
                || (after[part].content <= (if resumed > 0 then before[part].content else []) + source[resumed..]
                    && resumed <= |after[part].content|)))
    && (end.Cancelled? ==> part in after && |after[part].content| == lastReport)
  }

  /**
   * One attempt against a remote file that does not change; its size may go unreported. Any step may
   * fail, also the look at the part file, which then counts as absent.
   */
  method Download(disk: FileStore, source: Content, size: Option<nat>, local: string)
    returns (end: End, resumed: nat, reports: seq<nat>)
    requires size == Some(|source|) || size == None
    modifies disk
    ensures end.Cancelled? ==> reports != []
    ensures disk.reliable ==> !end.Failed?
    ensures disk.reliable ==>
      resumed == ResumeOffset(
        if PartOf(local) in old(disk.files) then Some(|old(disk.files)[PartOf(local)].content|) else None,
        if size.Some? then |source| else 0)
    ensures Attempt(source, local, old(disk.files), disk.files, end, resumed,
                    if reports == [] then 0 else reports[|reports| - 1])
  {
    var part := PartOf(local);
    reports, resumed := [], 0;
    var fails := disk.Fails();
    if fails { return Failed, resumed, reports; }
    var total := if size.Some? then size.value else 0;
    var length := None;
    var unseen := disk.Fails();
    if !unseen { length := if part in disk.files then Some(|disk.files[part].content|) else None; }
    resumed := ResumeOffset(length, total);
    fails := disk.Fails();
    if fails { return Failed, resumed, reports; }
    var ready := disk.OpenPart(part, resumed == 0);
    if !ready { return Failed, resumed, reports; }
    ghost var start := disk.files[part].content;
    assert start == if resumed > 0 then old(disk.files)[part].content else [];
    var upto;
    end, upto, reports := disk.CopyWithProgress(part, source, resumed);
    Landed(start, source, resumed, upto);
    if !end.Done? { return end, resumed, reports; }
    assert source[resumed..upto] == source[resumed..];
    fails := disk.Fails();
    if fails {
      disk.LoseBuffered(part, resumed);
      return Failed, resumed, reports;
    }
    fails := disk.Fails();
    if fails { return Failed, resumed, reports; }
    disk.Replace((disk.files - {part})[local := disk.files[part]]);
    return Done, resumed, reports;
  }

  lemma Landed(start: Content, source: Content, resumed: nat, upto: nat)
    requires resumed <= upto <= |source|
    ensures start + source[resumed..upto] <= start + source[resumed..]
  {
    assert source[resumed..upto] <= source[resumed..];
  }

  /**
   * A part is trusted by its size alone. A finished download holds the source exactly when the bytes
   * it resumed from were the source's own.
   */
  lemma FinishedIffPrefix(source: Content, local: string, before: Files, after: Files, resumed: nat, lastReport: nat)
    requires Attempt(source, local, before, after, Done, resumed, lastReport)
    ensures after[local].content == source <==> (resumed > 0 ==> before[PartOf(local)].content <= source)
  {
    var got := after[local].content;
    if resumed > 0 {
      var head := before[PartOf(local)].content;
      assert got[..resumed] == head && source == source[..resumed] + source[resumed..];
    } else {
      assert source[0..] == source;
    }
  }

  /** An attempt that resumes from the whole part and finishes. */
  function Finishing(source: Content, local: string, before: Files): Files
    requires PartOf(local) in before && |before[PartOf(local)].content| <= |source|
  {
    var part := before[PartOf(local)];
    (before - {PartOf(local)})[local := File(part.content + source[|part.content|..], part.mode)]
  }

  lemma FinishingIsAttempt(source: Content, local: string, before: Files)
    requires PartOf(local) in before && 0 < |before[PartOf(local)].content| <= |source|
    ensures Attempt(source, local, before, Finishing(source, local, before), Done, |before[PartOf(local)].content|, 0)
  {
    var after, both := Finishing(source, local, before), {local, PartOf(local)};
    assert before - both == after - both;
  }

  /** Every download that finishes from here holds the source exactly when the part is one that it can have left. */
  lemma FinishedFromIff(source: Content, local: string, before: Files)
    ensures (forall after: Files, resumed, lastReport |
               Attempt(source, local, before, after, Done, resumed, lastReport) :: after[local].content == source)
       <==> Resumable(before, PartOf(local), source)
  {
    if Resumable(before, PartOf(local), source) {
      forall after: Files, resumed, lastReport | Attempt(source, local, before, after, Done, resumed, lastReport)
        ensures after[local].content == source
      {
        FinishedIffPrefix(source, local, before, after, resumed, lastReport);
      }
    } else {
      FinishingIsAttempt(source, local, before);
      var resumed := |before[PartOf(local)].content|;
      FinishedIffPrefix(source, local, before, Finishing(source, local, before), resumed, 0);
    }
  }

  /** A part left by an older version of the remote file ends up in the target. */
  lemma StalePart(local: string, mode: Mode)
    ensures var before: Files := map[PartOf(local) := File([1], mode)];
      var after: Files := map[local := File([1, 3], mode)];
      Attempt([2, 3], local, before, after, Done, 1, 0)
  {
    var source: Content := [2, 3];
    var before: Files := map[PartOf(local) := File([1], mode)];
    assert before[PartOf(local)].content == [1] && source[1..] == [3];
    FinishingIsAttempt(source, local, before);
    assert before[PartOf(local)].content + source[1..] == [1, 3];
    assert before - {PartOf(local)} == map[];
  }

  lemma AttemptKeepsResumable(source: Content, local: string, before: Files, after: Files, end: End, resumed: nat,
                              lastReport: nat)
    requires Attempt(source, local, before, after, end, resumed, lastReport)
    requires Resumable(before, PartOf(local), source)
    ensures Resumable(after, PartOf(local), source)
    ensures end.Done? ==> after[local].content == source && PartOf(local) !in after
  {
    var part := PartOf(local);
    if end.Done? {
      FinishedIffPrefix(source, local, before, after, resumed, lastReport);
    } else if part in after && !(part in before && after[part] == before[part]) {
      if resumed > 0 {
        assert before[part].content + source[resumed..] == source;
      } else {
        assert [] + source[0..] == source;
      }
    }
  }

  datatype Try = Try(end: End, resumed: nat, lastReport: nat)

  /** disks[i] to disks[i + 1] is the i-th attempt. */
  ghost predicate Attempts(source: Content, local: string, disks: seq<Files>, tries: seq<Try>) {
    |disks| == |tries| + 1
    && forall i | 0 <= i < |tries| ::
         Attempt(source, local, disks[i], disks[i + 1], tries[i].end, tries[i].resumed, tries[i].lastReport)
  }

  lemma {:induction false} PartStaysResumable(source: Content, local: string, disks: seq<Files>, tries: seq<Try>,
      k: nat)
    requires Attempts(source, local, disks, tries) && k <= |tries|
    requires Resumable(disks[0], PartOf(local), source)
    ensures Resumable(disks[k], PartOf(local), source)
  {
    if k > 0 {
      PartStaysResumable(source, local, disks, tries, k - 1);
      var t := tries[k - 1];
      assert disks[k] == disks[k - 1 + 1];
      AttemptKeepsResumable(source, local, disks[k - 1], disks[k], t.end, t.resumed, t.lastReport);
    }
  }

  /** Nothing but the target and its part changes, and the target only when an attempt finishes. */
  lemma {:induction false} OthersUntouched(source: Content, local: string, disks: seq<Files>, tries: seq<Try>,
      path: string, k: nat)
    requires Attempts(source, local, disks, tries) && k <= |tries|
    requires path != PartOf(local)
    requires path == local ==> forall i | 0 <= i < k :: !tries[i].end.Done?
    ensures SameAt(disks[0], disks[k], path)
  {
    if k > 0 {
      OthersUntouched(source, local, disks, tries, path, k - 1);
      var before, after := disks[k - 1], disks[k - 1 + 1];
      var both := {local, PartOf(local)};
      assert path in before - both <==> path in before && path !in both;
      assert path in after - both <==> path in after && path !in both;
    }
  }

  /**
   * Any sequence of attempts: the part stays a prefix of the source or longer than it, the target is
   * untouched until an attempt finishes, a cancelled attempt leaves exactly what it last reported,
   * and whoever finishes leaves the source and no part.
   */
  lemma AnyAttempts(source: Content, local: string, disks: seq<Files>, tries: seq<Try>, k: nat)
    requires Attempts(source, local, disks, tries) && k < |tries|
    requires Resumable(disks[0], PartOf(local), source)
    ensures Resumable(disks[k + 1], PartOf(local), source)
    ensures tries[k].end.Done? ==>
              PartOf(local) !in disks[k + 1] && local in disks[k + 1] && disks[k + 1][local].content == source
    ensures tries[k].end.Cancelled? ==>
              PartOf(local) in disks[k + 1] && |disks[k + 1][PartOf(local)].content| == tries[k].lastReport
    ensures (forall i | 0 <= i <= k :: !tries[i].end.Done?) ==> SameAt(disks[0], disks[k + 1], local)
  {
    PartStaysResumable(source, local, disks, tries, k);
    var t := tries[k];
    AttemptKeepsResumable(source, local, disks[k], disks[k + 1], t.end, t.resumed, t.lastReport);
    if forall i | 0 <= i <= k :: !tries[i].end.Done? {
      OthersUntouched(source, local, disks, tries, local, k + 1);
    }
  }

  /** Two states of a file store agree about one path. */
  ghost predicate SameAt(a: Files, b: Files, path: string) {
    (path in a <==> path in b) && (path in a ==> a[path] == b[path])
  }
}
