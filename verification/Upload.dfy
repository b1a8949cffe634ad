/**
 * Uploads into `<remote>.portix-part`, then replaces the target: keep its permissions, remove it,
 * rename the part. Any server call may fail, and a failed call may still have taken effect.
 */
module Upload {
  import opened Basics
  import opened SftpTransfer
  import Download

  /** What stat reports for a regular file: the file type above the permission bits. */
  function StatMode(f: File): nat {
    0x8000 + f.mode
  }

  /** The low twelve bits, which is all chmod sets. */
  function Bits(mode: nat): Mode {
    mode % 4096
  }

  /** Nothing is lost: the replaced file is intact, or the part or the target is the whole new file. */
  ghost predicate Safe(now: Files, target: string, replaced: File, source: Content) {
    || (target in now && now[target] == replaced)
    || (PartOf(target) in now && now[PartOf(target)].content == source)
    || (target in now && now[target].content == source)
  }

  /** The target has these permissions, or it is gone and the part that will become it has them. */
  ghost predicate KeepsMode(now: Files, target: string, mode: Mode) {
    if target in now then now[target].mode == mode
    else PartOf(target) in now && now[PartOf(target)].mode == mode
  }

  /** The whole new file is at the target or in the part. */
  ghost predicate Arrived(now: Files, target: string, source: Content) {
    || (target in now && now[target].content == source)
    || (PartOf(target) in now && now[PartOf(target)].content == source)
  }

  function WithMode(files: Files, path: string, mode: Mode): Files
    requires path in files
  {
    files[path := File(files[path].content, mode)]
  }

  class Server {
    var store: FileStore
    /** Whether the server reports permission bits at all. */
    const reportsModes: bool

    constructor (store: FileStore, reportsModes: bool)
      ensures this.store == store && this.reportsModes == reportsModes
    {
      this.store, this.reportsModes := store, reportsModes;
    }

    /** chmod; a failed call may have been carried out. */
    method SetMode(path: string, mode: nat) returns (ok: bool)
      requires path in store.files
      modifies store
      ensures store.files == old(store.files) || store.files == WithMode(old(store.files), path, Bits(mode))
      ensures ok ==> store.files == WithMode(old(store.files), path, Bits(mode))
      ensures store.reliable ==> ok
      ensures store.history == old(store.history) + [store.files]
    {
      var fails := store.Fails();
      var carriedOut := *;
      if !fails || carriedOut {
        store.Replace(WithMode(store.files, path, Bits(mode)));
        return !fails;
      }
      store.Replace(store.files);
      return false;
    }

    method RemoveFile(path: string) returns (ok: bool)
      modifies store
      ensures store.files == old(store.files) || store.files == old(store.files) - {path}
      ensures ok ==> store.files == old(store.files) - {path}
      ensures store.reliable ==> ok
      ensures store.history == old(store.history) + [store.files]
    {
      var fails := store.Fails();
      var carriedOut := *;
      if !fails || carriedOut {
        store.Replace(store.files - {path});
        return !fails;
      }
      store.Replace(store.files);
      return false;
    }

    /** Version 3 rename: refuses an existing target. */
    method Rename(from: string, to: string) returns (ok: bool)
      requires from in store.files && from != to
      modifies store
      ensures store.files == old(store.files) ||
              (to !in old(store.files) && store.files == (old(store.files) - {from})[to := old(store.files)[from]])
      ensures ok ==> to !in old(store.files) && store.files == (old(store.files) - {from})[to := old(store.files)[from]]
      ensures store.reliable && to !in old(store.files) ==> ok
      ensures store.history == old(store.history) + [store.files]
    {
      if to in store.files {
        store.Replace(store.files);
        return false;
      }
      var fails := store.Fails();
      var carriedOut := *;
      if !fails || carriedOut {
        store.Replace((store.files - {from})[to := store.files[from]]);
        return !fails;
      }
      store.Replace(store.files);
      return false;
    }

    /** The transfer into the part: only the part differs, and Done means that the rest of the source was added. */
    method FillPart(source: Content, target: string) returns (end: End, resumed: nat, ready: bool)
      modifies store
      ensures store.reliable ==> ready && !end.Failed?
      ensures store.reliable && PartOf(target) in old(store.files)
              && |old(store.files)[PartOf(target)].content| <= |source| ==>
        resumed == |old(store.files)[PartOf(target)].content|
      ensures ResumedBy(old(store.files), PartOf(target), source, resumed)
      ensures ready ==> PartStep(old(store.files), store.files, PartOf(target), source, resumed)
      ensures end.Done? ==>
        ready && store.files[PartOf(target)].content == Merged(old(store.files), PartOf(target), source, resumed)
      ensures old(store.history) <= store.history
      ensures forall i | |old(store.history)| <= i < |store.history| ::
                PartStep(old(store.files), store.history[i], PartOf(target), source, resumed)
      ensures ready && resumed == 0 ==>
                |old(store.history)| < |store.history| && Emptied(store.history[|old(store.history)|], PartOf(target))
      ensures !ready ==> store.files == old(store.files) && store.history == old(store.history)
    {
      var part := PartOf(target);
      resumed, ready := 0, false;
      var fails := store.Fails();
      if fails { return Failed, resumed, ready; }
      var length := None;
      var unseen := store.Fails();
      if !unseen { length := if part in store.files then Some(|store.files[part].content|) else None; }
      resumed := ResumeOffset(length, |source|);
      ready := store.OpenPart(part, resumed == 0);
      if !ready { return Failed, resumed, ready; }
      assert store.files[part].content == Base(old(store.files), part, resumed);
      assert PartStep(old(store.files), store.files, part, source, resumed);
      fails := store.Fails();
      if fails { return Failed, resumed, ready; }
      end := Pour(source, part, resumed, old(store.files));
    }

    /** The open part is extended from the source, then closed; bytes not yet flushed may be lost. */
    method Pour(source: Content, part: string, resumed: nat, ghost before: Files) returns (end: End)
      requires ResumedBy(before, part, source, resumed) && PartStep(before, store.files, part, source, resumed)
      requires store.files[part].content == Base(before, part, resumed)
      modifies store
      ensures store.reliable ==> !end.Failed?
      ensures PartStep(before, store.files, part, source, resumed)
      ensures end.Done? ==> store.files[part].content == Merged(before, part, source, resumed)
      ensures old(store.history) <= store.history
      ensures forall i | |old(store.history)| <= i < |store.history| ::
                PartStep(before, store.history[i], part, source, resumed)
    {
      ghost var base, mark := store.files, |store.history|;
      var upto, reports;
      end, upto, reports := store.CopyWithProgress(part, source, resumed);
      Poured(before, base, part, source, resumed, upto);
      GrowthIsPartStep(before, base, store.history, mark, part, source, resumed);
      if !end.Done? { return end; }
      var fails := store.Fails();
      if fails {
        store.LoseBuffered(part, resumed);
        end := Failed;
      }
    }

    /** From a filled part to the target: keep the mode, remove the old file, rename. */
    method ReplaceTarget(target: string, ghost content: Content) returns (end: End, ghost removed: bool)
      requires PartOf(target) in store.files && store.files[PartOf(target)].content == content
      modifies store
      ensures store.reliable ==> end.Done?
      ensures store.files - {target, PartOf(target)} == old(store.files) - {target, PartOf(target)}
      ensures Replacing(old(store.files), store.files, target, content)
      ensures reportsModes && target in old(store.files) ==>
                KeepsMode(store.files, target, old(store.files)[target].mode)
      ensures target !in old(store.files) ==> KeepsMode(store.files, target, old(store.files)[PartOf(target)].mode)
      ensures end.Done? ==> target in store.files && PartOf(target) !in store.files
      ensures old(store.history) <= store.history
      ensures forall i | |old(store.history)| <= i < |store.history| ::
                Replacing(old(store.files), store.history[i], target, content)
      ensures !removed && target in old(store.files) ==> Kept(old(store.files), store.files, target)
      ensures forall i | |old(store.history)| <= i < |store.history| && !removed && target in old(store.files) ::
                Kept(old(store.files), store.history[i], target)
      ensures removed ==> exists i | |old(store.history)| <= i < |store.history| :: target !in store.history[i]
    {
      var part := PartOf(target);
      var unseen := store.Fails();
      removed := false;
      if !unseen && target in store.files {
        if reportsModes {
          var kept := SetMode(part, StatMode(store.files[target]));
          if !kept { return Failed, removed; }
        }
        var gone := RemoveFile(target);
        removed := target !in store.files;
        assert store.history[|store.history| - 1] == store.files;
        if !gone { return Failed, removed; }
      }
      ghost var mark := |store.history|;
      var renamed := Rename(part, target);
      assert removed ==> target !in store.history[mark - 1];
      end := if renamed then Done else Failed;
    }

    /** One attempt, whatever part it finds: its states and its end are as promised. */
    method Upload(source: Content, target: string) returns (end: End, resumed: nat, ready: bool, ghost removed: bool)
      modifies store
      ensures store.reliable ==> end.Done? || end.Cancelled?
      ensures old(store.history) <= store.history
      ensures Taken(reportsModes, source, target,
                Passage(old(store.files), store.history[|old(store.history)|..], store.files,
                        resumed, ready, removed, end))
    {
      var part := PartOf(target);
      ghost var mark, before := |store.history|, store.files;
      end, resumed, ready := FillPart(source, target);
      removed := false;
      ghost var filled, middle := store.history, store.files;
      OnlyPartDiffers(before, middle, target);
      Filled(source, target, before, middle, filled, mark, resumed, ready, end);
      if end.Done? {
        end, removed := ReplaceTarget(target, Merged(before, part, source, resumed));
        Replaced(source, target, before, middle, filled, store.history, mark, store.files, resumed, removed, end);
      }
    }
  }

  // ----- What an attempt does -----

  /** Where a transfer resumes: at the start, or at the end of a part that is no longer than the source. */
  predicate ResumedBy(before: Files, part: string, source: Content, resumed: nat) {
    resumed <= |source| && (resumed > 0 ==> part in before && |before[part].content| == resumed)
  }

  /** What the part holds when it has been opened, and when the rest of the source has been added to it. */
  function Base(before: Files, part: string, resumed: nat): Content {
    if resumed > 0 && part in before then before[part].content else []
  }

  function Merged(before: Files, part: string, source: Content, resumed: nat): Content {
    Base(before, part, resumed) + if resumed <= |source| then source[resumed..] else []
  }

  /** The bytes that were resumed from are the source's own. A part is trusted by its size alone. */
  predicate Sound(before: Files, part: string, source: Content, resumed: nat) {
    resumed > 0 ==> part in before && before[part].content <= source
  }

  /** A filled part is the source exactly when it resumed from the source's own bytes. */
  lemma MergedIffSound(before: Files, part: string, source: Content, resumed: nat)
    requires ResumedBy(before, part, source, resumed)
    ensures Merged(before, part, source, resumed) == source <==> Sound(before, part, source, resumed)
  {
    var merged := Merged(before, part, source, resumed);
    assert source == source[..resumed] + source[resumed..];
    if resumed > 0 { assert merged[..resumed] == before[part].content; }
  }

  /** While the part is filled nothing else changes. */
  ghost predicate PartStep(before: Files, now: Files, part: string, source: Content, resumed: nat) {
    && now - {part} == before - {part} && part in now
    && Base(before, part, resumed) <= now[part].content <= Merged(before, part, source, resumed)
    && (part in before ==> now[part].mode == before[part].mode)
  }

  ghost predicate Emptied(now: Files, part: string) {
    part in now && now[part].content == []
  }

  predicate Kept(before: Files, now: Files, target: string) {
    target in before && target in now && now[target] == before[target]
  }

  /** The part is filled and the target as before or gone; or the part has become the target. */
  predicate Replacing(before: Files, now: Files, target: string, content: Content) {
    if PartOf(target) in now then
      now[PartOf(target)].content == content && (target in now ==> Kept(before, now, target))
    else target in now && now[target].content == content
  }

  ghost predicate Stage(before: Files, now: Files, target: string, source: Content, resumed: nat) {
    || PartStep(before, now, PartOf(target), source, resumed)
    || Replacing(before, now, target, Merged(before, PartOf(target), source, resumed))
  }

  lemma Poured(before: Files, base: Files, part: string, source: Content, resumed: nat, upto: nat)
    requires ResumedBy(before, part, source, resumed) && resumed <= upto <= |source|
    requires part in base && base[part].content == Base(before, part, resumed)
    ensures base[part].content + source[resumed..upto] <= Merged(before, part, source, resumed)
    ensures upto == |source| ==> base[part].content + source[resumed..upto] == Merged(before, part, source, resumed)
  {
    assert source[resumed..upto] <= source[resumed..];
  }

  lemma GrowthIsPartStep(before: Files, base: Files, history: seq<Files>, mark: nat,
                         part: string, source: Content, resumed: nat)
    requires ResumedBy(before, part, source, resumed) && PartStep(before, base, part, source, resumed)
    requires base[part].content == Base(before, part, resumed) && mark <= |history|
    requires forall i | mark <= i < |history| :: OnlyGrew(base, history[i], part, source, resumed)
    ensures forall i | mark <= i < |history| :: PartStep(before, history[i], part, source, resumed)
  {
    forall i | mark <= i < |history| ensures PartStep(before, history[i], part, source, resumed) {
      assert OnlyGrew(base, history[i], part, source, resumed);
      var k :| resumed <= k <= |source| && history[i] == base[part := Grown(base[part], source, resumed, k)];
      Poured(before, base, part, source, resumed, k);
    }
  }

  lemma OnlyPartDiffers(a: Files, b: Files, target: string)
    requires a - {PartOf(target)} == b - {PartOf(target)}
    ensures a - {target, PartOf(target)} == b - {target, PartOf(target)}
    ensures Download.SameAt(a, b, target)
  {
    assert a - {target, PartOf(target)} == a - {PartOf(target)} - {target};
    assert b - {target, PartOf(target)} == b - {PartOf(target)} - {target};
    assert target in a <==> target in a - {PartOf(target)};
    assert target in b <==> target in b - {PartOf(target)};
  }

  /** Everything one attempt may do to the server's files. */
  ghost predicate Attempt(reportsModes: bool, source: Content, target: string, before: Files, after: Files,
                          end: End, resumed: nat) {
    var part := PartOf(target);
    && before - {target, part} == after - {target, part}
    && ResumedBy(before, part, source, resumed)
    && (reportsModes && target in before ==> KeepsMode(after, target, before[target].mode))
    && (target !in before && part in before ==> KeepsMode(after, target, before[part].mode))
    && (end.Done? ==>
          target in after && part !in after && after[target].content == Merged(before, part, source, resumed))
  }

  /**
   * One attempt: the states it went through, where it resumed, whether it got as far as opening the part,
   * whether it removed the target, and how it ended.
   */
  datatype Passage = Passage(
    before: Files, states: seq<Files>, after: Files, resumed: nat, ready: bool, removed: bool, end: End)

  /** An attempt as Upload makes it. */
  ghost predicate Taken(reportsModes: bool, source: Content, target: string, p: Passage) {
    Promised(source, target, p) && Attempt(reportsModes, source, target, p.before, p.after, p.end, p.resumed)
  }

  /** What Upload promises of the states it goes through. */
  ghost predicate Promised(source: Content, target: string, p: Passage) {
    var part := PartOf(target);
    && ResumedBy(p.before, part, source, p.resumed)
    && (forall i | 0 <= i < |p.states| :: Stage(p.before, p.states[i], target, source, p.resumed))
    && (p.after == p.before || Stage(p.before, p.after, target, source, p.resumed))
    && (!p.ready ==> p.after == p.before && p.states == [] && !p.removed)
    && (p.ready && p.resumed == 0 ==>
          p.states != [] && Emptied(p.states[0], part) && PartStep(p.before, p.states[0], part, source, p.resumed))
    && (p.removed ==> exists i | 0 <= i < |p.states| :: WithoutTarget(p, target, source, i))
    && (!p.removed && target in p.before ==>
          Kept(p.before, p.after, target) && forall i | 0 <= i < |p.states| :: Kept(p.before, p.states[i], target))
  }

  /** In this state the target is gone and only the filled part is there. */
  ghost predicate WithoutTarget(p: Passage, target: string, source: Content, i: nat)
    requires i < |p.states|
  {
    target !in p.states[i] && PartOf(target) in p.states[i]
    && p.states[i][PartOf(target)].content == Merged(p.before, PartOf(target), source, p.resumed)
  }

  lemma FillKeeps(before: Files, now: Files, target: string, source: Content, resumed: nat)
    requires PartStep(before, now, PartOf(target), source, resumed)
    ensures Download.SameAt(before, now, target)
  {
    OnlyPartDiffers(before, now, target);
  }

  /** An attempt that did not finish filling the part. */
  lemma Filled(source: Content, target: string, before: Files, middle: Files, history: seq<Files>, mark: nat,
               resumed: nat, ready: bool, end: End)
    requires mark <= |history| && ResumedBy(before, PartOf(target), source, resumed)
    requires forall i | mark <= i < |history| :: PartStep(before, history[i], PartOf(target), source, resumed)
    requires ready ==> PartStep(before, middle, PartOf(target), source, resumed)
    requires !ready ==> middle == before && |history| == mark
    requires ready && resumed == 0 ==> mark < |history| && Emptied(history[mark], PartOf(target))
    ensures Promised(source, target, Passage(before, history[mark..], middle, resumed, ready, false, end))
  {
    if ready { FillKeeps(before, middle, target, source, resumed); }
    forall i | mark <= i < |history| ensures Download.SameAt(before, history[i], target) {
      FillKeeps(before, history[i], target, source, resumed);
    }
  }

  /** An attempt that filled the part and went on to replace the target. */
  lemma Replaced(source: Content, target: string, before: Files, middle: Files, filled: seq<Files>, history: seq<Files>,
                 mark: nat, after: Files, resumed: nat, removed: bool, end: End)
    requires mark <= |filled| && filled <= history
    requires var part, merged := PartOf(target), Merged(before, PartOf(target), source, resumed);
      && Promised(source, target, Passage(before, filled[mark..], middle, resumed, true, false, Done))
      && PartStep(before, middle, part, source, resumed)
      && Replacing(middle, after, target, merged)
      && (forall i | |filled| <= i < |history| :: Replacing(middle, history[i], target, merged))
      && (!removed && target in middle ==> Kept(middle, after, target))
      && (!removed && target in middle ==> forall i | |filled| <= i < |history| :: Kept(middle, history[i], target))
      && (removed ==> exists i | |filled| <= i < |history| :: target !in history[i])
    ensures Promised(source, target, Passage(before, history[mark..], after, resumed, true, removed, end))
  {
    var p := Passage(before, history[mark..], after, resumed, true, removed, end);
    FillKeeps(before, middle, target, source, resumed);
    forall i | 0 <= i < |p.states|
      ensures Stage(before, p.states[i], target, source, resumed)
      ensures !removed && target in before ==> Kept(before, p.states[i], target)
    {
      if mark + i < |filled| { assert p.states[i] == filled[mark..][i]; }
    }
    if removed {
      var i :| |filled| <= i < |history| && target !in history[i];
      assert WithoutTarget(p, target, source, i - mark);
    }
    if resumed == 0 { assert p.states[0] == filled[mark..][0]; }
  }

  // ----- Safety, attempt by attempt and over any sequence of them -----

  /** The replaced file is intact, or the whole new file is there. */
  ghost predicate Secure(now: Files, target: string, replaced: File, source: Content) {
    if target in now then now[target] == replaced || now[target].content == source
    else Arrived(now, target, source)
  }

  /**
   * What keeps an attempt safe: it removes the target only after it resumed from the source's own bytes; and when
   * only the part is left it does not reopen the part without having seen its size.
   */
  predicate Careful(source: Content, target: string, p: Passage) {
    if target in p.before then p.removed ==> Sound(p.before, PartOf(target), source, p.resumed)
    else p.ready ==> p.resumed == |source|
  }

  ghost predicate AllSafe(source: Content, target: string, replaced: File, p: Passage) {
    forall i | 0 <= i < |p.states| :: Safe(p.states[i], target, replaced, source)
  }

  /** A step of an attempt that resumed soundly, or found a whole part and saw it, loses nothing. */
  lemma StageIsSecure(source: Content, target: string, replaced: File, before: Files, now: Files, resumed: nat)
    requires ResumedBy(before, PartOf(target), source, resumed) && Stage(before, now, target, source, resumed)
    requires Secure(before, target, replaced, source) && Sound(before, PartOf(target), source, resumed)
    requires target !in before ==> resumed == |source|
    ensures Secure(now, target, replaced, source) && Safe(now, target, replaced, source)
  {
    var part := PartOf(target);
    MergedIffSound(before, part, source, resumed);
    if PartStep(before, now, part, source, resumed) {
      FillKeeps(before, now, target, source, resumed);
      assert target !in before ==> Base(before, part, resumed) == source;
    }
  }

  /** From a secure start, every state of an attempt is safe exactly when the attempt was careful. */
  lemma SafeIffCareful(source: Content, target: string, replaced: File, p: Passage)
    requires Promised(source, target, p) && Secure(p.before, target, replaced, source)
    ensures AllSafe(source, target, replaced, p) <==> Careful(source, target, p)
    ensures Careful(source, target, p) ==> Secure(p.after, target, replaced, source)
  {
    if !Careful(source, target, p) {
      NotSafe(source, target, replaced, p);
    } else if p.ready && !(target in p.before && !p.removed) {
      IsSafe(source, target, replaced, p);
    }
  }

  lemma IsSafe(source: Content, target: string, replaced: File, p: Passage)
    requires Promised(source, target, p) && Secure(p.before, target, replaced, source)
    requires Sound(p.before, PartOf(target), source, p.resumed) || target !in p.before
    requires target !in p.before ==> p.resumed == |source|
    ensures AllSafe(source, target, replaced, p) && Secure(p.after, target, replaced, source)
  {
    forall i | 0 <= i < |p.states| ensures Safe(p.states[i], target, replaced, source) {
      StageIsSecure(source, target, replaced, p.before, p.states[i], p.resumed);
    }
    if p.after != p.before { StageIsSecure(source, target, replaced, p.before, p.after, p.resumed); }
  }

  lemma NotSafe(source: Content, target: string, replaced: File, p: Passage)
    requires Promised(source, target, p) && Secure(p.before, target, replaced, source) && !Careful(source, target, p)
    ensures !AllSafe(source, target, replaced, p)
  {
    var part := PartOf(target);
    if target in p.before {
      MergedIffSound(p.before, part, source, p.resumed);
      var i :| 0 <= i < |p.states| && WithoutTarget(p, target, source, i);
      assert !Safe(p.states[i], target, replaced, source);
    } else {
      FillKeeps(p.before, p.states[0], target, source, p.resumed);
      assert !Safe(p.states[0], target, replaced, source);
    }
  }

  /** Attempts one after the other, the first of them replacing a file. */
  ghost predicate Attempts(reportsModes: bool, source: Content, target: string, replaced: File, run: seq<Passage>) {
    && (forall k | 0 <= k < |run| :: Taken(reportsModes, source, target, run[k]))
    && (forall k | 0 <= k < |run| - 1 :: run[k + 1].before == run[k].after)
    && (run != [] ==> target in run[0].before && run[0].before[target] == replaced)
  }

  lemma {:induction false} SecureSoFar(modes: bool, source: Content, target: string, replaced: File,
                                       run: seq<Passage>, k: nat)
    requires Attempts(modes, source, target, replaced, run) && k < |run|
    requires forall j | 0 <= j < k :: Careful(source, target, run[j])
    ensures Secure(run[k].before, target, replaced, source)
  {
    if k > 0 {
      SecureSoFar(modes, source, target, replaced, run, k - 1);
      SafeIffCareful(source, target, replaced, run[k - 1]);
      assert run[k - 1 + 1].before == run[k - 1].after;
    }
  }

  /**
   * Over any sequence of attempts that starts by replacing a file, no state of any of them has lost both the old
   * file and the whole new one, exactly when every attempt was careful.
   */
  lemma SafeThroughoutIff(modes: bool, source: Content, target: string, replaced: File, run: seq<Passage>)
    requires Attempts(modes, source, target, replaced, run)
    ensures (forall k | 0 <= k < |run| :: AllSafe(source, target, replaced, run[k]))
       <==> (forall k | 0 <= k < |run| :: Careful(source, target, run[k]))
  {
    if forall k | 0 <= k < |run| :: Careful(source, target, run[k]) {
      forall k | 0 <= k < |run| ensures AllSafe(source, target, replaced, run[k]) {
        SecureSoFar(modes, source, target, replaced, run, k);
        SafeIffCareful(source, target, replaced, run[k]);
      }
    } else {
      var k := FirstCareless(source, target, run, |run|);
      SecureSoFar(modes, source, target, replaced, run, k);
      SafeIffCareful(source, target, replaced, run[k]);
    }
  }

  lemma {:induction false} FirstCareless(source: Content, target: string, run: seq<Passage>, n: nat) returns (k: nat)
    requires n <= |run| && exists j | 0 <= j < n :: !Careful(source, target, run[j])
    ensures k < n && !Careful(source, target, run[k])
    ensures forall j | 0 <= j < k :: Careful(source, target, run[j])
  {
    if j :| 0 <= j < n - 1 && !Careful(source, target, run[j]) {
      k := FirstCareless(source, target, run, n - 1);
    } else {
      k := n - 1;
    }
  }

  /** From a part that this source can have left behind, every attempt resumes soundly and leaves such a part. */
  lemma ResumableIsSound(source: Content, target: string, p: Passage)
    requires Promised(source, target, p) && Resumable(p.before, PartOf(target), source)
    ensures Sound(p.before, PartOf(target), source, p.resumed) && Resumable(p.after, PartOf(target), source)
  {
    MergedIffSound(p.before, PartOf(target), source, p.resumed);
  }

  lemma {:induction false} SoundThroughout(modes: bool, source: Content, target: string, replaced: File,
      run: seq<Passage>, k: nat)
    requires Attempts(modes, source, target, replaced, run) && k < |run|
    requires Resumable(run[0].before, PartOf(target), source)
    ensures Resumable(run[k].before, PartOf(target), source)
    ensures Sound(run[k].before, PartOf(target), source, run[k].resumed)
  {
    if k > 0 {
      SoundThroughout(modes, source, target, replaced, run, k - 1);
      ResumableIsSound(source, target, run[k - 1]);
      assert run[k - 1 + 1].before == run[k - 1].after;
    }
    ResumableIsSound(source, target, run[k]);
  }

  /** So such a sequence is safe throughout, unless the part is reopened unseen when only the part is left. */
  lemma SafeFromCleanStart(modes: bool, source: Content, target: string, replaced: File, run: seq<Passage>)
    requires Attempts(modes, source, target, replaced, run) && run != []
    requires Resumable(run[0].before, PartOf(target), source)
    ensures (forall k | 0 <= k < |run| :: AllSafe(source, target, replaced, run[k]))
       <==> (forall k | 0 <= k < |run| && target !in run[k].before && run[k].ready :: run[k].resumed == |source|)
  {
    SafeThroughoutIff(modes, source, target, replaced, run);
    forall k | 0 <= k < |run| ensures Sound(run[k].before, PartOf(target), source, run[k].resumed) {
      SoundThroughout(modes, source, target, replaced, run, k);
    }
    if forall k | 0 <= k < |run| :: Careful(source, target, run[k]) {
      forall k | 0 <= k < |run| && target !in run[k].before && run[k].ready ensures run[k].resumed == |source| {
        assert Careful(source, target, run[k]);
      }
    }
  }

  /**
   * A part left by an older version of the file: the old file is removed while the part holds neither
   * version, and the upload ends with that.
   */
  lemma StalePart(target: string, mode: Mode)
    ensures var part, source, replaced := PartOf(target), [2, 3], File([9], mode);
      var before: Files := map[target := replaced, part := File([1], mode)];
      var gone: Files := map[part := File([1, 3], mode)];
      && ResumedBy(before, part, source, 1) && !Sound(before, part, source, 1)
      && Merged(before, part, source, 1) == [1, 3]
      && Stage(before, gone, target, source, 1) && !Safe(gone, target, replaced, source)
  {
    var part, source: Content := PartOf(target), [2, 3];
    var before: Files := map[target := File([9], mode), part := File([1], mode)];
    var gone: Files := map[part := File([1, 3], mode)];
    assert source[1..] == [3] && before[part].content == [1];
    assert before[part].content[0] != source[0];
    assert Merged(before, part, source, 1) == [1, 3];
    assert target !in gone && Replacing(before, gone, target, [1, 3]);
    assert gone[part].content[0] != source[0];
  }

  /** The other failing input: the old file is gone, the part is whole but its size goes unseen, and it is emptied. */
  lemma UnseenPart(target: string, mode: Mode) returns (p: Passage)
    ensures var part, source := PartOf(target), [2, 3];
      && p.before == map[part := File(source, mode)] && Taken(true, source, target, p)
      && Secure(p.before, target, File([9], mode), source) && !AllSafe(source, target, File([9], mode), p)
  {
    var before: Files := map[PartOf(target) := File([2, 3], mode)];
    p := Emptying(true, [2, 3], target, before);
    NotSafe([2, 3], target, File([9], mode), p);
  }

  // ----- Safety from the starting state -----

  /** An attempt that resumes from the whole part, fills it, removes the target and fails there. */
  lemma Removing(modes: bool, source: Content, target: string, before: Files) returns (p: Passage)
    requires target in before && PartOf(target) in before && 0 < |before[PartOf(target)].content| <= |source|
    ensures p.before == before && p.removed && p.resumed == |before[PartOf(target)].content|
    ensures Taken(modes, source, target, p)
  {
    var part := PartOf(target);
    var resumed := |before[part].content|;
    var merged := Merged(before, part, source, resumed);
    var filled: Files := before[part := File(merged, before[part].mode)];
    var moded: Files := before[part := File(merged, before[target].mode)];
    var gone: Files := moded - {target};
    p := Passage(before, [before, filled, moded, gone], gone, resumed, true, true, Failed);
    assert PartStep(before, before, part, source, resumed) && PartStep(before, filled, part, source, resumed);
    assert Replacing(before, moded, target, merged) && Replacing(before, gone, target, merged);
    forall i | 0 <= i < 4 ensures Stage(before, p.states[i], target, source, resumed) {
      if i == 0 { assert p.states[i] == before; }
      if i == 1 { assert p.states[i] == filled; }
      if i == 2 { assert p.states[i] == moded; }
    }
    assert WithoutTarget(p, target, source, 3);
    assert before - {target, part} == gone - {target, part};
  }

  /** An attempt that empties the part, its size unseen, and fails there. */
  lemma Emptying(modes: bool, source: Content, target: string, before: Files) returns (p: Passage)
    requires target !in before && PartOf(target) in before
    ensures p.before == before && p.ready && p.resumed == 0 && Taken(modes, source, target, p)
  {
    var part := PartOf(target);
    var emptied: Files := before[part := File([], before[part].mode)];
    p := Passage(before, [emptied], emptied, 0, true, false, Failed);
    assert PartStep(before, emptied, part, source, 0);
    assert before - {target, part} == emptied - {target, part};
  }

  /**
   * When there is a file to replace, an attempt is safe whatever happens exactly when the part is one that this
   * source can have left: absent, longer than it, or its first bytes.
   */
  lemma SafeFromIff(modes: bool, source: Content, target: string, before: Files)
    requires target in before
    ensures (forall p | Taken(modes, source, target, p) && p.before == before ::
               AllSafe(source, target, before[target], p))
       <==> Resumable(before, PartOf(target), source)
  {
    if Resumable(before, PartOf(target), source) {
      forall p | Taken(modes, source, target, p) && p.before == before
        ensures AllSafe(source, target, before[target], p)
      {
        ResumableIsSound(source, target, p);
        SafeIffCareful(source, target, before[target], p);
      }
    } else {
      var p := Removing(modes, source, target, before);
      SafeIffCareful(source, target, before[target], p);
    }
  }

  /** When only the whole part is left, no attempt is safe whatever happens, unless there is nothing to lose. */
  lemma OnlyPartSafeIff(modes: bool, source: Content, target: string, replaced: File, before: Files)
    requires target !in before && PartOf(target) in before && before[PartOf(target)].content == source
    ensures (forall p | Taken(modes, source, target, p) && p.before == before :: AllSafe(source, target, replaced, p))
       <==> source == []
  {
    if source == [] {
      forall p | Taken(modes, source, target, p) && p.before == before ensures AllSafe(source, target, replaced, p) {
        SafeIffCareful(source, target, replaced, p);
      }
    } else {
      var p := Emptying(modes, source, target, before);
      SafeIffCareful(source, target, replaced, p);
    }
  }

  // ----- What any sequence of attempts leaves behind -----

  /**
   * Any sequence of attempts that starts by replacing a file, on a server that reports modes: the
   * replaced file's mode survives every failure, and every attempt that succeeds ends with that mode and no part,
   * and with the whole new file exactly when it resumed from the source's own bytes.
   */
  lemma {:induction false} AnyAttempts(source: Content, target: string, replaced: File, run: seq<Passage>, k: nat)
    requires Attempts(true, source, target, replaced, run) && k < |run|
    ensures KeepsMode(run[k].before, target, replaced.mode) && KeepsMode(run[k].after, target, replaced.mode)
    ensures run[k].end.Done? ==>
              && PartOf(target) !in run[k].after && target in run[k].after && run[k].after[target].mode == replaced.mode
              && (run[k].after[target].content == source <==>
                    Sound(run[k].before, PartOf(target), source, run[k].resumed))
  {
    if k > 0 {
      AnyAttempts(source, target, replaced, run, k - 1);
      assert run[k - 1 + 1].before == run[k - 1].after;
    }
    assert Taken(true, source, target, run[k]);
    MergedIffSound(run[k].before, PartOf(target), source, run[k].resumed);
  }

  /** From a part that this source can have left, every attempt that succeeds ends with the whole new file. */
  lemma CleanStart(source: Content, target: string, replaced: File, run: seq<Passage>, k: nat)
    requires Attempts(true, source, target, replaced, run) && k < |run|
    requires Resumable(run[0].before, PartOf(target), source)
    ensures KeepsMode(run[k].after, target, replaced.mode)
    ensures run[k].end.Done? ==>
              && target in run[k].after && run[k].after[target] == File(source, replaced.mode)
              && PartOf(target) !in run[k].after
  {
    AnyAttempts(source, target, replaced, run, k);
    SoundThroughout(true, source, target, replaced, run, k);
  }
}
