/**
  The agent's shared-folder mirror (`FileSyncer` in agent/main.py): every ten
  seconds it lists the blobs under `agents/{device}/shared/`, downloads each one
  that is missing locally or strictly newer remotely, stamps the local copy
  with the remote modification time, and then removes every local name with no
  remote counterpart.

  The local folder is a map from file name to modification time; times are
  integers. The storage service and the file system are oracles: a listing
  that raised is `None`, `downloadOk(i)` says whether downloading the i-th
  blob of the listing succeeded, `deleteOk(f)` whether removing `f` did.
*/
module FileSync {
  import opened Wrappers
  import opened Strings

  datatype Blob = Blob(name: string, mtime: int)

  type Folder = map<string, int>

  /** Python's os.path.basename on a POSIX path: the text after the last '/'. */
  function Basename(path: string): (r: string)
    ensures '/' !in r
    decreases |path|
  {
    if '/' in path then Basename(path[IndexOf(path, '/') + 1..]) else path
  }

  /** The basename is the tail of the path. */
  lemma {:induction false} BasenameIsSuffix(path: string)
    ensures EndsWith(path, Basename(path))
    decreases |path|
  {
    if '/' in path {
      var rest := path[IndexOf(path, '/') + 1..];
      BasenameIsSuffix(rest);
      var b := Basename(rest);
      assert Basename(path) == b;
      assert path[|path| - |b|..] == rest[|rest| - |b|..];
    }
  }

  /** A final path component is its own basename, whatever precedes the last '/'. */
  lemma {:induction false} BasenameAfterSlash(dir: string, f: string)
    requires '/' !in f
    ensures Basename(dir + "/" + f) == f
    decreases |dir|
  {
    var p := dir + "/" + f;
    assert p[|dir|] == '/';
    var i := IndexOf(p, '/');
    if i == |dir| {
      assert p[i + 1..] == f;
    } else {
      assert i < |dir|;
      assert p[i + 1..] == dir[i + 1..] + "/" + f;
      BasenameAfterSlash(dir[i + 1..], f);
    }
  }

  function NameOf(b: Blob): string {
    Basename(b.name)
  }

  /** The names the listing mirrors: the non-empty basenames. */
  function RemoteNames(blobs: seq<Blob>): set<string> {
    set i | 0 <= i < |blobs| && NameOf(blobs[i]) != "" :: NameOf(blobs[i])
  }

  /** Absent locally, or strictly newer remotely. */
  predicate NeedsDownload(local: Folder, f: string, remoteMtime: int) {
    f !in local || remoteMtime > local[f]
  }

  /** The state of the download pass: the folder, the names downloaded in order, and whether an exception ended it. */
  datatype Pass = Pass(local: Folder, downloads: seq<string>, aborted: bool)

  /** One iteration of the blob loop; `ok` is whether this blob's download succeeded. */
  function Step(p: Pass, b: Blob, ok: bool): Pass {
    if p.aborted then p
    else
      var f := NameOf(b);
      if f == "" || !NeedsDownload(p.local, f, b.mtime) then p
      else if ok then Pass(p.local[f := b.mtime], p.downloads + [f], false)
      else Pass(p.local, p.downloads, true)
  }

  /** The download loop over the listing, blob by blob. */
  function DownloadPass(blobs: seq<Blob>, local: Folder, downloadOk: nat -> bool): Pass
    decreases |blobs|
  {
    if blobs == [] then Pass(local, [], false)
    else
      var n := |blobs| - 1;
      Step(DownloadPass(blobs[..n], local, downloadOk), blobs[n], downloadOk(n))
  }

  /** The removal loop: a local name survives if the listing has it or its removal failed. */
  function DeletePass(local: Folder, remote: set<string>, deleteOk: string -> bool): Folder {
    map f | f in local && (f in remote || !deleteOk(f)) :: local[f]
  }

  /** The folder after one cycle of the sync loop. */
  function CycleLocal(local: Folder, listing: Option<seq<Blob>>,
                      downloadOk: nat -> bool, deleteOk: string -> bool): Folder
  {
    match listing
    case None => local
    case Some(blobs) =>
      var p := DownloadPass(blobs, local, downloadOk);
      if p.aborted then p.local else DeletePass(p.local, RemoteNames(blobs), deleteOk)
  }

  predicate AllOk(downloadOk: nat -> bool, n: nat) {
    forall i :: 0 <= i < n ==> downloadOk(i)
  }

  /** No two mirrored blobs share a basename. */
  predicate DistinctNames(blobs: seq<Blob>) {
    forall i, j :: 0 <= i < j < |blobs| && NameOf(blobs[i]) != "" ==> NameOf(blobs[i]) != NameOf(blobs[j])
  }

  // ---------------------------------------------------------------------------
  // The download pass

  /** The pass never forgets a local file and never makes one older. */
  lemma {:induction false} PassKeepsLocal(blobs: seq<Blob>, local: Folder, downloadOk: nat -> bool)
    ensures var p := DownloadPass(blobs, local, downloadOk);
      forall f :: f in local ==> f in p.local && p.local[f] >= local[f]
    decreases |blobs|
  {
    if blobs != [] {
      PassKeepsLocal(blobs[..|blobs| - 1], local, downloadOk);
    }
  }

  /** A name no blob of the listing carries is neither downloaded nor changed. */
  lemma {:induction false} PassUntouched(blobs: seq<Blob>, local: Folder, downloadOk: nat -> bool, f: string)
    requires forall i :: 0 <= i < |blobs| && NameOf(blobs[i]) != "" ==> NameOf(blobs[i]) != f
    ensures var p := DownloadPass(blobs, local, downloadOk);
      (f in p.local <==> f in local) && (f in local ==> p.local[f] == local[f]) && f !in p.downloads
    decreases |blobs|
  {
    if blobs != [] {
      PassUntouched(blobs[..|blobs| - 1], local, downloadOk, f);
    }
  }

  /** With every download succeeding, the pass is not aborted. */
  lemma {:induction false} AllOkNotAborted(blobs: seq<Blob>, local: Folder, downloadOk: nat -> bool)
    requires AllOk(downloadOk, |blobs|)
    ensures !DownloadPass(blobs, local, downloadOk).aborted
    decreases |blobs|
  {
    if blobs != [] {
      AllOkNotAborted(blobs[..|blobs| - 1], local, downloadOk);
    }
  }

  /** Every mirrored name is in the folder, no older than any blob carrying it. */
  predicate Covers(blobs: seq<Blob>, l: Folder) {
    forall i :: 0 <= i < |blobs| && NameOf(blobs[i]) != "" ==>
      NameOf(blobs[i]) in l && l[NameOf(blobs[i])] >= blobs[i].mtime
  }

  /** Coverage of a listing carries over to a folder that keeps every entry and covers one more blob. */
  lemma CoversStep(blobs: seq<Blob>, b: Blob, before: Folder, after: Folder)
    requires Covers(blobs, before)
    requires forall f :: f in before ==> f in after && after[f] >= before[f]
    requires NameOf(b) != "" ==> NameOf(b) in after && after[NameOf(b)] >= b.mtime
    ensures Covers(blobs + [b], after)
  {
    var all := blobs + [b];
    forall i | 0 <= i < |all| && NameOf(all[i]) != ""
      ensures NameOf(all[i]) in after && after[NameOf(all[i])] >= all[i].mtime
    {
      if i < |blobs| {
        assert all[i] == blobs[i];
      }
    }
  }

  /** A step that leaves the pass running keeps every entry, never older, and covers its own blob. */
  lemma StepCovers(q: Pass, b: Blob, ok: bool)
    requires !Step(q, b, ok).aborted
    ensures var p := Step(q, b, ok);
      !q.aborted && (forall f :: f in q.local ==> f in p.local && p.local[f] >= q.local[f]) &&
      (NameOf(b) != "" ==> NameOf(b) in p.local && p.local[NameOf(b)] >= b.mtime)
  {
  }

  /** A step whose blob does not carry `f` leaves its entry and its download as they were. */
  lemma StepUntouched(q: Pass, b: Blob, ok: bool, f: string)
    requires NameOf(b) == "" || NameOf(b) != f
    ensures var p := Step(q, b, ok);
      (f in p.downloads <==> f in q.downloads) && (f in p.local <==> f in q.local) &&
      (f in q.local ==> p.local[f] == q.local[f])
  {
  }

  /**
    After a pass that was not aborted, every mirrored name is present locally
    with a modification time at least that of every blob carrying it; this
    holds even when several blobs share a basename.
  */
  lemma {:induction false} PassCovers(blobs: seq<Blob>, local: Folder, downloadOk: nat -> bool)
    requires !DownloadPass(blobs, local, downloadOk).aborted
    ensures Covers(blobs, DownloadPass(blobs, local, downloadOk).local)
    decreases |blobs|
  {
    if blobs != [] {
      var n := |blobs| - 1;
      var prefix := blobs[..n];
      var q := DownloadPass(prefix, local, downloadOk);
      var p := DownloadPass(blobs, local, downloadOk);
      assert p == Step(q, blobs[n], downloadOk(n));
      StepCovers(q, blobs[n], downloadOk(n));
      PassCovers(prefix, local, downloadOk);
      assert blobs == prefix + [blobs[n]];
      CoversStep(prefix, blobs[n], q.local, p.local);
    }
  }

  /** Blobs from position k on that do not carry `f` leave its entry and its download as they were after blob k-1. */
  lemma {:induction false} PassFromUntouched(blobs: seq<Blob>, local: Folder, downloadOk: nat -> bool, k: nat, f: string)
    requires k <= |blobs|
    requires forall j :: k <= j < |blobs| && NameOf(blobs[j]) != "" ==> NameOf(blobs[j]) != f
    ensures var p := DownloadPass(blobs, local, downloadOk);
      var q := DownloadPass(blobs[..k], local, downloadOk);
      (f in p.downloads <==> f in q.downloads) && (f in p.local <==> f in q.local) &&
      (f in q.local ==> p.local[f] == q.local[f])
    decreases |blobs|
  {
    if k == |blobs| {
      assert blobs[..k] == blobs;
    } else {
      var n := |blobs| - 1;
      var prefix := blobs[..n];
      assert prefix[..k] == blobs[..k];
      forall j | k <= j < |prefix| && NameOf(prefix[j]) != "" ensures NameOf(prefix[j]) != f {
        assert prefix[j] == blobs[j];
      }
      PassFromUntouched(prefix, local, downloadOk, k, f);
      var q := DownloadPass(prefix, local, downloadOk);
      assert DownloadPass(blobs, local, downloadOk) == Step(q, blobs[n], downloadOk(n));
      StepUntouched(q, blobs[n], downloadOk(n), f);
    }
  }

  /** The download decision for the i-th blob, when basenames are distinct and downloads succeed. */
  lemma DownloadedAt(blobs: seq<Blob>, local: Folder, downloadOk: nat -> bool, i: nat)
    requires DistinctNames(blobs) && AllOk(downloadOk, |blobs|) && i < |blobs|
    ensures var p := DownloadPass(blobs, local, downloadOk);
      var f := NameOf(blobs[i]);
      (f in p.downloads <==> f != "" && NeedsDownload(local, f, blobs[i].mtime)) &&
      (f in p.downloads ==> f in p.local && p.local[f] == blobs[i].mtime)
  {
    var f := NameOf(blobs[i]);
    if f == "" {
      EmptyNeverDownloaded(blobs, local, downloadOk);
    } else {
      var pre := blobs[..i];
      forall j | 0 <= j < |pre| && NameOf(pre[j]) != "" ensures NameOf(pre[j]) != f {
        assert pre[j] == blobs[j];
      }
      PassUntouched(pre, local, downloadOk, f);
      AllOkNotAborted(pre, local, downloadOk);
      assert blobs[..i + 1][..i] == pre;
      assert DownloadPass(blobs[..i + 1], local, downloadOk)
          == Step(DownloadPass(pre, local, downloadOk), blobs[i], downloadOk(i));
      PassFromUntouched(blobs, local, downloadOk, i + 1, f);
    }
  }

  /**
    When the basenames are distinct and every download succeeds, a blob is
    downloaded iff its name is non-empty and it is absent locally or strictly
    newer remotely; it is then stamped with the remote modification time.
  */
  lemma DownloadedIff(blobs: seq<Blob>, local: Folder, downloadOk: nat -> bool)
    requires DistinctNames(blobs) && AllOk(downloadOk, |blobs|)
    ensures var p := DownloadPass(blobs, local, downloadOk);
      forall i :: 0 <= i < |blobs| ==>
        (NameOf(blobs[i]) in p.downloads <==>
           NameOf(blobs[i]) != "" && NeedsDownload(local, NameOf(blobs[i]), blobs[i].mtime)) &&
        (NameOf(blobs[i]) in p.downloads ==>
           NameOf(blobs[i]) in p.local && p.local[NameOf(blobs[i])] == blobs[i].mtime)
  {
    forall i | 0 <= i < |blobs| {
      DownloadedAt(blobs, local, downloadOk, i);
    }
  }

  /** Blobs whose basename is empty (directory markers) are skipped. */
  lemma {:induction false} EmptyNeverDownloaded(blobs: seq<Blob>, local: Folder, downloadOk: nat -> bool)
    ensures "" !in DownloadPass(blobs, local, downloadOk).downloads
    decreases |blobs|
  {
    if blobs != [] {
      EmptyNeverDownloaded(blobs[..|blobs| - 1], local, downloadOk);
    }
  }

  /** A folder that already covers the listing makes the pass download nothing and change nothing. */
  lemma {:induction false} CoveredPassIsIdle(blobs: seq<Blob>, local: Folder, downloadOk: nat -> bool)
    requires forall i :: 0 <= i < |blobs| && NameOf(blobs[i]) != "" ==>
      NameOf(blobs[i]) in local && local[NameOf(blobs[i])] >= blobs[i].mtime
    ensures DownloadPass(blobs, local, downloadOk) == Pass(local, [], false)
    decreases |blobs|
  {
    if blobs != [] {
      var n := |blobs| - 1;
      CoveredPassIsIdle(blobs[..n], local, downloadOk);
    }
  }

  // ---------------------------------------------------------------------------
  // Whole cycles

  /** A listing that raised leaves the folder as it was. */
  lemma ListingFailureChangesNothing(local: Folder, downloadOk: nat -> bool, deleteOk: string -> bool)
    ensures CycleLocal(local, None, downloadOk, deleteOk) == local
  {
  }

  /**
    After a cycle whose downloads did not raise, every mirrored name is
    present, every other surviving name is one whose removal failed, and the
    surviving files are the ones the download pass left.
  */
  lemma CycleMirrors(local: Folder, blobs: seq<Blob>, downloadOk: nat -> bool, deleteOk: string -> bool)
    requires !DownloadPass(blobs, local, downloadOk).aborted
    ensures var p := DownloadPass(blobs, local, downloadOk);
      var r := CycleLocal(local, Some(blobs), downloadOk, deleteOk);
      (forall f :: f in RemoteNames(blobs) ==> f in r) &&
      (forall f :: f in r ==> f in RemoteNames(blobs) || (f in local && !deleteOk(f))) &&
      (forall f :: f in r ==> f in p.local && r[f] == p.local[f])
  {
    var p := DownloadPass(blobs, local, downloadOk);
    var remote := RemoteNames(blobs);
    var r := DeletePass(p.local, remote, deleteOk);
    assert r == CycleLocal(local, Some(blobs), downloadOk, deleteOk);
    PassCovers(blobs, local, downloadOk);
    forall f | f in remote ensures f in r {
      var i :| 0 <= i < |blobs| && NameOf(blobs[i]) != "" && NameOf(blobs[i]) == f;
      assert f in p.local;
    }
    forall f | f in r && f !in remote ensures f in local && !deleteOk(f) {
      forall i | 0 <= i < |blobs| && NameOf(blobs[i]) != "" ensures NameOf(blobs[i]) != f {
        assert NameOf(blobs[i]) in remote;
      }
      PassUntouched(blobs, local, downloadOk, f);
    }
  }

  /** An exception in the download loop skips every removal: the cycle only adds and refreshes files. */
  lemma AbortedCycleDeletesNothing(local: Folder, blobs: seq<Blob>, downloadOk: nat -> bool, deleteOk: string -> bool)
    requires DownloadPass(blobs, local, downloadOk).aborted
    ensures var r := CycleLocal(local, Some(blobs), downloadOk, deleteOk);
      r == DownloadPass(blobs, local, downloadOk).local &&
      forall f :: f in local ==> f in r && r[f] >= local[f]
  {
    PassKeepsLocal(blobs, local, downloadOk);
  }

  /**
    Once a cycle over a listing completed, a second cycle over the same
    listing downloads nothing; if the first cycle's removals all succeeded
    the second leaves the folder unchanged.
  */
  lemma SecondCycleIsIdle(local: Folder, blobs: seq<Blob>, downloadOk: nat -> bool,
                          deleteOk: string -> bool, downloadOk2: nat -> bool, deleteOk2: string -> bool)
    requires !DownloadPass(blobs, local, downloadOk).aborted
    ensures var r := CycleLocal(local, Some(blobs), downloadOk, deleteOk);
      DownloadPass(blobs, r, downloadOk2) == Pass(r, [], false)
    ensures (forall f :: f in local && f !in RemoteNames(blobs) ==> deleteOk(f)) ==>
      var r := CycleLocal(local, Some(blobs), downloadOk, deleteOk);
      CycleLocal(r, Some(blobs), downloadOk2, deleteOk2) == r
  {
    var p := DownloadPass(blobs, local, downloadOk);
    var r := CycleLocal(local, Some(blobs), downloadOk, deleteOk);
    PassCovers(blobs, local, downloadOk);
    CycleMirrors(local, blobs, downloadOk, deleteOk);
    forall i | 0 <= i < |blobs| && NameOf(blobs[i]) != ""
      ensures NameOf(blobs[i]) in r && r[NameOf(blobs[i])] >= blobs[i].mtime
    {
      assert NameOf(blobs[i]) in RemoteNames(blobs);
    }
    CoveredPassIsIdle(blobs, r, downloadOk2);
    if forall f :: f in local && f !in RemoteNames(blobs) ==> deleteOk(f) {
      assert forall f :: f in r ==> f in RemoteNames(blobs);
      assert DeletePass(r, RemoteNames(blobs), deleteOk2) == r;
    }
  }

  // ---------------------------------------------------------------------------
  // The thread

  /**
    What one turn of the sync loop meets: the listing, the download and
    removal results, and the one-second tick of the ten-second sleep before
    which `stop()` is called (10 or more when it is not called in this turn).
  */
  datatype Turn = Turn(listing: Option<seq<Blob>>, downloadOk: nat -> bool,
                       deleteOk: string -> bool, stopBefore: nat)

  function TurnLocal(local: Folder, t: Turn): Folder {
    CycleLocal(local, t.listing, t.downloadOk, t.deleteOk)
  }

  /** The folder after the turns up to and including the one in which the stop is requested. */
  function RunLocal(local: Folder, turns: seq<Turn>): Folder
    decreases |turns|
  {
    if turns == [] then local
    else
      var next := TurnLocal(local, turns[0]);
      if turns[0].stopBefore < 10 then next else RunLocal(next, turns[1..])
  }

  /** The number of cycles run: one per turn up to the first stop request. */
  function CyclesRun(turns: seq<Turn>): (n: nat)
    ensures n <= |turns|
    ensures turns != [] ==> n >= 1
    ensures forall i :: 0 <= i < n - 1 ==> turns[i].stopBefore >= 10
    ensures n < |turns| ==> turns[n - 1].stopBefore < 10
    decreases |turns|
  {
    if turns == [] then 0
    else if turns[0].stopBefore < 10 then 1
    else 1 + CyclesRun(turns[1..])
  }

  /** The seconds slept: ten per completed sleep, and the ticks before the stop in the last one. */
  function SecondsSlept(turns: seq<Turn>): nat
    decreases |turns|
  {
    if turns == [] then 0
    else if turns[0].stopBefore < 10 then turns[0].stopBefore
    else 10 + SecondsSlept(turns[1..])
  }

  /** A run in which the stop is never requested sleeps ten seconds after every cycle. */
  lemma {:induction false} NoStopSleepsTenEach(turns: seq<Turn>)
    requires forall i :: 0 <= i < |turns| ==> turns[i].stopBefore >= 10
    ensures CyclesRun(turns) == |turns| && SecondsSlept(turns) == 10 * |turns|
    decreases |turns|
  {
    if turns != [] {
      NoStopSleepsTenEach(turns[1..]);
    }
  }

  /** Every cycle but the last is followed by the full ten seconds of sleep, the last by at most ten. */
  lemma {:induction false} SleptPerCycle(turns: seq<Turn>)
    ensures 10 * (CyclesRun(turns) - 1) <= SecondsSlept(turns) <= 10 * CyclesRun(turns)
    decreases |turns|
  {
    if turns != [] && turns[0].stopBefore >= 10 {
      SleptPerCycle(turns[1..]);
    }
  }

  class FileSyncer {
    var local: Folder
    var shouldStop: bool
    /** Seconds spent in `time.sleep(1)`. */
    var slept: nat

    constructor(local: Folder)
      ensures this.local == local && !shouldStop && slept == 0
    {
      this.local := local;
      shouldStop := false;
      slept := 0;
    }

    /** `stop()`: requests the loop to end; it is never cleared. */
    method Stop()
      modifies this
      ensures shouldStop && local == old(local) && slept == old(slept)
    {
      shouldStop := true;
    }

    /** The blob loop of a cycle; `aborted` is whether a download raised. */
    method DownloadAll(blobs: seq<Blob>, downloadOk: nat -> bool)
      returns (downloaded: seq<string>, aborted: bool)
      modifies this
      ensures Pass(local, downloaded, aborted) == DownloadPass(blobs, old(local), downloadOk)
      ensures shouldStop == old(shouldStop) && slept == old(slept)
    {
      downloaded, aborted := [], false;
      var i := 0;
      while i < |blobs|
        invariant 0 <= i <= |blobs|
        invariant DownloadPass(blobs[..i], old(local), downloadOk) == Pass(local, downloaded, false)
        invariant shouldStop == old(shouldStop) && slept == old(slept)
      {
        assert blobs[..i + 1][..i] == blobs[..i];
        assert DownloadPass(blobs[..i + 1], old(local), downloadOk)
            == Step(Pass(local, downloaded, false), blobs[i], downloadOk(i));
        var f := Basename(blobs[i].name);
        if f != "" && (f !in local || blobs[i].mtime > local[f]) {
          if !downloadOk(i) {
            aborted := true;
            AbortIsFinal(blobs, old(local), downloadOk, i + 1);
            assert blobs[..|blobs|] == blobs;
            return;
          }
          local := local[f := blobs[i].mtime];
          downloaded := downloaded + [f];
        }
        i := i + 1;
      }
      assert blobs[..|blobs|] == blobs;
    }

    /** The removal loop of a cycle over the local names; a failed removal is skipped. */
    method DeleteMissing(remote: set<string>, deleteOk: string -> bool)
      modifies this
      ensures local == DeletePass(old(local), remote, deleteOk)
      ensures shouldStop == old(shouldStop) && slept == old(slept)
    {
      var names := local.Keys;
      while names != {}
        invariant names <= old(local).Keys
        invariant local == map f | f in old(local) && (f in names || f in remote || !deleteOk(f)) :: old(local)[f]
        invariant shouldStop == old(shouldStop) && slept == old(slept)
        decreases names
      {
        var f :| f in names;
        if f !in remote && deleteOk(f) {
          local := local - {f};
        }
        names := names - {f};
      }
    }

    /** The body of the `try` in `run`: the blob loop, then the removal loop unless a download raised. */
    method Cycle(listing: Option<seq<Blob>>, downloadOk: nat -> bool, deleteOk: string -> bool)
      returns (downloaded: seq<string>)
      modifies this
      ensures local == CycleLocal(old(local), listing, downloadOk, deleteOk)
      ensures listing.Some? ==> downloaded == DownloadPass(listing.value, old(local), downloadOk).downloads
      ensures listing.None? ==> downloaded == []
      ensures shouldStop == old(shouldStop) && slept == old(slept)
    {
      downloaded := [];
      if listing.None? {
        return;
      }
      var blobs := listing.value;
      var aborted;
      downloaded, aborted := DownloadAll(blobs, downloadOk);
      if aborted {
        return;
      }
      var remote := set j | 0 <= j < |blobs| && Basename(blobs[j].name) != "" :: Basename(blobs[j].name);
      assert remote == RemoteNames(blobs);
      DeleteMissing(remote, deleteOk);
    }

    /**
      `run()`, over a finite sequence of turns: while the stop flag is clear,
      one cycle, then up to ten one-second sleeps, each preceded by a check of
      the flag. Errors inside a cycle end that cycle only.
    */
    method Run(turns: seq<Turn>)
      modifies this
      ensures old(shouldStop) ==> local == old(local) && slept == old(slept)
      ensures !old(shouldStop) ==>
        local == RunLocal(old(local), turns) &&
        slept == old(slept) + SecondsSlept(turns) &&
        (shouldStop <==> exists i :: 0 <= i < |turns| && turns[i].stopBefore < 10)
    {
      var k := 0;
      while !shouldStop && k < |turns|
        invariant 0 <= k <= |turns|
        invariant old(shouldStop) ==> shouldStop
        invariant old(shouldStop) ==> k == 0 && local == old(local) && slept == old(slept)
        invariant !old(shouldStop) && !shouldStop ==>
          RunLocal(old(local), turns) == RunLocal(local, turns[k..]) &&
          old(slept) + SecondsSlept(turns) == slept + SecondsSlept(turns[k..]) &&
          forall i :: 0 <= i < k ==> turns[i].stopBefore >= 10
        invariant !old(shouldStop) && shouldStop ==>
          RunLocal(old(local), turns) == local &&
          old(slept) + SecondsSlept(turns) == slept &&
          k >= 1 && turns[k - 1].stopBefore < 10
        decreases |turns| - k
      {
        var turn := turns[k];
        assert turns[k..][0] == turn && turns[k..][1..] == turns[k + 1..];
        var _ := Cycle(turn.listing, turn.downloadOk, turn.deleteOk);
        var tick := 0;
        label Sleep:
        while tick < 10
          invariant 0 <= tick <= 10 && tick <= turn.stopBefore
          invariant !shouldStop && slept == old@Sleep(slept) + tick
          invariant local == old@Sleep(local)
          decreases 10 - tick
        {
          if tick == turn.stopBefore {
            Stop();
          }
          if shouldStop {
            break;
          }
          slept := slept + 1;
          tick := tick + 1;
        }
        k := k + 1;
      }
    }
  }

  /** Once the pass is aborted, the rest of the listing is skipped. */
  lemma {:induction false} AbortIsFinal(blobs: seq<Blob>, local: Folder, downloadOk: nat -> bool, k: nat)
    requires k <= |blobs| && DownloadPass(blobs[..k], local, downloadOk).aborted
    ensures DownloadPass(blobs[..|blobs|], local, downloadOk) == DownloadPass(blobs[..k], local, downloadOk)
    decreases |blobs| - k
  {
    if k < |blobs| {
      assert blobs[..k + 1][..k] == blobs[..k];
      AbortIsFinal(blobs, local, downloadOk, k + 1);
    }
  }
}
