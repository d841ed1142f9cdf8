/** The two-binary install: any file operation may fail at any point. */
module Upgrade {
  import opened Base

  /** The names the install touches in its directory; backups carry fresh random names. */
  datatype Path = CoreDest | ServerDest | StagedCore | StagedServer | CoreBackup | ServerBackup

  type Files = map<Path, Bytes>

  datatype Outcome =
    | Installed
    | NotInstalled      // an error, with both destinations as before
    | RollbackFailed    // an error that says the core could not be put back

  /** Which operations the file system refuses. Best-effort removals may always fail. */
  datatype Faults = Faults(
    coreBackup: bool, serverBackup: bool, coreRename: bool, serverRename: bool, rollback: bool)

  /** Both installed binaries, as far as there are any, can be backed up. */
  predicate BackupsWork(before: Files, faults: Faults) {
    !(CoreDest in before && faults.coreBackup) && !(ServerDest in before && faults.serverBackup)
  }

  predicate CoreGoesIn(before: Files, faults: Faults) {
    BackupsWork(before, faults) && StagedCore in before && !faults.coreRename
  }

  /** The outcome of an install, from what fails. */
  function Expected(before: Files, faults: Faults): Outcome {
    if !CoreGoesIn(before, faults) then NotInstalled
    else if StagedServer in before && !faults.serverRename then Installed
    else if faults.rollback then RollbackFailed
    else NotInstalled
  }

  ghost predicate SameAt(a: Files, b: Files, p: Path) {
    (p in a <==> p in b) && (p in a ==> a[p] == b[p])
  }

  ghost predicate Holds(f: Files, p: Path, bytes: Bytes) { p in f && f[p] == bytes }

  /** Each installed binary of `before` is still at its destination or its backup. */
  ghost predicate OldPreserved(before: Files, now: Files) {
    && (CoreDest in before ==>
          Holds(now, CoreDest, before[CoreDest]) || Holds(now, CoreBackup, before[CoreDest]))
    && (ServerDest in before ==>
          Holds(now, ServerDest, before[ServerDest]) || Holds(now, ServerBackup, before[ServerDest]))
  }

  ghost predicate BothNew(before: Files, now: Files) {
    && StagedCore in before && StagedServer in before
    && Holds(now, CoreDest, before[StagedCore]) && Holds(now, ServerDest, before[StagedServer])
  }

  ghost predicate Safe(before: Files, now: Files) { OldPreserved(before, now) || BothNew(before, now) }

  ghost predicate AllSafe(before: Files, history: seq<Files>) { forall h :: h in history ==> Safe(before, h) }

  /** States in which neither destination changed are safe. */
  lemma UntouchedIsSafe(before: Files, earlier: seq<Files>, history: seq<Files>)
    requires AllSafe(before, earlier) && earlier <= history
    requires forall i :: |earlier| <= i < |history| ==>
      SameAt(before, history[i], CoreDest) && SameAt(before, history[i], ServerDest)
    ensures AllSafe(before, history)
  {
    forall h | h in history ensures Safe(before, h) {
      var i :| 0 <= i < |history| && history[i] == h;
      if i < |earlier| {
        assert earlier[i] == h;
      }
    }
  }

  class InstallDir {
    var files: Files
    /** Every state the directory has been in, the present one last. */
    ghost var history: seq<Files>

    ghost predicate Recording()
      reads this
    {
      history != [] && history[|history| - 1] == files
    }

    constructor (files: Files)
      ensures this.files == files && history == [files]
    {
      this.files, history := files, [files];
    }

    method Rename(source: Path, target: Path, fails: bool) returns (ok: bool)
      requires source != target
      modifies this
      ensures history == old(history) + [files]
      ensures ok <==> source in old(files) && !fails
      ensures ok ==> files == (old(files) - {source})[target := old(files)[source]]
      ensures !ok ==> files == old(files)
    {
      ok := false;
      if source in files && !fails {
        files := (files - {source})[target := files[source]];
        ok := true;
      }
      history := history + [files];
    }

    method Remove(p: Path, fails: bool) returns (ok: bool)
      modifies this
      ensures history == old(history) + [files]
      ensures ok <==> p in old(files) && !fails
      ensures files == if ok then old(files) - {p} else old(files)
    {
      ok := false;
      if p in files && !fails {
        files := files - {p};
        ok := true;
      }
      history := history + [files];
    }

    /** Not atomic: the target passes through partial contents, and a failure can leave them. */
    method Copy(source: Path, target: Path, fails: bool) returns (ok: bool)
      requires source != target && source in files
      modifies this
      ensures ok <==> !fails
      ensures |history| == |old(history)| + 2 && old(history) <= history && Recording()
      ensures ok ==> files == old(files)[target := old(files)[source]]
      ensures forall i, p :: |old(history)| <= i < |history| && p != target ==> SameAt(old(files), history[i], p)
    {
      var partial: Bytes := *;
      ghost var before := files;
      files := files[target := partial];
      history := history + [files];
      ok := !fails;
      if ok {
        files := files[target := files[source]];
      }
      history := history + [files];
    }

    /** Backs up an installed binary, if there is one. */
    method BackupBinary(destination: Path, backup: Path, fails: bool) returns (ok: bool, taken: bool)
      requires destination != backup && backup !in files && Recording()
      modifies this
      ensures Recording() && old(history) <= history
      ensures ok <==> !(destination in old(files) && fails)
      ensures ok ==> (taken <==> destination in old(files))
      ensures ok && taken ==> files == old(files)[backup := old(files)[destination]]
      ensures ok && !taken ==> files == old(files)
      ensures forall i, p :: |old(history)| <= i < |history| && p != backup ==> SameAt(old(files), history[i], p)
    {
      if destination !in files {
        return true, false;
      }
      taken := true;
      ok := Copy(destination, backup, fails);
    }

    /** Puts the old core back, or removes the new one if there was none. */
    method RollbackCore(taken: bool, fails: bool) returns (ok: bool)
      requires Recording() && (taken ==> CoreBackup in files)
      modifies this
      ensures ok <==> !((taken || CoreDest in old(files)) && fails)
      ensures Recording() && |history| <= |old(history)| + 1 && old(history) <= history
      ensures ok && taken ==> files == (old(files) - {CoreBackup})[CoreDest := old(files)[CoreBackup]]
      ensures ok && !taken ==> files == old(files) - {CoreDest}
      ensures !ok ==> files == old(files)
    {
      if taken {
        ok := Rename(CoreBackup, CoreDest, fails);
      } else if CoreDest in files {
        ok := Remove(CoreDest, fails);
      } else {
        ok := true;
      }
    }

    /** A best-effort removal of a file that is neither destination. */
    method Discard(p: Path, ghost before: Files)
      requires p != CoreDest && p != ServerDest && Recording()
      requires AllSafe(before, history) && Safe(before, files - {p})
      modifies this
      ensures files == old(files) - {p} || files == old(files)
      ensures Recording()
      ensures SameAt(old(files), files, CoreDest) && SameAt(old(files), files, ServerDest)
      ensures p != CoreBackup ==> SameAt(old(files), files, CoreBackup)
      ensures AllSafe(before, history)
    {
      var fails: bool := *;
      var _ := Remove(p, fails);
    }

    /** Both backups exist where needed and nothing else changed. */
    ghost predicate BackedUp(before: Files, coreTaken: bool, serverTaken: bool)
      reads this
    {
      && Recording() && AllSafe(before, history)
      && SameAt(before, files, CoreDest) && SameAt(before, files, ServerDest)
      && SameAt(before, files, StagedCore) && SameAt(before, files, StagedServer)
      && (coreTaken <==> CoreDest in before) && (serverTaken <==> ServerDest in before)
      && (coreTaken ==> Holds(files, CoreBackup, before[CoreDest]))
      && (serverTaken ==> Holds(files, ServerBackup, before[ServerDest]))
    }

    /** The first half of the install: both backups, undone if the second fails. */
    method TakeBackups(ghost before: Files, faults: Faults) returns (ok: bool, coreTaken: bool, serverTaken: bool)
      requires history == [files] == [before] && CoreBackup !in files && ServerBackup !in files
      modifies this
      ensures ok <==> BackupsWork(before, faults)
      ensures ok ==> BackedUp(before, coreTaken, serverTaken)
      ensures AllSafe(before, history)
      ensures SameAt(before, files, CoreDest) && SameAt(before, files, ServerDest)
    {
      serverTaken := false;
      assert AllSafe(before, history);
      ok, coreTaken := BackupBinary(CoreDest, CoreBackup, faults.coreBackup);
      UntouchedIsSafe(before, [before], history);
      if !ok {
        return;
      }
      ghost var earlier, mid := history, files;
      ok, serverTaken := BackupBinary(ServerDest, ServerBackup, faults.serverBackup);
      forall i | |earlier| <= i < |history|
        ensures SameAt(before, history[i], CoreDest) && SameAt(before, history[i], ServerDest)
      {
        assert SameAt(mid, history[i], CoreDest) && SameAt(mid, history[i], ServerDest);
      }
      UntouchedIsSafe(before, earlier, history);
      if !ok && coreTaken {
        Discard(CoreBackup, before);
      }
    }

    /** The server could not be replaced: roll the new core back. */
    method UndoCore(ghost before: Files, coreTaken: bool, serverTaken: bool, fails: bool) returns (r: Outcome)
      requires CoreDest in files && Recording() && AllSafe(before, history) && SameAt(before, files, ServerDest)
      requires coreTaken <==> CoreDest in before
      requires coreTaken ==> Holds(files, CoreBackup, before[CoreDest])
      modifies this
      ensures AllSafe(before, history) && SameAt(before, files, ServerDest)
      ensures r.NotInstalled? ==> SameAt(before, files, CoreDest)
      ensures r.RollbackFailed? && CoreDest in before ==> Holds(files, CoreBackup, before[CoreDest])
      ensures r == if fails then RollbackFailed else NotInstalled
    {
      var back := RollbackCore(coreTaken, fails);
      assert Safe(before, files);
      if serverTaken {
        Discard(ServerBackup, before);
      }
      Discard(StagedServer, before);
      return if back then NotInstalled else RollbackFailed;
    }

    method DiscardBackups(ghost before: Files, coreTaken: bool, serverTaken: bool)
      requires Recording() && AllSafe(before, history)
      requires Safe(before, files - {CoreBackup}) && Safe(before, files - {ServerBackup})
      requires Safe(before, files - {CoreBackup} - {ServerBackup})
      modifies this
      ensures Recording() && AllSafe(before, history)
      ensures SameAt(old(files), files, CoreDest) && SameAt(old(files), files, ServerDest)
    {
      if coreTaken {
        Discard(CoreBackup, before);
      }
      if serverTaken {
        Discard(ServerBackup, before);
      }
    }

    /** The new core is in: replace the server, or roll the core back. */
    method ReplaceServer(ghost before: Files, coreTaken: bool, serverTaken: bool, faults: Faults) returns (r: Outcome)
      requires Recording() && AllSafe(before, history)
      requires StagedCore in before && Holds(files, CoreDest, before[StagedCore])
      requires SameAt(before, files, ServerDest) && SameAt(before, files, StagedServer)
      requires (coreTaken <==> CoreDest in before) && (serverTaken <==> ServerDest in before)
      requires coreTaken ==> Holds(files, CoreBackup, before[CoreDest])
      requires serverTaken ==> Holds(files, ServerBackup, before[ServerDest])
      modifies this
      ensures r == if StagedServer in before && !faults.serverRename then Installed
                   else if faults.rollback then RollbackFailed
                   else NotInstalled
      ensures r.Installed? ==> BothNew(before, files)
      ensures r.NotInstalled? ==> SameAt(before, files, CoreDest) && SameAt(before, files, ServerDest)
      ensures r.RollbackFailed? ==>
        && SameAt(before, files, ServerDest)
        && (CoreDest in before ==> Holds(files, CoreBackup, before[CoreDest]))
      ensures AllSafe(before, history)
    {
      var serverIn := Rename(StagedServer, ServerDest, faults.serverRename);
      if serverIn {
        DiscardBackups(before, coreTaken, serverTaken);
        return Installed;
      }
      r := UndoCore(before, coreTaken, serverTaken, faults.rollback);
    }

    /** The second half: replace the core, then the server, rolling back as needed. */
    method ReplaceBoth(ghost before: Files, coreTaken: bool, serverTaken: bool, faults: Faults) returns (r: Outcome)
      requires BackedUp(before, coreTaken, serverTaken) && BackupsWork(before, faults)
      modifies this
      ensures r == Expected(before, faults)
      ensures r.Installed? ==> BothNew(before, files)
      ensures r.NotInstalled? ==> SameAt(before, files, CoreDest) && SameAt(before, files, ServerDest)
      ensures r.RollbackFailed? ==>
        && SameAt(before, files, ServerDest)
        && (CoreDest in before ==> Holds(files, CoreBackup, before[CoreDest]))
      ensures AllSafe(before, history)
    {
      var coreIn := Rename(StagedCore, CoreDest, faults.coreRename);
      if !coreIn {
        DiscardBackups(before, coreTaken, serverTaken);
        return NotInstalled;
      }
      r := ReplaceServer(before, coreTaken, serverTaken, faults);
    }

    /** The install succeeds exactly when nothing it needs fails. Success means both
        binaries are new; an error means both are as before, absent
        ones included, unless it is the error that reports a failed rollback, and then
        the old core's bytes are still in its backup. In every intermediate state each
        old binary is at its destination or its backup, until both are replaced. */
    method InstallStagedPair(faults: Faults) returns (r: Outcome)
      requires history == [files] && CoreBackup !in files && ServerBackup !in files
      modifies this
      ensures r == Expected(old(files), faults)
      ensures r.Installed? <==>
        && StagedCore in old(files) && StagedServer in old(files)
        && !faults.coreRename && !faults.serverRename
        && (CoreDest in old(files) ==> !faults.coreBackup)
        && (ServerDest in old(files) ==> !faults.serverBackup)
      ensures r.RollbackFailed? <==>
        && (CoreDest in old(files) ==> !faults.coreBackup)
        && (ServerDest in old(files) ==> !faults.serverBackup)
        && StagedCore in old(files) && !faults.coreRename
        && (StagedServer in old(files) ==> faults.serverRename)
        && faults.rollback
      ensures r.Installed? ==> BothNew(old(files), files)
      ensures r.NotInstalled? ==> SameAt(old(files), files, CoreDest) && SameAt(old(files), files, ServerDest)
      ensures r.RollbackFailed? ==>
        && SameAt(old(files), files, ServerDest)
        && (CoreDest in old(files) ==> Holds(files, CoreBackup, old(files)[CoreDest]))
      ensures AllSafe(old(files), history)
    {
      var ok, coreTaken, serverTaken := TakeBackups(files, faults);
      if !ok {
        return NotInstalled;
      }
      r := ReplaceBoth(old(files), coreTaken, serverTaken, faults);
    }
  }
}
