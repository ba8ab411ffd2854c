/**
  `SERV/REST/backup-rest.py`: backs up three root-owned configuration files
  (read through sudo) into `<dest>/SERV/REST/REST-<ts>/`. The sudo
  pre-check comes before the destination is chosen; a missing source is
  skipped without counting; the archive is written inside the run directory
  and leaves itself out.
*/
module BackupRest {
  import opened Base
  import opened PyStr
  import opened Host
  import opened Common
  import opened Cli
  import opened Transfer
  import opened Opening

  const MinGb: nat := 5

  const RsyncOpts: seq<string> := ["rsync", "-aHAX", "--numeric-ids", "--info=stats1", "--sparse"]

  const Sources: seq<Path> := [
    "/etc/mkinitcpio.conf",
    "/usr/share/plymouth/plymouthd.defaults",
    "/usr/lib/sddm/sddm.conf.d/default.conf"]

  /** Each source is copied through sudo. */
  function CopyArgv(src: Path, runDir: Path): (r: seq<string>)
    ensures IsRsync(r)
  {
    ["sudo"] + RsyncOpts + [src, runDir + "/"]
  }

  // ---------------------------------------------------------------------
  // sources.txt
  // ---------------------------------------------------------------------

  /** The text of `sources.txt`. */
  const SourcesText: string := "Sources\n" + JoinWith("\n", Sources) + "\n"

  /** `sources.txt` is the `write_manifest` layout of the sources. */
  lemma SourcesTextIsManifest()
    ensures SourcesText == ManifestText("Sources", Sources)
  {
    JoinLines(Sources);
    assert "Sources\n" == "Sources" + "\n";
  }

  // ---------------------------------------------------------------------
  // The archive
  // ---------------------------------------------------------------------

  function ArchiveName(stamp: string): string { "REST-" + stamp + ".tar.gz" }

  // ---------------------------------------------------------------------
  // main
  // ---------------------------------------------------------------------

  /** The counters the final summary line reports, and the destination chosen. */
  datatype Summary = Summary(copied: nat, skipped: nat, failures: nat, tarFailed: bool, dest: Path)

  /** Where `main()` stops before its first copy, if it does. */
  function Stop(env: Env, args: seq<string>): Option<Status>
  {
    PrepStop(Start(env), args, false, true, MinGb)
  }

  /** The run directory `<dest>/SERV/REST/REST-<timestamp>` of a run that
      gets past the free-space check. */
  function RunDir(env: Env, args: seq<string>): Path
    requires Stop(env, args).None?
  {
    OpenRunDir(Start(env), args, false, true, "SERV/REST", "REST-")
  }

  /** Everything before the copies: the opening with its sudo pre-check,
      the free-space floor and `sources.txt`. There is no flag loop. */
  method Prepare(env: Env, args: seq<string>)
    returns (w: World, compress: bool, dest: Path, runDir: Path, ts: string, stop: Option<Status>)
    ensures w.env == env && RsyncRuns(w.Done()) == 0 && HardRsyncs(w.Done()) == 0
    ensures compress == Compresses(Start(env), args, false)
    ensures stop == Stop(env, args)
    ensures !ToolsFound(Start(env), args, false, true) ==> w == Checked(Start(env), args, false, true)
    ensures stop.None? ==>
      && dest == OpenDest(Start(env), args, false, true)
      && runDir == RunDir(env, args)
      && ts == OpenStamp(Start(env), args, false, true)
      && |w.trace| > 0 && w.trace[|w.trace| - 1] == Write(Join(runDir, "sources.txt"), SourcesText)
  {
    w, compress, dest, ts, runDir, stop := Open(Start(env), args, false, true, "SERV/REST", "REST-");
    if stop.Some? {
      return;
    }
    if !EnoughSpace(env.freeBytes(dest), MinGb) {
      return w, compress, dest, runDir, ts, Some(Exit(1));
    }
    w := Do(w, Write(Join(runDir, "sources.txt"), SourcesText));
  }

  /** The source loop, then the archive when one is wanted. */
  method CopyAndArchive(w: World, runDir: Path, ts: string, compress: bool)
    returns (w': World, failures: nat, copied: nat, skipped: nat, tarFailed: bool)
    ensures w'.env == w.env
    ensures copied + skipped == |Sources|
    ensures copied == |Existing(w.env, Sources)|
    ensures RsyncRuns(w'.Done()) == RsyncRuns(w.Done()) + copied
    ensures HardRsyncs(w'.Done()) == HardRsyncs(w.Done()) + failures
    ensures !compress ==> !tarFailed
    ensures compress ==>
      LastTar(w'.Done()).Some? && (tarFailed <==> TarFailedLenient(LastTar(w'.Done()).value.code))
  {
    w', failures, copied, skipped := CopyExisting(w, Sources, s => CopyArgv(s, runDir));
    tarFailed := false;
    if compress {
      w', tarFailed := ArchiveInPlace(w', runDir, ArchiveName(ts));
    }
  }

  /** `main()`. `summary` is present exactly when the run reaches its
      summary line. */
  method RunScript(env: Env, args: seq<string>) returns (w: World, status: Status, summary: Option<Summary>)
    ensures w.env == env
    ensures !ToolsFound(Start(env), args, false, true) ==> w == Checked(Start(env), args, false, true)
    ensures Stop(env, args).Some? ==> status == Stop(env, args).value && summary.None?
    ensures summary.Some? <==> Stop(env, args).None?
    ensures summary.None? ==> status != Return(0) && RsyncRuns(w.Done()) == 0
    ensures summary.Some? ==>
      var s := summary.value;
      && s.dest == OpenDest(Start(env), args, false, true)
      && s.copied + s.skipped == |Sources|
      && s.copied == |Existing(env, Sources)| == RsyncRuns(w.Done())
      && s.failures == HardRsyncs(w.Done())
      && status == Verdict(s.failures, s.tarFailed)
    ensures summary.Some? ==>
      if Compresses(Start(env), args, false) then
        LastTar(w.Done()).Some? && (summary.value.tarFailed <==> TarFailedLenient(LastTar(w.Done()).value.code))
      else !summary.value.tarFailed
  {
    var compress, dest, runDir, ts, stop;
    w, compress, dest, runDir, ts, stop := Prepare(env, args);
    if stop.Some? {
      return w, stop.value, None;
    }
    var failures, copied, skipped, tarFailed;
    w, failures, copied, skipped, tarFailed := CopyAndArchive(w, runDir, ts, compress);
    status := Verdict(failures, tarFailed);
    summary := Some(Summary(copied, skipped, failures, tarFailed, dest));
  }
}
