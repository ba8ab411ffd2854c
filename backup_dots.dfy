/**
  `DOTS/backup-dots.py`: backs up the dotfiles `.config` tree, the Hyprland
  settings file and the two restore scripts into `<dest>/DOTS/DOTS-<ts>/`.
  Every declared source is required: a missing one is a failure. The
  manifest is written before `--manifest-only` is looked at.
*/
module BackupDots {
  import opened Base
  import opened PyStr
  import opened Host
  import opened Common
  import opened Cli
  import opened Transfer
  import opened Opening

  /** The flag loop knows `--no-compress` besides the common two. */
  const G: Grammar := Grammar(noCompress := true, keep := false, noRestart := false)

  const MinGb: nat := 20

  const RsyncOpts: seq<string> := ["rsync", "-aAXH", "--numeric-ids", "--sparse", "--info=stats1"]

  /** The dotfiles tree, copied by content into the run directory. */
  function ConfigRoot(user: string): Path
  {
    "/home/" + user + "/.mydotfiles/com.ml4w.dotfiles.stable/.config"
  }

  function Hyprctl(user: string): Path
  {
    "/home/" + user + "/.config/com.ml4w.hyprlandsettings/hyprctl.json"
  }

  function RestoreScripts(user: string): seq<Path>
  {
    ["/home/" + user + "/Code/BACKUP/DOTS/restore-dots.sh",
     "/home/" + user + "/Code/BACKUP/DOTS/restore-dots.py"]
  }

  /** The single files, each copied by name after the tree. */
  function FileSources(user: string): seq<Path> { [Hyprctl(user)] + RestoreScripts(user) }

  /** The four declared sources, in the order the manifest lists them. */
  function Sources(user: string): seq<Path> { [ConfigRoot(user)] + FileSources(user) }

  function TreeArgv(user: string, runDir: Path): (r: seq<string>)
    ensures IsRsync(r)
  {
    RsyncOpts + [ConfigRoot(user) + "/", runDir + "/"]
  }

  function FileArgv(src: Path, runDir: Path): (r: seq<string>)
    ensures IsRsync(r)
  {
    RsyncOpts + [src, runDir + "/"]
  }

  /** Declared sources that are not there: the tree when it is not a
      directory, each file source that is not a regular file. */
  function Missing(env: Env): nat
  {
    (if env.IsDir(ConfigRoot(env.user)) then 0 else 1)
      + (|FileSources(env.user)| - |Files(env, FileSources(env.user))|)
  }

  /** Each of the four sources counts at most once, and none counts exactly
      when all of them are there. */
  lemma MissingCounts(env: Env)
    ensures Missing(env) <= |Sources(env.user)|
    ensures Missing(env) == 0 <==>
      env.IsDir(ConfigRoot(env.user)) && forall p :: p in FileSources(env.user) ==> env.IsFile(p)
  {
    var fs := FileSources(env.user);
    FilesAll(env, fs);
    assert (forall p :: p in fs ==> env.IsFile(p)) <==> (forall k :: 0 <= k < |fs| ==> env.IsFile(fs[k]));
  }

  /** The copies: the tree, then each file source. A missing source or a
      hard rsync failure counts one, and the next source is tried either way. */
  method Copies(w: World, runDir: Path) returns (w': World, failures: nat)
    ensures w'.env == w.env && w'.Asked() == w.Asked()
    ensures HardRsyncs(w.Done()) <= HardRsyncs(w'.Done())
    ensures failures == Missing(w.env) + (HardRsyncs(w'.Done()) - HardRsyncs(w.Done()))
    ensures RsyncRuns(w'.Done()) == RsyncRuns(w.Done()) + (|Sources(w.env.user)| - Missing(w.env))
  {
    var user := w.env.user;
    var treeFailed;
    w', treeFailed := CopyRequired(w, w.env.IsDir(ConfigRoot(user)), TreeArgv(user, runDir));
    var fileFailures;
    w', fileFailures := CopyFiles(w', FileSources(user), src => FileArgv(src, runDir));
    failures := (if treeFailed then 1 else 0) + fileFailures;
  }

  /** The counters the final summary line reports, and the destination chosen. */
  datatype Summary = Summary(failures: nat, tarFailed: bool, dest: Path)

  function ArchivePath(runDir: Path, stamp: string): Path { Join(runDir, "DOTS-" + stamp + ".tar.gz") }

  /** The manifest step: the four sources under the title `Sources`. */
  function ManifestWrite(user: string, runDir: Path): Event
  {
    Write(Join(runDir, "sources.txt"), ManifestText("Sources", Sources(user)))
  }

  /** Where `main()` stops before its first copy, if it does. */
  function Stop(env: Env, args: seq<string>): Option<Status>
  {
    PrepStop(Start(env), args, Scan(args, G, Defaults).noCompress, false, MinGb)
  }

  /** The run directory `<dest>/DOTS/DOTS-<timestamp>` of a run that gets
      past the free-space check. */
  function RunDir(env: Env, args: seq<string>): Path
    requires Stop(env, args).None?
  {
    OpenRunDir(Start(env), args, Scan(args, G, Defaults).noCompress, false, "DOTS", "DOTS-")
  }

  /** Everything before the copies: the flags, the opening, the free-space
      floor, the manifest and then the log directory. */
  method Prepare(env: Env, args: seq<string>)
    returns (w: World, f: Flags, compress: bool, dest: Path, runDir: Path, ts: string, stop: Option<Status>)
    ensures f == Scan(args, G, Defaults)
    ensures w.env == env && RsyncRuns(w.Done()) == 0 && HardRsyncs(w.Done()) == 0
    ensures compress == Compresses(Start(env), args, f.noCompress)
    ensures stop == Stop(env, args)
    ensures !ToolsFound(Start(env), args, f.noCompress, false) ==> w == Greeted(Start(env), args, f.noCompress)
    ensures stop.None? ==>
      && dest == OpenDest(Start(env), args, f.noCompress, false)
      && runDir == RunDir(env, args)
      && ts == OpenStamp(Start(env), args, f.noCompress, false)
      && ManifestWrite(env.user, runDir) in w.trace
  {
    f := ScanFlags(args, G);
    w, compress, dest, ts, runDir, stop := Open(Start(env), args, f.noCompress, false, "DOTS", "DOTS-");
    if stop.Some? {
      return;
    }
    if !EnoughSpace(env.freeBytes(dest), MinGb) {
      return w, f, compress, dest, runDir, ts, Some(Exit(1));
    }
    w := WriteManifest(w, Join(runDir, "sources.txt"), "Sources", Sources(env.user));
    if f.logDir != "" {
      w := Do(w, Mkdir(f.logDir));
    }
  }

  method CopyAndArchive(w: World, runDir: Path, ts: string, compress: bool)
    returns (w': World, failures: nat, tarFailed: bool)
    ensures w'.env == w.env
    ensures HardRsyncs(w.Done()) <= HardRsyncs(w'.Done())
    ensures failures == Missing(w.env) + (HardRsyncs(w'.Done()) - HardRsyncs(w.Done()))
    ensures RsyncRuns(w'.Done()) == RsyncRuns(w.Done()) + (|Sources(w.env.user)| - Missing(w.env))
    ensures !compress ==> !tarFailed
    ensures compress ==>
      LastTar(w'.Done()).Some? && (tarFailed <==> TarFailedStrict(LastTar(w'.Done()).value.code))
    ensures compress ==>
      && |w'.trace| > 0
      && w'.trace[|w'.trace| - 1] == (if tarFailed then Unlink(w.env.tempName) else Move(w.env.tempName, ArchivePath(runDir, ts)))
  {
    w', failures := Copies(w, runDir);
    tarFailed := false;
    if compress {
      w', tarFailed := TarToTemp(w', runDir, ArchivePath(runDir, ts));
    }
  }

  /** `main()`. `summary` is present exactly when the run reaches its
      summary line; `runDir` is the run directory once it is made. */
  method RunScript(env: Env, args: seq<string>) returns (w: World, status: Status, runDir: Path, summary: Option<Summary>)
    ensures w.env == env
    ensures !ToolsFound(Start(env), args, Scan(args, G, Defaults).noCompress, false) ==>
      w == Greeted(Start(env), args, Scan(args, G, Defaults).noCompress)
    ensures Stop(env, args).Some? ==> status == Stop(env, args).value && summary.None?
    ensures Stop(env, args).None? && Scan(args, G, Defaults).manifestOnly ==>
      status == Return(0) && runDir == RunDir(env, args) && ManifestWrite(env.user, runDir) in w.trace
    ensures summary.Some? <==> Stop(env, args).None? && !Scan(args, G, Defaults).manifestOnly
    ensures summary.None? ==> RsyncRuns(w.Done()) == 0
    ensures summary.Some? ==>
      var s := summary.value;
      && s.dest == OpenDest(Start(env), args, Scan(args, G, Defaults).noCompress, false)
      && s.failures == Missing(env) + HardRsyncs(w.Done())
      && RsyncRuns(w.Done()) == |Sources(env.user)| - Missing(env)
      && status == Verdict(s.failures, s.tarFailed)
    ensures summary.Some? ==>
      if Compresses(Start(env), args, Scan(args, G, Defaults).noCompress) then
        LastTar(w.Done()).Some? && (summary.value.tarFailed <==> TarFailedStrict(LastTar(w.Done()).value.code))
      else !summary.value.tarFailed
  {
    var f, compress, dest, ts, stop;
    w, f, compress, dest, runDir, ts, stop := Prepare(env, args);
    if stop.Some? {
      return w, stop.value, runDir, None;
    }
    if f.manifestOnly {
      return w, Return(0), runDir, None;
    }
    var failures, tarFailed;
    w, failures, tarFailed := CopyAndArchive(w, runDir, ts, compress);
    status := Verdict(failures, tarFailed);
    summary := Some(Summary(failures, tarFailed, dest));
  }
}
