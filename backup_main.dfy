/**
  `MAIN/backup-main.py`: the home-directory backup. It copies the listed
  home folders that exist into `<dest>/MAIN/BKP-<ts>/`, skipping (not
  failing) the missing ones, optionally archives the run directory in
  place, trims its log and exits 1 iff an rsync or the archive failed.
*/
module BackupMain {
  import opened Base
  import opened PyStr
  import opened Host
  import opened Common
  import opened Cli
  import opened Transfer
  import opened Opening

  /** The flags this script's loop recognises. */
  const G: Grammar := Grammar(noCompress := true, keep := false, noRestart := false)

  const MinGb: nat := 20

  const RsyncOpts: seq<string> := ["rsync", "-aAXH", "--numeric-ids", "--sparse", "--info=stats1"]

  /** `common_excludes`: `--exclude` and a pattern, nineteen times. */
  const CommonExcludes: seq<string> := [
    "--exclude", ".cache/",
    "--exclude", ".var/app/",
    "--exclude", ".subversion/",
    "--exclude", ".mozilla/",
    "--exclude", ".local/share/fonts/",
    "--exclude", ".local/share/fonts/NerdFonts/",
    "--exclude", ".vscode-oss/",
    "--exclude", "Trash/",
    "--exclude", ".config/*/Cache/",
    "--exclude", ".config/*/cache/",
    "--exclude", ".config/*/Code Cache/",
    "--exclude", ".config/*/GPUCache/",
    "--exclude", ".config/*/CachedData/",
    "--exclude", ".config/*/CacheStorage/",
    "--exclude", ".config/*/Service Worker/",
    "--exclude", ".config/*/IndexedDB/",
    "--exclude", ".config/*/Local Storage/",
    "--exclude", ".config/rambox/",
    "--exclude", ".rustup/"]

  /** The sources, relative to the home directory, in copy order. */
  const SourceNames: seq<string> := [
    "Documents", "Downloads", "Pictures", "Obsidian", "Working", "Shared", "VM", "Code",
    "Videos", ".config", ".var", ".ssh", ".icons", ".themes", ".mydotfiles", ".local",
    ".oh-my-zsh", "Code/BACKUP/MAIN/restore-main.sh", "Code/BACKUP/MAIN/restore-main.py"]

  /** The sources, `/home/<user>/<name>` for each name in order. */
  function Sources(user: string): (r: seq<Path>)
    ensures |r| == |SourceNames|
    ensures forall i :: 0 <= i < |r| ==> r[i] == Join("/home/" + user, SourceNames[i])
  {
    seq(|SourceNames|, i requires 0 <= i < |SourceNames| => Join("/home/" + user, SourceNames[i]))
  }

  // ---------------------------------------------------------------------
  // The excludes manifest
  // ---------------------------------------------------------------------

  /** `[xs[i + 1] for i in range(0, len(xs), 2)]`: the entries at odd indices. */
  function OddEntries(xs: seq<string>): (r: seq<string>)
    requires |xs| % 2 == 0
    ensures |r| == |xs| / 2
    ensures forall i :: 0 <= i < |r| ==> r[i] == xs[2 * i + 1]
  {
    seq(|xs| / 2, i requires 0 <= i < |xs| / 2 => xs[2 * i + 1])
  }

  /** Each pattern preceded by `--exclude`, as rsync takes them. */
  function ExcludeArgs(patterns: seq<string>): (r: seq<string>)
    ensures |r| == 2 * |patterns|
  {
    if patterns == [] then [] else ["--exclude", patterns[0]] + ExcludeArgs(patterns[1..])
  }

  /** The excludes manifest loses nothing: rebuilding rsync arguments from the
      listed patterns gives back the excludes rsync was given. */
  lemma {:induction false} ExcludesRoundTrip(xs: seq<string>)
    requires |xs| % 2 == 0
    requires forall i :: 0 <= i < |xs| / 2 ==> xs[2 * i] == "--exclude"
    ensures ExcludeArgs(OddEntries(xs)) == xs
    decreases |xs|
  {
    if xs != [] {
      var rest := xs[2..];
      forall i | 0 <= i < |rest| / 2
        ensures rest[2 * i] == "--exclude"
      {
        assert rest[2 * i] == xs[2 * (i + 1)];
      }
      ExcludesRoundTrip(rest);
      assert OddEntries(xs) == [xs[1]] + OddEntries(rest);
    }
  }

  /** The listed patterns are the excludes rsync is given, in order. */
  lemma CommonExcludesListed()
    ensures ExcludeArgs(OddEntries(CommonExcludes)) == CommonExcludes
    ensures |OddEntries(CommonExcludes)| == 19
  {
    var xs := CommonExcludes;
    assert forall i :: 0 <= i < |xs| / 2 ==> xs[2 * i] == "--exclude";
    ExcludesRoundTrip(xs);
  }

  // ---------------------------------------------------------------------
  // The copy loop
  // ---------------------------------------------------------------------

  /** The per-source excludes, chosen by the source's final name alone. */
  function ExtraExcludes(src: Path): seq<string>
  {
    ExtraFor(BaseName(src))
  }

  /** The extra patterns for a source named `name`. */
  function ExtraFor(name: string): seq<string>
  {
    (if name == "VM" then ["--exclude", "ISO/"] else [])
    + (if name == "Downloads" then ["--exclude", "*.iso"] else [])
    + (if name == ".ssh" then ["--exclude", "agent/"] else [])
  }

  /** The three special folders get exactly one extra pattern each; any other
      name gets none. */
  lemma ExtraExcludesByName(name: string)
    ensures name == "VM" ==> ExtraFor(name) == ["--exclude", "ISO/"]
    ensures name == "Downloads" ==> ExtraFor(name) == ["--exclude", "*.iso"]
    ensures name == ".ssh" ==> ExtraFor(name) == ["--exclude", "agent/"]
    ensures name != "VM" && name != "Downloads" && name != ".ssh" ==> ExtraFor(name) == []
  {
  }

  /** Where a source lives does not matter, only its final name. */
  lemma ExtraExcludesOfJoin(home: Path, name: string)
    requires '/' !in name
    ensures ExtraExcludes(Join(home, name)) == ExtraFor(name)
  {
    BaseNameJoin(home, name);
  }

  function CopyArgv(src: Path, backupDir: Path): (r: seq<string>)
    ensures IsRsync(r)
  {
    RsyncOpts + CommonExcludes + ExtraExcludes(src) + [src, backupDir + "/"]
  }

  // ---------------------------------------------------------------------
  // The archive
  // ---------------------------------------------------------------------

  function ArchiveName(stamp: string): string { "BKP-" + stamp + ".tar.gz" }

  function LogName(stamp: string): string { "BKP-" + stamp + ".log" }

  /** The archive is written inside the directory it archives, so it leaves
      out itself and the run's log. */
  function TarArgv(backupDir: Path, stamp: string): seq<string>
  {
    ["tar", "--use-compress-program=pigz", "--warning=no-file-changed",
     "--exclude", "./" + ArchiveName(stamp), "--exclude", "./" + LogName(stamp),
     "-cpf", Join(backupDir, ArchiveName(stamp)), "-C", backupDir, "."]
  }

  /** The archive step: exit status 1 is a warning, any other non-zero
      status sets `tarFailed`. */
  method Archive(w: World, backupDir: Path, stamp: string) returns (w': World, tarFailed: bool)
    ensures w' == w.Running(TarArgv(backupDir, stamp))
    ensures tarFailed <==> TarFailedLenient(w.env.procs(w.Ran()).code)
    ensures HardRsyncs(w'.Done()) == HardRsyncs(w.Done()) && RsyncRuns(w'.Done()) == RsyncRuns(w.Done())
    ensures LastTar(w'.Done()) == Some(w.env.procs(w.Ran()))
  {
    RunningLastTar(w, TarArgv(backupDir, stamp));
    var p;
    w', p := RunOther(w, TarArgv(backupDir, stamp));
    tarFailed := p.code != 0 && p.code != 1;
  }

  // ---------------------------------------------------------------------
  // trim_log and the interrupt handler
  // ---------------------------------------------------------------------

  const MaxBytes: nat := 5 * 1024 * 1024
  const MaxLines: nat := 5000

  /** What `trim_log` leaves in a log of `size` bytes whose text reads as
      `text`: a small log is untouched; a large one keeps its last
      `maxLines` lines (`readlines()[-maxLines:]`). */
  function Trimmed(size: nat, text: string, maxBytes: int, maxLines: int): string
  {
    if size <= maxBytes then text else Concat(SliceFrom(ReadLines(text), -maxLines))
  }

  /** A trimmed log is a tail of the old one made of its last `maxLines`
      lines, or all of them when there are fewer. */
  lemma TrimKeepsLastLines(size: nat, text: string, maxBytes: int, maxLines: int)
    requires size > maxBytes && maxLines > 0
    ensures var r := Trimmed(size, text, maxBytes, maxLines);
      var ls := ReadLines(text);
      && |r| <= |text| && r == text[|text| - |r|..]
      && ReadLines(r) == ls[|ls| - (if maxLines < |ls| then maxLines else |ls|)..]
  {
    var ls := ReadLines(text);
    var kept := SliceFrom(ls, -maxLines);
    var j := |ls| - |kept|;
    assert kept == ls[j..];
    ConcatTail(text, j);
    ReadTail(text, j);
    var r := Concat(kept);
    assert r == Trimmed(size, text, maxBytes, maxLines);
    assert r == text[LineStart(text, j)..];
  }

  /** A log no larger than the limit is left as it is. */
  lemma TrimSmallLog(size: nat, text: string)
    requires size <= MaxBytes
    ensures Trimmed(size, text, MaxBytes, MaxLines) == text
  {
  }

  /** `handle_signal`: on SIGINT or SIGTERM the log is trimmed and the
      script exits with 130. */
  method Interrupt(w: World, logPath: Path) returns (w': World, status: Status)
    ensures w' == w.Doing(TrimLog(logPath))
    ensures status == Exit(130)
  {
    w' := Do(w, TrimLog(logPath));
    status := Exit(130);
  }

  // ---------------------------------------------------------------------
  // main
  // ---------------------------------------------------------------------

  /** The counters the final summary line reports. */
  datatype Summary = Summary(total: nat, skipped: nat, failures: nat, tarFailed: bool)

  /** Where the log goes: `--log-dir` if given, else the run directory. */
  function LogPath(logDir: string, backupDir: Path, stamp: string): Path
  {
    if logDir != "" then Join(logDir, LogName(stamp)) else Join(backupDir, LogName(stamp))
  }

  /** The run directory's manifests: the sources and the exclude patterns. */
  method WriteManifests(w: World, backupDir: Path) returns (w': World)
    ensures w' == w.(trace := w.trace + Manifests(w.env, backupDir))
    ensures EndsWith(w'.trace, Manifests(w.env, backupDir))
  {
    w' := WriteManifest(w, Join(backupDir, "sources.txt"), "Sources", Sources(w.env.user));
    w' := WriteManifest(w', Join(backupDir, "excludes.txt"), "Excludes", OddEntries(CommonExcludes));
    assert w'.trace[|w'.trace| - 2..] == Manifests(w.env, backupDir);
  }

  /** Where `main()` stops before its first copy, if it does. */
  function Stop(env: Env, args: seq<string>): Option<Status>
  {
    PrepStop(Start(env), args, Scan(args, G, Defaults).noCompress, false, MinGb)
  }

  /** The run directory `<dest>/MAIN/BKP-<timestamp>` of a run that gets
      past the free-space check. */
  function RunDir(env: Env, args: seq<string>): Path
    requires Stop(env, args).None?
  {
    OpenRunDir(Start(env), args, Scan(args, G, Defaults).noCompress, false, "MAIN", "BKP-")
  }

  /** The two manifest files of a run directory. */
  function Manifests(env: Env, backupDir: Path): seq<Event>
  {
    [Write(Join(backupDir, "sources.txt"), ManifestText("Sources", Sources(env.user))),
     Write(Join(backupDir, "excludes.txt"), ManifestText("Excludes", OddEntries(CommonExcludes)))]
  }

  /** `main()`. `summary` is present exactly when the run reaches its
      summary line. */
  method RunScript(env: Env, args: seq<string>) returns (w: World, status: Status, summary: Option<Summary>)
    ensures w.env == env
    ensures !ToolsFound(Start(env), args, Scan(args, G, Defaults).noCompress, false) ==>
      w == Greeted(Start(env), args, Scan(args, G, Defaults).noCompress)
    ensures Stop(env, args).Some? ==> status == Stop(env, args).value && summary.None?
    ensures Stop(env, args).None? && Scan(args, G, Defaults).manifestOnly ==>
      && status == Return(0)
      && EndsWith(w.trace, Manifests(env, RunDir(env, args)))
    ensures summary.Some? <==> Stop(env, args).None? && !Scan(args, G, Defaults).manifestOnly
    ensures summary.None? ==> RsyncRuns(w.Done()) == 0
    ensures summary.Some? ==>
      var s := summary.value;
      && s.total + s.skipped == |Sources(env.user)|
      && s.total == |Existing(env, Sources(env.user))| == RsyncRuns(w.Done())
      && s.failures == HardRsyncs(w.Done())
      && status == Verdict(s.failures, s.tarFailed)
    ensures summary.Some? ==>
      if Compresses(Start(env), args, Scan(args, G, Defaults).noCompress) then
        LastTar(w.Done()).Some? && (summary.value.tarFailed <==> TarFailedLenient(LastTar(w.Done()).value.code))
      else !summary.value.tarFailed
    ensures summary.Some? ==>
      var f := Scan(args, G, Defaults);
      var ts := OpenStamp(Start(env), args, f.noCompress, false);
      |w.trace| > 0 && w.trace[|w.trace| - 1] == TrimLog(LogPath(f.logDir, RunDir(env, args), ts))
  {
    summary := None;
    var f, compress, backupDir, logPath, ts, stop;
    w, f, compress, backupDir, logPath, ts, stop := Prepare(env, args);
    if stop.Some? {
      return w, stop.value, None;
    }
    if f.manifestOnly {
      return w, Return(0), None;
    }
    var failures, total, skipped, tarFailed;
    w, failures, total, skipped, tarFailed := CopyAndArchive(w, backupDir, ts, compress);
    summary := Some(Summary(total, skipped, failures, tarFailed));
    w := Do(w, TrimLog(logPath));
    status := Verdict(failures, tarFailed);
  }

  /** Everything before the copy: the flags, the opening, the log directory,
      the free-space floor and the manifests. */
  method Prepare(env: Env, args: seq<string>)
    returns (w: World, f: Flags, compress: bool, backupDir: Path, logPath: Path, ts: string, stop: Option<Status>)
    ensures f == Scan(args, G, Defaults)
    ensures w.env == env && RsyncRuns(w.Done()) == 0 && HardRsyncs(w.Done()) == 0
    ensures compress == Compresses(Start(env), args, f.noCompress)
    ensures stop == Stop(env, args)
    ensures !ToolsFound(Start(env), args, f.noCompress, false) ==> w == Greeted(Start(env), args, f.noCompress)
    ensures stop.None? ==>
      && backupDir == RunDir(env, args)
      && ts == OpenStamp(Start(env), args, f.noCompress, false)
      && logPath == LogPath(f.logDir, backupDir, ts)
      && EndsWith(w.trace, Manifests(env, backupDir))
  {
    f := ScanFlags(args, G);
    var dest;
    backupDir, logPath := "", "";
    w, compress, dest, ts, backupDir, stop := Open(Start(env), args, f.noCompress, false, "MAIN", "BKP-");
    if stop.Some? {
      return;
    }
    if f.logDir != "" {
      w := Do(w, Mkdir(f.logDir));
    }
    logPath := LogPath(f.logDir, backupDir, ts);
    if !EnoughSpace(env.freeBytes(dest), MinGb) {
      return w, f, compress, backupDir, logPath, ts, Some(Exit(1));
    }
    w := WriteManifests(w, backupDir);
  }

  /** The source loop, then the archive when one is wanted. */
  method CopyAndArchive(w: World, backupDir: Path, ts: string, compress: bool)
    returns (w': World, failures: nat, total: nat, skipped: nat, tarFailed: bool)
    ensures w'.env == w.env
    ensures total + skipped == |Sources(w.env.user)|
    ensures total == |Existing(w.env, Sources(w.env.user))|
    ensures RsyncRuns(w'.Done()) == RsyncRuns(w.Done()) + total
    ensures HardRsyncs(w'.Done()) == HardRsyncs(w.Done()) + failures
    ensures !compress ==> !tarFailed
    ensures compress ==>
      LastTar(w'.Done()).Some? && (tarFailed <==> TarFailedLenient(LastTar(w'.Done()).value.code))
  {
    w', failures, total, skipped := CopyExisting(w, Sources(w.env.user), s => CopyArgv(s, backupDir));
    tarFailed := false;
    if compress {
      w', tarFailed := Archive(w', backupDir, ts);
    }
  }
}
