/**
  `SERV/SMB/backup-smb.py`: backs up the Samba configuration, `fstab`, the
  two restore scripts and the `creds-*` files of `/etc/samba` (all read
  through sudo) into `<dest>/SERV/SMB/SMB-<ts>/`. Missing sources are
  skipped without counting. The archive is named from a second reading of
  the clock, taken after the copies.
*/
module BackupSmb {
  import opened Base
  import opened PyStr
  import opened Host
  import opened Common
  import opened Cli
  import opened Transfer
  import opened Opening

  const MinGb: nat := 20

  const RsyncOpts: seq<string> := ["rsync", "-aHAX", "--numeric-ids", "--info=stats1", "--sparse"]

  const SambaDir: Path := "/etc/samba"

  /** The restore scripts are made executable in the backup. */
  const RestoreNames: set<string> := {"restore-smb.sh", "restore-smb.py"}

  function Sources(user: string): seq<Path>
  {
    ["/etc/samba/smb.conf", "/etc/fstab",
     "/home/" + user + "/Code/BACKUP/SERV/SMB/restore-smb.sh",
     "/home/" + user + "/Code/BACKUP/SERV/SMB/restore-smb.py"]
  }

  /** Every source is copied through sudo. */
  function CopyArgv(src: Path, runDir: Path): (r: seq<string>)
    ensures IsRsync(r)
  {
    ["sudo"] + RsyncOpts + [src, runDir + "/"]
  }

  function ChmodArgv(runDir: Path, name: string): (r: seq<string>)
    ensures !IsRsync(r)
  {
    ["sudo", "chmod", "755", Join(runDir, name)]
  }

  // ---------------------------------------------------------------------
  // sources.txt
  // ---------------------------------------------------------------------

  /** The text of `sources.txt`. */
  function SourcesText(user: string): string
  {
    "Sources\n" + JoinWith("\n", Sources(user)) + "\n"
  }

  /** `sources.txt` is the `write_manifest` layout of the four sources. */
  lemma SourcesTextIsManifest(user: string)
    ensures SourcesText(user) == ManifestText("Sources", Sources(user))
  {
    JoinLines(Sources(user));
    assert "Sources\n" == "Sources" + "\n";
  }

  // ---------------------------------------------------------------------
  // The source loop
  // ---------------------------------------------------------------------

  /** The commands one pass of the source loop runs when the next command is
      the `k`-th: nothing for a missing source; the copy of an existing one,
      and for a restore script whose copy did not fail, its `chmod 755`. */
  function SourceStep(env: Env, k: nat, src: Path, runDir: Path): (r: seq<Event>)
    ensures forall e :: e in r ==> e.Exec?
  {
    if !env.Exists(src) then []
    else if RsyncOk(env.procs(k).code) && BaseName(src) in RestoreNames
    then [Exec(CopyArgv(src, runDir)), Exec(ChmodArgv(runDir, BaseName(src)))]
    else [Exec(CopyArgv(src, runDir))]
  }

  /** The commands the loop runs for `srcs[i..]`, the first of them being
      the `k`-th. */
  function SourceEvents(env: Env, k: nat, srcs: seq<Path>, i: nat, runDir: Path): seq<Event>
    decreases |srcs| - i
  {
    if i >= |srcs| then []
    else
      var head := SourceStep(env, k, srcs[i], runDir);
      head + SourceEvents(env, k + |head|, srcs, i + 1, runDir)
  }

  lemma SourceEventsUnfold(env: Env, k: nat, srcs: seq<Path>, i: nat, runDir: Path)
    requires i < |srcs|
    ensures var head := SourceStep(env, k, srcs[i], runDir);
      SourceEvents(env, k, srcs, i, runDir) == head + SourceEvents(env, k + |head|, srcs, i + 1, runDir)
  {
  }

  /** What the loop may run: a copy, or `chmod 755` on a restore script. */
  predicate Expected(runDir: Path, e: Event)
  {
    e.Exec? ==>
      IsRsync(e.argv) || e.argv == ChmodArgv(runDir, "restore-smb.sh") || e.argv == ChmodArgv(runDir, "restore-smb.py")
  }

  /** Besides the copies, the loop only ever runs `chmod 755` on one of the
      two restore scripts. */
  lemma {:induction false} OnlyScriptsMadeExecutable(env: Env, k: nat, srcs: seq<Path>, i: nat, runDir: Path)
    ensures forall e :: e in SourceEvents(env, k, srcs, i, runDir) ==> Expected(runDir, e)
    decreases |srcs| - i
  {
    if i < |srcs| {
      var head := SourceStep(env, k, srcs[i], runDir);
      assert forall e :: e in head ==> Expected(runDir, e);
      OnlyScriptsMadeExecutable(env, k + |head|, srcs, i + 1, runDir);
    }
  }

  /** One pass of the source loop. */
  method CopySource(w: World, src: Path, runDir: Path) returns (w': World, failed: bool)
    ensures w'.trace == w.trace + SourceStep(w.env, w.Ran(), src, runDir)
    ensures w'.Ran() == w.Ran() + |SourceStep(w.env, w.Ran(), src, runDir)|
    ensures w'.env == w.env && w'.Asked() == w.Asked()
    ensures RsyncRuns(w'.Done()) == RsyncRuns(w.Done()) + (if w.env.Exists(src) then 1 else 0)
    ensures HardRsyncs(w'.Done()) == HardRsyncs(w.Done()) + (if failed then 1 else 0)
  {
    w', failed := w, false;
    ghost var step := SourceStep(w.env, w.Ran(), src, runDir);
    if w.env.Exists(src) {
      var copy := CopyArgv(src, runDir);
      var ok;
      w', ok := RunRsync(w, copy);
      failed := !ok;
      if ok && BaseName(src) in RestoreNames {
        var chmod := ChmodArgv(runDir, BaseName(src));
        ghost var copied := w';
        var p;
        w', p := RunOther(w', chmod);
        assert step == [Exec(copy), Exec(chmod)];
        assert w'.trace == w.trace + [Exec(copy)] + [Exec(chmod)];
        assert w'.Ran() == copied.Ran() + 1 == w.Ran() + 2;
      } else {
        assert step == [Exec(copy)];
      }
    } else {
      assert step == [];
    }
  }

  /** The trace after the first `i` passes of the source loop from `w0`,
      followed by what the remaining passes will run, is the whole loop's. */
  ghost predicate TraceUpTo(w0: World, w: World, srcs: seq<Path>, i: nat, runDir: Path)
  {
    w.trace + SourceEvents(w0.env, w.Ran(), srcs, i, runDir) == w0.trace + SourceEvents(w0.env, w0.Ran(), srcs, 0, runDir)
  }

  lemma TraceStep(w0: World, w: World, w': World, srcs: seq<Path>, i: nat, runDir: Path)
    requires i < |srcs| && TraceUpTo(w0, w, srcs, i, runDir)
    requires w'.trace == w.trace + SourceStep(w0.env, w.Ran(), srcs[i], runDir)
    requires w'.Ran() == w.Ran() + |SourceStep(w0.env, w.Ran(), srcs[i], runDir)|
    ensures TraceUpTo(w0, w', srcs, i + 1, runDir)
  {
    SourceEventsUnfold(w0.env, w.Ran(), srcs, i, runDir);
    AppendAssoc(w.trace, SourceStep(w0.env, w.Ran(), srcs[i], runDir), SourceEvents(w0.env, w'.Ran(), srcs, i + 1, runDir));
  }

  /** After the first `i` passes of the source loop from `w0`. */
  ghost predicate CopiedUpTo(w0: World, w: World, srcs: seq<Path>, i: nat, runDir: Path, failures: nat)
  {
    && i <= |srcs|
    && TraceUpTo(w0, w, srcs, i, runDir)
    && w.env == w0.env && w.Asked() == w0.Asked()
    && RsyncRuns(w.Done()) == RsyncRuns(w0.Done()) + |Existing(w0.env, srcs[..i])|
    && HardRsyncs(w.Done()) == HardRsyncs(w0.Done()) + failures
  }

  /** Pass `i` of the source loop. */
  method CopyNextSource(w0: World, w: World, srcs: seq<Path>, i: nat, runDir: Path, failures: nat)
    returns (w': World, failures': nat)
    requires i < |srcs| && CopiedUpTo(w0, w, srcs, i, runDir, failures)
    ensures CopiedUpTo(w0, w', srcs, i + 1, runDir, failures')
  {
    ExistingStep(w0.env, srcs, i);
    var failed;
    w', failed := CopySource(w, srcs[i], runDir);
    TraceStep(w0, w, w', srcs, i, runDir);
    failures' := if failed then failures + 1 else failures;
  }

  /** The source loop: the trace gains `SourceEvents`, every existing source
      is copied once, and each hard rsync failure adds one to `failures`. */
  method CopySources(w: World, srcs: seq<Path>, runDir: Path) returns (w': World, failures: nat)
    ensures w'.trace == w.trace + SourceEvents(w.env, w.Ran(), srcs, 0, runDir)
    ensures w'.env == w.env && w'.Asked() == w.Asked()
    ensures RsyncRuns(w'.Done()) == RsyncRuns(w.Done()) + |Existing(w.env, srcs)|
    ensures HardRsyncs(w'.Done()) == HardRsyncs(w.Done()) + failures
  {
    w', failures := w, 0;
    var i := 0;
    while i < |srcs|
      invariant CopiedUpTo(w, w', srcs, i, runDir, failures)
    {
      w', failures := CopyNextSource(w, w', srcs, i, runDir, failures);
      i := i + 1;
    }
    assert srcs[..i] == srcs;
  }

  // ---------------------------------------------------------------------
  // The creds files
  // ---------------------------------------------------------------------

  /** `Path("/etc/samba").glob("creds-*")`, in directory order. */
  function Creds(env: Env): seq<Path>
  {
    if !env.IsDir(SambaDir) then [] else CredsOf(env.fs[SambaDir].names)
  }

  function CredsOf(names: seq<string>): (r: seq<Path>)
    ensures |r| <= |names|
  {
    if names == [] then []
    else
      var init := CredsOf(names[..|names| - 1]);
      var n := names[|names| - 1];
      if Glob("creds-*", n) then init + [Join(SambaDir, n)] else init
  }

  /** The creds files are exactly the entries of `/etc/samba` whose names
      start with `creds-`. */
  lemma {:induction false} CredsAreCredsFiles(names: seq<string>, p: Path)
    ensures p in CredsOf(names) <==> exists n :: n in names && "creds-" <= n && p == Join(SambaDir, n)
    decreases |names|
  {
    if names != [] {
      var init := names[..|names| - 1];
      var n := names[|names| - 1];
      CredsAreCredsFiles(init, p);
      GlobPrefix("creds-", n);
      assert "creds-" + "*" == "creds-*";
      assert names == init + [n];
    }
  }

  // ---------------------------------------------------------------------
  // main
  // ---------------------------------------------------------------------

  /** The counters the final summary line reports and the destination
      chosen. */
  datatype Summary = Summary(failures: nat, tarFailed: bool, dest: Path)

  function ArchiveName(stamp: string): string { "SMB-" + stamp + ".tar.gz" }

  /** Where `main()` stops before its first copy, if it does. */
  function Stop(env: Env, args: seq<string>): Option<Status>
  {
    PrepStop(Start(env), args, false, true, MinGb)
  }

  /** The run directory `<dest>/SERV/SMB/SMB-<timestamp>` of a run that
      gets past the free-space check. */
  function RunDir(env: Env, args: seq<string>): Path
    requires Stop(env, args).None?
  {
    OpenRunDir(Start(env), args, false, true, "SERV/SMB", "SMB-")
  }

  /** Everything before the copies: the opening with its sudo pre-check,
      the free-space floor and `sources.txt`. There is no flag loop. */
  method Prepare(env: Env, args: seq<string>)
    returns (w: World, compress: bool, dest: Path, runDir: Path, ts: string, stop: Option<Status>)
    ensures w.env == env && RsyncRuns(w.Done()) == 0 && HardRsyncs(w.Done()) == 0
    ensures compress == Compresses(Start(env), args, false)
    ensures stop == Stop(env, args)
    ensures !ToolsFound(Start(env), args, false, true) ==> w == Checked(Start(env), args, false, true)
    ensures stop.None? ==>
      && dest == OpenDest(Start(env), args, false, true)
      && runDir == RunDir(env, args)
      && |w.trace| > 0 && w.trace[|w.trace| - 1] == Write(Join(runDir, "sources.txt"), SourcesText(env.user))
  {
    w, compress, dest, ts, runDir, stop := Open(Start(env), args, false, true, "SERV/SMB", "SMB-");
    if stop.Some? {
      return;
    }
    if !EnoughSpace(env.freeBytes(dest), MinGb) {
      return w, compress, dest, runDir, ts, Some(Exit(1));
    }
    w := Do(w, Write(Join(runDir, "sources.txt"), SourcesText(env.user)));
  }

  /** The source loop, then the creds files. */
  method Copies(w: World, runDir: Path) returns (w': World, failures: nat)
    ensures w'.env == w.env && w'.Asked() == w.Asked()
    ensures RsyncRuns(w'.Done()) == RsyncRuns(w.Done()) + |Existing(w.env, Sources(w.env.user))| + |Existing(w.env, Creds(w.env))|
    ensures HardRsyncs(w'.Done()) == HardRsyncs(w.Done()) + failures
  {
    var sourceFailures, credsFailures, copied, skipped;
    w', sourceFailures := CopySources(w, Sources(w.env.user), runDir);
    w', credsFailures, copied, skipped := CopyExisting(w', Creds(w.env), s => CopyArgv(s, runDir));
    failures := sourceFailures + credsFailures;
  }

  /** The archive: the clock is read again and the archive, and the pattern
      that leaves it out, are named with that new stamp. `stamp` is
      `None` when `date` fails. */
  method Archive(w: World, runDir: Path) returns (w': World, tarFailed: bool, stamp: Option<string>)
    ensures w'.env == w.env
    ensures HardRsyncs(w'.Done()) == HardRsyncs(w.Done()) && RsyncRuns(w'.Done()) == RsyncRuns(w.Done())
    ensures stamp == (if w.env.procs(w.Ran()).code == 0 then Some(Strip(w.env.procs(w.Ran()).out)) else None)
    ensures stamp.None? ==> w' == w.Running(DateArgv) && !tarFailed
    ensures stamp.Some? ==>
      var name := ArchiveName(stamp.value);
      var tarred := w.Running(DateArgv).Running(InPlaceTarArgv(runDir, name));
      var code := w.env.procs(w.Ran() + 1).code;
      && (tarFailed <==> TarFailedLenient(code))
      && LastTar(w'.Done()) == Some(w.env.procs(w.Ran() + 1))
      && w' == if code == 0 then tarred.Running(HandBackArgv(w.env.user, Join(runDir, name))) else tarred
  {
    w', stamp := Stamp(w);
    tarFailed := false;
    if stamp.Some? {
      w', tarFailed := ArchiveInPlace(w', runDir, ArchiveName(stamp.value));
    }
  }

  /** The second `date` failed: it is the last command run. */
  predicate ClockFailed(w: World)
  {
    |w.Done()| > 0 && w.Done()[|w.Done()| - 1].argv == DateArgv && w.Done()[|w.Done()| - 1].proc.code != 0
  }

  /** The copies, then the archive when one is wanted. `stamp` is `None`
      exactly when the archive's `date` fails, which raises. */
  method CopyAndArchive(w: World, runDir: Path, compress: bool)
    returns (w': World, failures: nat, tarFailed: bool, stamp: Option<string>)
    ensures w'.env == w.env
    ensures RsyncRuns(w'.Done()) == RsyncRuns(w.Done()) + |Existing(w.env, Sources(w.env.user))| + |Existing(w.env, Creds(w.env))|
    ensures HardRsyncs(w'.Done()) == HardRsyncs(w.Done()) + failures
    ensures !compress ==> !tarFailed && stamp.None?
    ensures compress && stamp.None? ==> ClockFailed(w')
    ensures compress && stamp.Some? ==>
      LastTar(w'.Done()).Some? && (tarFailed <==> TarFailedLenient(LastTar(w'.Done()).value.code))
  {
    w', failures := Copies(w, runDir);
    tarFailed, stamp := false, None;
    if compress {
      ghost var c := w';
      w', tarFailed, stamp := Archive(w', runDir);
      assert stamp.None? ==> w'.Done() == c.Done() + [Step(DateArgv, w.env.procs(c.Ran()))];
    }
  }

  /** `main()`. `summary` is present exactly when the run reaches its
      summary line; a run that gets past the free-space check and has no
      summary raised on the archive's `date`. */
  method RunScript(env: Env, args: seq<string>) returns (w: World, status: Status, summary: Option<Summary>)
    ensures w.env == env
    ensures !ToolsFound(Start(env), args, false, true) ==> w == Checked(Start(env), args, false, true)
    ensures Stop(env, args).Some? ==> status == Stop(env, args).value && summary.None?
    ensures Stop(env, args).None? && summary.None? ==>
      status == Uncaught && Compresses(Start(env), args, false) && ClockFailed(w)
    ensures summary.None? ==> status != Return(0)
    ensures summary.Some? ==>
      var s := summary.value;
      && Stop(env, args).None?
      && s.dest == OpenDest(Start(env), args, false, true)
      && RsyncRuns(w.Done()) == |Existing(env, Sources(env.user))| + |Existing(env, Creds(env))|
      && s.failures == HardRsyncs(w.Done())
      && status == Verdict(s.failures, s.tarFailed)
    ensures summary.Some? ==>
      if Compresses(Start(env), args, false) then
        LastTar(w.Done()).Some? && (summary.value.tarFailed <==> TarFailedLenient(LastTar(w.Done()).value.code))
      else !summary.value.tarFailed
  {
    var compress, dest, runDir, ts, stop;
    w, compress, dest, runDir, ts, stop := Prepare(env, args);
    if stop.Some? {
      return w, stop.value, None;
    }
    var failures, tarFailed, stamp;
    w, failures, tarFailed, stamp := CopyAndArchive(w, runDir, compress);
    if compress && stamp.None? {
      return w, Uncaught, None;
    }
    status := Verdict(failures, tarFailed);
    summary := Some(Summary(failures, tarFailed, dest));
  }
}
