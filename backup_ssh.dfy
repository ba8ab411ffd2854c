/**
  `SERV/SSH/backup-ssh.py`: backs up `~/.ssh`, `/etc/ssh/sshd_config` (read
  through sudo) and the two restore scripts into
  `<dest>/SERV/SSH/SSH-<ts>/`. A missing source is a failure here. After a
  clean run the older `SSH-*` run directories past the newest `--keep` are
  removed.
*/
module BackupSsh {
  import opened Base
  import opened PyStr
  import opened Host
  import opened Common
  import opened Cli
  import opened Transfer
  import opened Opening

  /** The flag loop knows `--no-compress` and `--keep` besides the common two. */
  const G: Grammar := Grammar(noCompress := true, keep := true, noRestart := false)

  const MinGb: nat := 20

  const RsyncOpts: seq<string> := ["rsync", "-aHAX", "--numeric-ids", "--info=stats1", "--sparse"]

  const SshdConfig: Path := "/etc/ssh/sshd_config"

  /** The restore scripts keep their execute bit in the backup. */
  const RestoreNames: set<string> := {"restore-ssh.sh", "restore-ssh.py"}

  function SshDir(user: string): Path { "/home/" + user + "/.ssh" }

  function RestoreScripts(user: string): seq<Path>
  {
    ["/home/" + user + "/Code/BACKUP/SERV/SSH/restore-ssh.sh",
     "/home/" + user + "/Code/BACKUP/SERV/SSH/restore-ssh.py"]
  }

  /** The file sources, copied one by one after the `.ssh` directory. */
  function FileSources(user: string): seq<Path> { [SshdConfig] + RestoreScripts(user) }

  function Sources(user: string): seq<Path> { [SshDir(user)] + FileSources(user) }

  function Excludes(user: string): seq<Path> { [SshDir(user) + "/agent"] }

  // ---------------------------------------------------------------------
  // sources.txt
  // ---------------------------------------------------------------------

  /** The text of `sources.txt`. */
  function SourcesText(user: string): string
  {
    "Sources\n" + JoinWith("\n", Sources(user)) + "\n\nExcludes\n" + JoinWith("\n", Excludes(user)) + "\n"
  }

  /** `sources.txt` is two manifests in the `write_manifest` layout, the
      sources and then the excludes, separated by a blank line. */
  lemma SourcesTextSections(user: string)
    ensures SourcesText(user) == ManifestText("Sources", Sources(user)) + "\n" + ManifestText("Excludes", Excludes(user))
  {
    var j1, j2 := JoinWith("\n", Sources(user)), JoinWith("\n", Excludes(user));
    JoinLines(Sources(user));
    JoinLines(Excludes(user));
    assert "\n\nExcludes\n" == "\n" + "\n" + "Excludes" + "\n";
    assert "Sources\n" == "Sources" + "\n";
    assert SourcesText(user) == "Sources" + "\n" + (j1 + "\n") + "\n" + ("Excludes" + "\n" + (j2 + "\n"));
  }

  // ---------------------------------------------------------------------
  // The copies
  // ---------------------------------------------------------------------

  /** `~/.ssh` is copied with the agent socket left out under every spelling. */
  function SshDirArgv(user: string, runDir: Path): (r: seq<string>)
    ensures IsRsync(r)
  {
    RsyncOpts + ["--exclude", "agent", "--exclude", "agent/", "--exclude", "/agent", SshDir(user), runDir + "/"]
  }

  function FileArgv(src: Path, runDir: Path): (r: seq<string>)
    ensures IsRsync(r) && IsRsync(["sudo"] + r)
  {
    RsyncOpts + [src, runDir + "/"]
  }

  /** The backed-up `sshd_config` is handed to the user and made readable. */
  function ChownArgv(user: string, runDir: Path): seq<string>
  {
    ["sudo", "chown", user + ":" + user, Join(runDir, "sshd_config")]
  }

  function ChmodArgv(runDir: Path): seq<string>
  {
    ["sudo", "chmod", "644", Join(runDir, "sshd_config")]
  }

  /** The `.ssh` block: a missing directory is one failure, as is a hard
      rsync failure. */
  method CopySshDir(w: World, runDir: Path) returns (w': World, failed: bool)
    ensures !w.env.IsDir(SshDir(w.env.user)) ==> failed && w' == w
    ensures w.env.IsDir(SshDir(w.env.user)) ==>
      && w' == w.Running(SshDirArgv(w.env.user, runDir))
      && (failed <==> !RsyncOk(w.env.procs(w.Ran()).code))
    ensures HardRsyncs(w'.Done()) == HardRsyncs(w.Done()) + (if w.env.IsDir(SshDir(w.env.user)) && failed then 1 else 0)
  {
    w' := w;
    failed := true;
    if w.env.IsDir(SshDir(w.env.user)) {
      var ok;
      w', ok := RunRsync(w, SshDirArgv(w.env.user, runDir));
      failed := !ok;
    }
  }

  /** `sshd_config` is present but `ensure_sudo()` says no. */
  predicate Refused(w: World, src: Path)
  {
    src == SshdConfig && w.env.IsFile(src) && !(w.env.Has("sudo") && w.env.procs(w.Ran()).code == 0)
  }

  /** One pass of the file loop from `w`: the run after it and whether it
      added a failure. */
  function FileOutcome(w: World, src: Path, runDir: Path): (r: (World, bool))
    ensures r.0.env == w.env && r.0.Asked() == w.Asked()
    ensures !w.env.IsFile(src) ==> r == (w, true)
    ensures Refused(w, src) ==> r.1 && r.0.Ran() <= w.Ran() + 1
  {
    if !w.env.IsFile(src) then (w, true)
    else if src == SshdConfig then SudoCopy(w, src, runDir)
    else Finish(w.Running(FileArgv(src, runDir)), src, runDir, RsyncOk(w.env.procs(w.Ran()).code))
  }

  /** The `sshd_config` branch: `ensure_sudo()`, `sudo rsync`, and on success
      the `chown` and `chmod` of the copy. */
  function SudoCopy(w: World, src: Path, runDir: Path): (World, bool)
  {
    if !w.env.Has("sudo") then (w, true)
    else if w.env.procs(w.Ran()).code != 0 then (w.Running(SudoCheck), true)
    else SudoRsync(w.Running(SudoCheck), src, runDir)
  }

  /** `sudo rsync`, and on success the `chown` and `chmod` of the copy. */
  function SudoRsync(w: World, src: Path, runDir: Path): (World, bool)
  {
    var w1 := w.Running(["sudo"] + FileArgv(src, runDir));
    var ok := RsyncOk(w.env.procs(w.Ran()).code);
    Finish(if ok then w1.Running(ChownArgv(w.env.user, runDir)).Running(ChmodArgv(runDir)) else w1, src, runDir, ok)
  }

  /** After the copy: a restore script gets mode 0o755; a failed copy counts. */
  function Finish(w: World, src: Path, runDir: Path, ok: bool): (World, bool)
  {
    (if ok && BaseName(src) in RestoreNames then w.Doing(Chmod(Join(runDir, BaseName(src)), 0x1ed)) else w, !ok)
  }

  /** A pass fails for exactly one reason: the file is missing, sudo refused,
      or its rsync failed hard. */
  lemma FileOutcomeCounts(w: World, src: Path, runDir: Path)
    ensures var r := FileOutcome(w, src, runDir);
      && HardRsyncs(w.Done()) <= HardRsyncs(r.0.Done())
      && (if r.1 then 1 else 0) ==
           (if w.env.IsFile(src) then 0 else 1) + (if Refused(w, src) then 1 else 0)
           + (HardRsyncs(r.0.Done()) - HardRsyncs(w.Done()))
  {
    if !w.env.IsFile(src) {
    } else if src == SshdConfig {
      SudoCopyCounts(w, src, runDir);
    } else {
      RunningCounts(w, FileArgv(src, runDir));
    }
  }

  lemma SudoCopyCounts(w: World, src: Path, runDir: Path)
    requires src == SshdConfig
    ensures var r := SudoCopy(w, src, runDir);
      && HardRsyncs(w.Done()) <= HardRsyncs(r.0.Done())
      && (if r.1 then 1 else 0) ==
           (if w.env.Has("sudo") && w.env.procs(w.Ran()).code == 0 then 0 else 1)
           + (HardRsyncs(r.0.Done()) - HardRsyncs(w.Done()))
  {
    if w.env.Has("sudo") {
      RunningCounts(w, SudoCheck);
      if w.env.procs(w.Ran()).code == 0 {
        SudoRsyncCounts(w.Running(SudoCheck), src, runDir);
      }
    }
  }

  lemma SudoRsyncCounts(w: World, src: Path, runDir: Path)
    ensures var r := SudoRsync(w, src, runDir);
      && HardRsyncs(r.0.Done()) == HardRsyncs(w.Done()) + (if r.1 then 1 else 0)
  {
    var argv := ["sudo"] + FileArgv(src, runDir);
    var w1 := w.Running(argv);
    RunningCounts(w, argv);
    var w2 := w1.Running(ChownArgv(w.env.user, runDir));
    RunningCounts(w1, ChownArgv(w.env.user, runDir));
    RunningCounts(w2, ChmodArgv(runDir));
  }

  /** A pass of the file loop removes nothing. */
  lemma FileOutcomeRmtrees(w: World, src: Path, runDir: Path)
    ensures Rmtrees(FileOutcome(w, src, runDir).0.trace) == Rmtrees(w.trace)
  {
    if w.env.IsFile(src) {
      if src == SshdConfig {
        if w.env.Has("sudo") {
          RmtreesSteps(w, SudoCheck, "", Unlink(""));
          SudoRsyncRmtrees(w.Running(SudoCheck), src, runDir);
        }
      } else {
        var w1 := w.Running(FileArgv(src, runDir));
        RmtreesSteps(w, FileArgv(src, runDir), "", Unlink(""));
        FinishRmtrees(w1, src, runDir, RsyncOk(w.env.procs(w.Ran()).code));
      }
    }
  }

  lemma SudoRsyncRmtrees(w: World, src: Path, runDir: Path)
    ensures Rmtrees(SudoRsync(w, src, runDir).0.trace) == Rmtrees(w.trace)
  {
    var w1 := w.Running(["sudo"] + FileArgv(src, runDir));
    RmtreesSteps(w, ["sudo"] + FileArgv(src, runDir), "", Unlink(""));
    var w2 := w1.Running(ChownArgv(w.env.user, runDir));
    RmtreesSteps(w1, ChownArgv(w.env.user, runDir), "", Unlink(""));
    RmtreesSteps(w2, ChmodArgv(runDir), "", Unlink(""));
    var ok := RsyncOk(w.env.procs(w.Ran()).code);
    FinishRmtrees(if ok then w2.Running(ChmodArgv(runDir)) else w1, src, runDir, ok);
  }

  lemma FinishRmtrees(w: World, src: Path, runDir: Path, ok: bool)
    ensures Rmtrees(Finish(w, src, runDir, ok).0.trace) == Rmtrees(w.trace)
  {
    RmtreesSteps(w, [], "", Chmod(Join(runDir, BaseName(src)), 0x1ed));
  }

  /** One pass of the file loop. */
  method CopyFile(w: World, src: Path, runDir: Path) returns (w': World, failed: bool)
    ensures (w', failed) == FileOutcome(w, src, runDir)
  {
    w', failed := w, true;
    if !w.env.IsFile(src) {
      return;
    }
    var ok;
    if src == SshdConfig {
      var sudoOk;
      w', sudoOk := EnsureSudo(w);
      if !sudoOk {
        return;
      }
      w', ok := RunRsync(w', ["sudo"] + FileArgv(src, runDir));
      if ok {
        var p;
        w', p := Run(w', ChownArgv(w.env.user, runDir));
        w', p := Run(w', ChmodArgv(runDir));
      }
    } else {
      w', ok := RunRsync(w', FileArgv(src, runDir));
    }
    if ok && BaseName(src) in RestoreNames {
      w' := Do(w', Chmod(Join(runDir, BaseName(src)), 0x1ed));
    }
    failed := !ok;
  }

  /** Number of `srcs` that are not regular files. */
  function MissingFiles(env: Env, srcs: seq<Path>): (n: nat)
    ensures n <= |srcs|
  {
    if srcs == [] then 0 else MissingFiles(env, srcs[..|srcs| - 1]) + (if env.IsFile(srcs[|srcs| - 1]) then 0 else 1)
  }

  /** One pass of the file loop, seen through its failure accounting. */
  method CountedCopy(w: World, src: Path, runDir: Path) returns (w': World, failed: bool)
    ensures w'.env == w.env && w'.Asked() == w.Asked()
    ensures HardRsyncs(w.Done()) <= HardRsyncs(w'.Done())
    ensures (if failed then 1 else 0) ==
      (if w.env.IsFile(src) then 0 else 1) + (if Refused(w, src) then 1 else 0)
      + (HardRsyncs(w'.Done()) - HardRsyncs(w.Done()))
    ensures Rmtrees(w'.trace) == Rmtrees(w.trace)
  {
    w', failed := CopyFile(w, src, runDir);
    FileOutcomeCounts(w, src, runDir);
    FileOutcomeRmtrees(w, src, runDir);
  }

  /** The file loop: every failure is a missing file, a refused sudo check
      for `sshd_config` (only ever the first source) or a hard rsync failure. */
  method CopyFiles(w: World, srcs: seq<Path>, runDir: Path) returns (w': World, failures: nat)
    requires forall k :: 0 < k < |srcs| ==> srcs[k] != SshdConfig
    ensures w'.env == w.env && w'.Asked() == w.Asked()
    ensures HardRsyncs(w.Done()) <= HardRsyncs(w'.Done())
    ensures failures == MissingFiles(w.env, srcs) + (if srcs != [] && Refused(w, srcs[0]) then 1 else 0)
                        + (HardRsyncs(w'.Done()) - HardRsyncs(w.Done()))
    ensures Rmtrees(w'.trace) == Rmtrees(w.trace)
  {
    w', failures := w, 0;
    var i := 0;
    while i < |srcs|
      invariant 0 <= i <= |srcs|
      invariant i == 0 ==> w' == w
      invariant w'.env == w.env && w'.Asked() == w.Asked()
      invariant Rmtrees(w'.trace) == Rmtrees(w.trace)
      invariant HardRsyncs(w.Done()) <= HardRsyncs(w'.Done())
      invariant failures == MissingFiles(w.env, srcs[..i]) + (if i > 0 && Refused(w, srcs[0]) then 1 else 0)
                            + (HardRsyncs(w'.Done()) - HardRsyncs(w.Done()))
    {
      assert srcs[..i + 1][..i] == srcs[..i];
      var failed;
      w', failed := CountedCopy(w', srcs[i], runDir);
      if failed {
        failures := failures + 1;
      }
      i := i + 1;
    }
    assert srcs[..i] == srcs;
  }

  // ---------------------------------------------------------------------
  // rotate_backups
  // ---------------------------------------------------------------------

  /** The `SSH-*` run directories under `root`, in directory order. */
  function RunDirs(env: Env, root: Path): (r: seq<Path>)
    ensures forall x :: x in r ==> env.IsDir(x)
  {
    if !env.IsDir(root) then [] else RunDirsOf(env, root, env.fs[root].names)
  }

  function RunDirsOf(env: Env, root: Path, names: seq<string>): (r: seq<Path>)
    ensures forall x :: x in r ==> env.IsDir(x)
  {
    if names == [] then []
    else
      var init := RunDirsOf(env, root, names[..|names| - 1]);
      var p := Join(root, names[|names| - 1]);
      if Glob("SSH-*", names[|names| - 1]) && env.IsDir(p) then init + [p] else init
  }

  /** `s` is ordered newest first. */
  predicate NewestFirst(mtime: Path -> int, s: seq<Path>)
  {
    forall i, j :: 0 <= i < j < |s| ==> mtime(s[i]) >= mtime(s[j])
  }

  /** Places `x` after every entry at least as new, as a stable sort does. */
  function Insert(mtime: Path -> int, x: Path, s: seq<Path>): seq<Path>
  {
    if s == [] then [x]
    else if mtime(s[0]) >= mtime(x) then [s[0]] + Insert(mtime, x, s[1..])
    else [x] + s
  }

  /** `sorted(paths, key=mtime, reverse=True)`. */
  function ByAge(mtime: Path -> int, ps: seq<Path>): seq<Path>
  {
    if ps == [] then [] else Insert(mtime, ps[|ps| - 1], ByAge(mtime, ps[..|ps| - 1]))
  }

  /** Inserting adds `x` and nothing else. */
  lemma {:induction false} InsertCount(mtime: Path -> int, x: Path, s: seq<Path>)
    ensures multiset(Insert(mtime, x, s)) == multiset(s) + multiset{x}
    decreases |s|
  {
    if s != [] && mtime(s[0]) >= mtime(x) {
      InsertCount(mtime, x, s[1..]);
      assert s == [s[0]] + s[1..];
    }
  }

  /** Inserting below a bound keeps every entry below it. */
  lemma {:induction false} InsertBounded(mtime: Path -> int, x: Path, s: seq<Path>, bound: int)
    requires forall k :: 0 <= k < |s| ==> mtime(s[k]) <= bound
    requires mtime(x) <= bound
    ensures forall k :: 0 <= k < |Insert(mtime, x, s)| ==> mtime(Insert(mtime, x, s)[k]) <= bound
    decreases |s|
  {
    if s != [] && mtime(s[0]) >= mtime(x) {
      InsertBounded(mtime, x, s[1..], bound);
    }
  }

  /** An entry at least as new as all of a newest-first list can lead it. */
  lemma ConsSorted(mtime: Path -> int, a: Path, t: seq<Path>)
    requires NewestFirst(mtime, t)
    requires forall k :: 0 <= k < |t| ==> mtime(t[k]) <= mtime(a)
    ensures NewestFirst(mtime, [a] + t)
  {
    var r := [a] + t;
    forall i, j | 0 <= i < j < |r|
      ensures mtime(r[i]) >= mtime(r[j])
    {
      assert r[j] == t[j - 1];
      if i > 0 {
        assert r[i] == t[i - 1];
      }
    }
  }

  lemma {:induction false} InsertSorted(mtime: Path -> int, x: Path, s: seq<Path>)
    requires NewestFirst(mtime, s)
    ensures NewestFirst(mtime, Insert(mtime, x, s))
    decreases |s|
  {
    if s != [] {
      assert forall k :: 0 <= k < |s| ==> mtime(s[k]) <= mtime(s[0]);
      if mtime(s[0]) >= mtime(x) {
        var rest := s[1..];
        assert forall k :: 0 <= k < |rest| ==> rest[k] == s[k + 1];
        InsertSorted(mtime, x, rest);
        InsertBounded(mtime, x, rest, mtime(s[0]));
        ConsSorted(mtime, s[0], Insert(mtime, x, rest));
      } else {
        ConsSorted(mtime, x, s);
      }
    }
  }

  /** The order `rotate_backups` walks: newest first, and the same entries. */
  lemma {:induction false} ByAgeSorts(mtime: Path -> int, ps: seq<Path>)
    ensures NewestFirst(mtime, ByAge(mtime, ps))
    ensures multiset(ByAge(mtime, ps)) == multiset(ps)
    decreases |ps|
  {
    if ps != [] {
      var init := ps[..|ps| - 1];
      ByAgeSorts(mtime, init);
      InsertSorted(mtime, ps[|ps| - 1], ByAge(mtime, init));
      InsertCount(mtime, ps[|ps| - 1], ByAge(mtime, init));
      assert ps == init + [ps[|ps| - 1]];
    }
  }

  /** The run directories `rotate_backups(root, keep)` removes. */
  function Expired(env: Env, root: Path, keep: int): seq<Path>
  {
    var s := ByAge(env.mtime, RunDirs(env, root));
    if keep < 0 || keep >= |s| then [] else s[keep..]
  }

  /** The run directories it leaves. */
  function Kept(env: Env, root: Path, keep: int): seq<Path>
  {
    var s := ByAge(env.mtime, RunDirs(env, root));
    if keep < 0 || keep >= |s| then s else s[..keep]
  }

  /** Rotation keeps the newest `keep` run directories and removes the rest:
      together they are exactly the `SSH-*` directories, and a negative
      `keep` removes nothing. */
  lemma RotationPartitions(env: Env, root: Path, keep: int)
    ensures multiset(Kept(env, root, keep)) + multiset(Expired(env, root, keep)) == multiset(RunDirs(env, root))
    ensures keep >= 0 ==> |Kept(env, root, keep)| == if keep < |RunDirs(env, root)| then keep else |RunDirs(env, root)|
    ensures keep < 0 ==> Expired(env, root, keep) == []
  {
    var s := ByAge(env.mtime, RunDirs(env, root));
    ByAgeSorts(env.mtime, RunDirs(env, root));
    assert |s| == |RunDirs(env, root)| by {
      assert |multiset(s)| == |multiset(RunDirs(env, root))|;
    }
    if 0 <= keep < |s| {
      assert s == s[..keep] + s[keep..];
    }
  }

  /** No removed run directory is newer than a kept one. */
  lemma RotationKeepsNewest(env: Env, root: Path, keep: int)
    ensures forall a, b :: a in Expired(env, root, keep) && b in Kept(env, root, keep) ==> env.mtime(a) <= env.mtime(b)
  {
    var s := ByAge(env.mtime, RunDirs(env, root));
    ByAgeSorts(env.mtime, RunDirs(env, root));
    if 0 <= keep < |s| {
      forall a, b | a in s[keep..] && b in s[..keep]
        ensures env.mtime(a) <= env.mtime(b)
      {
        var i :| 0 <= i < |s[..keep]| && s[..keep][i] == b;
        var j :| 0 <= j < |s[keep..]| && s[keep..][j] == a;
        assert s[i] == b && s[keep + j] == a;
      }
    }
  }

  /** One `Rmtree` per path, in order. */
  function Removals(ps: seq<Path>): (r: seq<Event>)
    ensures |r| == |ps|
    ensures forall k :: 0 <= k < |ps| ==> r[k] == Rmtree(ps[k])
  {
    seq(|ps|, k requires 0 <= k < |ps| => Rmtree(ps[k]))
  }

  /** The `Rmtree` steps of `Removals(ps)` are `ps`. */
  lemma {:induction false} RemovalsRmtrees(ps: seq<Path>)
    ensures Rmtrees(Removals(ps)) == ps
    decreases |ps|
  {
    if ps != [] {
      var init := ps[..|ps| - 1];
      RemovalsRmtrees(init);
      assert Removals(ps)[..|ps| - 1] == Removals(init);
    }
  }

  /** Rotation removes exactly the expired run directories. */
  lemma RotationRmtrees(w: World, root: Path, keep: int)
    ensures Rmtrees(w.trace + Removals(Expired(w.env, root, keep))) == Rmtrees(w.trace) + Expired(w.env, root, keep)
  {
    RmtreesAppend(w.trace, Removals(Expired(w.env, root, keep)));
    RemovalsRmtrees(Expired(w.env, root, keep));
  }

  /** `rotate_backups(root, keep)`: removal errors are ignored, so each
      expired directory is one `Rmtree` step whatever happens. */
  method Rotate(w: World, root: Path, keep: int) returns (w': World)
    ensures w' == w.(trace := w.trace + Removals(Expired(w.env, root, keep)))
  {
    w' := w;
    if keep < 0 {
      return;
    }
    var backups := ByAge(w.env.mtime, RunDirs(w.env, root));
    var doomed := if keep >= |backups| then [] else backups[keep..];
    var i := 0;
    while i < |doomed|
      invariant 0 <= i <= |doomed|
      invariant w' == w.(trace := w.trace + Removals(doomed[..i]))
    {
      assert Removals(doomed[..i + 1]) == Removals(doomed[..i]) + [Rmtree(doomed[i])];
      w' := Do(w', Rmtree(doomed[i]));
      i := i + 1;
    }
    assert doomed[..i] == doomed;
  }

  // ---------------------------------------------------------------------
  // main
  // ---------------------------------------------------------------------

  /** The counters the final summary line reports, the destination chosen
      and what rotation removed. */
  datatype Summary = Summary(failures: nat, tarFailed: bool, dest: Path, removed: seq<Path>)

  /** `<dest>/SERV/SSH`, where the run directories live. */
  function RunRoot(dest: Path): Path { Join(Join(dest, "SERV"), "SSH") }

  /** `RunRoot` is the opening's `SERV/SSH` area. */
  lemma RunRootIsArea(dest: Path)
    ensures Join(dest, "SERV/SSH") == RunRoot(dest)
  {
    assert "SERV/SSH" == "SERV" + "/" + "SSH";
    assert dest + "/" + "SERV/SSH" == (dest + "/" + "SERV") + "/" + "SSH";
  }

  function ArchivePath(runDir: Path, stamp: string): Path { Join(runDir, "SSH-" + stamp + ".tar.gz") }

  /** The commands run before the copies: `date` alone. */
  const OpeningCommands: nat := 1

  /** Missing sources: the `.ssh` directory and the file sources. */
  function Missing(env: Env): nat
  {
    (if env.IsDir(SshDir(env.user)) then 0 else 1) + MissingFiles(env, FileSources(env.user))
  }

  /** `ensure_sudo()` refuses while `sshd_config` is present, when `k0`
      commands ran before the copies: its `sudo -v` comes right after the
      `.ssh` copy, if any. */
  predicate SudoRefused(env: Env, k0: nat)
  {
    var k := k0 + (if env.IsDir(SshDir(env.user)) then 1 else 0);
    env.IsFile(SshdConfig) && !(env.Has("sudo") && env.procs(k).code == 0)
  }

  /** Where `main()` stops before its first copy, if it does. */
  function Stop(env: Env, args: seq<string>): Option<Status>
  {
    PrepStop(Start(env), args, Scan(args, G, Defaults).noCompress, false, MinGb)
  }

  /** The run directory `<dest>/SERV/SSH/SSH-<timestamp>` of a run that
      gets past the free-space check. */
  function RunDir(env: Env, args: seq<string>): Path
    requires Stop(env, args).None?
  {
    OpenRunDir(Start(env), args, Scan(args, G, Defaults).noCompress, false, "SERV/SSH", "SSH-")
  }

  /** The agent socket directory left in the copy of `.ssh`, removed when
      it is there. */
  function AgentRemoved(env: Env, runDir: Path): seq<Path>
  {
    var agent := Join(Join(runDir, ".ssh"), "agent");
    if env.IsDir(agent) then [agent] else []
  }

  /** Everything before the copies: the flags, the opening, the log
      directory, the free-space floor and `sources.txt`. */
  method Prepare(env: Env, args: seq<string>)
    returns (w: World, f: Flags, compress: bool, dest: Path, runDir: Path, ts: string, stop: Option<Status>)
    ensures f == Scan(args, G, Defaults)
    ensures w.env == env && RsyncRuns(w.Done()) == 0 && HardRsyncs(w.Done()) == 0
    ensures Rmtrees(w.trace) == []
    ensures compress == Compresses(Start(env), args, f.noCompress)
    ensures stop == Stop(env, args)
    ensures !ToolsFound(Start(env), args, f.noCompress, false) ==> w == Greeted(Start(env), args, f.noCompress)
    ensures stop.None? ==>
      && dest == OpenDest(Start(env), args, f.noCompress, false)
      && runDir == RunDir(env, args) == Join(RunRoot(dest), "SSH-" + ts)
      && w.Ran() == OpeningCommands
      && |w.trace| > 0 && w.trace[|w.trace| - 1] == Write(Join(runDir, "sources.txt"), SourcesText(env.user))
  {
    f := ScanFlags(args, G);
    w, compress, dest, ts, runDir, stop := Open(Start(env), args, f.noCompress, false, "SERV/SSH", "SSH-");
    if stop.Some? {
      return;
    }
    RunRootIsArea(dest);
    w, stop := Settle(w, f.logDir, dest, runDir);
  }

  /** After the opening: the log directory, the free-space floor and
      `sources.txt`; `stop` is `Exit(1)` when the destination is short of
      space. */
  method Settle(w: World, logDir: string, dest: Path, runDir: Path) returns (w': World, stop: Option<Status>)
    ensures w'.env == w.env && w'.Done() == w.Done()
    ensures Rmtrees(w'.trace) == Rmtrees(w.trace)
    ensures stop == if EnoughSpace(w.env.freeBytes(dest), MinGb) then None else Some(Exit(1))
    ensures stop.None? ==>
      |w'.trace| > 0 && w'.trace[|w'.trace| - 1] == Write(Join(runDir, "sources.txt"), SourcesText(w.env.user))
  {
    // `log_path.parent` is created whether or not `--log-dir` was given.
    var made := Mkdir(if logDir != "" then logDir else runDir);
    RmtreesSteps(w, [], "", made);
    w' := Do(w, made);
    if !EnoughSpace(w.env.freeBytes(dest), MinGb) {
      return w', Some(Exit(1));
    }
    var manifest := Write(Join(runDir, "sources.txt"), SourcesText(w.env.user));
    RmtreesSteps(w', [], "", manifest);
    w' := Do(w', manifest);
    stop := None;
  }

  /** The `.ssh` block, the file loop and the agent clean-up. */
  method Copies(w: World, runDir: Path) returns (w': World, failures: nat)
    ensures w'.env == w.env
    ensures HardRsyncs(w.Done()) <= HardRsyncs(w'.Done())
    ensures failures == Missing(w.env) + (if SudoRefused(w.env, w.Ran()) then 1 else 0)
                        + (HardRsyncs(w'.Done()) - HardRsyncs(w.Done()))
    ensures Rmtrees(w'.trace) == Rmtrees(w.trace) + AgentRemoved(w.env, runDir)
  {
    var user := w.env.user;
    var dirFailed;
    w', dirFailed := CopySshDir(w, runDir);
    RmtreesSteps(w, SshDirArgv(user, runDir), "", Unlink(""));
    assert Refused(w', SshdConfig) == SudoRefused(w.env, w.Ran());
    var fileFailures;
    w', fileFailures := CopyFiles(w', FileSources(user), runDir);
    failures := (if dirFailed then 1 else 0) + fileFailures;
    var agent := Join(Join(runDir, ".ssh"), "agent");
    if w.env.IsDir(agent) {
      RmtreesSteps(w', [], "", Rmtree(agent));
      w' := Do(w', Rmtree(agent));
    }
  }

  /** The copies, then the archive when one is wanted. */
  method CopyAndArchive(w: World, runDir: Path, ts: string, compress: bool)
    returns (w': World, failures: nat, tarFailed: bool)
    ensures w'.env == w.env
    ensures HardRsyncs(w.Done()) <= HardRsyncs(w'.Done())
    ensures failures == Missing(w.env) + (if SudoRefused(w.env, w.Ran()) then 1 else 0)
                        + (HardRsyncs(w'.Done()) - HardRsyncs(w.Done()))
    ensures Rmtrees(w'.trace) == Rmtrees(w.trace) + AgentRemoved(w.env, runDir)
    ensures !compress ==> !tarFailed
    ensures compress ==>
      LastTar(w'.Done()).Some? && (tarFailed <==> TarFailedStrict(LastTar(w'.Done()).value.code))
  {
    w', failures := Copies(w, runDir);
    tarFailed := false;
    if compress {
      ghost var c := w';
      var temp := w.env.tempName;
      w', tarFailed := TarToTemp(w', runDir, ArchivePath(runDir, ts));
      RmtreesSteps(c, TempTarArgv(temp, runDir), "", Unlink(temp));
      RmtreesSteps(c.Running(TempTarArgv(temp, runDir)), [], "", if tarFailed then Unlink(temp) else Move(temp, ArchivePath(runDir, ts)));
    }
  }

  /** Rotation runs only after a clean run; `removed` is what it removed,
      the last steps of the trace. */
  method RotateOnSuccess(w: World, root: Path, keep: int, clean: bool) returns (w': World, removed: seq<Path>)
    ensures w'.env == w.env && w'.Done() == w.Done()
    ensures removed == if clean then Expired(w.env, root, keep) else []
    ensures EndsWith(w'.trace, Removals(removed))
    ensures Rmtrees(w'.trace) == Rmtrees(w.trace) + removed
  {
    w', removed := w, [];
    if clean {
      w' := Rotate(w, root, keep);
      RotationRmtrees(w, root, keep);
      removed := Expired(w.env, root, keep);
      assert w'.trace[|w'.trace| - |removed|..] == Removals(removed);
    } else {
      assert w'.trace[|w'.trace|..] == [];
      assert Rmtrees(w.trace) + removed == Rmtrees(w.trace);
    }
  }

  /** `main()`. `summary` is present exactly when the run reaches its
      summary line. Only the agent directory and, on success, the expired
      run directories are ever removed. */
  method RunScript(env: Env, args: seq<string>) returns (w: World, status: Status, summary: Option<Summary>)
    ensures w.env == env
    ensures !ToolsFound(Start(env), args, Scan(args, G, Defaults).noCompress, false) ==>
      w == Greeted(Start(env), args, Scan(args, G, Defaults).noCompress)
    ensures Stop(env, args).Some? ==> status == Stop(env, args).value && summary.None?
    ensures Stop(env, args).None? && Scan(args, G, Defaults).manifestOnly ==>
      && status == Return(0)
      && |w.trace| > 0 && w.trace[|w.trace| - 1] == Write(Join(RunDir(env, args), "sources.txt"), SourcesText(env.user))
    ensures summary.Some? <==> Stop(env, args).None? && !Scan(args, G, Defaults).manifestOnly
    ensures summary.None? ==> RsyncRuns(w.Done()) == 0 && Rmtrees(w.trace) == []
    ensures summary.Some? ==>
      var s := summary.value;
      && s.dest == OpenDest(Start(env), args, Scan(args, G, Defaults).noCompress, false)
      && s.failures == Missing(env) + (if SudoRefused(env, OpeningCommands) then 1 else 0) + HardRsyncs(w.Done())
      && status == Verdict(s.failures, s.tarFailed)
      && (status == Return(0) ==> s.removed == Expired(env, RunRoot(s.dest), Scan(args, G, Defaults).keep))
      && (status != Return(0) ==> s.removed == [])
      && EndsWith(w.trace, Removals(s.removed))
      && Rmtrees(w.trace) == AgentRemoved(env, RunDir(env, args)) + s.removed
    ensures summary.Some? ==>
      if Compresses(Start(env), args, Scan(args, G, Defaults).noCompress) then
        LastTar(w.Done()).Some? && (summary.value.tarFailed <==> TarFailedStrict(LastTar(w.Done()).value.code))
      else !summary.value.tarFailed
  {
    var f, compress, dest, runDir, ts, stop;
    w, f, compress, dest, runDir, ts, stop := Prepare(env, args);
    if stop.Some? {
      return w, stop.value, None;
    }
    if f.manifestOnly {
      return w, Return(0), None;
    }
    var failures, tarFailed;
    ghost var p := w;
    w, failures, tarFailed := CopyAndArchive(w, runDir, ts, compress);
    assert Rmtrees(w.trace) == AgentRemoved(env, runDir) by {
      assert Rmtrees(p.trace) == [];
    }
    status := Verdict(failures, tarFailed);
    var removed;
    w, removed := RotateOnSuccess(w, RunRoot(dest), f.keep, status == Return(0));
    summary := Some(Summary(failures, tarFailed, dest, removed));
  }
}
