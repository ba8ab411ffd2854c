/**
  `SERV/SSH/restore-ssh.py`: puts a backed-up `.ssh` directory back under
  `/home/<user>/` and installs the backed-up `sshd_config` as
  `/etc/ssh/sshd_config`, then makes sure `sshd.service` is enabled and
  running. The backup is the directory holding the script. Missing pieces
  and failed copies are counted in `rsync_failures`; key fingerprints that
  differ from the installed ones and `sshd -t` refusals set
  `validation_failed`; either makes the exit status 1.
*/
module RestoreSsh {
  import opened Base
  import opened PyStr
  import opened Host
  import opened Cli
  import opened Transfer
  import opened Opening

  /** The flag loop knows `--log-dir`, `--manifest-only` and `--no-restart`. */
  const G: Grammar := Grammar(false, false, true)

  const ConfirmPrompt: string := "This restore will modify SSH configs. Continue? [y/N]: "
  const InstallPrompt: string := "Service sshd.service is not installed. Install it now? [y/N]: "
  const InstalledPrompt: string := "Please install sshd.service, then press Enter to continue."

  const Service: string := "sshd.service"
  const ListUnitsArgv: seq<string> := ["systemctl", "list-unit-files", "--type=service"]
  const RsyncOpts: seq<string> := ["rsync", "-aHAX", "--numeric-ids", "--sparse", "--delete-delay", "--info=stats1"]
  const SystemConfig: Path := "/etc/ssh/sshd_config"

  const EnableArgv: seq<string> := ["sudo", "systemctl", "enable", "sshd.service"]
  const StartArgv: seq<string> := ["sudo", "systemctl", "start", "sshd.service"]
  const RestartArgv: seq<string> := ["sudo", "systemctl", "restart", "sshd.service"]
  const IsActiveArgv: seq<string> := ["sudo", "systemctl", "is-active", "--quiet", "sshd.service"]

  /** The backed-up key directory and configuration, beside the script. */
  function Backup(env: Env): Path { Join(env.scriptDir, ".ssh") }
  function BackupConfig(env: Env): Path { Join(env.scriptDir, "sshd_config") }

  /** `/home/<user>`, the parent of the restored key directory. */
  function Home(user: string): Path { "/home/" + user }
  function SshDir(user: string): Path { Join(Home(user), ".ssh") }

  function CopyArgv(env: Env): (r: seq<string>)
    ensures IsRsync(r)
  {
    RsyncOpts + [Backup(env), Home(env.user) + "/"]
  }

  function ChmodDirArgv(dir: Path): seq<string> { ["chmod", "700", dir] }
  function PublicArgv(dir: Path): seq<string>
  {
    ["find", dir, "-type", "f", "-name", "*.pub", "-exec", "chmod", "644", "{}", "+"]
  }
  function PrivateArgv(dir: Path): seq<string>
  {
    ["find", dir, "-type", "f", "!", "-name", "*.pub", "-exec", "chmod", "600", "{}", "+"]
  }
  function FingerprintArgv(p: Path): seq<string> { ["ssh-keygen", "-lf", p] }
  function OwnerArgv(user: string): seq<string> { ["sudo", "chown", "-R", user + ":" + user, SshDir(user)] }
  function TestArgv(config: Path): seq<string> { ["sudo", "sshd", "-t", "-f", config] }
  function CopyConfigArgv(env: Env): seq<string> { ["sudo", "cp", BackupConfig(env), SystemConfig] }
  const RootOwnerArgv: seq<string> := ["sudo", "chown", "root:root", SystemConfig]
  const ConfigModeArgv: seq<string> := ["sudo", "chmod", "600", SystemConfig]

  // ---------------------------------------------------------------------
  // What the run counts
  // ---------------------------------------------------------------------

  /** The `cp`, `chown` and `chmod` that install `sshd_config`, each run
      with `check=True`. */
  predicate Installs(argv: seq<string>)
  {
    |argv| == 4 && argv[0] == "sudo" && argv[3] == SystemConfig
  }

  /** `sudo sshd -t -f <config>`. */
  predicate Tests(argv: seq<string>)
  {
    |argv| == 5 && argv[0] == "sudo" && argv[1] == "sshd" && argv[2] == "-t"
  }

  /** Install commands among `steps` that failed, each raising
      `CalledProcessError`. */
  function Refused(steps: seq<Step>): (n: nat)
    ensures n <= |steps|
  {
    if steps == [] then 0
    else
      var s := steps[|steps| - 1];
      Refused(steps[..|steps| - 1]) + (if Installs(s.argv) && s.proc.code != 0 then 1 else 0)
  }

  /** `sshd -t` runs among `steps` that reported errors. */
  function Rejected(steps: seq<Step>): (n: nat)
    ensures n <= |steps|
  {
    if steps == [] then 0
    else
      var s := steps[|steps| - 1];
      Rejected(steps[..|steps| - 1]) + (if Tests(s.argv) && s.proc.code != 0 then 1 else 0)
  }

  lemma RunningTallies(w: World, argv: seq<string>)
    ensures Refused(w.Running(argv).Done()) ==
      Refused(w.Done()) + (if Installs(argv) && w.env.procs(w.Ran()).code != 0 then 1 else 0)
    ensures Rejected(w.Running(argv).Done()) ==
      Rejected(w.Done()) + (if Tests(argv) && w.env.procs(w.Ran()).code != 0 then 1 else 0)
  {
    var d := w.Running(argv).Done();
    assert d[..|d| - 1] == w.Done();
  }

  /** From `w` to `w'` no rsync ran, no install command was refused and no
      `sshd -t` reported errors. */
  ghost predicate Tallied(w: World, w': World)
  {
    && w'.env == w.env
    && HardRsyncs(w'.Done()) == HardRsyncs(w.Done()) && RsyncRuns(w'.Done()) == RsyncRuns(w.Done())
    && Refused(w'.Done()) == Refused(w.Done()) && Rejected(w'.Done()) == Rejected(w.Done())
  }

  /** As `Tallied`, and no prompt was answered either. */
  ghost predicate Quiet(w: World, w': World)
  {
    Tallied(w, w') && w'.Asked() == w.Asked()
  }

  /** A command that is neither rsync, nor an install command, nor `sshd -t`. */
  method Other(w: World, argv: seq<string>) returns (w': World, p: Proc)
    requires !IsRsync(argv) && !Installs(argv) && !Tests(argv)
    ensures p == w.env.procs(w.Ran())
    ensures w' == w.Running(argv)
    ensures Quiet(w, w')
  {
    w', p := RunOther(w, argv);
    RunningTallies(w, argv);
  }

  // ---------------------------------------------------------------------
  // Up to the confirmation
  // ---------------------------------------------------------------------

  /** The run after the banner and the creation of the log directory. */
  function Paused(env: Env, args: seq<string>, f: Flags): World
  {
    var b := if "--no-banner" in args then Start(env) else Start(env).Asking(BannerPrompt);
    if f.logDir != "" then b.Doing(Mkdir(f.logDir)) else b
  }

  /** With `--confirm` and without `--yes`, the operator's answer is not `y`. */
  predicate Declined(env: Env, args: seq<string>, f: Flags)
  {
    "--confirm" in args && "--yes" !in args && !Agrees(env.answers(Paused(env, args, f).Asked()))
  }

  /** The prelude lets the run through: not manifest-only, not declined,
      systemctl and sudo installed and `sudo -v` accepted. */
  predicate Admitted(env: Env, args: seq<string>, f: Flags)
  {
    && !f.manifestOnly && !Declined(env, args, f)
    && env.Has("systemctl") && env.Has("sudo") && env.procs(0).code == 0
  }

  /** The run the prelude hands on: the confirmation when one is asked, then
      the first `sudo -v`. */
  function Entered(env: Env, args: seq<string>, f: Flags): World
  {
    var c := if "--confirm" in args && "--yes" !in args then Paused(env, args, f).Asking(ConfirmPrompt) else Paused(env, args, f);
    c.Running(SudoCheck)
  }

  /** Flags, banner, log directory, the manifest-only exit, the confirmation
      and the systemctl and sudo checks. `stop` is the status of a run that
      ends here. */
  method Prelude(env: Env, args: seq<string>) returns (w: World, f: Flags, stop: Option<Status>)
    ensures f == Scan(args, G, Defaults)
    ensures w.env == env
    ensures w.Done() == [] || w.Done() == [Step(SudoCheck, env.procs(0))]
    ensures f.manifestOnly ==> stop == Some(Return(0)) && w == Paused(env, args, f)
    ensures !f.manifestOnly && Declined(env, args, f) ==>
      stop == Some(Return(0)) && w == Paused(env, args, f).Asking(ConfirmPrompt)
    ensures stop.Some? ==> stop.value == Return(1) || (stop.value == Return(0) && w.Ran() == 0)
    ensures stop.None? <==> Admitted(env, args, f)
    ensures stop.None? ==> w == Entered(env, args, f)
  {
    f := ScanFlags(args, G);
    w := Banner(Start(env), args);
    if f.logDir != "" {
      w := Do(w, Mkdir(f.logDir));
    }
    assert w == Paused(env, args, f);
    if f.manifestOnly {
      return w, f, Some(Return(0));
    }
    w, stop := Admit(w, args, f);
  }

  /** From the paused run of a run that is not manifest-only: the
      confirmation and the systemctl and sudo checks. */
  method Admit(w: World, args: seq<string>, f: Flags) returns (w': World, stop: Option<Status>)
    requires w == Paused(w.env, args, f) && !f.manifestOnly
    ensures w'.env == w.env
    ensures w'.Done() == [] || w'.Done() == [Step(SudoCheck, w.env.procs(0))]
    ensures Declined(w.env, args, f) ==> stop == Some(Return(0)) && w' == w.Asking(ConfirmPrompt)
    ensures stop.Some? ==> stop.value == Return(1) || (stop.value == Return(0) && w'.Ran() == 0)
    ensures stop.None? <==> Admitted(w.env, args, f)
    ensures stop.None? ==> w' == Entered(w.env, args, f)
  {
    var env := w.env;
    var asks := "--confirm" in args && "--yes" !in args;
    ghost var c := if asks then w.Asking(ConfirmPrompt) else w;
    assert Entered(env, args, f) == c.Running(SudoCheck);
    assert Declined(env, args, f) <==> asks && !Agrees(env.answers(w.Asked()));
    var proceed;
    w', proceed := Gate(w, "--confirm" in args, "--yes" in args, ConfirmPrompt);
    assert w' == c && c.Ran() == 0;
    if !proceed {
      return w', Some(Return(0));
    }
    if !env.Has("systemctl") {
      return w', Some(Return(1));
    }
    var sudoOk;
    w', sudoOk := EnsureSudo(w');
    if !sudoOk {
      return w', Some(Return(1));
    }
    stop := None;
  }

  /** The prelude's `sudo -v` is none of the commands the run counts. */
  lemma SudoCheckUncounted(steps: seq<Step>, p: Proc)
    requires steps == [] || steps == [Step(SudoCheck, p)]
    ensures HardRsyncs(steps) == 0 && RsyncRuns(steps) == 0 && Refused(steps) == 0 && Rejected(steps) == 0
  {
    if steps != [] {
      assert steps[..0] == [];
    }
  }

  // ---------------------------------------------------------------------
  // The service check
  // ---------------------------------------------------------------------

  /** The service check from `w` passes: the service is listed, or the
      operator agrees to install it and it is listed on the second look. */
  predicate ServiceFound(w: World)
  {
    Listed(w.env.procs(w.Ran())) || (Agrees(w.env.answers(w.Asked())) && Listed(w.env.procs(w.Ran() + 1)))
  }

  /** The last command of the run is a `sudo -v` that failed. */
  predicate SudoRefused(w: World)
  {
    |w.Done()| > 0 && w.Done()[|w.Done()| - 1].argv == SudoCheck && w.Done()[|w.Done()| - 1].proc.code != 0
  }

  /** `"sshd.service" in result.stdout`. */
  predicate Listed(p: Proc)
  {
    Contains(p.out, Service)
  }

  /** The commands run by the time the service is found, when the check
      starts at the `k`-th: the listing, or the listing, and after the two
      prompts a second listing. */
  function ServiceRan(env: Env, k: nat): nat
  {
    k + (if Listed(env.procs(k)) then 1 else 2)
  }

  /** The service must be listed; if it is not, the operator may agree to
      install it and press Enter, after which it must be listed on a second
      look. */
  method EnsureService(w: World) returns (w': World, ok: bool)
    ensures Tallied(w, w')
    ensures ok <==> ServiceFound(w)
    ensures ok ==> w'.Ran() == ServiceRan(w.env, w.Ran())
    ensures var k, a := w.Ran(), w.Asked();
      var listed := w.Running(ListUnitsArgv);
      w'.trace == (if Listed(w.env.procs(k)) then listed
                   else if !Agrees(w.env.answers(a)) then listed.Asking(InstallPrompt)
                   else listed.Asking(InstallPrompt).Asking(InstalledPrompt).Running(ListUnitsArgv)).trace
  {
    var p;
    w', p := Other(w, ListUnitsArgv);
    ok := true;
    if !Listed(p) {
      var answer;
      w', answer := Prompt(w', InstallPrompt);
      if !Agrees(answer) {
        return w', false;
      }
      var enter;
      w', enter := Prompt(w', InstalledPrompt);
      w', p := Other(w', ListUnitsArgv);
      ok := Listed(p);
    }
  }

  // ---------------------------------------------------------------------
  // The key directory
  // ---------------------------------------------------------------------

  /** The `.ssh` block: a missing backup directory is one failure; otherwise
      the target directory is made and the backup copied over it, a hard
      rsync failure being one failure. */
  method RestoreDir(w: World) returns (w': World, failed: bool)
    ensures var present := w.env.IsDir(Backup(w.env));
      && (!present ==> failed && w' == w)
      && (present ==>
            && w' == w.Doing(Mkdir(SshDir(w.env.user))).Running(CopyArgv(w.env))
            && (failed <==> !RsyncOk(w.env.procs(w.Ran()).code)))
    ensures w'.env == w.env && w'.Asked() == w.Asked()
    ensures Refused(w'.Done()) == Refused(w.Done()) && Rejected(w'.Done()) == Rejected(w.Done())
    ensures var present := w.env.IsDir(Backup(w.env));
      && HardRsyncs(w'.Done()) == HardRsyncs(w.Done()) + (if present && failed then 1 else 0)
      && RsyncRuns(w'.Done()) == RsyncRuns(w.Done()) + (if present then 1 else 0)
  {
    var env := w.env;
    w', failed := w, true;
    if env.IsDir(Backup(env)) {
      w' := Do(w', Mkdir(SshDir(env.user)));
      var w1 := w';
      var ok;
      w', ok := RunRsync(w', CopyArgv(env));
      RunningTallies(w1, CopyArgv(env));
      failed := !ok;
    }
  }

  /** Whether `/home/<user>/.ssh` is a directory once the `.ssh` block ran:
      it was one already, or the block made it. */
  predicate DestPresent(env: Env)
  {
    env.IsDir(SshDir(env.user)) || env.IsDir(Backup(env))
  }

  /** `chmod 700` on the key directory, 644 on its public keys and 600 on
      every other file, when the directory is there. */
  method FixModes(w: World) returns (w': World)
    ensures Quiet(w, w')
    ensures var d := SshDir(w.env.user);
      w' == if DestPresent(w.env)
        then w.Running(ChmodDirArgv(d)).Running(PublicArgv(d)).Running(PrivateArgv(d))
        else w
  {
    w' := w;
    if DestPresent(w.env) {
      var d := SshDir(w.env.user);
      var p;
      w', p := Other(w', ChmodDirArgv(d));
      w', p := Other(w', PublicArgv(d));
      w', p := Other(w', PrivateArgv(d));
    }
  }

  // ---------------------------------------------------------------------
  // Fingerprint comparison
  // ---------------------------------------------------------------------

  /** `(script_dir / ".ssh").glob("*")`: every entry of the backup directory
      (the pattern `*` matches every name), none when it is not a directory. */
  function Entries(env: Env): seq<string>
  {
    if env.IsDir(Backup(env)) then env.fs[Backup(env)].names else []
  }

  /** An entry the loop fingerprints: not a directory and not `agent`. */
  predicate Candidate(env: Env, name: string)
  {
    !env.IsDir(Join(Backup(env), name)) && name != "agent"
  }

  /** `src_fp and dest_fp and src_fp != dest_fp`: both fingerprints were
      printed and they differ. */
  predicate Differ(srcFp: string, destFp: string)
  {
    srcFp != [] && destFp != [] && srcFp != destFp
  }

  /** The commands one entry costs when the next command is the `k`-th:
      none for a directory or `agent`; the `ssh-keygen -lf` probe; and when
      the probe succeeds and the restored file is there, the fingerprints of
      both copies. */
  function KeyEvents(env: Env, k: nat, name: string): (r: seq<Event>)
    ensures |r| <= 3
  {
    var src := Join(Backup(env), name);
    var dest := Join(SshDir(env.user), name);
    if !Candidate(env, name) then []
    else if env.procs(k).code != 0 || !env.IsFile(dest) then [Exec(FingerprintArgv(src))]
    else [Exec(FingerprintArgv(src)), Exec(FingerprintArgv(src)), Exec(FingerprintArgv(dest))]
  }

  /** The entry's name when its two fingerprints differ, warned about on
      stderr. */
  function KeyFlag(env: Env, k: nat, name: string): seq<string>
  {
    if |KeyEvents(env, k, name)| == 3 && Differ(Strip(env.procs(k + 1).out), Strip(env.procs(k + 2).out))
    then [name] else []
  }

  /** The commands the loop runs for `names[i..]`, the first being the `k`-th. */
  function KeysEvents(env: Env, k: nat, names: seq<string>, i: nat): seq<Event>
    decreases |names| - i
  {
    if i >= |names| then []
    else
      var head := KeyEvents(env, k, names[i]);
      head + KeysEvents(env, k + |head|, names, i + 1)
  }

  /** The names the loop warns about among `names[i..]`. */
  function KeysFlagged(env: Env, k: nat, names: seq<string>, i: nat): seq<string>
    decreases |names| - i
  {
    if i >= |names| then []
    else
      var head := KeyEvents(env, k, names[i]);
      KeyFlag(env, k, names[i]) + KeysFlagged(env, k + |head|, names, i + 1)
  }

  lemma KeysEventsUnfold(env: Env, k: nat, names: seq<string>, i: nat)
    requires i < |names|
    ensures var head := KeyEvents(env, k, names[i]);
      && KeysEvents(env, k, names, i) == head + KeysEvents(env, k + |head|, names, i + 1)
      && KeysFlagged(env, k, names, i) == KeyFlag(env, k, names[i]) + KeysFlagged(env, k + |head|, names, i + 1)
  {
    var head := KeyEvents(env, k, names[i]);
    assert KeysEvents(env, k, names, i) == head + KeysEvents(env, k + |head|, names, i + 1);
  }

  /** An entry that is fingerprinted and whose restored copy is a regular file. */
  predicate Compared(env: Env, name: string)
  {
    Candidate(env, name) && env.IsFile(Join(SshDir(env.user), name))
  }

  /** A name is warned about only when it is a fingerprinted entry whose
      restored copy is a regular file. */
  lemma {:induction false} FlaggedAreKeys(env: Env, k: nat, names: seq<string>, i: nat)
    ensures forall n :: n in KeysFlagged(env, k, names, i) ==> n in names && Compared(env, n)
    decreases |names| - i
  {
    if i < |names| {
      var head := KeyEvents(env, k, names[i]);
      KeysEventsUnfold(env, k, names, i);
      FlaggedAreKeys(env, k + |head|, names, i + 1);
      FlagIsKey(env, k, names[i]);
      FlaggedStep(env, KeyFlag(env, k, names[i]), KeysFlagged(env, k + |head|, names, i + 1), names, i);
    }
  }

  /** The entry's own warning names that entry, and only when it was compared. */
  lemma FlagIsKey(env: Env, k: nat, name: string)
    ensures forall n :: n in KeyFlag(env, k, name) ==> n == name && Compared(env, name)
  {
  }

  lemma FlaggedStep(env: Env, head: seq<string>, rest: seq<string>, names: seq<string>, i: nat)
    requires i < |names|
    requires forall n :: n in head ==> n == names[i] && Compared(env, names[i])
    requires forall n :: n in rest ==> n in names && Compared(env, n)
    ensures forall n :: n in head + rest ==> n in names && Compared(env, n)
  {
  }

  /** Command `e` fingerprints the entry `name`, in the backup or in the
      restored directory. */
  predicate Fingerprints(env: Env, name: string, e: Event)
  {
    Candidate(env, name)
    && (e == Exec(FingerprintArgv(Join(Backup(env), name))) || e == Exec(FingerprintArgv(Join(SshDir(env.user), name))))
  }

  /** Every command one entry runs fingerprints that entry. */
  lemma EntryFingerprints(env: Env, k: nat, name: string)
    ensures forall e :: e in KeyEvents(env, k, name) ==> Fingerprints(env, name, e)
  {
  }

  /** Command `e` fingerprints one of the entries `names[i..]`. */
  ghost predicate RunsFor(env: Env, names: seq<string>, i: nat, e: Event)
  {
    exists j :: i <= j < |names| && Fingerprints(env, names[j], e)
  }

  lemma RunsForHead(env: Env, names: seq<string>, i: nat, e: Event)
    requires i < |names| && Fingerprints(env, names[i], e)
    ensures RunsFor(env, names, i, e)
  {
  }

  lemma RunsForLater(env: Env, names: seq<string>, i: nat, e: Event)
    requires RunsFor(env, names, i + 1, e)
    ensures RunsFor(env, names, i, e)
  {
    var j :| i + 1 <= j < |names| && Fingerprints(env, names[j], e);
    assert i <= j;
  }

  /** The loop only reads: every command it runs is `ssh-keygen -lf` on a
      fingerprinted entry, in the backup or in the restored directory. */
  lemma {:induction false} OnlyFingerprints(env: Env, k: nat, names: seq<string>, i: nat)
    ensures forall e :: e in KeysEvents(env, k, names, i) ==> RunsFor(env, names, i, e)
    decreases |names| - i
  {
    if i < |names| {
      var head := KeyEvents(env, k, names[i]);
      var rest := KeysEvents(env, k + |head|, names, i + 1);
      KeysEventsUnfold(env, k, names, i);
      EntryFingerprints(env, k, names[i]);
      OnlyFingerprints(env, k + |head|, names, i + 1);
      OnlyFingerprintsStep(env, head, rest, names, i);
    }
  }

  lemma OnlyFingerprintsStep(env: Env, head: seq<Event>, rest: seq<Event>, names: seq<string>, i: nat)
    requires i < |names|
    requires forall e :: e in head ==> Fingerprints(env, names[i], e)
    requires forall e :: e in rest ==> RunsFor(env, names, i + 1, e)
    ensures forall e :: e in head + rest ==> RunsFor(env, names, i, e)
  {
    forall e | e in head + rest
      ensures RunsFor(env, names, i, e)
    {
      if e in head {
        RunsForHead(env, names, i, e);
      } else {
        RunsForLater(env, names, i, e);
      }
    }
  }

  /** The run after one entry of the loop. */
  function KeyWorld(w: World, name: string): World
  {
    var env := w.env;
    var src := Join(Backup(env), name);
    var probed := w.Running(FingerprintArgv(src));
    if !Candidate(env, name) then w
    else if env.procs(w.Ran()).code != 0 || !env.IsFile(Join(SshDir(env.user), name)) then probed
    else probed.Running(FingerprintArgv(src)).Running(FingerprintArgv(Join(SshDir(env.user), name)))
  }

  /** One entry of the loop runs `KeyEvents`, and nothing it runs is counted. */
  lemma KeyWorldRuns(w: World, name: string)
    ensures var w' := KeyWorld(w, name);
      && w'.trace == w.trace + KeyEvents(w.env, w.Ran(), name)
      && w'.Ran() == w.Ran() + |KeyEvents(w.env, w.Ran(), name)|
  {
    var env := w.env;
    var src := Join(Backup(env), name);
    var dest := Join(SshDir(env.user), name);
    if Candidate(env, name) && env.procs(w.Ran()).code == 0 && env.IsFile(dest) {
      var a, b := Exec(FingerprintArgv(src)), Exec(FingerprintArgv(dest));
      assert KeyEvents(env, w.Ran(), name) == [a, a, b];
      assert w.trace + [a] + [a] + [b] == w.trace + [a, a, b];
    }
  }

  /** One entry of the loop. */
  method CheckKey(w: World, name: string) returns (w': World, flagged: seq<string>)
    ensures Quiet(w, w')
    ensures w' == KeyWorld(w, name)
    ensures flagged == KeyFlag(w.env, w.Ran(), name)
  {
    var env := w.env;
    w', flagged := w, [];
    var src := Join(Backup(env), name);
    if env.IsDir(src) || name == "agent" {
      return;
    }
    var probe;
    w', probe := Other(w', FingerprintArgv(src));
    if probe.code != 0 {
      return;
    }
    var dest := Join(SshDir(env.user), name);
    if env.IsFile(dest) {
      var srcFp, destFp;
      w', srcFp := Other(w', FingerprintArgv(src));
      w', destFp := Other(w', FingerprintArgv(dest));
      if Strip(srcFp.out) != [] && Strip(destFp.out) != [] && Strip(srcFp.out) != Strip(destFp.out) {
        flagged := [name];
      }
    }
  }

  /** After the first `i` entries from `w0`: what ran so far followed by
      what the remaining entries will run is the whole loop's, and likewise
      for the warnings. */
  ghost predicate CheckedUpTo(w0: World, w: World, names: seq<string>, i: nat, flagged: seq<string>)
  {
    && i <= |names|
    && Quiet(w0, w)
    && w.trace + KeysEvents(w0.env, w.Ran(), names, i) == w0.trace + KeysEvents(w0.env, w0.Ran(), names, 0)
    && flagged + KeysFlagged(w0.env, w.Ran(), names, i) == KeysFlagged(w0.env, w0.Ran(), names, 0)
  }

  lemma CheckedStep(w0: World, w: World, w': World, names: seq<string>, i: nat, flagged: seq<string>, more: seq<string>)
    requires i < |names| && CheckedUpTo(w0, w, names, i, flagged)
    requires Quiet(w, w')
    requires w'.trace == w.trace + KeyEvents(w0.env, w.Ran(), names[i])
    requires w'.Ran() == w.Ran() + |KeyEvents(w0.env, w.Ran(), names[i])|
    requires more == KeyFlag(w0.env, w.Ran(), names[i])
    ensures CheckedUpTo(w0, w', names, i + 1, flagged + more)
  {
    var head := KeyEvents(w0.env, w.Ran(), names[i]);
    KeysEventsUnfold(w0.env, w.Ran(), names, i);
    AppendAssoc(w.trace, head, KeysEvents(w0.env, w'.Ran(), names, i + 1));
    AppendAssoc(flagged, more, KeysFlagged(w0.env, w'.Ran(), names, i + 1));
  }

  /** Entry `i` of the loop. */
  method CheckNextKey(w0: World, w: World, names: seq<string>, i: nat, flagged: seq<string>)
    returns (w': World, flagged': seq<string>)
    requires i < |names| && CheckedUpTo(w0, w, names, i, flagged)
    ensures CheckedUpTo(w0, w', names, i + 1, flagged')
  {
    var more;
    w', more := CheckKey(w, names[i]);
    KeyWorldRuns(w, names[i]);
    CheckedStep(w0, w, w', names, i, flagged, more);
    flagged' := flagged + more;
  }

  /** The optional fingerprint verification: skipped without `ssh-keygen`,
      otherwise every entry of the backup directory is looked at in turn. */
  method VerifyKeys(w: World) returns (w': World, mismatched: seq<string>)
    ensures Quiet(w, w')
    ensures !w.env.Has("ssh-keygen") ==> w' == w && mismatched == []
    ensures w.env.Has("ssh-keygen") ==>
      && w'.trace == w.trace + KeysEvents(w.env, w.Ran(), Entries(w.env), 0)
      && mismatched == KeysFlagged(w.env, w.Ran(), Entries(w.env), 0)
    ensures forall n :: n in mismatched ==>
      n in Entries(w.env) && Candidate(w.env, n) && w.env.IsFile(Join(SshDir(w.env.user), n))
  {
    w', mismatched := w, [];
    if !w.env.Has("ssh-keygen") {
      return;
    }
    var names := Entries(w.env);
    var i := 0;
    while i < |names|
      invariant CheckedUpTo(w, w', names, i, mismatched)
    {
      w', mismatched := CheckNextKey(w, w', names, i, mismatched);
      i := i + 1;
    }
    assert mismatched + [] == mismatched;
    assert w'.trace + [] == w'.trace;
    FlaggedAreKeys(w.env, w.Ran(), names, 0);
  }

  // ---------------------------------------------------------------------
  // The configuration and the service
  // ---------------------------------------------------------------------

  /** `sudo sshd -t -f config`, when `sshd` is installed. */
  function Validation(env: Env, config: Path): seq<Event>
  {
    if env.Has("sshd") then [Exec(TestArgv(config))] else []
  }

  /** `sudo sshd -t` on `config` when `sshd` is installed: `invalid` when it
      reports errors. */
  method Validate(w: World, config: Path) returns (w': World, invalid: bool)
    ensures w'.env == w.env && w'.Asked() == w.Asked()
    ensures w'.trace == w.trace + Validation(w.env, config)
    ensures invalid <==> w.env.Has("sshd") && w.env.procs(w.Ran()).code != 0
    ensures HardRsyncs(w'.Done()) == HardRsyncs(w.Done()) && RsyncRuns(w'.Done()) == RsyncRuns(w.Done())
    ensures Refused(w'.Done()) == Refused(w.Done())
    ensures Rejected(w'.Done()) == Rejected(w.Done()) + (if invalid then 1 else 0)
  {
    w', invalid := w, false;
    if w.env.Has("sshd") {
      var p;
      w', p := RunOther(w, TestArgv(config));
      RunningTallies(w, TestArgv(config));
      invalid := p.code != 0;
    }
  }

  /** One `check=True` install command: `refused` where it raises. */
  method Install(w: World, argv: seq<string>) returns (w': World, refused: bool)
    requires Installs(argv) && !IsRsync(argv)
    ensures w' == w.Running(argv)
    ensures refused <==> w.env.procs(w.Ran()).code != 0
    ensures HardRsyncs(w'.Done()) == HardRsyncs(w.Done()) && RsyncRuns(w'.Done()) == RsyncRuns(w.Done())
    ensures Refused(w'.Done()) == Refused(w.Done()) + (if refused then 1 else 0)
    ensures Rejected(w'.Done()) == Rejected(w.Done())
  {
    var p;
    w', p := RunOther(w, argv);
    RunningTallies(w, argv);
    refused := p.code != 0;
  }

  /** `cp`, `chown root:root` and `chmod 600` of the configuration, the
      first refusal ending the sequence. */
  method Place(w: World) returns (w': World, failed: bool)
    ensures w'.env == w.env && w'.Asked() == w.Asked()
    ensures HardRsyncs(w'.Done()) == HardRsyncs(w.Done()) && RsyncRuns(w'.Done()) == RsyncRuns(w.Done())
    ensures Rejected(w'.Done()) == Rejected(w.Done())
    ensures Refused(w'.Done()) == Refused(w.Done()) + (if failed then 1 else 0)
    ensures |w'.trace| > |w.trace|
    ensures var last := w'.trace[|w'.trace| - 1];
      && last.Exec? && Installs(last.argv)
      && (!failed ==> last == Exec(ConfigModeArgv))
  {
    w', failed := Install(w, CopyConfigArgv(w.env));
    if failed {
      return;
    }
    w', failed := Install(w', RootOwnerArgv);
    if failed {
      return;
    }
    w', failed := Install(w', ConfigModeArgv);
  }

  /** The `sshd_config` block: validate the backup, install it with three
      `check=True` commands, validate the installed file. A refused install
      command raises `CalledProcessError`, which skips the rest of the block
      and counts as one failure. */
  method InstallConfig(w: World) returns (w': World, failed: bool, invalid: bool)
    ensures w'.env == w.env && w'.Asked() == w.Asked()
    ensures HardRsyncs(w'.Done()) == HardRsyncs(w.Done()) && RsyncRuns(w'.Done()) == RsyncRuns(w.Done())
    ensures Refused(w'.Done()) == Refused(w.Done()) + (if failed then 1 else 0)
    ensures invalid <==> Rejected(w'.Done()) > Rejected(w.Done())
    ensures |w'.trace| > |w.trace|
    ensures var last := w'.trace[|w'.trace| - 1];
      && (failed ==> last.Exec? && Installs(last.argv))
      && (!failed ==> last == if w.env.Has("sshd") then Exec(TestArgv(SystemConfig)) else Exec(ConfigModeArgv))
  {
    var env := w.env;
    w', invalid := Validate(w, BackupConfig(env));
    w', failed := Place(w');
    if failed {
      return;
    }
    var invalidNow;
    w', invalidNow := Validate(w', SystemConfig);
    invalid := invalid || invalidNow;
  }

  /** Enable and start the service; unless `--no-restart`, restart it and
      ask whether it is active (the answer only prints a warning). */
  method Restart(w: World, noRestart: bool) returns (w': World)
    ensures Quiet(w, w')
    ensures w' == if noRestart
      then w.Running(EnableArgv).Running(StartArgv)
      else w.Running(EnableArgv).Running(StartArgv).Running(RestartArgv).Running(IsActiveArgv)
    ensures |w'.trace| > 0 && w'.trace[|w'.trace| - 1] == Exec(if noRestart then StartArgv else IsActiveArgv)
  {
    var p;
    w', p := Other(w, EnableArgv);
    w', p := Other(w', StartArgv);
    if !noRestart {
      w', p := Other(w', RestartArgv);
      w', p := Other(w', IsActiveArgv);
    }
  }

  // ---------------------------------------------------------------------
  // main
  // ---------------------------------------------------------------------

  /** Missing backup pieces: the `.ssh` directory and `sshd_config`. */
  function Missing(env: Env): (n: nat)
    ensures n <= 2
    ensures n == 0 <==> env.IsDir(Backup(env)) && env.IsFile(BackupConfig(env))
  {
    (if env.IsDir(Backup(env)) then 0 else 1) + (if env.IsFile(BackupConfig(env)) then 0 else 1)
  }

  /** The index of the first fingerprint command of a restore whose first
      command is the `k`-th: after the copy, when the backup directory is
      there, and after the three mode changes, when the key directory is. */
  function KeysStart(env: Env, k: nat): nat
  {
    k + (if env.IsDir(Backup(env)) then 1 else 0) + (if DestPresent(env) then 3 else 0)
  }

  /** The key directory, the configuration's presence, the modes and the
      fingerprints. */
  method Restore(w: World) returns (w': World, failures: nat, mismatched: seq<string>)
    ensures w'.env == w.env && w'.Asked() == w.Asked()
    ensures Refused(w'.Done()) == Refused(w.Done()) && Rejected(w'.Done()) == Rejected(w.Done())
    ensures RsyncRuns(w'.Done()) == RsyncRuns(w.Done()) + (if w.env.IsDir(Backup(w.env)) then 1 else 0)
    ensures HardRsyncs(w.Done()) <= HardRsyncs(w'.Done())
    ensures failures == Missing(w.env) + (HardRsyncs(w'.Done()) - HardRsyncs(w.Done()))
    ensures !w.env.Has("ssh-keygen") ==> mismatched == []
    ensures w.env.Has("ssh-keygen") ==>
      mismatched == KeysFlagged(w.env, KeysStart(w.env, w.Ran()), Entries(w.env), 0)
    ensures forall n :: n in mismatched ==>
      n in Entries(w.env) && Candidate(w.env, n) && w.env.IsFile(Join(SshDir(w.env.user), n))
  {
    var failed;
    w', failed := RestoreDir(w);
    failures := if failed then 1 else 0;
    if !w.env.IsFile(BackupConfig(w.env)) {
      failures := failures + 1;
    }
    w' := FixModes(w');
    assert w'.Ran() == KeysStart(w.env, w.Ran());
    w', mismatched := VerifyKeys(w');
  }

  /** After the second sudo check: the owner of the key directory, the
      configuration and the service. */
  method Conclude(w: World, noRestart: bool) returns (w': World, failed: bool, invalid: bool)
    ensures w'.env == w.env && w'.Asked() == w.Asked()
    ensures HardRsyncs(w'.Done()) == HardRsyncs(w.Done()) && RsyncRuns(w'.Done()) == RsyncRuns(w.Done())
    ensures Refused(w'.Done()) == Refused(w.Done()) + (if failed then 1 else 0)
    ensures invalid <==> Rejected(w'.Done()) > Rejected(w.Done())
    ensures !w.env.IsFile(BackupConfig(w.env)) ==> !failed && !invalid
    ensures |w'.trace| > 0 && w'.trace[|w'.trace| - 1] == Exec(if noRestart then StartArgv else IsActiveArgv)
    ensures |w'.Done()| > 0 && w'.Done()[|w'.Done()| - 1].argv == (if noRestart then StartArgv else IsActiveArgv)
  {
    var env := w.env;
    w', failed, invalid := w, false, false;
    if DestPresent(env) {
      var p;
      w', p := Other(w', OwnerArgv(env.user));
    }
    if env.IsFile(BackupConfig(env)) {
      w', failed, invalid := InstallConfig(w');
    }
    w' := Restart(w', noRestart);
  }

  /** The second sudo check, then the rest. `stop` where `sudo -v` now fails. */
  method Finish(w: World, noRestart: bool) returns (w': World, stop: bool, failed: bool, invalid: bool)
    ensures w'.env == w.env && w'.Asked() == w.Asked()
    ensures HardRsyncs(w'.Done()) == HardRsyncs(w.Done()) && RsyncRuns(w'.Done()) == RsyncRuns(w.Done())
    ensures stop <==> w.env.procs(w.Ran()).code != 0
    ensures stop ==> w' == w.Running(SudoCheck) && !failed && !invalid
    ensures stop <==> SudoRefused(w')
    ensures Refused(w'.Done()) == Refused(w.Done()) + (if failed then 1 else 0)
    ensures invalid <==> Rejected(w'.Done()) > Rejected(w.Done())
    ensures !w.env.IsFile(BackupConfig(w.env)) ==> !failed && !invalid
    ensures !stop ==> |w'.trace| > 0 && w'.trace[|w'.trace| - 1] == Exec(if noRestart then StartArgv else IsActiveArgv)
  {
    var p;
    w', p := Other(w, SudoCheck);
    if p.code != 0 {
      return w', true, false, false;
    }
    stop := false;
    w', failed, invalid := Conclude(w', noRestart);
  }

  /** The two counters the summary line reports, and the names the
      fingerprint check warned about. */
  datatype Summary = Summary(failures: nat, validationFailed: bool, mismatched: seq<string>)

  /** Everything after the prelude: the service check, the restore and the
      summary. */
  method Body(w: World, noRestart: bool) returns (w': World, status: Status, summary: Option<Summary>)
    ensures w'.env == w.env
    ensures summary.Some? <==> ServiceFound(w) && !SudoRefused(w')
    ensures summary.None? ==> status == Return(1)
    ensures summary.Some? ==>
      var s := summary.value;
      var env := w.env;
      && HardRsyncs(w.Done()) <= HardRsyncs(w'.Done())
      && s.failures == Missing(env) + (HardRsyncs(w'.Done()) - HardRsyncs(w.Done())) + (Refused(w'.Done()) - Refused(w.Done()))
      && Refused(w.Done()) <= Refused(w'.Done()) <= Refused(w.Done()) + (if env.IsFile(BackupConfig(env)) then 1 else 0)
      && RsyncRuns(w'.Done()) == RsyncRuns(w.Done()) + (if env.IsDir(Backup(env)) then 1 else 0)
      && (s.validationFailed <==> s.mismatched != [] || Rejected(w'.Done()) > Rejected(w.Done()))
      && (!env.Has("ssh-keygen") ==> s.mismatched == [])
      && (env.Has("ssh-keygen") ==>
            s.mismatched == KeysFlagged(env, KeysStart(env, ServiceRan(env, w.Ran())), Entries(env), 0))
      && (forall n :: n in s.mismatched ==>
            n in Entries(env) && Candidate(env, n) && env.IsFile(Join(SshDir(env.user), n)))
      && status == Verdict(s.failures, s.validationFailed)
      && |w'.trace| > 0 && w'.trace[|w'.trace| - 1] == Exec(if noRestart then StartArgv else IsActiveArgv)
  {
    var ok;
    w', ok := EnsureService(w);
    if !ok {
      return w', Return(1), None;
    }
    var failures, mismatched;
    w', failures, mismatched := Restore(w');
    var halted, failed, invalid;
    w', halted, failed, invalid := Finish(w', noRestart);
    if halted {
      return w', Return(1), None;
    }
    if failed {
      failures := failures + 1;
    }
    var validationFailed := mismatched != [] || invalid;
    status := Verdict(failures, validationFailed);
    summary := Some(Summary(failures, validationFailed, mismatched));
  }

  /** `main()`. `summary` is present exactly when the run reaches its
      summary line. */
  method RunScript(env: Env, args: seq<string>) returns (w: World, status: Status, summary: Option<Summary>)
    ensures w.env == env
    ensures var f := Scan(args, G, Defaults);
      f.manifestOnly ==> status == Return(0) && summary.None? && w == Paused(env, args, f)
    ensures var f := Scan(args, G, Defaults);
      !f.manifestOnly && Declined(env, args, f) ==>
        status == Return(0) && summary.None? && w == Paused(env, args, f).Asking(ConfirmPrompt)
    ensures summary.None? ==> status == Return(1) || (status == Return(0) && w.Ran() == 0)
    ensures var f := Scan(args, G, Defaults);
      summary.Some? <==> Admitted(env, args, f) && ServiceFound(Entered(env, args, f)) && !SudoRefused(w)
    ensures summary.Some? ==>
      var s := summary.value;
      && !Scan(args, G, Defaults).manifestOnly && !Declined(env, args, Scan(args, G, Defaults))
      && s.failures == Missing(env) + HardRsyncs(w.Done()) + Refused(w.Done())
      && Refused(w.Done()) <= (if env.IsFile(BackupConfig(env)) then 1 else 0)
      && RsyncRuns(w.Done()) == (if env.IsDir(Backup(env)) then 1 else 0)
      && (s.validationFailed <==> s.mismatched != [] || Rejected(w.Done()) > 0)
      && (!env.Has("ssh-keygen") ==> s.mismatched == [])
      && (env.Has("ssh-keygen") ==>
            s.mismatched == KeysFlagged(env, KeysStart(env, ServiceRan(env, 1)), Entries(env), 0))
      && (forall n :: n in s.mismatched ==>
            n in Entries(env) && Candidate(env, n) && env.IsFile(Join(SshDir(env.user), n)))
      && status == Verdict(s.failures, s.validationFailed)
      && |w.trace| > 0 && w.trace[|w.trace| - 1] == Exec(if Scan(args, G, Defaults).noRestart then StartArgv else IsActiveArgv)
  {
    var f, stop;
    w, f, stop := Prelude(env, args);
    SudoCheckUncounted(w.Done(), env.procs(0));
    if stop.Some? {
      return w, stop.value, None;
    }
    w, status, summary := Body(w, f.noRestart);
  }
}
