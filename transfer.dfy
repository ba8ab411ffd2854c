/**
  The steps around the copy that the scripts repeat: `run_rsync` and its
  exit-status rule, the sudo pre-check, the `date` timestamp, the two ways
  an archive's tar exit status is judged, and the archive written through
  a temporary file.
*/
module Transfer {
  import opened Base
  import opened PyStr
  import opened Host

  /** `run_rsync(argv)` (and `run_rsync_sudo`, whose argv starts with `sudo`):
      `ok` is false exactly where it raises `RuntimeError`. */
  method RunRsync(w: World, argv: seq<string>) returns (w': World, ok: bool)
    requires IsRsync(argv)
    ensures w' == w.Running(argv)
    ensures ok <==> RsyncOk(w.env.procs(w.Ran()).code)
    ensures HardRsyncs(w'.Done()) == HardRsyncs(w.Done()) + (if ok then 0 else 1)
    ensures RsyncRuns(w'.Done()) == RsyncRuns(w.Done()) + 1
  {
    var p;
    w', p := Run(w, argv);
    ok := RsyncOk(p.code);
    CountsAppend(w.Done(), [Step(argv, p)]);
  }

  /** A command that is not rsync: the rsync tallies are unchanged. */
  method RunOther(w: World, argv: seq<string>) returns (w': World, p: Proc)
    requires !IsRsync(argv)
    ensures p == w.env.procs(w.Ran())
    ensures w' == w.Running(argv)
    ensures HardRsyncs(w'.Done()) == HardRsyncs(w.Done())
    ensures RsyncRuns(w'.Done()) == RsyncRuns(w.Done())
  {
    w', p := Run(w, argv);
    CountsAppend(w.Done(), [Step(argv, p)]);
  }

  const SudoCheck: seq<string> := ["sudo", "-v"]

  /** `ensure_sudo()` and the sudo pre-checks: sudo must be installed and
      `sudo -v` must succeed. */
  method EnsureSudo(w: World) returns (w': World, ok: bool)
    ensures !w.env.Has("sudo") ==> !ok && w' == w
    ensures w.env.Has("sudo") ==>
      && w' == w.Running(SudoCheck)
      && (ok <==> w.env.procs(w.Ran()).code == 0)
    ensures HardRsyncs(w'.Done()) == HardRsyncs(w.Done()) && RsyncRuns(w'.Done()) == RsyncRuns(w.Done())
  {
    w' := w;
    ok := false;
    if w.env.Has("sudo") {
      var p;
      w', p := RunOther(w, SudoCheck);
      ok := p.code == 0;
    }
  }

  const DateArgv: seq<string> := ["date", "+%j-%d-%m-%H-%M-%S"]

  /** `subprocess.check_output(["date", ...]).strip()`: `None` where the
      command fails and `CalledProcessError` escapes. */
  method Stamp(w: World) returns (w': World, stamp: Option<string>)
    ensures w' == w.Running(DateArgv)
    ensures stamp == (if w.env.procs(w.Ran()).code == 0 then Some(Strip(w.env.procs(w.Ran()).out)) else None)
    ensures HardRsyncs(w'.Done()) == HardRsyncs(w.Done()) && RsyncRuns(w'.Done()) == RsyncRuns(w.Done())
  {
    var p;
    w', p := RunOther(w, DateArgv);
    stamp := if p.code == 0 then Some(Strip(p.out)) else None;
  }

  /** Scripts that accept tar's exit status 1 ("some files differ") with a
      warning fail on any other non-zero status. */
  predicate TarFailedLenient(code: int)
  {
    code != 0 && code != 1
  }

  /** Scripts that write through a temporary file fail on any non-zero status. */
  predicate TarFailedStrict(code: int)
  {
    code != 0
  }

  /** The lenient rule differs from the strict one exactly at status 1. */
  lemma TarRules(code: int)
    ensures TarFailedLenient(code) ==> TarFailedStrict(code)
    ensures TarFailedStrict(code) && !TarFailedLenient(code) <==> code == 1
  {
  }

  function TempTarArgv(temp: Path, runDir: Path): seq<string>
  {
    ["tar", "--use-compress-program=pigz", "-cpf", temp, "-C", runDir, "."]
  }

  /** The archive step of the scripts that tar into a temporary file: on
      success the file is moved to `archive`, on any failure it is removed. */
  method TarToTemp(w: World, runDir: Path, archive: Path) returns (w': World, failed: bool)
    ensures failed <==> TarFailedStrict(w.env.procs(w.Ran()).code)
    ensures var temp := w.env.tempName;
      w' == w.Running(TempTarArgv(temp, runDir)).Doing(if failed then Unlink(temp) else Move(temp, archive))
    ensures HardRsyncs(w'.Done()) == HardRsyncs(w.Done()) && RsyncRuns(w'.Done()) == RsyncRuns(w.Done())
    ensures LastTar(w'.Done()) == Some(w.env.procs(w.Ran()))
  {
    RunningLastTar(w, TempTarArgv(w.env.tempName, runDir));
    var temp := w.env.tempName;
    var p;
    w', p := RunOther(w, TempTarArgv(temp, runDir));
    failed := p.code != 0;
    if failed {
      w' := Do(w', Unlink(temp));
    } else {
      w' := Do(w', Move(temp, archive));
    }
  }

  /** `sudo tar` of a run directory into an archive inside it: the archive
      leaves itself out. */
  function InPlaceTarArgv(runDir: Path, name: string): seq<string>
  {
    ["sudo", "tar", "--use-compress-program=pigz", "--warning=no-file-changed",
     "--exclude", "./" + name, "-cpf", Join(runDir, name), "-C", runDir, "."]
  }

  /** The pattern tar leaves out names the very file it writes, relative to
      the directory it archives. */
  lemma InPlaceExcludesItself(runDir: Path, name: string)
    requires '/' !in name
    ensures var a := InPlaceTarArgv(runDir, name);
      && a[4] == "--exclude" && a[6] == "-cpf" && a[8] == "-C" && a[9] == runDir
      && a[5] == "./" + BaseName(a[7])
      && a[7] == Join(a[9], BaseName(a[7]))
  {
    BaseNameJoin(runDir, name);
  }

  /** `user:user`, the owner a root-written archive is handed back to. */
  function HandBackArgv(user: string, archive: Path): seq<string>
  {
    ["sudo", "chown", user + ":" + user, archive]
  }

  /** The archive step of the scripts that read through sudo: exit status 1
      is a warning, any other non-zero status sets `tarFailed`; only a clean
      archive is handed back to the user, whatever `chown` then returns. */
  method ArchiveInPlace(w: World, runDir: Path, name: string) returns (w': World, tarFailed: bool)
    ensures tarFailed <==> TarFailedLenient(w.env.procs(w.Ran()).code)
    ensures w' == if w.env.procs(w.Ran()).code == 0
      then w.Running(InPlaceTarArgv(runDir, name)).Running(HandBackArgv(w.env.user, Join(runDir, name)))
      else w.Running(InPlaceTarArgv(runDir, name))
    ensures HardRsyncs(w'.Done()) == HardRsyncs(w.Done()) && RsyncRuns(w'.Done()) == RsyncRuns(w.Done())
    ensures LastTar(w'.Done()) == Some(w.env.procs(w.Ran()))
  {
    var tarred := w.Running(InPlaceTarArgv(runDir, name));
    RunningLastTar(w, InPlaceTarArgv(runDir, name));
    RunningLastTar(tarred, HandBackArgv(w.env.user, Join(runDir, name)));
    var p;
    w', p := RunOther(w, InPlaceTarArgv(runDir, name));
    tarFailed := false;
    if p.code == 0 {
      var q;
      w', q := RunOther(w', HandBackArgv(w.env.user, Join(runDir, name)));
    } else if p.code != 1 {
      tarFailed := true;
    }
  }

  /** The paths of `ps` that exist, in order. */
  function Existing(env: Env, ps: seq<Path>): (r: seq<Path>)
    ensures |r| <= |ps|
  {
    if ps == [] then []
    else
      var init := ps[..|ps| - 1];
      var last := ps[|ps| - 1];
      Existing(env, init) + (if env.Exists(last) then [last] else [])
  }

  /** Exactly the paths that exist are kept. */
  lemma {:induction false} ExistingMembers(env: Env, ps: seq<Path>, p: Path)
    ensures p in Existing(env, ps) <==> p in ps && env.Exists(p)
    decreases |ps|
  {
    if ps != [] {
      var init := ps[..|ps| - 1];
      ExistingMembers(env, init, p);
      assert ps == init + [ps[|ps| - 1]];
    }
  }

  /** One more path considered: it is kept exactly when it exists. */
  lemma ExistingStep(env: Env, ps: seq<Path>, i: nat)
    requires i < |ps|
    ensures env.Exists(ps[i]) ==> Existing(env, ps[..i + 1]) == Existing(env, ps[..i]) + [ps[i]]
    ensures !env.Exists(ps[i]) ==> Existing(env, ps[..i + 1]) == Existing(env, ps[..i])
  {
    assert ps[..i + 1][..i] == ps[..i];
    assert Existing(env, ps[..i]) + [] == Existing(env, ps[..i]);
  }

  /** The commands run for `srcs`, one per path, in order. */
  function ExecEach(srcs: seq<Path>, argvOf: Path -> seq<string>): (r: seq<Event>)
    ensures |r| == |srcs|
  {
    if srcs == [] then [] else ExecEach(srcs[..|srcs| - 1], argvOf) + [Exec(argvOf(srcs[|srcs| - 1]))]
  }

  lemma ExecEachSnoc(srcs: seq<Path>, src: Path, argvOf: Path -> seq<string>)
    ensures ExecEach(srcs + [src], argvOf) == ExecEach(srcs, argvOf) + [Exec(argvOf(src))]
  {
    assert (srcs + [src])[..|srcs|] == srcs;
  }

  /** After copying `done` from `w0`: their commands follow `w0`'s trace
      and `failures` of them failed hard. */
  ghost predicate Copied(w0: World, w: World, done: seq<Path>, argvOf: Path -> seq<string>, failures: nat)
  {
    && w.trace == w0.trace + ExecEach(done, argvOf)
    && w.env == w0.env && w.Asked() == w0.Asked() && w.Ran() == w0.Ran() + |done|
    && RsyncRuns(w.Done()) == RsyncRuns(w0.Done()) + |done|
    && HardRsyncs(w.Done()) == HardRsyncs(w0.Done()) + failures
  }

  lemma CopiedStep(w0: World, w: World, done: seq<Path>, argvOf: Path -> seq<string>, failures: nat, src: Path)
    requires Copied(w0, w, done, argvOf, failures)
    requires IsRsync(argvOf(src))
    ensures var ok := RsyncOk(w.env.procs(w.Ran()).code);
      Copied(w0, w.Running(argvOf(src)), done + [src], argvOf, failures + (if ok then 0 else 1))
  {
    var argv := argvOf(src);
    ExecEachSnoc(done, src, argvOf);
    assert w.trace + [Exec(argv)] == w0.trace + (ExecEach(done, argvOf) + [Exec(argv)]);
    CountsAppend(w.Done(), [Step(argv, w.env.procs(w.Ran()))]);
  }

  /** One more source copied: its hard failure, if any, is counted. */
  method CopyNext(w0: World, w: World, done: seq<Path>, argvOf: Path -> seq<string>, failures: nat, src: Path)
    returns (w': World, failures': nat)
    requires Copied(w0, w, done, argvOf, failures)
    requires IsRsync(argvOf(src))
    ensures Copied(w0, w', done + [src], argvOf, failures')
    ensures failures <= failures' <= failures + 1
  {
    CopiedStep(w0, w, done, argvOf, failures, src);
    var ok;
    w', ok := RunRsync(w, argvOf(src));
    failures' := if ok then failures else failures + 1;
  }

  /** The copy loop of the scripts that skip a missing source: each source
      that exists is copied with `argvOf(src)`, a missing one is only
      counted, and a hard rsync failure adds one to `failures`. */
  method CopyExisting(w: World, sources: seq<Path>, argvOf: Path -> seq<string>)
    returns (w': World, failures: nat, copied: nat, skipped: nat)
    requires forall s :: IsRsync(argvOf(s))
    ensures copied == |Existing(w.env, sources)| && copied + skipped == |sources|
    ensures w'.trace == w.trace + ExecEach(Existing(w.env, sources), argvOf)
    ensures w'.env == w.env && w'.Asked() == w.Asked() && w'.Ran() == w.Ran() + copied
    ensures RsyncRuns(w'.Done()) == RsyncRuns(w.Done()) + copied
    ensures HardRsyncs(w'.Done()) == HardRsyncs(w.Done()) + failures
  {
    w' := w;
    failures, copied, skipped := 0, 0, 0;
    var i := 0;
    while i < |sources|
      invariant 0 <= i <= |sources|
      invariant copied == |Existing(w.env, sources[..i])| && skipped == i - copied
      invariant Copied(w, w', Existing(w.env, sources[..i]), argvOf, failures)
    {
      var src := sources[i];
      ExistingStep(w.env, sources, i);
      if !w.env.Exists(src) {
        skipped := skipped + 1;
      } else {
        w', failures := CopyNext(w, w', Existing(w.env, sources[..i]), argvOf, failures, src);
        copied := copied + 1;
      }
      i := i + 1;
    }
    assert sources[..i] == sources;
  }

  /** One copy of a source that must be there: a missing source and a hard
      rsync failure each count as one failure. */
  method CopyRequired(w: World, present: bool, argv: seq<string>) returns (w': World, failed: bool)
    requires IsRsync(argv)
    ensures !present ==> failed && w' == w
    ensures present ==> w' == w.Running(argv) && (failed <==> !RsyncOk(w.env.procs(w.Ran()).code))
    ensures HardRsyncs(w'.Done()) == HardRsyncs(w.Done()) + (if present && failed then 1 else 0)
    ensures RsyncRuns(w'.Done()) == RsyncRuns(w.Done()) + (if present then 1 else 0)
  {
    w', failed := w, true;
    if present {
      var ok;
      w', ok := RunRsync(w, argv);
      failed := !ok;
    }
  }

  /** The regular files among `ps`, in order. */
  function Files(env: Env, ps: seq<Path>): (r: seq<Path>)
    ensures |r| <= |ps|
  {
    if ps == [] then []
    else
      var last := ps[|ps| - 1];
      Files(env, ps[..|ps| - 1]) + (if env.IsFile(last) then [last] else [])
  }

  lemma FilesStep(env: Env, ps: seq<Path>, i: nat)
    requires i < |ps|
    ensures env.IsFile(ps[i]) ==> Files(env, ps[..i + 1]) == Files(env, ps[..i]) + [ps[i]]
    ensures !env.IsFile(ps[i]) ==> Files(env, ps[..i + 1]) == Files(env, ps[..i])
  {
    assert ps[..i + 1][..i] == ps[..i];
    assert Files(env, ps[..i]) + [] == Files(env, ps[..i]);
  }

  /** Every path is kept exactly when every path is a regular file. */
  lemma {:induction false} FilesAll(env: Env, ps: seq<Path>)
    ensures |Files(env, ps)| == |ps| <==> forall k :: 0 <= k < |ps| ==> env.IsFile(ps[k])
    decreases |ps|
  {
    if ps != [] {
      var init := ps[..|ps| - 1];
      FilesAll(env, init);
      assert forall k :: 0 <= k < |init| ==> init[k] == ps[k];
    }
  }

  /** The copy loop of the scripts that require every file: each file is
      copied with `argvOf(src)`, and a missing file or a hard rsync failure
      adds one to `failures`. */
  method CopyFiles(w: World, sources: seq<Path>, argvOf: Path -> seq<string>)
    returns (w': World, failures: nat)
    requires forall s :: IsRsync(argvOf(s))
    ensures w'.trace == w.trace + ExecEach(Files(w.env, sources), argvOf)
    ensures w'.env == w.env && w'.Asked() == w.Asked() && w'.Ran() == w.Ran() + |Files(w.env, sources)|
    ensures RsyncRuns(w'.Done()) == RsyncRuns(w.Done()) + |Files(w.env, sources)|
    ensures HardRsyncs(w.Done()) <= HardRsyncs(w'.Done())
    ensures failures == (|sources| - |Files(w.env, sources)|) + (HardRsyncs(w'.Done()) - HardRsyncs(w.Done()))
  {
    w' := w;
    failures := 0;
    var hard := 0;
    var i := 0;
    while i < |sources|
      invariant 0 <= i <= |sources|
      invariant failures == (i - |Files(w.env, sources[..i])|) + hard
      invariant Copied(w, w', Files(w.env, sources[..i]), argvOf, hard)
    {
      var src := sources[i];
      FilesStep(w.env, sources, i);
      if !w.env.IsFile(src) {
        failures := failures + 1;
      } else {
        CopiedStep(w, w', Files(w.env, sources[..i]), argvOf, hard, src);
        var ok;
        w', ok := RunRsync(w', argvOf(src));
        if !ok {
          failures := failures + 1;
          hard := hard + 1;
        }
      }
      i := i + 1;
    }
    assert sources[..i] == sources;
  }

  // ---------------------------------------------------------------------
  // Commands whose outcome only prints a warning
  // ---------------------------------------------------------------------

  /** The trace entries of running `argvs` in order. */
  function ExecAll(argvs: seq<seq<string>>): (r: seq<Event>)
    ensures |r| == |argvs|
  {
    if argvs == [] then [] else ExecAll(argvs[..|argvs| - 1]) + [Exec(argvs[|argvs| - 1])]
  }

  lemma ConcatAssoc(a: seq<Event>, b: seq<Event>, c: seq<Event>)
    ensures a + (b + c) == (a + b) + c
  {
  }

  /** Runs `argvs` in order with `check=False`, whatever each returns. */
  method RunAll(w: World, argvs: seq<seq<string>>) returns (w': World)
    ensures w'.trace == w.trace + ExecAll(argvs)
    ensures w'.env == w.env && w'.Asked() == w.Asked() && w'.Ran() == w.Ran() + |argvs|
    ensures w'.Done()[..w.Ran()] == w.Done()
  {
    w' := w;
    var i := 0;
    while i < |argvs|
      invariant 0 <= i <= |argvs|
      invariant w'.trace == w.trace + ExecAll(argvs[..i])
      invariant w'.env == w.env && w'.Asked() == w.Asked() && w'.Ran() == w.Ran() + i
      invariant w'.Done()[..w.Ran()] == w.Done()
    {
      var p;
      w', p := Run(w', argvs[i]);
      assert argvs[..i + 1][..i] == argvs[..i];
      ConcatAssoc(w.trace, ExecAll(argvs[..i]), [Exec(argvs[i])]);
      i := i + 1;
    }
    assert argvs[..i] == argvs;
  }
}
