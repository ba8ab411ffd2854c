/**
  `SERV/GRUB/backup-grub.py`: meant to back up the GRUB theme, the GRUB
  defaults and the two restore scripts into `<dest>/SERV/GRUB/GRUB-<ts>/`.
  In the source loop the copy sits after the `continue` of the
  missing-source branch, so it never runs: the loop only reports missing
  sources, nothing is copied and `rsync_failures` stays 0. The run ends
  with the optional archive of the (so far empty) run directory.
*/
module BackupGrub {
  import opened Base
  import opened PyStr
  import opened Host
  import opened Common
  import opened Cli
  import opened Transfer
  import opened Opening

  const MinGb: nat := 20

  function Sources(user: string): seq<Path>
  {
    ["/boot/grub/themes/lateralus", "/etc/default/grub",
     "/home/" + user + "/Code/BACKUP/SERV/GRUB/restore-grub.sh",
     "/home/" + user + "/Code/BACKUP/SERV/GRUB/restore-grub.py"]
  }

  /** The paths of `ps` that do not exist, in order. */
  function Absent(env: Env, ps: seq<Path>): (r: seq<Path>)
    ensures |r| <= |ps|
  {
    if ps == [] then []
    else
      var last := ps[|ps| - 1];
      Absent(env, ps[..|ps| - 1]) + (if env.Exists(last) then [] else [last])
  }

  /** Exactly the paths that do not exist are reported. */
  lemma {:induction false} AbsentMembers(env: Env, ps: seq<Path>, p: Path)
    ensures p in Absent(env, ps) <==> p in ps && !env.Exists(p)
    decreases |ps|
  {
    if ps != [] {
      var init := ps[..|ps| - 1];
      AbsentMembers(env, init, p);
      assert ps == init + [ps[|ps| - 1]];
    }
  }

  /** A path is reported missing or copied, never both: the reported ones
      and the ones a skip-missing loop would copy split the sources. */
  lemma {:induction false} AbsentExistingSplit(env: Env, ps: seq<Path>)
    ensures |Absent(env, ps)| + |Existing(env, ps)| == |ps|
    decreases |ps|
  {
    if ps != [] {
      AbsentExistingSplit(env, ps[..|ps| - 1]);
    }
  }

  /** The source loop as written: a missing source is reported and skipped;
      for a present one the loop body does nothing, since its copy is
      unreachable. No command runs and no failure is counted. */
  method SourceLoop(w: World, sources: seq<Path>) returns (w': World, failures: nat, reported: seq<Path>)
    ensures w' == w && failures == 0
    ensures reported == Absent(w.env, sources)
  {
    w', failures, reported := w, 0, [];
    var i := 0;
    while i < |sources|
      invariant 0 <= i <= |sources|
      invariant reported == Absent(w.env, sources[..i])
    {
      var src := sources[i];
      assert sources[..i + 1][..i] == sources[..i];
      if !w.env.Exists(src) {
        reported := reported + [src];
      }
      i := i + 1;
    }
    assert sources[..i] == sources;
  }

  /** The counters the final summary line reports, the destination chosen
      and the sources reported missing. */
  datatype Summary = Summary(failures: nat, tarFailed: bool, dest: Path, reported: seq<Path>)

  function ArchivePath(runDir: Path, stamp: string): Path { Join(runDir, "GRUB-" + stamp + ".tar.gz") }

  /** Where `main()` stops before its source loop, if it does. */
  function Stop(env: Env, args: seq<string>): Option<Status>
  {
    PrepStop(Start(env), args, false, true, MinGb)
  }

  /** `main()`. `summary` is present exactly when the run reaches its
      summary line. */
  method RunScript(env: Env, args: seq<string>) returns (w: World, status: Status, summary: Option<Summary>)
    ensures w.env == env
    ensures RsyncRuns(w.Done()) == 0
    ensures !ToolsFound(Start(env), args, false, true) ==> w == Checked(Start(env), args, false, true)
    ensures Stop(env, args).Some? ==> status == Stop(env, args).value && summary.None?
    ensures summary.Some? <==> Stop(env, args).None?
    ensures summary.None? ==> status != Return(0)
    ensures summary.Some? ==>
      var s := summary.value;
      && s.dest == OpenDest(Start(env), args, false, true)
      && s.failures == 0
      && s.reported == Absent(env, Sources(env.user))
      && status == Verdict(0, s.tarFailed)
      && (status == Return(1) <==> s.tarFailed)
    ensures summary.Some? ==>
      if Compresses(Start(env), args, false) then
        LastTar(w.Done()).Some? && (summary.value.tarFailed <==> TarFailedStrict(LastTar(w.Done()).value.code))
      else !summary.value.tarFailed
  {
    var compress, dest, ts, runDir, stop;
    w, compress, dest, ts, runDir, stop := Open(Start(env), args, false, true, "SERV/GRUB", "GRUB-");
    if stop.Some? {
      return w, stop.value, None;
    }
    if !EnoughSpace(env.freeBytes(dest), MinGb) {
      return w, Exit(1), None;
    }
    var failures, reported;
    w, failures, reported := SourceLoop(w, Sources(env.user));
    var tarFailed := false;
    if compress {
      w, tarFailed := TarToTemp(w, runDir, ArchivePath(runDir, ts));
    }
    status := Verdict(failures, tarFailed);
    summary := Some(Summary(failures, tarFailed, dest, reported));
  }
}
