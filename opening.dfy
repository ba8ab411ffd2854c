/**
  The opening every backup script goes through before it copies anything:
  the banner pause and the compression question, the required-tool checks
  (with the sudo pre-check of the scripts that read root-owned files), and
  then the destination, the timestamp and the run directory.
*/
module Opening {
  import opened Base
  import opened PyStr
  import opened Host
  import opened Common
  import opened Cli
  import opened Transfer

  /** The run after the banner pause and the compression question: only
      prompts, and only those that are asked. */
  function Greeted(w: World, args: seq<string>, noCompress: bool): (g: World)
    ensures g.env == w.env && g.Done() == w.Done()
  {
    var b := if "--no-banner" in args then w else w.Asking(BannerPrompt);
    if "--yes" in args || noCompress then b else b.Asking(CompressPrompt)
  }

  /** The banner, then the compression decision: `--yes` compresses even over
      `--no-compress`, `--no-compress` declines, and otherwise the answer to
      the question (read after the banner's Enter) decides. */
  method Greet(w: World, args: seq<string>, noCompress: bool) returns (w': World, compress: bool)
    ensures w' == Greeted(w, args, noCompress)
    ensures w'.env == w.env && w'.Done() == w.Done()
    ensures compress == Compresses(w, args, noCompress)
  {
    w' := Banner(w, args);
    w', compress := DecideCompress(w', "--yes" in args, noCompress);
  }

  /** The required-tool checks: rsync, then (for the scripts that need it)
      sudo and `sudo -v`, then pigz when an archive is wanted. Only `sudo -v`
      runs a command. */
  method CheckTools(w: World, compress: bool, sudo: bool) returns (w': World, ok: bool)
    ensures !w.env.Has("rsync") ==> !ok && w' == w
    ensures w'.env == w.env
    ensures w.env.Has("rsync") && sudo && w.env.Has("sudo") ==> w' == w.Running(SudoCheck)
    ensures !(w.env.Has("rsync") && sudo && w.env.Has("sudo")) ==> w' == w
    ensures ok <==>
      && w.env.Has("rsync")
      && (sudo ==> w.env.Has("sudo") && w.env.procs(w.Ran()).code == 0)
      && (compress ==> w.env.Has("pigz"))
  {
    w' := w;
    if !w.env.Has("rsync") {
      return w', false;
    }
    if sudo {
      var sudoOk;
      w', sudoOk := EnsureSudo(w);
      if !sudoOk {
        return w', false;
      }
    }
    ok := !compress || w.env.Has("pigz");
  }

  /** Where choosing the destination and the timestamp stops, if it does:
      `Exit(1)` where `select_destination` exits, `Uncaught` where `date`
      fails. */
  function LocateStop(w: World): Option<Status>
  {
    if Chosen(w).None? then Some(Exit(1))
    else if w.env.procs(w.Ran()).code != 0 then Some(Uncaught)
    else None
  }

  /** The destination, the timestamp and the run directory
      `<dest>/<area>/<prefix><ts>`, stopping where `LocateStop` says. */
  method Locate(w: World, area: string, prefix: string)
    returns (w': World, dest: Path, ts: string, runDir: Path, stop: Option<Status>)
    ensures w'.env == w.env
    ensures HardRsyncs(w'.Done()) == HardRsyncs(w.Done()) && RsyncRuns(w'.Done()) == RsyncRuns(w.Done())
    ensures Candidates(w.env) == [] ==> w' == w
    ensures Rmtrees(w'.trace) == Rmtrees(w.trace)
    ensures stop == LocateStop(w)
    ensures stop.None? ==>
      && dest == Chosen(w).value
      && (|Candidates(w.env)| == 1 ==> w'.Asked() == w.Asked())
      && ts == Strip(w.env.procs(w.Ran()).out)
      && runDir == Join(Join(dest, area), prefix + ts)
      && w'.Ran() == w.Ran() + 1
      && |w'.trace| > 0 && w'.trace[|w'.trace| - 1] == Mkdir(runDir)
  {
    var dests := ListDestinations(w.env);
    var selected;
    w', selected := SelectDestination(w, dests);
    RmtreesSteps(w, [], MenuPrompt, Unlink(""));
    if selected.Some? && |dests| >= 2 {
      RmtreesSteps(w.Asking(MenuPrompt), [], ConfirmPrompt(selected.value), Unlink(""));
    }
    dest, ts, runDir := "", "", "";
    if selected.None? {
      return w', dest, ts, runDir, Some(Exit(1));
    }
    dest := selected.value;
    assert w'.Ran() == w.Ran();
    var stamp;
    ghost var s := w';
    w', stamp := Stamp(w');
    RmtreesSteps(s, DateArgv, "", Unlink(""));
    if stamp.None? {
      return w', dest, ts, runDir, Some(Uncaught);
    }
    ts := stamp.value;
    runDir := Join(Join(dest, area), prefix + ts);
    RmtreesSteps(w', [], "", Mkdir(runDir));
    w' := Do(w', Mkdir(runDir));
    stop := None;
  }

  /** `compress_backup`: `--yes`, or no `--no-compress` and a reply to the
      question (asked after the banner's Enter) that is not `n`. */
  function Compresses(w: World, args: seq<string>, noCompress: bool): bool
  {
    var k := if "--no-banner" in args then w.Asked() else w.Asked() + 1;
    "--yes" in args || (!noCompress && WantsCompression(w.env.answers(k)))
  }

  /** The tool checks pass: rsync, sudo with an accepted `sudo -v` where
      needed, and pigz when an archive is wanted. */
  predicate ToolsFound(w: World, args: seq<string>, noCompress: bool, sudo: bool)
  {
    && w.env.Has("rsync")
    && (sudo ==> w.env.Has("sudo") && w.env.procs(w.Ran()).code == 0)
    && (Compresses(w, args, noCompress) ==> w.env.Has("pigz"))
  }

  /** The run once the tool checks are over: the greeting, then `sudo -v`
      when rsync and sudo are both there and the script needs it. */
  function Checked(w: World, args: seq<string>, noCompress: bool, sudo: bool): (c: World)
    ensures c.env == w.env
  {
    var g := Greeted(w, args, noCompress);
    if w.env.Has("rsync") && sudo && w.env.Has("sudo") then g.Running(SudoCheck) else g
  }

  /** The opening's checks copy nothing. */
  lemma CheckedCounts(w: World, args: seq<string>, noCompress: bool, sudo: bool)
    ensures var c := Checked(w, args, noCompress, sudo);
      HardRsyncs(c.Done()) == HardRsyncs(w.Done()) && RsyncRuns(c.Done()) == RsyncRuns(w.Done())
  {
    var g := Greeted(w, args, noCompress);
    if w.env.Has("rsync") && sudo && w.env.Has("sudo") {
      RunningCounts(g, SudoCheck);
    }
  }

  /** The opening's checks remove nothing. */
  lemma CheckedRmtrees(w: World, args: seq<string>, noCompress: bool, sudo: bool)
    ensures Rmtrees(Checked(w, args, noCompress, sudo).trace) == Rmtrees(w.trace)
  {
    var b := if "--no-banner" in args then w else w.Asking(BannerPrompt);
    RmtreesSteps(w, [], BannerPrompt, Unlink(""));
    RmtreesSteps(b, [], CompressPrompt, Unlink(""));
    var g := Greeted(w, args, noCompress);
    if w.env.Has("rsync") && sudo && w.env.Has("sudo") {
      RmtreesSteps(g, SudoCheck, "", Unlink(""));
    }
  }

  /** Where the opening stops, if it does: status 1 when a tool check
      fails, `Exit(1)` when no destination is chosen, `Uncaught` when `date`
      fails, and nowhere (`None`) when it gets through. */
  function OpenStop(w: World, args: seq<string>, noCompress: bool, sudo: bool): Option<Status>
  {
    if !ToolsFound(w, args, noCompress, sudo) then Some(Return(1))
    else LocateStop(Checked(w, args, noCompress, sudo))
  }

  /** The opening gets through: the tools are found, a destination is
      chosen and `date` succeeds. */
  predicate Opens(w: World, args: seq<string>, noCompress: bool, sudo: bool)
  {
    OpenStop(w, args, noCompress, sudo).None?
  }

  /** The destination a successful opening settles on. */
  function OpenDest(w: World, args: seq<string>, noCompress: bool, sudo: bool): (d: Path)
    requires Opens(w, args, noCompress, sudo)
    ensures d in Candidates(w.env)
  {
    Chosen(Checked(w, args, noCompress, sudo)).value
  }

  /** The timestamp of a successful opening: `date`'s stripped output. */
  function OpenStamp(w: World, args: seq<string>, noCompress: bool, sudo: bool): string
  {
    Strip(w.env.procs(Checked(w, args, noCompress, sudo).Ran()).out)
  }

  /** The run directory a successful opening makes. */
  function OpenRunDir(w: World, args: seq<string>, noCompress: bool, sudo: bool, area: string, prefix: string): Path
    requires Opens(w, args, noCompress, sudo)
  {
    Join(Join(OpenDest(w, args, noCompress, sudo), area), prefix + OpenStamp(w, args, noCompress, sudo))
  }

  /** Where a backup stops before its first copy, if it does: where the
      opening stops, else `Exit(1)` when `check_free_space` finds fewer than
      `minGb` GiB free at the destination. A backup that stops there never
      reports success. */
  function PrepStop(w: World, args: seq<string>, noCompress: bool, sudo: bool, minGb: nat): (r: Option<Status>)
    ensures r.Some? ==> r.value in {Return(1), Exit(1), Uncaught}
    ensures !ToolsFound(w, args, noCompress, sudo) ==> r == Some(Return(1))
    ensures r.None? ==> Opens(w, args, noCompress, sudo)
  {
    if !Opens(w, args, noCompress, sudo) then OpenStop(w, args, noCompress, sudo)
    else if !EnoughSpace(w.env.freeBytes(OpenDest(w, args, noCompress, sudo)), minGb) then Some(Exit(1))
    else None
  }

  /** The whole opening: greeting, tool checks, then the run directory,
      stopping exactly where `OpenStop` says. */
  method Open(w: World, args: seq<string>, noCompress: bool, sudo: bool, area: string, prefix: string)
    returns (w': World, compress: bool, dest: Path, ts: string, runDir: Path, stop: Option<Status>)
    ensures w'.env == w.env
    ensures HardRsyncs(w'.Done()) == HardRsyncs(w.Done()) && RsyncRuns(w'.Done()) == RsyncRuns(w.Done())
    ensures Rmtrees(w'.trace) == Rmtrees(w.trace)
    ensures compress == Compresses(w, args, noCompress)
    ensures stop == OpenStop(w, args, noCompress, sudo)
    ensures !ToolsFound(w, args, noCompress, sudo) ==> w' == Checked(w, args, noCompress, sudo)
    ensures stop.None? ==>
      && dest == OpenDest(w, args, noCompress, sudo)
      && ts == OpenStamp(w, args, noCompress, sudo)
      && w'.Ran() == w.Ran() + (if sudo then 2 else 1)
      && runDir == Join(Join(dest, area), prefix + ts)
      && |w'.trace| > 0 && w'.trace[|w'.trace| - 1] == Mkdir(runDir)
  {
    var ok;
    w', compress, ok := GreetAndCheck(w, args, noCompress, sudo);
    CheckedCounts(w, args, noCompress, sudo);
    CheckedRmtrees(w, args, noCompress, sudo);
    dest, ts, runDir := "", "", "";
    if !ok {
      return w', compress, dest, ts, runDir, Some(Return(1));
    }
    w', dest, ts, runDir, stop := Locate(w', area, prefix);
  }

  /** The greeting and the tool checks: `ok` exactly when the tools are
      found, and the run is then `Checked`. */
  method GreetAndCheck(w: World, args: seq<string>, noCompress: bool, sudo: bool)
    returns (w': World, compress: bool, ok: bool)
    ensures w' == Checked(w, args, noCompress, sudo)
    ensures compress == Compresses(w, args, noCompress)
    ensures ok <==> ToolsFound(w, args, noCompress, sudo)
  {
    w', compress := Greet(w, args, noCompress);
    w', ok := CheckTools(w', compress, sudo);
  }

  /** The exit status of a backup or a restore that reached its summary:
      1 when any copy failed or the check that follows it did. */
  function Verdict(failures: nat, failed: bool): (s: Status)
    ensures s == Return(1) <==> failures > 0 || failed
    ensures s == Return(0) <==> failures == 0 && !failed
  {
    if failures > 0 || failed then Return(1) else Return(0)
  }
}
