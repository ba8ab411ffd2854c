/**
  `SERV/GRUB/restore-grub.py`: after an optional confirmation, copies the
  backed-up `lateralus` theme into `/boot/grub/themes/` with sudo rsync and,
  when the copy succeeded, edits `/etc/default/grub` and regenerates
  `grub.cfg`. rsync's partial-transfer codes 23 and 24 end the run with 0
  before the edits; any other failure code becomes the exit status.
*/
module RestoreGrub {
  import opened Base
  import opened PyStr
  import opened Host
  import opened Cli
  import opened Transfer

  const ConfirmPrompt: string := "This restore will modify system files. Continue? [y/N]: "
  const Themes: Path := "/boot/grub/themes"
  const GrubDefaults: Path := "/etc/default/grub"

  function Theme(env: Env): Path
  {
    Join(env.scriptDir, "lateralus")
  }

  function CopyArgv(env: Env): seq<string>
  {
    ["sudo", "rsync", "-aHAX", "--numeric-ids", "--info=stats1", "--sparse", Theme(env), Themes + "/"]
  }

  // The five `sed -i` expressions applied to `/etc/default/grub`.
  const CmdlineEdit: string := "s/^GRUB_CMDLINE_LINUX_DEFAULT=.*/GRUB_CMDLINE_LINUX_DEFAULT=\"loglevel=3 quiet splash\"/"
  const GfxmodeEdit: string := "s/^#GRUB_GFXMODE=.*/GRUB_GFXMODE=1440x1080x32/"
  const ThemeEdit: string := "s|^#GRUB_THEME=.*|GRUB_THEME=\"/boot/grub/themes/lateralus/theme.txt\"|"
  const OutputEdit: string := "s/^#GRUB_TERMINAL_OUTPUT=.*/GRUB_TERMINAL_OUTPUT=gfxterm/"
  const InputEdit: string := "s/^GRUB_TERMINAL_INPUT=console/#GRUB_TERMINAL_INPUT=console/"

  function SedArgv(edit: string): seq<string>
  {
    ["sudo", "sed", "-i", edit, GrubDefaults]
  }

  const MkconfigArgv: seq<string> := ["sudo", "grub-mkconfig", "-o", "/boot/grub/grub.cfg"]

  /** A copy of the defaults beside the script, the five `sed` edits and
      `grub-mkconfig`. */
  function EditArgvs(env: Env): (r: seq<seq<string>>)
    ensures |r| == 7
  {
    [["sudo", "cp", GrubDefaults, Join(env.scriptDir, "grub.backup")],
     SedArgv(CmdlineEdit), SedArgv(GfxmodeEdit), SedArgv(ThemeEdit), SedArgv(OutputEdit), SedArgv(InputEdit),
     MkconfigArgv]
  }

  /** How the copy's exit code ends the run: `None` to go on with the
      edits, otherwise the status returned at once. */
  function CopyVerdict(code: int): (r: Option<int>)
    ensures r.None? <==> code == 0
    ensures r == Some(0) <==> code == 23 || code == 24
    ensures r.Some? && r.value != 0 ==> r.value == code
  {
    if code in {23, 24} then Some(0)
    else if code != 0 then Some(code)
    else None
  }

  /** The run after the banner. */
  function Greeted(env: Env, args: seq<string>): World
  {
    if "--no-banner" in args then Start(env) else Start(env).Asking(BannerPrompt)
  }

  /** With `--confirm` and without `--yes`, the operator's answer is not `y`. */
  predicate Declined(env: Env, args: seq<string>)
  {
    "--confirm" in args && "--yes" !in args && !Agrees(env.answers(Greeted(env, args).Asked()))
  }

  /** The run up to the confirmation. */
  function Gated(env: Env, args: seq<string>): World
  {
    if "--confirm" in args && "--yes" !in args then Greeted(env, args).Asking(ConfirmPrompt)
    else Greeted(env, args)
  }

  /** Not declined, both directories there, sudo present and `sudo -v`
      accepted: the copy runs. */
  predicate Cleared(env: Env, args: seq<string>)
  {
    && !Declined(env, args) && env.IsDir(Themes) && env.IsDir(Theme(env))
    && env.Has("sudo") && env.procs(0).code == 0
  }

  /** What the copy and what follows it amount to, for a run whose only
      earlier command is `sudo -v`. */
  predicate Copied(env: Env, w: World, status: Status)
  {
    var code := env.procs(1).code;
    && w.Ran() >= 2 && w.Done()[1] == Step(CopyArgv(env), env.procs(1))
    && (status == Return(0) <==> code == 0 || code == 23 || code == 24)
    && (status != Return(0) ==> status == Return(code))
    && (code == 0 && env.IsFile(GrubDefaults) ==> w.Ran() == 2 + |EditArgvs(env)|)
    && (code != 0 || !env.IsFile(GrubDefaults) ==> w.Ran() == 2)
    && EndsWith(w.trace, [Exec(CopyArgv(env))] + (if code == 0 && env.IsFile(GrubDefaults) then ExecAll(EditArgvs(env)) else []))
  }

  /** The edits, when `/etc/default/grub` is a file. */
  method Edit(w: World) returns (w': World)
    ensures w'.env == w.env
    ensures w'.Ran() == w.Ran() + (if w.env.IsFile(GrubDefaults) then 7 else 0)
    ensures w'.Done()[..w.Ran()] == w.Done()
    ensures w'.trace == w.trace + (if w.env.IsFile(GrubDefaults) then ExecAll(EditArgvs(w.env)) else [])
  {
    w' := w;
    if w.env.IsFile(GrubDefaults) {
      w' := RunAll(w, EditArgvs(w.env));
    } else {
      assert w.trace == w.trace + [];
      assert w.Done()[..w.Ran()] == w.Done();
    }
  }

  /** The copy and what follows it, once sudo is confirmed. */
  method Apply(w: World) returns (w': World, status: Status)
    requires w.Done() == [Step(SudoCheck, w.env.procs(0))]
    ensures w'.env == w.env
    ensures Copied(w.env, w', status)
    ensures var copied := w.Running(CopyArgv(w.env));
      CopyVerdict(w.env.procs(1).code).None? ==>
        w'.trace == copied.trace + (if w.env.IsFile(GrubDefaults) then ExecAll(EditArgvs(w.env)) else [])
  {
    var p;
    w', p := Run(w, CopyArgv(w.env));
    var copied := w';
    assert copied.Done()[1] == Step(CopyArgv(w.env), p);
    var verdict := CopyVerdict(p.code);
    assert w'.trace[|w'.trace| - 1..] == [Exec(CopyArgv(w.env))];
    if verdict.Some? {
      return w', Return(verdict.value);
    }
    w' := Edit(w');
    var tail := [Exec(CopyArgv(w.env))] + (if w.env.IsFile(GrubDefaults) then ExecAll(EditArgvs(w.env)) else []);
    assert w'.trace == w.trace + tail;
    assert w'.trace[|w'.trace| - |tail|..] == tail;
    assert w'.Done()[1] == w'.Done()[..2][1];
    status := Return(0);
  }

  /** Everything before the copy: `stop` is the status when the run ends
      there. */
  method Prepare(env: Env, args: seq<string>) returns (w: World, stop: Option<Status>)
    ensures w.env == env
    ensures Declined(env, args) ==> stop == Some(Return(0)) && w == Gated(env, args)
    ensures !Declined(env, args) && !(env.IsDir(Themes) && env.IsDir(Theme(env))) ==>
      stop == Some(Return(1)) && w == Gated(env, args)
    ensures !Declined(env, args) && env.IsDir(Themes) && env.IsDir(Theme(env)) && !Cleared(env, args) ==>
      stop == Some(Return(1)) && w.Ran() <= 1
    ensures Cleared(env, args) ==> stop.None? && w.Done() == [Step(SudoCheck, env.procs(0))]
  {
    w := Banner(Start(env), args);
    assert w == Greeted(env, args);
    var proceed;
    w, proceed := Gate(w, "--confirm" in args, "--yes" in args, ConfirmPrompt);
    if !proceed {
      return w, Some(Return(0));
    }
    if !env.IsDir(Themes) || !env.IsDir(Theme(env)) {
      return w, Some(Return(1));
    }
    var sudoOk;
    w, sudoOk := EnsureSudo(w);
    stop := if sudoOk then None else Some(Return(1));
  }

  /** `main()`. */
  method RunScript(env: Env, args: seq<string>) returns (w: World, status: Status)
    ensures w.env == env
    ensures Declined(env, args) ==> status == Return(0) && w == Gated(env, args)
    ensures !Declined(env, args) && !(env.IsDir(Themes) && env.IsDir(Theme(env))) ==>
      status == Return(1) && w == Gated(env, args)
    ensures !Declined(env, args) && env.IsDir(Themes) && env.IsDir(Theme(env)) && !Cleared(env, args) ==>
      status == Return(1) && w.Ran() <= 1
    ensures Cleared(env, args) ==> Copied(env, w, status)
  {
    var stop;
    w, stop := Prepare(env, args);
    if stop.Some? {
      return w, stop.value;
    }
    w, status := Apply(w);
  }
}
