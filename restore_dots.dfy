/**
  `DOTS/restore-dots.py`: copies the dotfiles kept beside the script back
  into the ml4w dotfiles tree, group by group. Before it asks for
  confirmation it already changes the home directory: `cava` and the
  wallpapers directory are moved aside and replaced by symlinks, and the
  Hyprland NVIDIA environment file gains its `AQ_DRM_DEVICES` line when
  that line is missing. Each group copies the items of it that exist in
  one rsync run; a group with none is skipped, and each group whose rsync
  fails hard counts once in `rsync_failures`.
*/
module RestoreDots {
  import opened Base
  import opened PyStr
  import opened Host
  import opened Cli
  import opened Transfer
  import opened Opening

  const RsyncOpts: seq<string> := ["rsync", "-aAXH", "--numeric-ids", "--sparse", "--delete-delay", "--info=stats1"]

  /** The ml4w dotfiles tree the groups are restored into. */
  function Stable(user: string): Path { "/home/" + user + "/.mydotfiles/com.ml4w.dotfiles.stable/.config" }

  function ConfirmPrompt(user: string): string
  {
    "This restore may delete files in " + Stable(user) + ". Continue? [y/N]: "
  }

  // ---------------------------------------------------------------------
  // Before the confirmation
  // ---------------------------------------------------------------------

  function CavaDir(user: string): Path { "/home/" + user + "/.config/cava" }
  function CavaTarget(user: string): Path { Join(Stable(user), "cava") }
  function WallpapersDir(user: string): Path { Join(Join(Stable(user), "ml4w"), "wallpapers") }
  function WallpapersTarget(user: string): Path { "/home/" + user + "/Pictures/wallpapers" }
  function HyprEnv(user: string): Path { Join(Stable(user), "hypr/conf/environments/nvidia.conf") }

  const EnvLine: string := "env = AQ_DRM_DEVICES,/dev/dri/card1:/dev/dri/card2"

  /** An existing `link` is moved to `<link>.bak-<ts>`; then the symlink is
      attempted (an `OSError` is ignored). */
  function Relink(env: Env, link: Path, target: Path): seq<Event>
  {
    (if env.Exists(link) then [Move(link, link + ".bak-" + env.localTime)] else []) + [Symlink(link, target)]
  }

  /** The environment file's text after the step: unchanged when the line
      is already in it, otherwise right-stripped and followed by the line. */
  function WithEnvLine(content: string): string
  {
    if Contains(content, EnvLine) then content else RStrip(content) + "\n" + EnvLine + "\n"
  }

  /** The write the step makes, if any. */
  function EnvLineEvents(env: Env): seq<Event>
  {
    var p := HyprEnv(env.user);
    if env.IsFile(p) && !Contains(env.fs[p].text, EnvLine)
    then [Write(p, WithEnvLine(env.fs[p].text))] else []
  }

  /** After the step the line is in the file, what was there before is kept
      up to trailing whitespace, and a second step changes nothing. */
  lemma EnvLineOnce(content: string)
    ensures Contains(WithEnvLine(content), EnvLine)
    ensures RStrip(content) <= WithEnvLine(content)
    ensures WithEnvLine(WithEnvLine(content)) == WithEnvLine(content)
  {
    if !Contains(content, EnvLine) {
      ContainsMiddle(RStrip(content) + "\n", EnvLine, "\n");
      assert RStrip(content) + "\n" + EnvLine + "\n" == (RStrip(content) + "\n") + EnvLine + "\n";
    }
  }

  /** Run again on the file the step wrote, the step writes nothing. */
  lemma EnvLineIdempotent(env: Env)
    requires env.IsFile(HyprEnv(env.user))
    ensures var p := HyprEnv(env.user);
      EnvLineEvents(env.(fs := env.fs[p := File(WithEnvLine(env.fs[p].text))])) == []
  {
    EnvLineOnce(env.fs[HyprEnv(env.user)].text);
  }

  /** Everything the script changes before the confirmation. */
  function PreGateEvents(env: Env): seq<Event>
  {
    var u := env.user;
    Relink(env, CavaDir(u), CavaTarget(u)) + Relink(env, WallpapersDir(u), WallpapersTarget(u)) + EnvLineEvents(env)
  }

  method MoveAndLink(w: World, link: Path, target: Path) returns (w': World)
    ensures w' == w.(trace := w.trace + Relink(w.env, link, target))
  {
    w' := w;
    if w.env.Exists(link) {
      w' := Do(w', Move(link, link + ".bak-" + w.env.localTime));
    }
    w' := Do(w', Symlink(link, target));
  }

  method AppendEnvLine(w: World) returns (w': World)
    ensures w' == w.(trace := w.trace + EnvLineEvents(w.env))
  {
    w' := w;
    var p := HyprEnv(w.env.user);
    if w.env.IsFile(p) {
      var content := w.env.fs[p].text;
      if !Contains(content, EnvLine) {
        w' := Do(w', Write(p, RStrip(content) + "\n" + EnvLine + "\n"));
      }
    }
  }

  /** The moves, symlinks and the environment line; no command, no prompt. */
  method PreGate(w: World) returns (w': World)
    ensures w' == w.(trace := w.trace + PreGateEvents(w.env))
  {
    var u := w.env.user;
    var a, b, c := Relink(w.env, CavaDir(u), CavaTarget(u)), Relink(w.env, WallpapersDir(u), WallpapersTarget(u)), EnvLineEvents(w.env);
    w' := MoveAndLink(w, CavaDir(u), CavaTarget(u));
    w' := MoveAndLink(w', WallpapersDir(u), WallpapersTarget(u));
    w' := AppendEnvLine(w');
    AppendAssoc(w.trace, a, b);
    AppendAssoc(w.trace, a + b, c);
  }

  // ---------------------------------------------------------------------
  // The groups
  // ---------------------------------------------------------------------

  /** A destination directory and the items, relative to the script's
      directory, restored into it. */
  datatype Group = Group(dest: Path, items: seq<string>)

  function Groups(user: string): seq<Group>
  {
    var d := Stable(user);
    [ Group(d, ["fastfetch", "cava", "matugen", "kitty", "rofi", "zshrc"]),
      Group(Join(d, "waybar/themes"), ["waybar/themes/ralex"]),
      Group(Join(d, "gtk-3.0"), ["gtk-3.0/settings.ini", "gtk-3.0/bookmarks"]),
      Group(Join(d, "gtk-4.0"), ["gtk-4.0/settings.ini"]),
      Group(Join(d, "qt6ct"), ["qt6ct/qt6ct.conf"]),
      Group(Join(d, "hypr"), ["hypr/hyprlock.conf", "hypr/hypridle.conf", "hypr/logo-2.png"]),
      Group(Join(d, "hypr/scripts"), ["hypr/scripts/uptime.sh"]),
      Group(Join(d, "hypr/conf"),
            ["hypr/conf/animation.conf", "hypr/conf/cursor.conf", "hypr/conf/decoration.conf",
             "hypr/conf/environment.conf", "hypr/conf/keybinding.conf", "hypr/conf/layout.conf",
             "hypr/conf/monitor.conf", "hypr/conf/window.conf"]),
      Group(Join(d, "hypr/conf/keybindings"), ["hypr/conf/keybindings/lateralus.conf"]),
      Group(Join(d, "ml4w/settings"),
            ["ml4w/settings/editor.sh", "ml4w/settings/filemanager", "ml4w/settings/filemanager.sh",
             "ml4w/settings/rofi-border-radius.rasi", "ml4w/settings/rofi-border.rasi",
             "ml4w/settings/rofi-font.rasi", "ml4w/settings/rofi_bordersize.sh",
             "ml4w/settings/screenshot-editor", "ml4w/settings/screenshot-folder",
             "ml4w/settings/terminal.sh", "ml4w/settings/wallpaper-folder",
             "ml4w/settings/waybar-theme.sh"]),
      Group(Join(d, "wlogout/themes/glass"), ["wlogout/themes/glass/style.css"]),
      Group("/home/" + user + "/.config/com.ml4w.hyprlandsettings", ["hyprctl.json"]) ]
  }

  /** `script_dir / item` for each item. */
  function Paths(dir: Path, items: seq<string>): (r: seq<Path>)
    ensures |r| == |items|
    ensures forall i :: 0 <= i < |items| ==> r[i] == Join(dir, items[i])
  {
    seq(|items|, i requires 0 <= i < |items| => Join(dir, items[i]))
  }

  /** The sources a group passes to rsync: its items that exist, in order. */
  function Sources(env: Env, g: Group): seq<Path>
  {
    Existing(env, Paths(env.scriptDir, g.items))
  }

  /** A group passes exactly its items that exist beside the script. */
  lemma SourcesAreItems(env: Env, g: Group, p: Path)
    ensures p in Sources(env, g) <==> env.Exists(p) && exists i :: 0 <= i < |g.items| && p == Join(env.scriptDir, g.items[i])
  {
    var ps := Paths(env.scriptDir, g.items);
    ExistingMembers(env, ps, p);
    if p in ps {
      var i :| 0 <= i < |ps| && ps[i] == p;
      assert p == Join(env.scriptDir, g.items[i]);
    }
  }

  function GroupArgv(sources: seq<Path>, dest: Path): (r: seq<string>)
    ensures IsRsync(r)
  {
    RsyncOpts + sources + [dest + "/"]
  }

  /** What one group does: make its destination, then copy its sources in a
      single rsync run unless it has none. */
  function GroupEvents(env: Env, g: Group): seq<Event>
  {
    var srcs := Sources(env, g);
    [Mkdir(g.dest)] + (if srcs == [] then [] else [Exec(GroupArgv(srcs, g.dest))])
  }

  function GroupsEvents(env: Env, gs: seq<Group>): seq<Event>
  {
    if gs == [] then [] else GroupsEvents(env, gs[..|gs| - 1]) + GroupEvents(env, gs[|gs| - 1])
  }

  /** Number of groups with at least one source. */
  function Copying(env: Env, gs: seq<Group>): (n: nat)
    ensures n <= |gs|
  {
    if gs == [] then 0 else Copying(env, gs[..|gs| - 1]) + (if Sources(env, gs[|gs| - 1]) == [] then 0 else 1)
  }

  /** The loop that collects a group's sources. */
  method Gather(env: Env, items: seq<string>) returns (sources: seq<Path>)
    ensures sources == Existing(env, Paths(env.scriptDir, items))
  {
    var ps := Paths(env.scriptDir, items);
    sources := [];
    var i := 0;
    while i < |items|
      invariant 0 <= i <= |items|
      invariant sources == Existing(env, ps[..i])
    {
      var src := Join(env.scriptDir, items[i]);
      ExistingStep(env, ps, i);
      if env.Exists(src) {
        sources := sources + [src];
      }
      i := i + 1;
    }
    assert ps[..i] == ps;
  }

  /** One group: `failed` where its rsync run fails hard. */
  method RestoreGroup(w: World, g: Group) returns (w': World, failed: bool)
    ensures w'.trace == w.trace + GroupEvents(w.env, g)
    ensures w'.env == w.env && w'.Asked() == w.Asked()
    ensures RsyncRuns(w'.Done()) == RsyncRuns(w.Done()) + (if Sources(w.env, g) == [] then 0 else 1)
    ensures HardRsyncs(w'.Done()) == HardRsyncs(w.Done()) + (if failed then 1 else 0)
  {
    w' := Do(w, Mkdir(g.dest));
    var sources := Gather(w.env, g.items);
    failed := false;
    if sources == [] {
      assert w'.trace == w.trace + [Mkdir(g.dest)];
      return;
    }
    var ok;
    w', ok := RunRsync(w', GroupArgv(sources, g.dest));
    failed := !ok;
  }

  /** After the first `i` groups from `w0`. */
  ghost predicate RestoredUpTo(w0: World, w: World, gs: seq<Group>, i: nat, failures: nat)
  {
    && i <= |gs|
    && w.trace == w0.trace + GroupsEvents(w0.env, gs[..i])
    && w.env == w0.env && w.Asked() == w0.Asked()
    && RsyncRuns(w.Done()) == RsyncRuns(w0.Done()) + Copying(w0.env, gs[..i])
    && HardRsyncs(w.Done()) == HardRsyncs(w0.Done()) + failures
  }

  /** Group `i` of the loop. */
  method RestoreNextGroup(w0: World, w: World, gs: seq<Group>, i: nat, failures: nat)
    returns (w': World, failures': nat)
    requires i < |gs| && RestoredUpTo(w0, w, gs, i, failures)
    ensures RestoredUpTo(w0, w', gs, i + 1, failures')
    ensures failures <= failures' <= failures + 1
  {
    var failed;
    w', failed := RestoreGroup(w, gs[i]);
    failures' := if failed then failures + 1 else failures;
    assert gs[..i + 1][..i] == gs[..i];
    AppendAssoc(w0.trace, GroupsEvents(w0.env, gs[..i]), GroupEvents(w0.env, gs[i]));
  }

  /** The group loop: every group in order, one failure per group whose
      rsync fails hard. */
  method RestoreGroups(w: World, gs: seq<Group>) returns (w': World, failures: nat)
    ensures w'.trace == w.trace + GroupsEvents(w.env, gs)
    ensures w'.env == w.env && w'.Asked() == w.Asked()
    ensures RsyncRuns(w'.Done()) == RsyncRuns(w.Done()) + Copying(w.env, gs)
    ensures HardRsyncs(w'.Done()) == HardRsyncs(w.Done()) + failures
  {
    w', failures := w, 0;
    var i := 0;
    while i < |gs|
      invariant RestoredUpTo(w, w', gs, i, failures)
    {
      w', failures := RestoreNextGroup(w, w', gs, i, failures);
      i := i + 1;
    }
    assert gs[..i] == gs;
  }

  // ---------------------------------------------------------------------
  // main
  // ---------------------------------------------------------------------

  /** The run just before the confirmation: the banner, the tree made and
      the changes before the confirmation. */
  function Prepared(env: Env, args: seq<string>): World
  {
    var b := if "--no-banner" in args then Start(env) else Start(env).Asking(BannerPrompt);
    var m := b.Doing(Mkdir(Stable(env.user)));
    m.(trace := m.trace + PreGateEvents(env))
  }

  /** With `--confirm` and without `--yes`, the operator's answer is not `y`. */
  predicate Declined(env: Env, args: seq<string>)
  {
    "--confirm" in args && "--yes" !in args && !Agrees(env.answers(Prepared(env, args).Asked()))
  }

  /** The banner, the rsync check, the tree and the changes before the
      confirmation. */
  method Prepare(env: Env, args: seq<string>) returns (w: World)
    ensures !env.Has("rsync") ==>
      w.trace == (if "--no-banner" in args then [] else [Ask(BannerPrompt)]) && w.Ran() == 0 && w.env == env
    ensures env.Has("rsync") ==> w == Prepared(env, args)
  {
    w := Banner(Start(env), args);
    if !env.Has("rsync") {
      return;
    }
    w := Do(w, Mkdir(Stable(env.user)));
    w := PreGate(w);
  }

  /** `main()`. `failures` is `rsync_failures` when the run reaches its
      summary line. */
  method RunScript(env: Env, args: seq<string>) returns (w: World, status: Status, failures: Option<nat>)
    ensures w.env == env
    ensures !env.Has("rsync") ==>
      status == Return(1) && failures.None? && w.trace == (if "--no-banner" in args then [] else [Ask(BannerPrompt)])
    ensures env.Has("rsync") && Declined(env, args) ==>
      status == Return(0) && failures.None? && w == Prepared(env, args).Asking(ConfirmPrompt(env.user))
    ensures failures.None? ==> w.Ran() == 0 && (status == Return(0) <==> env.Has("rsync") && Declined(env, args))
    ensures failures.Some? <==> env.Has("rsync") && !Declined(env, args)
    ensures failures.Some? ==>
      && env.Has("rsync") && !Declined(env, args)
      && (var pre := Prepared(env, args);
          var gated := if "--confirm" in args && "--yes" !in args then pre.Asking(ConfirmPrompt(env.user)) else pre;
          w.trace == gated.trace + GroupsEvents(env, Groups(env.user)))
      && failures.value == HardRsyncs(w.Done())
      && RsyncRuns(w.Done()) == Copying(env, Groups(env.user))
      && status == Verdict(failures.value, false)
  {
    w := Prepare(env, args);
    if !env.Has("rsync") {
      return w, Return(1), None;
    }
    var proceed;
    w, proceed := Gate(w, "--confirm" in args, "--yes" in args, ConfirmPrompt(env.user));
    if !proceed {
      return w, Return(0), None;
    }
    var n;
    w, n := RestoreGroups(w, Groups(env.user));
    status := Verdict(n, false);
    failures := Some(n);
  }
}
