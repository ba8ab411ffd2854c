/**
  `SERV/SMB/restore-smb.py`: after an optional confirmation, makes sure one
  unit of each required service group is installed (offering the operator
  to install a missing one), optionally queues an SMB user for
  `smbpasswd`, enables the services, builds the `/SMB` mount tree, appends
  the missing CIFS lines to `/etc/fstab`, installs `smb.conf` and the
  `creds-*` files, validates the configuration with `testparm` and
  restarts the services. Only a failed confirmation-free check or a
  `testparm` error makes the exit status 1; enable and restart failures are
  warnings.
*/
module RestoreSmb {
  import opened Base
  import opened PyStr
  import opened Host
  import opened Cli
  import opened Transfer

  const ConfirmPrompt: string := "This restore will modify system files. Continue? [y/N]: "
  const UserPrompt: string := "Enter SMB username for smbpasswd: "

  // ---------------------------------------------------------------------
  // list_units and resolve_service
  // ---------------------------------------------------------------------

  const ListArgv: seq<string> := ["systemctl", "list-unit-files", "--type=service", "--no-legend"]

  /** A line with a non-blank character has a first token. */
  lemma BlankOrWord(s: string)
    ensures Strip(s) != [] ==> Split(s) != []
  {
    if LStrip(s) == [] {
      assert Strip(s) == RStrip([]);
    }
  }

  /** The first token of every non-blank line. */
  function UnitsOf(lines: seq<string>): set<string>
  {
    if lines == [] then {}
    else
      var last := lines[|lines| - 1];
      UnitsOf(lines[..|lines| - 1])
      + (if Strip(last) != [] then BlankOrWord(last); {Split(last)[0]} else {})
  }

  /** `list_units()` on the listing `out`. */
  function Units(out: string): set<string>
  {
    UnitsOf(SplitLines(out))
  }

  /** Line `j` of `lines` is non-blank and its first token is `u`. */
  predicate FirstTokenAt(lines: seq<string>, j: int, u: string)
  {
    0 <= j < |lines| && Strip(lines[j]) != [] && Split(lines[j]) != [] && Split(lines[j])[0] == u
  }

  /** The first token of a non-blank line is a unit. */
  lemma {:induction false} FirstTokenIsUnit(lines: seq<string>, j: int, u: string)
    requires FirstTokenAt(lines, j, u)
    ensures u in UnitsOf(lines)
    decreases |lines|
  {
    var init := lines[..|lines| - 1];
    UnitsOfLast(lines);
    if j < |init| {
      assert init[j] == lines[j];
      FirstTokenIsUnit(init, j, u);
    } else {
      assert j == |lines| - 1;
    }
  }

  /** The units of all lines but the last are units, and so is the last
      line's first token. */
  lemma UnitsOfLast(lines: seq<string>)
    requires lines != []
    ensures UnitsOf(lines[..|lines| - 1]) <= UnitsOf(lines)
    ensures Strip(lines[|lines| - 1]) != [] ==>
      Split(lines[|lines| - 1]) != [] && Split(lines[|lines| - 1])[0] in UnitsOf(lines)
  {
    BlankOrWord(lines[|lines| - 1]);
  }

  /** Every unit is the first token of some non-blank line. */
  lemma {:induction false} UnitIsFirstToken(lines: seq<string>, u: string) returns (j: int)
    requires u in UnitsOf(lines)
    ensures FirstTokenAt(lines, j, u)
    decreases |lines|
  {
    var init := lines[..|lines| - 1];
    var last := lines[|lines| - 1];
    if u in UnitsOf(init) {
      j := UnitIsFirstToken(init, u);
      assert init[j] == lines[j];
    } else {
      BlankOrWord(last);
      j := |lines| - 1;
    }
  }

  /** The units are exactly the first tokens of the non-blank lines. */
  lemma UnitsAreFirstTokens(lines: seq<string>, u: string)
    ensures u in UnitsOf(lines) <==> exists j :: FirstTokenAt(lines, j, u)
  {
    if u in UnitsOf(lines) {
      var j := UnitIsFirstToken(lines, u);
    }
    if exists j :: FirstTokenAt(lines, j, u) {
      var j :| FirstTokenAt(lines, j, u);
      FirstTokenIsUnit(lines, j, u);
    }
  }

  /** No unit name holds whitespace. */
  lemma UnitsAreWords(lines: seq<string>, u: string)
    requires u in UnitsOf(lines)
    ensures IsWord(u)
  {
    UnitsAreFirstTokens(lines, u);
    var j :| FirstTokenAt(lines, j, u);
    SplitWords(lines[j]);
  }

  /** `resolve_service`'s scan: the first candidate that is a unit. */
  function FirstIn(candidates: seq<string>, units: set<string>): Option<string>
  {
    if candidates == [] then None
    else if candidates[0] in units then Some(candidates[0])
    else FirstIn(candidates[1..], units)
  }

  /** The scan finds the earliest candidate that is a unit, and finds none
      exactly when no candidate is one. */
  lemma {:induction false} FirstMatch(candidates: seq<string>, units: set<string>)
    ensures var r := FirstIn(candidates, units);
      && (r.None? <==> forall i :: 0 <= i < |candidates| ==> candidates[i] !in units)
      && (r.Some? ==> exists j :: 0 <= j < |candidates| && candidates[j] == r.value && r.value in units
                        && forall i :: 0 <= i < j ==> candidates[i] !in units)
    decreases |candidates|
  {
    if candidates != [] && candidates[0] !in units {
      var rest := candidates[1..];
      FirstMatch(rest, units);
      var r := FirstIn(rest, units);
      if r.Some? {
        var j :| 0 <= j < |rest| && rest[j] == r.value && r.value in units
                 && forall i :: 0 <= i < j ==> rest[i] !in units;
        assert candidates[j + 1] == r.value;
        assert forall i :: 0 < i < j + 1 ==> candidates[i] == rest[i - 1];
      }
      assert forall i :: 0 < i < |candidates| ==> candidates[i] == rest[i - 1];
    }
  }

  // ---------------------------------------------------------------------
  // The service groups
  // ---------------------------------------------------------------------

  datatype ServiceGroup = ServiceGroup(title: string, candidates: seq<string>)

  const ServiceGroups: seq<ServiceGroup> := [
    ServiceGroup("avahi-daemon", ["avahi-daemon.service"]),
    ServiceGroup("nmb/nmbd", ["nmb.service", "nmbd.service"]),
    ServiceGroup("smb/smbd", ["smb.service", "smbd.service"]),
    ServiceGroup("sshd", ["sshd.service"]),
    ServiceGroup("wsdd/wsdd2", ["wsdd.service", "wsdd2.service"])
  ]

  function InstallPrompt(title: string): string
  {
    "Service " + title + " is not installed. Install it now? [y/N]: "
  }

  /** One group: list the units; if none of the group's candidates is
      installed, ask; on `y` wait for Enter and list again. */
  function ResolveGroup(w: World, g: ServiceGroup): (World, Option<string>)
  {
    var first := FirstIn(g.candidates, Units(w.env.procs(w.Ran()).out));
    var listed := w.Running(ListArgv);
    if first.Some? then (listed, first)
    else
      var asked := listed.Asking(InstallPrompt(g.title));
      if !Agrees(w.env.answers(w.Asked())) then (asked, None)
      else (asked.Asking("").Running(ListArgv), FirstIn(g.candidates, Units(w.env.procs(w.Ran() + 1).out)))
  }

  /** The group loop from group `i` on, `acc` resolved so far: `None` where
      the script returns 1. */
  function ResolveFrom(w: World, gs: seq<ServiceGroup>, i: nat, acc: seq<string>): (World, Option<seq<string>>)
    decreases |gs| - i
  {
    if i >= |gs| then (w, Some(acc))
    else
      var (w', svc) := ResolveGroup(w, gs[i]);
      if svc.None? then (w', None) else ResolveFrom(w', gs, i + 1, acc + [svc.value])
  }

  /** A group resolves only to one of its own candidates. */
  lemma ResolvesToCandidate(w: World, g: ServiceGroup)
    ensures var svc := ResolveGroup(w, g).1; svc.Some? ==> svc.value in g.candidates
  {
    FirstMatch(g.candidates, Units(w.env.procs(w.Ran()).out));
    FirstMatch(g.candidates, Units(w.env.procs(w.Ran() + 1).out));
  }

  /** `s` holds `acc`, then one candidate of each group from `i` on. */
  predicate OrderedFrom(gs: seq<ServiceGroup>, i: nat, acc: seq<string>, s: seq<string>)
  {
    && i <= |gs| && |s| == |acc| + |gs| - i && s[..|acc|] == acc
    && forall j :: i <= j < |gs| ==> s[|acc| + j - i] in gs[j].candidates
  }

  /** One more group resolved to `x` extends the ordering fact by one. */
  lemma ExtendOrder(gs: seq<ServiceGroup>, i: nat, acc: seq<string>, x: string, s: seq<string>)
    requires i < |gs| && x in gs[i].candidates && OrderedFrom(gs, i + 1, acc + [x], s)
    ensures OrderedFrom(gs, i, acc, s)
  {
    assert s[..|acc|] == s[..|acc| + 1][..|acc|];
    assert s[|acc|] == s[..|acc| + 1][|acc|];
    forall j | i <= j < |gs|
      ensures s[|acc| + j - i] in gs[j].candidates
    {
      if j > i {
        assert |acc| + j - i == |acc + [x]| + j - (i + 1);
      }
    }
  }

  /** `ResolveFrom` after a group that resolved. */
  lemma ResolveFromStep(w: World, gs: seq<ServiceGroup>, i: nat, acc: seq<string>)
    requires i < |gs| && ResolveGroup(w, gs[i]).1.Some?
    ensures ResolveFrom(w, gs, i, acc)
         == ResolveFrom(ResolveGroup(w, gs[i]).0, gs, i + 1, acc + [ResolveGroup(w, gs[i]).1.value])
  {
  }

  /** The resolved services follow the group order, one per group, each a
      candidate of its group. */
  lemma {:induction false} ResolvedInGroupOrder(w: World, gs: seq<ServiceGroup>, i: nat, acc: seq<string>)
    requires i <= |gs|
    ensures var r := ResolveFrom(w, gs, i, acc).1; r.Some? ==> OrderedFrom(gs, i, acc, r.value)
    decreases |gs| - i
  {
    if i < |gs| {
      var step := ResolveGroup(w, gs[i]);
      if step.1.Some? {
        var x := step.1.value;
        ResolvesToCandidate(w, gs[i]);
        ResolveFromStep(w, gs, i, acc);
        ResolvedInGroupOrder(step.0, gs, i + 1, acc + [x]);
        var r := ResolveFrom(step.0, gs, i + 1, acc + [x]).1;
        if r.Some? {
          ExtendOrder(gs, i, acc, x, r.value);
        }
      }
    }
  }

  /** The services the groups resolve to: one per group, in group order,
      each a candidate of its group. */
  lemma OneServicePerGroup(w: World, services: seq<string>)
    requires ResolveFrom(w, ServiceGroups, 0, []).1 == Some(services)
    ensures |services| == |ServiceGroups|
    ensures forall j :: 0 <= j < |ServiceGroups| ==> services[j] in ServiceGroups[j].candidates
  {
    ResolvedInGroupOrder(w, ServiceGroups, 0, []);
  }

  /** `list_units()` inside `resolve_service`. */
  method ListUnits(w: World) returns (w': World, units: set<string>)
    ensures w' == w.Running(ListArgv)
    ensures units == Units(w.env.procs(w.Ran()).out)
  {
    var p;
    w', p := Run(w, ListArgv);
    units := Units(p.out);
  }

  /** One pass of the group loop. */
  method ResolveNext(w: World, g: ServiceGroup) returns (w': World, svc: Option<string>)
    ensures (w', svc) == ResolveGroup(w, g)
  {
    var units;
    w', units := ListUnits(w);
    svc := FirstIn(g.candidates, units);
    if svc.Some? {
      return;
    }
    var answer;
    w', answer := Prompt(w', InstallPrompt(g.title));
    if !Agrees(answer) {
      return;
    }
    var enter;
    w', enter := Prompt(w', "");
    w', units := ListUnits(w');
    svc := FirstIn(g.candidates, units);
  }

  /** The group loop. */
  method ResolveServices(w: World, gs: seq<ServiceGroup>) returns (w': World, services: Option<seq<string>>)
    ensures (w', services) == ResolveFrom(w, gs, 0, [])
    ensures w'.env == w.env
  {
    w' := w;
    var resolved := [];
    var i := 0;
    while i < |gs|
      invariant 0 <= i <= |gs|
      invariant ResolveFrom(w', gs, i, resolved) == ResolveFrom(w, gs, 0, [])
      invariant w'.env == w.env
    {
      var svc;
      w', svc := ResolveNext(w', gs[i]);
      if svc.None? {
        return w', None;
      }
      resolved := resolved + [svc.value];
      i := i + 1;
    }
    services := Some(resolved);
  }

  // ---------------------------------------------------------------------
  // The smbpasswd user
  // ---------------------------------------------------------------------

  const PdbArgv: seq<string> := ["pdbedit", "-L"]

  /** `{line.split(":")[0] for line in lines}`. */
  function UsersOf(lines: seq<string>): set<string>
  {
    if lines == [] then {} else UsersOf(lines[..|lines| - 1]) + {BeforeFirst(lines[|lines| - 1], ':')}
  }

  /** The known users are exactly the line prefixes before the first `:`. */
  lemma {:induction false} UsersArePrefixes(lines: seq<string>, u: string)
    ensures u in UsersOf(lines) <==> exists j :: 0 <= j < |lines| && BeforeFirst(lines[j], ':') == u
    decreases |lines|
  {
    if lines != [] {
      var init := lines[..|lines| - 1];
      UsersArePrefixes(init, u);
      if exists j :: 0 <= j < |init| && BeforeFirst(init[j], ':') == u {
        var j :| 0 <= j < |init| && BeforeFirst(init[j], ':') == u;
        assert lines[j] == init[j];
      }
      if exists j :: 0 <= j < |lines| && BeforeFirst(lines[j], ':') == u {
        var j :| 0 <= j < |lines| && BeforeFirst(lines[j], ':') == u;
        if j < |init| {
          assert init[j] == lines[j];
        }
      }
    }
  }

  /** The run after the user question: nothing without pdbedit, the prompt,
      and `pdbedit -L` when a name was given. */
  function AfterUser(w: World): World
  {
    if !w.env.Has("pdbedit") then w
    else if Strip(w.env.answers(w.Asked())) == "" then w.Asking(UserPrompt)
    else w.Asking(UserPrompt).Running(PdbArgv)
  }

  /** With `pdbedit`, the operator names a user; a non-empty name not already
      known to `pdbedit -L` is queued for `smbpasswd -a`. */
  method AskUser(w: World) returns (w': World, toAdd: string)
    ensures w' == AfterUser(w)
    ensures w'.env == w.env
    ensures var user := Strip(w.env.answers(w.Asked()));
      && (!w.env.Has("pdbedit") ==> w' == w && toAdd == "")
      && (w.env.Has("pdbedit") && user == "" ==> w' == w.Asking(UserPrompt) && toAdd == "")
      && (w.env.Has("pdbedit") && user != "" ==>
            && w' == w.Asking(UserPrompt).Running(PdbArgv)
            && toAdd == (if user in UsersOf(SplitLines(w.env.procs(w.Ran()).out)) then "" else user))
  {
    w', toAdd := w, "";
    if !w.env.Has("pdbedit") {
      return;
    }
    var reply;
    w', reply := Prompt(w, UserPrompt);
    var user := Strip(reply);
    if user == "" {
      return;
    }
    var p;
    w', p := Run(w', PdbArgv);
    var users := UsersOf(SplitLines(p.out));
    if user !in users {
      toAdd := user;
    }
  }

  // ---------------------------------------------------------------------
  // Enabling, the /SMB tree
  // ---------------------------------------------------------------------

  const Subdirs: seq<Path> := ["/SMB/euclid", "/SMB/pneuma", "/SMB/lateralus", "/SMB/SCP",
                               "/SMB/SCP/HDD-01", "/SMB/SCP/HDD-02", "/SMB/SCP/HDD-03"]

  function EnableArgvs(services: seq<string>): seq<seq<string>>
  {
    if services == [] then []
    else EnableArgvs(services[..|services| - 1]) + [["sudo", "systemctl", "enable", services[|services| - 1]]]
  }

  /** `mkdir -p`, `chown user:user` and `chmod 750` of each directory. */
  function TreeArgvs(user: string, dirs: seq<Path>): seq<seq<string>>
  {
    if dirs == [] then []
    else
      var d := dirs[|dirs| - 1];
      TreeArgvs(user, dirs[..|dirs| - 1])
      + [["sudo", "mkdir", "-p", d], ["sudo", "chown", user + ":" + user, d], ["sudo", "chmod", "750", d]]
  }

  /** Everything from enabling the services to the `/SMB` tree. */
  function SetupArgvs(user: string, services: seq<string>, toAdd: string): seq<seq<string>>
  {
    EnableArgvs(services) + [["sudo", "modprobe", "cifs"]]
    + (if toAdd != "" then [["sudo", "smbpasswd", "-a", toAdd]] else [])
    + TreeArgvs(user, ["/SMB"] + Subdirs)
  }

  // ---------------------------------------------------------------------
  // /etc/fstab
  // ---------------------------------------------------------------------

  const Fstab: Path := "/etc/fstab"
  const CatArgv: seq<string> := ["sudo", "cat", "/etc/fstab"]
  const BlankArgv: seq<string> := ["sudo", "sh", "-c", "printf \"\\n\" >> /etc/fstab"]

  const FstabLines: seq<string> := [
    "//192.168.8.60/d   /SMB/euclid   cifs   _netdev,credentials=/etc/samba/creds-euclid,uid=1000,gid=1000   0 0",
    "//192.168.8.155/hdd-01   /SMB/SCP/HDD-01   cifs   _netdev,credentials=/etc/samba/creds-scp,uid=1000,gid=1000   0 0",
    "//192.168.8.155/hdd-02   /SMB/SCP/HDD-02   cifs   _netdev,credentials=/etc/samba/creds-scp,uid=1000,gid=1000   0 0",
    "//192.168.8.155/hdd-03   /SMB/SCP/HDD-03   cifs   _netdev,credentials=/etc/samba/creds-scp,uid=1000,gid=1000   0 0"
  ]

  function AppendArgv(line: string): seq<string>
  {
    ["sudo", "sh", "-c", "printf '%s\\n' \"" + line + "\" >> /etc/fstab"]
  }

  function AppendArgvs(lines: seq<string>): seq<seq<string>>
  {
    if lines == [] then [] else AppendArgvs(lines[..|lines| - 1]) + [AppendArgv(lines[|lines| - 1])]
  }

  /** `[line for line in declared if line not in current]`. */
  function MissingLines(declared: seq<string>, current: seq<string>): (r: seq<string>)
    ensures |r| <= |declared|
  {
    if declared == [] then []
    else
      var last := declared[|declared| - 1];
      MissingLines(declared[..|declared| - 1], current) + (if last in current then [] else [last])
  }

  /** The lines appended are exactly the declared lines the file lacks. */
  lemma {:induction false} MissingExactly(declared: seq<string>, current: seq<string>, l: string)
    ensures l in MissingLines(declared, current) <==> l in declared && l !in current
    decreases |declared|
  {
    if declared != [] {
      var init := declared[..|declared| - 1];
      MissingExactly(init, current, l);
      assert declared == init + [declared[|declared| - 1]];
    }
  }

  /** Once the file holds what it held before and the appended lines, a
      second merge appends nothing. */
  lemma MergeIdempotent(declared: seq<string>, before: seq<string>, after: seq<string>)
    requires forall l :: l in before ==> l in after
    requires forall l :: l in MissingLines(declared, before) ==> l in after
    ensures MissingLines(declared, after) == []
  {
    if MissingLines(declared, after) != [] {
      var l := MissingLines(declared, after)[0];
      MissingExactly(declared, after, l);
      MissingExactly(declared, before, l);
      assert false;
    }
  }

  /** What the merge runs after reading the file: a blank line, then each
      missing line, or nothing when none is missing. */
  function AppendAll(missing: seq<string>): seq<seq<string>>
  {
    if missing == [] then [] else [BlankArgv] + AppendArgvs(missing)
  }

  /** The fstab merge: when `/etc/fstab` is a file, read it through sudo
      and append the declared lines it lacks. */
  method MergeFstab(w: World) returns (w': World, appended: seq<string>)
    ensures w'.env == w.env && w'.Asked() == w.Asked()
    ensures forall l :: l in appended ==> l in FstabLines
    ensures !w.env.IsFile(Fstab) ==> w' == w && appended == []
    ensures w.env.IsFile(Fstab) ==>
      && appended == MissingLines(FstabLines, SplitLines(w.env.procs(w.Ran()).out))
      && w'.trace == w.trace + [Exec(CatArgv)] + ExecAll(AppendAll(appended))
  {
    w', appended := w, [];
    if !w.env.IsFile(Fstab) {
      return;
    }
    var p;
    w', p := Run(w', CatArgv);
    var current := SplitLines(p.out);
    appended := MissingLines(FstabLines, current);
    forall l | l in appended
      ensures l in FstabLines
    {
      MissingExactly(FstabLines, current, l);
    }
    if appended != [] {
      w' := RunAll(w', AppendAll(appended));
    } else {
      assert w'.trace == w'.trace + ExecAll([]);
    }
  }

  // ---------------------------------------------------------------------
  // smb.conf and creds
  // ---------------------------------------------------------------------

  const SambaDir: Path := "/etc/samba"
  function SmbConf(): Path { Join(SambaDir, "smb.conf") }
  function SourceConf(env: Env): Path { Join(env.scriptDir, "smb.conf") }

  /** `script_dir.glob("creds-*")` kept to regular files: the commands that
      install each. */
  function CredsArgvs(env: Env, names: seq<string>): seq<seq<string>>
  {
    if names == [] then []
    else
      var n := names[|names| - 1];
      var src := Join(env.scriptDir, n);
      CredsArgvs(env, names[..|names| - 1])
      + (if Glob("creds-*", n) && env.IsFile(src)
         then [["sudo", "cp", src, SambaDir], ["sudo", "chown", "root:root", Join(SambaDir, n)],
               ["sudo", "chmod", "600", Join(SambaDir, n)]]
         else [])
  }

  function ScriptEntries(env: Env): seq<string>
  {
    if env.IsDir(env.scriptDir) then env.fs[env.scriptDir].names else []
  }

  /** The samba directory if missing, a copy of the current `smb.conf`
      beside the script, the backed-up `smb.conf`, and the creds files. */
  function ConfArgvs(env: Env): seq<seq<string>>
  {
    (if env.IsDir(SambaDir) then []
     else [["sudo", "mkdir", "-p", SambaDir], ["sudo", "chown", "root:root", SambaDir], ["sudo", "chmod", "755", SambaDir]])
    + (if env.IsFile(SmbConf()) then [["sudo", "cp", SmbConf(), Join(env.scriptDir, "smb.conf.backup")]] else [])
    + (if env.IsFile(SourceConf(env))
       then [["sudo", "cp", SourceConf(env), SmbConf()], ["sudo", "chown", "root:root", SmbConf()],
             ["sudo", "chmod", "644", SmbConf()]]
       else [])
    + CredsArgvs(env, ScriptEntries(env))
  }

  /** Whether `/etc/samba/smb.conf` is a file once the block ran: it was
      one, or the backed-up one was copied there. */
  predicate ConfPresent(env: Env)
  {
    env.IsFile(SmbConf()) || env.IsFile(SourceConf(env))
  }

  const TestparmArgv: seq<string> := ["sudo", "testparm", "-s"]

  /** `testparm -s` when `smb.conf` is there and testparm is installed:
      `rejected` where it reports errors. */
  method Testparm(w: World) returns (w': World, rejected: bool)
    ensures w'.env == w.env && w'.Asked() == w.Asked()
    ensures var runs := ConfPresent(w.env) && w.env.Has("testparm");
      && (runs ==> w' == w.Running(TestparmArgv) && (rejected <==> w.env.procs(w.Ran()).code != 0))
      && (!runs ==> w' == w && !rejected)
  {
    w', rejected := w, false;
    if ConfPresent(w.env) && w.env.Has("testparm") {
      var p;
      w', p := Run(w, TestparmArgv);
      rejected := p.code != 0;
    }
  }

  /** `restart` and `is-active` of each service, in order. */
  function RestartArgvs(services: seq<string>): seq<seq<string>>
  {
    if services == [] then []
    else
      var s := services[|services| - 1];
      RestartArgvs(services[..|services| - 1])
      + [["sudo", "systemctl", "restart", s], ["sudo", "systemctl", "is-active", "--quiet", s]]
  }

  // ---------------------------------------------------------------------
  // main
  // ---------------------------------------------------------------------

  /** The run after the banner. */
  function Greeted(env: Env, args: seq<string>): World
  {
    if "--no-banner" in args then Start(env) else Start(env).Asking(BannerPrompt)
  }

  /** With `--confirm` and without `--yes`, the operator's answer is not `y`. */
  predicate Declined(env: Env, args: seq<string>)
  {
    "--confirm" in args && "--yes" !in args && !Agrees(env.answers(Greeted(env, args).Asked()))
  }

  /** What a run that gets past the sudo check did: the services it
      resolved, the user it queued, the fstab lines it appended, and whether
      `testparm` rejected the configuration. */
  datatype Outcome = Outcome(services: seq<string>, smbUser: string, appended: seq<string>, rejected: bool)

  /** Step `k` of the run is `testparm -s`, and it failed exactly when
      `failed`. */
  predicate TestparmAt(w: World, k: int, failed: bool)
  {
    0 <= k < |w.Done()| && w.Done()[k].argv == TestparmArgv && (w.Done()[k].proc.code != 0 <==> failed)
  }

  /** Whether `rejected` is `testparm`'s verdict: with no `smb.conf` or no
      testparm nothing rejects; otherwise testparm is the last command (on a
      rejection) or the one right before the restarts, and `rejected` says
      whether its exit status was non-zero. */
  predicate Verdicts(env: Env, w: World, services: seq<string>, rejected: bool)
  {
    if ConfPresent(env) && env.Has("testparm") then
      TestparmAt(w, w.Ran() - 1 - (if rejected then 0 else |RestartArgvs(services)|), rejected)
    else !rejected
  }

  /** `testparm -s`, then, unless it rejected the configuration, the
      restarts. */
  method TestAndRestart(w: World, services: seq<string>) returns (w': World, rejected: bool)
    ensures w'.env == w.env
    ensures Verdicts(w.env, w', services, rejected)
    ensures rejected ==> |w'.trace| > 0 && w'.trace[|w'.trace| - 1] == Exec(TestparmArgv)
    ensures !rejected ==> EndsWith(w'.trace, ExecAll(RestartArgvs(services)))
  {
    w', rejected := Testparm(w);
    if rejected {
      return;
    }
    ghost var t := w';
    w' := RunAll(w', RestartArgvs(services));
    if ConfPresent(w.env) && w.env.Has("testparm") {
      assert w'.Done()[..t.Ran()] == t.Done();
      assert w'.Done()[w.Ran()] == t.Done()[w.Ran()];
    }
  }

  /** From enabling the services to the end. */
  method Install(w: World, services: seq<string>, toAdd: string) returns (w': World, appended: seq<string>, rejected: bool)
    ensures w'.env == w.env
    ensures Verdicts(w.env, w', services, rejected)
    ensures forall l :: l in appended ==> l in FstabLines
    ensures rejected ==> |w'.trace| > 0 && w'.trace[|w'.trace| - 1] == Exec(TestparmArgv)
    ensures !rejected ==> EndsWith(w'.trace, ExecAll(RestartArgvs(services)))
  {
    var env := w.env;
    w' := RunAll(w, SetupArgvs(env.user, services, toAdd));
    w', appended := MergeFstab(w');
    w' := RunAll(w', ConfArgvs(env));
    w', rejected := TestAndRestart(w', services);
  }

  /** The run from `w` gets past the sudo check: every group resolves, and
      sudo is there and accepts `sudo -v` after the user question. */
  predicate Proceeds(w: World)
  {
    var r := ResolveFrom(w, ServiceGroups, 0, []);
    r.1.Some? && w.env.Has("sudo") && w.env.procs(AfterUser(r.0).Ran()).code == 0
  }

  /** After the confirmation and the systemctl check: the groups, the user,
      the sudo check and the rest. */
  method Body(w: World) returns (w': World, status: Status, outcome: Option<Outcome>)
    ensures w'.env == w.env
    ensures ResolveFrom(w, ServiceGroups, 0, []).1.None? ==>
      status == Return(1) && outcome.None? && w' == ResolveFrom(w, ServiceGroups, 0, []).0
    ensures outcome.Some? <==> Proceeds(w)
    ensures outcome.None? ==> status == Return(1)
    ensures outcome.Some? ==>
      var o := outcome.value;
      && ResolveFrom(w, ServiceGroups, 0, []).1 == Some(o.services)
      && |o.services| == |ServiceGroups|
      && (forall j :: 0 <= j < |ServiceGroups| ==> o.services[j] in ServiceGroups[j].candidates)
      && Verdicts(w.env, w', o.services, o.rejected)
      && (status == Return(1) <==> o.rejected) && (status == Return(0) <==> !o.rejected)
      && (o.smbUser != "" ==> w.env.Has("pdbedit"))
  {
    var services;
    w', services := ResolveServices(w, ServiceGroups);
    if services.None? {
      return w', Return(1), None;
    }
    var toAdd;
    w', toAdd := AskUser(w');
    var sudoOk;
    w', sudoOk := EnsureSudo(w');
    if !sudoOk {
      return w', Return(1), None;
    }
    var appended, rejected;
    w', appended, rejected := Install(w', services.value, toAdd);
    OneServicePerGroup(w, services.value);
    status := if rejected then Return(1) else Return(0);
    outcome := Some(Outcome(services.value, toAdd, appended, rejected));
  }

  /** The run once the confirmation, if any, was asked. */
  function Confirmed(env: Env, args: seq<string>): World
  {
    if "--confirm" in args && "--yes" !in args then Greeted(env, args).Asking(ConfirmPrompt) else Greeted(env, args)
  }

  /** `main()`. `outcome` is present when the run gets past the sudo check. */
  method RunScript(env: Env, args: seq<string>) returns (w: World, status: Status, outcome: Option<Outcome>)
    ensures w.env == env
    ensures Declined(env, args) ==>
      status == Return(0) && outcome.None? && w == Greeted(env, args).Asking(ConfirmPrompt)
    ensures !Declined(env, args) && !env.Has("systemctl") ==> status == Return(1) && outcome.None? && w.Ran() == 0
    ensures outcome.None? ==> (status == Return(0) <==> Declined(env, args))
    ensures outcome.None? ==> status == Return(0) || status == Return(1)
    ensures !Declined(env, args) && env.Has("systemctl") ==> (outcome.Some? <==> Proceeds(Confirmed(env, args)))
    ensures outcome.Some? ==>
      var o := outcome.value;
      && !Declined(env, args) && env.Has("systemctl")
      && Verdicts(env, w, o.services, o.rejected)
      && |o.services| == |ServiceGroups|
      && (forall j :: 0 <= j < |ServiceGroups| ==> o.services[j] in ServiceGroups[j].candidates)
      && (status == Return(1) <==> o.rejected) && (status == Return(0) <==> !o.rejected)
  {
    w := Banner(Start(env), args);
    assert w == Greeted(env, args);
    var proceed;
    w, proceed := Gate(w, "--confirm" in args, "--yes" in args, ConfirmPrompt);
    if !proceed {
      return w, Return(0), None;
    }
    if !env.Has("systemctl") {
      return w, Return(1), None;
    }
    w, status, outcome := Body(w);
  }
}
