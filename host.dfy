/**
  The machine a backup or restore script runs on, as the script observes it.

  Every fact the scripts query is an input of the model: what a path is,
  which paths are mount points, which programs `shutil.which` finds, the
  text of `/proc/mounts`, free bytes, modification times, the name of a
  fresh temporary file and the local time. External commands and operator
  answers are two streams: the k-th command the script runs finishes with
  `procs(k)` and the k-th `input()` call reads `answers(k)`.

  A run is a `World`: the fixed environment and the trace of what the
  script has done so far, in order. The position of a command or a prompt
  in its stream is the number of earlier commands or prompts in the trace.
*/
module Host {
  import opened Base
  import opened PyStr

  type Path = string

  /** What a path is: a regular file with its text, or a directory with its
      entry names in the order `iterdir` yields them. */
  datatype Node = File(text: string) | Dir(names: seq<string>)

  /** How an external command finished: its exit status and its stdout. */
  datatype Proc = Proc(code: int, out: string)

  datatype Env = Env(
    user: string,                 // `$USER`
    scriptDir: Path,              // the directory holding the running script
    fs: map<Path, Node>,          // what exists, and as what
    mountPoints: set<Path>,       // `Path.is_mount()`
    tools: set<string>,           // commands `shutil.which` finds
    mountTable: Option<string>,   // `/proc/mounts`, `None` when unreadable
    freeBytes: Path -> nat,       // `shutil.disk_usage(p).free`
    mtime: Path -> int,           // `p.stat().st_mtime`
    tempName: Path,               // `NamedTemporaryFile(...).name`
    localTime: string,            // `time.strftime("%j-%d-%m-%H-%M-%S")`
    procs: nat -> Proc,           // the k-th external command's outcome
    answers: nat -> string)       // the k-th line typed by the operator
  {
    predicate Exists(p: Path) { p in fs }
    predicate IsDir(p: Path) { p in fs && fs[p].Dir? }
    predicate IsFile(p: Path) { p in fs && fs[p].File? }
    predicate Has(tool: string) { tool in tools }
  }

  /** One thing a script does that another process could observe. */
  datatype Event =
    | Exec(argv: seq<string>)        // runs an external command to completion
    | Ask(prompt: string)            // `input(prompt)`
    | Mkdir(path: Path)              // `mkdir(parents=True, exist_ok=True)`
    | Write(path: Path, text: string) // replaces a file's text
    | Move(src: Path, dst: Path)     // `shutil.move`
    | Unlink(path: Path)
    | Rmtree(path: Path)
    | Symlink(link: Path, target: Path)
    | Chmod(path: Path, mode: nat)   // `Path.chmod`, in-process
    | TrimLog(path: Path)            // `trim_log(path)`

  /** A command together with how it finished. */
  datatype Step = Step(argv: seq<string>, proc: Proc)

  /** Number of commands run in `t`. */
  function Execs(t: seq<Event>): nat
  {
    if t == [] then 0 else Execs(t[..|t| - 1]) + (if t[|t| - 1].Exec? then 1 else 0)
  }

  /** Number of prompts answered in `t`. */
  function Asks(t: seq<Event>): nat
  {
    if t == [] then 0 else Asks(t[..|t| - 1]) + (if t[|t| - 1].Ask? then 1 else 0)
  }

  /** The commands of `t`, each paired with the outcome its stream position
      gives it. */
  function Steps(env: Env, t: seq<Event>): (r: seq<Step>)
    ensures |r| == Execs(t)
  {
    if t == [] then []
    else
      var init := t[..|t| - 1];
      var e := t[|t| - 1];
      Steps(env, init) + (if e.Exec? then [Step(e.argv, env.procs(Execs(init)))] else [])
  }

  /** A run in progress: the trace so far, the commands run so far with
      their outcomes, and the number of answers read so far. */
  datatype World = World(env: Env, trace: seq<Event>, done: seq<Step>, asked: nat)
  {
    /** Commands run so far: the next command reads `env.procs(Ran())`. */
    function Ran(): nat { |done| }
    /** Prompts answered so far: the next `input()` reads `env.answers(Asked())`. */
    function Asked(): nat { asked }
    function Done(): seq<Step> { done }

    /** The counters agree with the trace: `done` pairs each command of the
        trace with its outcome and `asked` counts its prompts. */
    ghost predicate Valid()
    {
      done == Steps(env, trace) && asked == Asks(trace)
    }

    /** The run after one more command. */
    function Running(argv: seq<string>): World
    {
      this.(trace := trace + [Exec(argv)], done := done + [Step(argv, env.procs(|done|))])
    }

    /** The run after one more prompt. */
    function Asking(prompt: string): World
    {
      this.(trace := trace + [Ask(prompt)], asked := asked + 1)
    }

    /** The run after one more effect that is neither a command nor a prompt. */
    function Doing(e: Event): World
    {
      this.(trace := trace + [e])
    }
  }

  /** The paths `shutil.rmtree` removes in the trace `t`, in order. */
  function Rmtrees(t: seq<Event>): seq<Path>
  {
    if t == [] then []
    else Rmtrees(t[..|t| - 1]) + (if t[|t| - 1].Rmtree? then [t[|t| - 1].path] else [])
  }

  /** Removals of a joined trace are those of each part, in order. */
  lemma {:induction false} RmtreesAppend(t: seq<Event>, u: seq<Event>)
    ensures Rmtrees(t + u) == Rmtrees(t) + Rmtrees(u)
    decreases |u|
  {
    if u == [] {
      assert t + u == t;
    } else {
      var v := u[..|u| - 1];
      RmtreesAppend(t, v);
      assert (t + u)[..|t + u| - 1] == t + v;
      assert (t + u)[|t + u| - 1] == u[|u| - 1];
    }
  }

  /** Commands and prompts remove nothing; an effect removes a tree exactly
      when it is an `Rmtree`. */
  lemma RmtreesSteps(w: World, argv: seq<string>, prompt: string, e: Event)
    ensures Rmtrees(w.Running(argv).trace) == Rmtrees(w.trace)
    ensures Rmtrees(w.Asking(prompt).trace) == Rmtrees(w.trace)
    ensures Rmtrees(w.Doing(e).trace) == Rmtrees(w.trace) + (if e.Rmtree? then [e.path] else [])
  {
    assert (w.trace + [Exec(argv)])[..|w.trace|] == w.trace;
    assert (w.trace + [Ask(prompt)])[..|w.trace|] == w.trace;
    assert (w.trace + [e])[..|w.trace|] == w.trace;
  }

  /** The trace `t` ends with the events `tail`. */
  predicate EndsWith(t: seq<Event>, tail: seq<Event>)
  {
    |tail| <= |t| && t[|t| - |tail|..] == tail
  }

  function Start(env: Env): (w: World)
    ensures w.Valid()
  {
    World(env, [], [], 0)
  }

  /** Each kind of step keeps the counters in agreement with the trace. */
  lemma StepsKeepValid(w: World, argv: seq<string>, prompt: string, e: Event)
    requires w.Valid()
    requires !e.Exec? && !e.Ask?
    ensures w.Running(argv).Valid()
    ensures w.Asking(prompt).Valid()
    ensures w.Doing(e).Valid()
  {
    var t := w.Running(argv).trace;
    assert t[..|t| - 1] == w.trace;
    var u := w.Asking(prompt).trace;
    assert u[..|u| - 1] == w.trace;
    var v := w.Doing(e).trace;
    assert v[..|v| - 1] == w.trace;
  }

  /** `subprocess.run(argv)`: the command's outcome is the next one in the stream. */
  method Run(w: World, argv: seq<string>) returns (w': World, p: Proc)
    ensures p == w.env.procs(w.Ran())
    ensures w' == w.Running(argv)
    ensures w'.Done() == w.Done() + [Step(argv, p)]
  {
    p := w.env.procs(w.Ran());
    w' := w.Running(argv);
  }

  /** `input(prompt)`: the answer is the next line the operator types. */
  method Prompt(w: World, prompt: string) returns (w': World, answer: string)
    ensures answer == w.env.answers(w.Asked())
    ensures w' == w.Asking(prompt)
  {
    answer := w.env.answers(w.Asked());
    w' := w.Asking(prompt);
  }

  /** Any other effect: it runs no command and reads no answer. */
  method Do(w: World, e: Event) returns (w': World)
    requires !e.Exec? && !e.Ask?
    ensures w' == w.Doing(e)
  {
    w' := w.Doing(e);
  }

  /** How a script's `main` ends. */
  datatype Status =
    | Return(code: int)     // `return code` from `main`
    | Exit(code: int)       // `raise SystemExit(code)`
    | Uncaught              // an exception escapes `main`

  /** The process exit status: Python exits with 1 on an uncaught exception. */
  function ExitStatus(s: Status): int
  {
    match s
    case Return(c) => c
    case Exit(c) => c
    case Uncaught => 1
  }

  /** `rsync ...` or `sudo rsync ...`. */
  predicate IsRsync(argv: seq<string>)
  {
    (|argv| > 0 && argv[0] == "rsync") || (|argv| > 1 && argv[0] == "sudo" && argv[1] == "rsync")
  }

  /** The exit statuses of rsync that the scripts accept: success and the
      two partial-transfer codes. */
  predicate RsyncOk(code: int)
  {
    code == 0 || code == 23 || code == 24
  }

  /** Number of rsync runs among `steps` that ended in a hard failure. */
  function HardRsyncs(steps: seq<Step>): (n: nat)
    ensures n <= |steps|
  {
    if steps == [] then 0
    else
      var s := steps[|steps| - 1];
      HardRsyncs(steps[..|steps| - 1]) + (if IsRsync(s.argv) && !RsyncOk(s.proc.code) then 1 else 0)
  }

  /** Number of rsync runs among `steps`. */
  function RsyncRuns(steps: seq<Step>): (n: nat)
    ensures n <= |steps|
  {
    if steps == [] then 0
    else
      var s := steps[|steps| - 1];
      RsyncRuns(steps[..|steps| - 1]) + (if IsRsync(s.argv) then 1 else 0)
  }

  lemma {:induction false} CountsAppend(a: seq<Step>, b: seq<Step>)
    ensures HardRsyncs(a + b) == HardRsyncs(a) + HardRsyncs(b)
    ensures RsyncRuns(a + b) == RsyncRuns(a) + RsyncRuns(b)
    ensures HardRsyncs(a) <= RsyncRuns(a)
    decreases |a| + |b|
  {
    if b == [] {
      assert a + b == a;
      if a != [] {
        CountsAppend(a[..|a| - 1], []);
        assert a[..|a| - 1] + [] == a[..|a| - 1];
      }
    } else {
      assert (a + b)[..|a + b| - 1] == a + b[..|b| - 1];
      CountsAppend(a, b[..|b| - 1]);
    }
  }

  /** One more command adds to the tallies only when it is rsync. */
  lemma RunningCounts(w: World, argv: seq<string>)
    ensures HardRsyncs(w.Running(argv).Done()) ==
      HardRsyncs(w.Done()) + (if IsRsync(argv) && !RsyncOk(w.env.procs(w.Ran()).code) then 1 else 0)
    ensures RsyncRuns(w.Running(argv).Done()) == RsyncRuns(w.Done()) + (if IsRsync(argv) then 1 else 0)
  {
    var d := w.Running(argv).Done();
    assert d[..|d| - 1] == w.Done();
  }

  /** `tar ...` or `sudo tar ...`. */
  predicate IsTar(argv: seq<string>)
  {
    (|argv| > 0 && argv[0] == "tar") || (|argv| > 1 && argv[0] == "sudo" && argv[1] == "tar")
  }

  /** How the last `tar` among `steps` finished, if one ran. */
  function LastTar(steps: seq<Step>): (r: Option<Proc>)
    ensures r.Some? ==> exists k :: 0 <= k < |steps| && IsTar(steps[k].argv) && steps[k].proc == r.value
  {
    if steps == [] then None
    else
      var s := steps[|steps| - 1];
      if IsTar(s.argv) then Some(s.proc) else LastTar(steps[..|steps| - 1])
  }

  /** One more command becomes the last `tar` exactly when it is one. */
  lemma RunningLastTar(w: World, argv: seq<string>)
    ensures LastTar(w.Running(argv).Done()) == if IsTar(argv) then Some(w.env.procs(w.Ran())) else LastTar(w.Done())
  {
    var d := w.Running(argv).Done();
    assert d[..|d| - 1] == w.Done();
  }
}
