/**
  The command-line and operator-dialogue steps the scripts share: the banner
  pause, the `while i < len(args)` flag loop, the compression question and
  the destructive-restore confirmation.
*/
module Cli {
  import opened Base
  import opened PyStr
  import opened Host

  // ---------------------------------------------------------------------
  // Banner
  // ---------------------------------------------------------------------

  const BannerPrompt: string := "Press Enter to continue..."

  /** Unless `--no-banner` is given, the banner waits for Enter. */
  method Banner(w: World, args: seq<string>) returns (w': World)
    ensures "--no-banner" in args ==> w' == w
    ensures "--no-banner" !in args ==> w' == w.Asking(BannerPrompt)
    ensures w'.env == w.env && w'.Done() == w.Done()
    ensures w'.Asked() == if "--no-banner" in args then w.Asked() else w.Asked() + 1
  {
    w' := w;
    if "--no-banner" !in args {
      var reply;
      w', reply := Prompt(w, BannerPrompt);
    }
  }

  // ---------------------------------------------------------------------
  // Flag scanning
  // ---------------------------------------------------------------------

  /** Which flags a script's loop recognises besides `--log-dir` and
      `--manifest-only`. */
  datatype Grammar = Grammar(noCompress: bool, keep: bool, noRestart: bool)

  /** What the loop leaves behind. `noCompress` is `compress_override is False`. */
  datatype Flags = Flags(logDir: string, manifestOnly: bool, noCompress: bool, keep: int, noRestart: bool)

  const Defaults: Flags := Flags("", false, false, 5, false)

  /** `int(value)`, or 5 when that raises `ValueError`. */
  function KeepValue(v: string): int
  {
    match PyInt(v)
    case Some(n) => n
    case None => 5
  }

  /** A flag that takes the next argument as its value. */
  predicate TakesValue(g: Grammar, a: string)
  {
    a == "--log-dir" || (g.keep && a == "--keep")
  }

  /** A flag the loop acts on. */
  predicate Known(g: Grammar, a: string)
  {
    TakesValue(g, a) || a == "--manifest-only" || (g.noCompress && a == "--no-compress")
    || (g.noRestart && a == "--no-restart")
  }

  /** The flag loop run over `args` from state `f`: a value flag with a
      following argument consumes both; anything else advances by one. */
  function Scan(args: seq<string>, g: Grammar, f: Flags): Flags
    decreases |args|
  {
    if args == [] then f
    else if args[0] == "--log-dir" && |args| > 1 then Scan(args[2..], g, f.(logDir := args[1]))
    else if g.noCompress && args[0] == "--no-compress" then Scan(args[1..], g, f.(noCompress := true))
    else if args[0] == "--manifest-only" then Scan(args[1..], g, f.(manifestOnly := true))
    else if g.keep && args[0] == "--keep" && |args| > 1 then Scan(args[2..], g, f.(keep := KeepValue(args[1])))
    else if g.noRestart && args[0] == "--no-restart" then Scan(args[1..], g, f.(noRestart := true))
    else Scan(args[1..], g, f)
  }

  method ScanFlags(args: seq<string>, g: Grammar) returns (f: Flags)
    ensures f == Scan(args, g, Defaults)
  {
    f := Defaults;
    var i := 0;
    while i < |args|
      invariant 0 <= i <= |args|
      invariant Scan(args[i..], g, f) == Scan(args, g, Defaults)
      decreases |args| - i
    {
      assert args[i..][0] == args[i];
      if args[i] == "--log-dir" && i + 1 < |args| {
        assert args[i..][2..] == args[i + 2..];
        f := f.(logDir := args[i + 1]);
        i := i + 2;
        continue;
      }
      if g.noCompress && args[i] == "--no-compress" {
        assert args[i..][1..] == args[i + 1..];
        f := f.(noCompress := true);
        i := i + 1;
        continue;
      }
      if args[i] == "--manifest-only" {
        assert args[i..][1..] == args[i + 1..];
        f := f.(manifestOnly := true);
        i := i + 1;
        continue;
      }
      if g.keep && args[i] == "--keep" && i + 1 < |args| {
        assert args[i..][2..] == args[i + 2..];
        f := f.(keep := KeepValue(args[i + 1]));
        i := i + 2;
        continue;
      }
      if g.noRestart && args[i] == "--no-restart" {
        assert args[i..][1..] == args[i + 1..];
        f := f.(noRestart := true);
        i := i + 1;
        continue;
      }
      assert args[i..][1..] == args[i + 1..];
      i := i + 1;
    }
  }

  /** `args` is scanned to its end without a value flag reaching past it. */
  predicate Closed(args: seq<string>, g: Grammar)
    decreases |args|
  {
    if args == [] then true
    else if TakesValue(g, args[0]) then |args| > 1 && Closed(args[2..], g)
    else Closed(args[1..], g)
  }

  /** Scanning closed arguments and then more is scanning them in turn. */
  lemma {:induction false} ScanAppend(a: seq<string>, b: seq<string>, g: Grammar, f: Flags)
    requires Closed(a, g)
    ensures Scan(a + b, g, f) == Scan(b, g, Scan(a, g, f))
    decreases |a|
  {
    if a != [] {
      var s := a + b;
      assert s[0] == a[0];
      if TakesValue(g, a[0]) {
        assert s[2..] == a[2..] + b;
        var f' := if a[0] == "--log-dir" then f.(logDir := a[1]) else f.(keep := KeepValue(a[1]));
        ScanAppend(a[2..], b, g, f');
      } else {
        assert s[1..] == a[1..] + b;
        var f' := if g.noCompress && a[0] == "--no-compress" then f.(noCompress := true)
                  else if a[0] == "--manifest-only" then f.(manifestOnly := true)
                  else if g.noRestart && a[0] == "--no-restart" then f.(noRestart := true)
                  else f;
        ScanAppend(a[1..], b, g, f');
      }
    } else {
      assert a + b == b;
    }
  }

  /** A value flag given last is skipped: the loop advances by one. */
  lemma ScanTrailingValueFlag(g: Grammar, a: string, f: Flags)
    requires TakesValue(g, a)
    ensures Scan([a], g, f) == f
  {
  }

  /** An argument the loop does not know is skipped. */
  lemma ScanUnknown(g: Grammar, a: string, rest: seq<string>, f: Flags)
    requires !Known(g, a)
    ensures Scan([a] + rest, g, f) == Scan(rest, g, f)
  {
    assert ([a] + rest)[1..] == rest;
  }

  /** `--keep <v>` keeps `int(v)` when it parses, otherwise 5. */
  lemma ScanKeep(g: Grammar, v: string, rest: seq<string>, f: Flags)
    requires g.keep
    ensures Scan(["--keep", v] + rest, g, f) == Scan(rest, g, f.(keep := KeepValue(v)))
    ensures KeepValue(v) == (if PyInt(v).Some? then PyInt(v).value else 5)
  {
    assert (["--keep", v] + rest)[2..] == rest;
  }

  /** A number given to `--keep` is kept as is. */
  lemma KeepNumber(n: nat)
    ensures KeepValue(Decimal(n)) == n
    ensures KeepValue("-" + Decimal(n)) == -(n as int)
  {
    PyIntDecimal(n);
  }

  /** Flags the loop sets stay set. */
  lemma {:induction false} ScanKeepsSet(args: seq<string>, g: Grammar, f: Flags)
    ensures f.manifestOnly ==> Scan(args, g, f).manifestOnly
    ensures f.noCompress ==> Scan(args, g, f).noCompress
    ensures f.noRestart ==> Scan(args, g, f).noRestart
    decreases |args|
  {
    if args != [] {
      if args[0] == "--log-dir" && |args| > 1 {
        ScanKeepsSet(args[2..], g, f.(logDir := args[1]));
      } else if g.noCompress && args[0] == "--no-compress" {
        ScanKeepsSet(args[1..], g, f.(noCompress := true));
      } else if args[0] == "--manifest-only" {
        ScanKeepsSet(args[1..], g, f.(manifestOnly := true));
      } else if g.keep && args[0] == "--keep" && |args| > 1 {
        ScanKeepsSet(args[2..], g, f.(keep := KeepValue(args[1])));
      } else if g.noRestart && args[0] == "--no-restart" {
        ScanKeepsSet(args[1..], g, f.(noRestart := true));
      } else {
        ScanKeepsSet(args[1..], g, f);
      }
    }
  }

  /** A switch standing where the loop looks sets its flag for good. */
  lemma ScanSwitch(a: seq<string>, s: string, b: seq<string>, g: Grammar, f: Flags)
    requires Closed(a, g)
    ensures s == "--manifest-only" ==> Scan(a + [s] + b, g, f).manifestOnly
    ensures s == "--no-compress" && g.noCompress ==> Scan(a + [s] + b, g, f).noCompress
    ensures s == "--no-restart" && g.noRestart ==> Scan(a + [s] + b, g, f).noRestart
  {
    assert a + [s] + b == a + ([s] + b);
    ScanAppend(a, [s] + b, g, f);
    var f' := Scan(a, g, f);
    assert ([s] + b)[1..] == b;
    if s == "--manifest-only" {
      ScanKeepsSet(b, g, f'.(manifestOnly := true));
    }
    if s == "--no-compress" && g.noCompress {
      ScanKeepsSet(b, g, f'.(noCompress := true));
    }
    if s == "--no-restart" && g.noRestart {
      ScanKeepsSet(b, g, f'.(noRestart := true));
    }
  }

  // ---------------------------------------------------------------------
  // Compression choice
  // ---------------------------------------------------------------------

  const CompressPrompt: string := "Create compressed archive with pigz? [Y/n]: "

  /** `(reply.strip() or "Y").lower() != "n"`. */
  function WantsCompression(reply: string): bool
  {
    Accepts(Strip(reply))
  }

  /** A stripped reply accepts unless it is `n` in either case; an empty
      reply stands for `Y`. */
  function Accepts(r: string): bool
  {
    Lower(if r == [] then "Y" else r) != "n"
  }

  /** Only `n` or `N`, blanks aside, declines; an empty reply accepts. */
  lemma DeclinesExactly(reply: string)
    ensures !WantsCompression(reply) <==> Strip(reply) == "n" || Strip(reply) == "N"
  {
    AcceptsExactly(Strip(reply));
  }

  lemma AcceptsExactly(r: string)
    ensures !Accepts(r) <==> r == "n" || r == "N"
  {
    if r == [] {
      assert Lower("Y")[0] == 'y';
    } else {
      LowerIsLetter(r, 'n');
      assert ('n' as int - 32) as char == 'N';
    }
  }

  /** The compression decision: `--yes` compresses without asking, even
      over `--no-compress`; `--no-compress` declines without asking;
      otherwise the operator is asked. */
  method DecideCompress(w: World, autoYes: bool, noCompress: bool) returns (w': World, compress: bool)
    ensures autoYes ==> compress && w' == w
    ensures !autoYes && noCompress ==> !compress && w' == w
    ensures !autoYes && !noCompress ==>
      && w' == w.Asking(CompressPrompt)
      && compress == WantsCompression(w.env.answers(w.Asked()))
    ensures w'.env == w.env && w'.Done() == w.Done()
  {
    w' := w;
    if autoYes {
      compress := true;
    } else if noCompress {
      compress := false;
    } else {
      var reply;
      w', reply := Prompt(w, CompressPrompt);
      compress := WantsCompression(reply);
    }
  }

  // ---------------------------------------------------------------------
  // Restore confirmation
  // ---------------------------------------------------------------------

  /** `answer.strip().lower() == "y"`. */
  predicate Agrees(answer: string)
  {
    Lower(Strip(answer)) == "y"
  }

  /** Only `y` or `Y`, blanks aside, agrees. */
  lemma AgreesExactly(answer: string)
    ensures Agrees(answer) <==> Strip(answer) == "y" || Strip(answer) == "Y"
  {
    LowerIsLetter(Strip(answer), 'y');
    assert ('y' as int - 32) as char == 'Y';
  }

  /** The confirmation gate: without `--confirm` the restore goes ahead;
      with it, `--yes` agrees without asking and otherwise the operator must
      answer `y`. */
  method Gate(w: World, confirm: bool, autoYes: bool, prompt: string) returns (w': World, proceed: bool)
    ensures !confirm || autoYes ==> proceed && w' == w
    ensures confirm && !autoYes ==>
      && w' == w.Asking(prompt)
      && proceed == Agrees(w.env.answers(w.Asked()))
  {
    w' := w;
    proceed := true;
    if confirm {
      var answer := "y";
      if !autoYes {
        var reply;
        w', reply := Prompt(w, prompt);
        answer := Strip(reply);
      }
      if Lower(answer) != "y" {
        proceed := false;
      }
    }
  }
}
