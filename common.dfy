/**
  The helpers every backup script shares: reading the mount table, telling
  real removable mounts from pseudo file systems, listing and choosing a
  destination, the free-space floor and the manifest file layout.
*/
module Common {
  import opened Base
  import opened PyStr
  import opened Host

  // ---------------------------------------------------------------------
  // read_mount_fstypes
  // ---------------------------------------------------------------------

  /** Line `line` of the mount table names mount point `mp` in its second field. */
  predicate Records(line: string, mp: string)
  {
    var parts := Split(line);
    |parts| >= 3 && parts[1] == mp
  }

  /** The mount point to file-system-type map after reading `lines`: every
      line with at least three fields maps its second field to its third. */
  function Fstypes(lines: seq<string>): map<string, string>
  {
    if lines == [] then map[] else Record(Fstypes(lines[..|lines| - 1]), lines[|lines| - 1])
  }

  /** One line read into the map. */
  function Record(m: map<string, string>, line: string): map<string, string>
  {
    var parts := Split(line);
    if |parts| >= 3 then m[parts[1] := parts[2]] else m
  }

  /** A line that records `mp` sets its type; any other line leaves it as it was. */
  lemma RecordEntry(m: map<string, string>, line: string, mp: string)
    ensures Records(line, mp) ==> mp in Record(m, line) && Record(m, line)[mp] == Split(line)[2]
    ensures !Records(line, mp) ==> (mp in Record(m, line) <==> mp in m)
    ensures !Records(line, mp) && mp in m ==> Record(m, line)[mp] == m[mp]
  {
  }

  /** Every line with at least three fields puts its mount point in the map. */
  lemma {:induction false} FstypesHasRecorded(lines: seq<string>, j: nat, mp: string)
    requires j < |lines| && Records(lines[j], mp)
    ensures mp in Fstypes(lines)
  {
    var init := lines[..|lines| - 1];
    if j < |init| {
      assert init[j] == lines[j];
      FstypesHasRecorded(init, j, mp);
    }
  }

  /** Every key of the map comes from a line that records it. */
  lemma {:induction false} FstypesRecorded(lines: seq<string>, mp: string) returns (j: nat)
    requires mp in Fstypes(lines)
    ensures j < |lines| && Records(lines[j], mp)
  {
    var init := lines[..|lines| - 1];
    if Records(lines[|lines| - 1], mp) {
      j := |lines| - 1;
    } else {
      j := FstypesRecorded(init, mp);
      assert init[j] == lines[j];
    }
  }

  /** The last line that records a mount point decides its type. */
  lemma {:induction false} FstypesLastWins(lines: seq<string>, j: nat, mp: string)
    requires j < |lines| && Records(lines[j], mp)
    requires forall i :: j < i < |lines| ==> !Records(lines[i], mp)
    ensures mp in Fstypes(lines) && Fstypes(lines)[mp] == Split(lines[j])[2]
  {
    var init := lines[..|lines| - 1];
    var last := lines[|lines| - 1];
    RecordEntry(Fstypes(init), last, mp);
    if j < |lines| - 1 {
      assert init[j] == lines[j];
      forall i | j < i < |init|
        ensures !Records(init[i], mp)
      {
        assert init[i] == lines[i];
      }
      FstypesLastWins(init, j, mp);
    }
  }

  /** One more line read. */
  lemma FstypesStep(lines: seq<string>, i: nat)
    requires i < |lines|
    ensures Fstypes(lines[..i + 1]) == Record(Fstypes(lines[..i]), lines[i])
  {
    assert lines[..i + 1][..i] == lines[..i];
    assert lines[..i + 1][i] == lines[i];
  }

  /** What `read_mount_fstypes` returns: nothing when `/proc/mounts` cannot
      be read, otherwise the map built from its lines. */
  function MountFstypes(env: Env): map<string, string>
  {
    match env.mountTable
    case None => map[]
    case Some(text) => Fstypes(ReadLines(text))
  }

  method ReadMountFstypes(env: Env) returns (mounts: map<string, string>)
    ensures env.mountTable.None? ==> mounts == map[]
    ensures env.mountTable.Some? ==> mounts == Fstypes(ReadLines(env.mountTable.value))
  {
    mounts := map[];
    if env.mountTable.Some? {
      var lines := ReadLines(env.mountTable.value);
      var i := 0;
      while i < |lines|
        invariant 0 <= i <= |lines|
        invariant mounts == Fstypes(lines[..i])
      {
        FstypesStep(lines, i);
        var parts := Split(lines[i]);
        if |parts| >= 3 {
          mounts := mounts[parts[1] := parts[2]];
        }
        i := i + 1;
      }
      assert lines[..|lines|] == lines;
    }
  }

  // ---------------------------------------------------------------------
  // is_safe_mount and list_destinations
  // ---------------------------------------------------------------------

  /** The pseudo and in-memory file systems never offered as destinations. */
  const Denied: set<string> :=
    {"tmpfs", "overlay", "squashfs", "nsfs", "proc", "sysfs", "devtmpfs", "ramfs", "autofs"}

  /** `is_safe_mount`: a mount point whose recorded type, if any, is not denied. */
  predicate IsSafeMount(env: Env, p: Path, fstypes: map<string, string>)
  {
    p in env.mountPoints && !(p in fstypes && fstypes[p] in Denied)
  }

  /** The two roots searched, in order. */
  function Roots(user: string): seq<Path>
  {
    ["/run/media/" + user, "/media/" + user]
  }

  /** A child of `root` that is offered as a destination. */
  predicate Offered(env: Env, fstypes: map<string, string>, root: Path, name: string)
  {
    env.IsDir(Join(root, name)) && IsSafeMount(env, Join(root, name), fstypes)
  }

  /** The children `root/name` for `name` in `names` that are directories and
      safe mounts, in listing order. */
  function SafeChildren(env: Env, fstypes: map<string, string>, root: Path, names: seq<string>): (r: seq<Path>)
    ensures |r| <= |names|
    ensures forall x :: x in r <==> exists i :: 0 <= i < |names| && x == Join(root, names[i]) && Offered(env, fstypes, root, names[i])
  {
    if names == [] then []
    else
      var init := names[..|names| - 1];
      var name := names[|names| - 1];
      var rest := SafeChildren(env, fstypes, root, init);
      assert forall i :: 0 <= i < |init| ==> init[i] == names[i];
      rest + (if Offered(env, fstypes, root, name) then [Join(root, name)] else [])
  }

  /** The destinations found under one root; a missing root offers none. */
  function Under(env: Env, fstypes: map<string, string>, root: Path): seq<Path>
  {
    if env.IsDir(root) then SafeChildren(env, fstypes, root, env.fs[root].names) else []
  }

  /** `list_destinations(user)`: those under `/run/media/<user>` first, then
      those under `/media/<user>`. */
  function Candidates(env: Env): seq<Path>
  {
    var m := MountFstypes(env);
    Under(env, m, Roots(env.user)[0]) + Under(env, m, Roots(env.user)[1])
  }

  /** Every candidate is a safe mounted directory directly under a root. */
  lemma CandidatesAreSafe(env: Env, x: Path)
    requires x in Candidates(env)
    ensures env.IsDir(x) && IsSafeMount(env, x, MountFstypes(env))
    ensures exists r, name :: r in Roots(env.user) && env.IsDir(r) && name in env.fs[r].names && x == Join(r, name)
  {
    var m := MountFstypes(env);
    var roots := Roots(env.user);
    var r := if x in Under(env, m, roots[0]) then roots[0] else roots[1];
    assert x in Under(env, m, r);
    var names := env.fs[r].names;
    var i :| 0 <= i < |names| && x == Join(r, names[i]) && Offered(env, m, r, names[i]);
    assert names[i] in names;
  }

  method ListDestinations(env: Env) returns (dests: seq<Path>)
    ensures dests == Candidates(env)
  {
    var roots := Roots(env.user);
    var fstypes := ReadMountFstypes(env);
    assert fstypes == MountFstypes(env);
    dests := [];
    var k := 0;
    while k < |roots|
      invariant 0 <= k <= |roots|
      invariant dests == if k == 0 then [] else if k == 1 then Under(env, fstypes, roots[0]) else Candidates(env)
    {
      var found := ScanRoot(env, fstypes, roots[k]);
      dests := dests + found;
      k := k + 1;
    }
  }

  /** One root of `list_destinations`: its safe mounted child directories,
      in listing order. */
  method ScanRoot(env: Env, fstypes: map<string, string>, root: Path) returns (found: seq<Path>)
    ensures found == Under(env, fstypes, root)
  {
    found := [];
    if env.IsDir(root) {
      var names := env.fs[root].names;
      var i := 0;
      while i < |names|
        invariant 0 <= i <= |names|
        invariant found == SafeChildren(env, fstypes, root, names[..i])
      {
        var entry := Join(root, names[i]);
        if env.IsDir(entry) && IsSafeMount(env, entry, fstypes) {
          found := found + [entry];
        }
        assert names[..i + 1][..i] == names[..i];
        i := i + 1;
      }
      assert names[..|names|] == names;
    }
  }

  // ---------------------------------------------------------------------
  // select_destination
  // ---------------------------------------------------------------------

  const MenuPrompt: string := "Select destination number: "

  function ConfirmPrompt(selected: Path): string
  {
    "Confirm destination (" + selected + ") and press Enter to continue..."
  }

  /** The menu number an answer picks among `n` entries, if it is valid:
      the stripped answer must be all digits and lie in `1..n`. */
  function Choice(answer: string, n: nat): (r: Option<nat>)
    ensures r.Some? ==> 1 <= r.value <= n
    ensures !IsDigits(Strip(answer)) ==> r.None?
  {
    var c := Strip(answer);
    if IsDigits(c) && 1 <= DigitsValue(c) <= n then Some(DigitsValue(c)) else None
  }

  /** Typing a listed number, with or without surrounding blanks, picks it. */
  lemma ChoiceNumber(i: nat, n: nat, pad: string)
    requires 1 <= i <= n
    requires forall k :: 0 <= k < |pad| ==> IsSpace(pad[k])
    ensures Choice(pad + Decimal(i) + pad, n) == Some(i)
  {
    var d := Decimal(i);
    assert IsDigit(d[0]) && IsDigit(d[|d| - 1]);
    StripPadded(pad, d, pad);
    DecimalValue(i);
  }

  /** A number outside the menu is refused. */
  lemma ChoiceOutOfRange(i: nat, n: nat)
    requires i == 0 || i > n
    ensures Choice(Decimal(i), n) == None
  {
    var d := Decimal(i);
    assert IsDigit(d[0]) && IsDigit(d[|d| - 1]);
    StripTrimmed(d);
    DecimalValue(i);
  }

  /** The destination `select_destination` settles on when it starts in
      `w` with the candidates as its list: `None` where it exits. */
  function Chosen(w: World): (r: Option<Path>)
    ensures r.Some? ==> r.value in Candidates(w.env)
    ensures r.None? <==>
      (Candidates(w.env) == [] || (|Candidates(w.env)| >= 2 && Choice(w.env.answers(w.Asked()), |Candidates(w.env)|).None?))
  {
    var dests := Candidates(w.env);
    if |dests| == 0 then None
    else if |dests| == 1 then Some(dests[0])
    else
      var c := Choice(w.env.answers(w.Asked()), |dests|);
      if c.Some? then Some(dests[c.value - 1]) else None
  }

  /** `select_destination`: `None` where it raises `SystemExit(1)`. */
  method SelectDestination(w: World, dests: seq<Path>) returns (w': World, selected: Option<Path>)
    ensures |dests| <= 1 ==> w' == w
    ensures w'.env == w.env && w'.Done() == w.Done()
    ensures selected.Some? ==> selected.value in dests
    ensures |dests| == 0 ==> selected == None
    ensures |dests| == 1 ==> selected == Some(dests[0])
    ensures dests == Candidates(w.env) ==> selected == Chosen(w)
    ensures |dests| >= 2 ==>
      var c := Choice(w.env.answers(w.Asked()), |dests|);
      && selected == (if c.Some? then Some(dests[c.value - 1]) else None)
      && w' == (if c.Some? then w.Asking(MenuPrompt).Asking(ConfirmPrompt(dests[c.value - 1])) else w.Asking(MenuPrompt))
  {
    w' := w;
    if |dests| == 0 {
      return w', None;
    }
    if |dests| == 1 {
      return w', Some(dests[0]);
    }
    var answer;
    w', answer := Prompt(w', MenuPrompt);
    var c := Choice(answer, |dests|);
    if c.None? {
      return w', None;
    }
    var pick := dests[c.value - 1];
    w', answer := Prompt(w', ConfirmPrompt(pick));
    selected := Some(pick);
  }

  // ---------------------------------------------------------------------
  // check_free_space
  // ---------------------------------------------------------------------

  const GiB: nat := 1024 * 1024 * 1024

  /** `check_free_space` passes: whole gibibytes free are at least `minGb`. */
  predicate EnoughSpace(freeBytes: nat, minGb: int)
  {
    freeBytes / GiB >= minGb
  }

  /** Rounding down to whole gibibytes loses nothing against a whole-gibibyte
      floor: the check passes exactly when the free bytes reach it. */
  lemma EnoughSpaceBytes(freeBytes: nat, minGb: nat)
    ensures EnoughSpace(freeBytes, minGb) <==> freeBytes >= minGb * GiB
  {
    var q := freeBytes / GiB;
    assert freeBytes == q * GiB + freeBytes % GiB;
    if q >= minGb {
      MulMonotone(minGb, q, GiB);
    } else {
      MulMonotone(q + 1, minGb, GiB);
    }
  }

  lemma MulMonotone(a: nat, b: nat, c: nat)
    requires a <= b
    ensures a * c <= b * c
  {
  }

  // ---------------------------------------------------------------------
  // write_manifest
  // ---------------------------------------------------------------------

  /** Each item on a line of its own. */
  function Lines(items: seq<string>): string
  {
    if items == [] then [] else Lines(items[..|items| - 1]) + items[|items| - 1] + "\n"
  }

  /** The text `write_manifest(path, title, items)` writes. */
  function ManifestText(title: string, items: seq<string>): string
  {
    title + "\n" + Lines(items)
  }

  method WriteManifest(w: World, path: Path, title: string, items: seq<string>) returns (w': World)
    ensures w' == w.Doing(Write(path, ManifestText(title, items)))
  {
    var text := title + "\n";
    var i := 0;
    while i < |items|
      invariant 0 <= i <= |items|
      invariant text == title + "\n" + Lines(items[..i])
    {
      assert items[..i + 1][..i] == items[..i];
      text := text + items[i] + "\n";
      i := i + 1;
    }
    assert items[..|items|] == items;
    w' := Do(w, Write(path, text));
  }

  lemma {:induction false} LinesCons(items: seq<string>)
    requires items != []
    ensures Lines(items) == items[0] + "\n" + Lines(items[1..])
    decreases |items|
  {
    if |items| > 1 {
      var init := items[..|items| - 1];
      var last := items[|items| - 1];
      LinesCons(init);
      var tail := items[1..];
      assert tail[..|tail| - 1] == init[1..];
      assert tail[|tail| - 1] == last;
      calc {
        Lines(items);
        Lines(init) + last + "\n";
        init[0] + "\n" + Lines(init[1..]) + last + "\n";
        items[0] + "\n" + (Lines(tail[..|tail| - 1]) + tail[|tail| - 1] + "\n");
        items[0] + "\n" + Lines(tail);
      }
    } else {
      assert items[1..] == [];
    }
  }

  /** Items on lines of their own split back into the items. */
  lemma {:induction false} SplitLinesLines(items: seq<string>)
    requires forall k :: 0 <= k < |items| ==> NoBreak(items[k])
    ensures SplitLines(Lines(items)) == items
    decreases |items|
  {
    if items != [] {
      var rest := items[1..];
      forall k | 0 <= k < |rest|
        ensures NoBreak(rest[k])
      {
        assert rest[k] == items[k + 1];
      }
      LinesCons(items);
      SplitLinesCons(items[0], Lines(rest));
      SplitLinesLines(rest);
      assert items == [items[0]] + rest;
    }
  }

  /** A manifest split back into lines gives the title then the items, so
      long as none of them holds a line break. */
  lemma ManifestReadBack(title: string, items: seq<string>)
    requires NoBreak(title)
    requires forall k :: 0 <= k < |items| ==> NoBreak(items[k])
    ensures SplitLines(ManifestText(title, items)) == [title] + items
  {
    SplitLinesCons(title, Lines(items));
    SplitLinesLines(items);
  }

  /** Python's `"\n".join(items) + "\n"` is the same text for a non-empty list. */
  lemma JoinLines(items: seq<string>)
    requires items != []
    ensures JoinWith("\n", items) + "\n" == Lines(items)
  {
    if |items| > 1 {
      JoinLines(items[1..]);
      LinesCons(items);
    } else {
      LinesCons(items);
    }
  }
}
