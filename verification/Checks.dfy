/** The argument vectors of registered checks: the python and pytest grammars,
    their index-driven parsers, and the hardened form the evaluator runs
    (sdf_core/checks.py, sdf_core/evaluator.py). */
module Checks {
  import opened Results
  import opened Paths

  type Argv = seq<string>

  const PYTHON_FLAGS := {"-B", "-u", "-O", "-OO", "-b", "-bb", "-q"}
  const FLAG_WITH_VALUE := "-W"
  const PYTHONS := {"python", "python3"}
  const ALLOWED_EXECUTABLES := {"python", "python3", "pytest", "ruff"}
  const MAX_ARGS := 64
  const MAX_ARG_LEN := 4096

  predicate Dashed(s: string) { s != "" && s[0] == '-' }

  // ---- python [flags] (-c CODE | -m MODULE | SCRIPT) [args] -----------------

  datatype Invocation = Invocation(flags: seq<string>, mode: string, target: string, rest: seq<string>)

  predicate IsFlags(s: seq<string>, plain: set<string>) {
    || s == []
    || (s[0] in plain && IsFlags(s[1..], plain))
    || (s[0] !in plain && s[0] == FLAG_WITH_VALUE && |s| > 1 && IsFlags(s[2..], plain))
  }

  // What follows the flags. A script may be the empty string, a value may not.
  function Call(inv: Invocation): seq<string> {
    if inv.mode == "path" then [inv.target] + inv.rest else [inv.mode, inv.target] + inv.rest
  }

  // The grammar: `args` is what follows the executable.
  ghost predicate Parses(args: seq<string>, inv: Invocation, plain: set<string>) {
    && args == inv.flags + Call(inv)
    && IsFlags(inv.flags, plain)
    && (if inv.mode == "path" then !Dashed(inv.target) else inv.mode in {"-c", "-m"} && inv.target != "")
  }

  function WithFlags(flags: seq<string>, inv: Option<Invocation>): Option<Invocation> {
    if inv.None? then None else Some(inv.value.(flags := flags + inv.value.flags))
  }

  function Parse(args: seq<string>, plain: set<string>): Option<Invocation> {
    if args == [] then None
    else if args[0] in plain then WithFlags([args[0]], Parse(args[1..], plain))
    else if args[0] == FLAG_WITH_VALUE then
      if |args| < 2 then None else WithFlags(args[..2], Parse(args[2..], plain))
    else if args[0] == "-c" || args[0] == "-m" then
      if |args| < 2 || args[1] == "" then None else Some(Invocation([], args[0], args[1], args[2..]))
    else if Dashed(args[0]) then None
    else Some(Invocation([], "path", args[0], args[1..]))
  }

  // Flags start with a dash and are no modes.
  ghost predicate PlainFlags(plain: set<string>) {
    (forall f :: f in plain ==> Dashed(f)) && FLAG_WITH_VALUE !in plain && "-c" !in plain && "-m" !in plain
  }

  lemma {:induction false} ParseIsGrammar(args: seq<string>, plain: set<string>)
    requires PlainFlags(plain)
    ensures Parse(args, plain).Some? ==> Parses(args, Parse(args, plain).value, plain)
  {
    if args != [] && Parse(args, plain).Some? {
      var inv := Parse(args, plain).value;
      if args[0] in plain {
        ParseIsGrammar(args[1..], plain);
        assert inv.flags[1..] == Parse(args[1..], plain).value.flags;
        assert args == [args[0]] + args[1..];
      } else if args[0] == FLAG_WITH_VALUE {
        ParseIsGrammar(args[2..], plain);
        assert inv.flags[2..] == Parse(args[2..], plain).value.flags;
        assert args == args[..2] + args[2..];
      } else if args[0] == "-c" || args[0] == "-m" {
        assert args == [args[0], args[1]] + args[2..];
      }
    }
  }

  lemma CallIsParsed(inv: Invocation, plain: set<string>)
    requires PlainFlags(plain) && Parses(Call(inv), inv, plain) && inv.flags == []
    ensures Parse(Call(inv), plain) == Some(inv)
  {
    var args := Call(inv);
    if inv.mode == "path" {
      assert args[0] == inv.target && args[1..] == inv.rest;
    } else {
      assert args[0] == inv.mode && args[1] == inv.target && args[2..] == inv.rest;
    }
  }

  // One flag, or a flag with its value, in front.
  lemma FlagInFront(args: seq<string>, inv: Invocation, plain: set<string>, n: nat)
    requires Parses(args, inv, plain) && inv.flags != [] && n == (if inv.flags[0] in plain then 1 else 2)
    ensures n <= |inv.flags| && n <= |args| && Parses(args[n..], inv.(flags := inv.flags[n..]), plain)
    ensures inv.flags == args[..n] + inv.flags[n..]
    ensures (n == 1 && args[0] in plain) || (n == 2 && args[0] !in plain && args[0] == FLAG_WITH_VALUE)
  {
    hide Dashed;
    assert args[0] == inv.flags[0];
    assert args[n..] == inv.flags[n..] + Call(inv);
    assert Call(inv.(flags := inv.flags[n..])) == Call(inv);
  }

  lemma {:induction false} GrammarIsParsed(args: seq<string>, inv: Invocation, plain: set<string>)
    requires PlainFlags(plain) && Parses(args, inv, plain)
    ensures Parse(args, plain) == Some(inv)
    decreases |inv.flags|
  {
    hide Parses, PlainFlags, IsFlags, Call, Dashed;
    if inv.flags == [] {
      FlagsFirst(args, inv, plain);
      CallIsParsed(inv, plain);
    } else {
      var n := if inv.flags[0] in plain then 1 else 2;
      FlagInFront(args, inv, plain, n);
      GrammarIsParsed(args[n..], inv.(flags := inv.flags[n..]), plain);
      FlagIsRead(args, inv.flags[n..], inv, plain, n);
    }
  }

  lemma FlagsFirst(args: seq<string>, inv: Invocation, plain: set<string>)
    requires Parses(args, inv, plain) && inv.flags == []
    ensures args == Call(inv)
  {
    assert [] + Call(inv) == Call(inv);
  }

  lemma FlagIsRead(args: seq<string>, flags: seq<string>, inv: Invocation, plain: set<string>, n: nat)
    requires PlainFlags(plain) && n <= |args|
    requires (n == 1 && args[0] in plain) || (n == 2 && args[0] !in plain && args[0] == FLAG_WITH_VALUE)
    requires Parse(args[n..], plain) == Some(inv.(flags := flags)) && inv.flags == args[..n] + flags
    ensures Parse(args, plain) == Some(inv)
  {
    hide PlainFlags, Dashed;
    if n == 1 { assert [args[0]] == args[..1]; }
  }

  // Acceptance is the grammar, and the split is the only one.
  lemma ParseIff(args: seq<string>, inv: Invocation, plain: set<string>)
    requires PlainFlags(plain)
    ensures Parse(args, plain) == Some(inv) <==> Parses(args, inv, plain)
  {
    ParseIsGrammar(args, plain);
    if Parses(args, inv, plain) { GrammarIsParsed(args, inv, plain); }
  }

  lemma PythonFlagsArePlain()
    ensures PlainFlags(PYTHON_FLAGS) && PlainFlags(PYTHON_FLAGS + {"-I"})
  {
  }

  ghost predicate ByGrammar(argv: Argv, parsed: Option<Invocation>) {
    argv != [] ==>
      match parsed
      case Some(inv) => argv == [argv[0]] + inv.flags + Call(inv) && Parses(argv[1..], inv, PYTHON_FLAGS)
      case None => forall inv :: !Parses(argv[1..], inv, PYTHON_FLAGS)
  }

  lemma PythonIsGrammar(argv: Argv)
    requires argv != []
    ensures ByGrammar(argv, Parse(argv[1..], PYTHON_FLAGS))
  {
    var args := argv[1..];
    PythonFlagsArePlain();
    forall inv ensures Parse(args, PYTHON_FLAGS) == Some(inv) <==> Parses(args, inv, PYTHON_FLAGS) {
      ParseIff(args, inv, PYTHON_FLAGS);
    }
    assert argv == [argv[0]] + args;
  }

  method PythonInvocation(argv: Argv) returns (parsed: Option<Invocation>)
    ensures parsed == if argv == [] then None else Parse(argv[1..], PYTHON_FLAGS)
    // Accepted or refused by the grammar alone, and rebuilt exactly.
    ensures ByGrammar(argv, parsed)
  {
    if argv == [] { return None; }
    ghost var args := argv[1..];
    PythonIsGrammar(argv);
    var flags: seq<string> := [];
    var i := 1;
    NothingInFront(Parse(args, PYTHON_FLAGS), None);
    while i < |argv|
      invariant 1 <= i <= |argv|
      invariant Parse(args, PYTHON_FLAGS) == WithFlags(flags, Parse(argv[i..], PYTHON_FLAGS))
    {
      var part := argv[i];
      assert argv[i..][1..] == argv[i + 1..];
      if part in PYTHON_FLAGS {
        Regroup(flags, [part], Parse(argv[i + 1..], PYTHON_FLAGS));
        flags := flags + [part];
        i := i + 1;
      } else if part == FLAG_WITH_VALUE {
        if i + 1 >= |argv| { return None; }
        assert argv[i..][2..] == argv[i + 2..] && argv[i..][..2] == [part, argv[i + 1]];
        Regroup(flags, [part, argv[i + 1]], Parse(argv[i + 2..], PYTHON_FLAGS));
        flags := flags + [part, argv[i + 1]];
        i := i + 2;
      } else if part == "-c" || part == "-m" {
        if i + 1 >= |argv| || argv[i + 1] == "" { return None; }
        assert argv[i..][2..] == argv[i + 2..] && flags + [] == flags;
        assert Parse(argv[i..], PYTHON_FLAGS) == Some(Invocation([], part, argv[i + 1], argv[i + 2..]));
        return Some(Invocation(flags, part, argv[i + 1], argv[i + 2..]));
      } else if Dashed(part) {
        return None;
      } else {
        assert flags + [] == flags;
        return Some(Invocation(flags, "path", part, argv[i + 1..]));
      }
    }
    return None;
  }

  lemma Regroup(a: seq<string>, b: seq<string>, inv: Option<Invocation>)
    ensures WithFlags(a, WithFlags(b, inv)) == WithFlags(a + b, inv)
  {
    if inv.Some? {
      assert a + (b + inv.value.flags) == a + b + inv.value.flags;
    }
  }

  // ---- pytest --------------------------------------------------------------

  const PYTEST_FLAGS_ALLOWED :=
    {"-q", "--quiet", "-v", "--verbose", "-vv", "-x", "--exitfirst", "-s", "-l", "--showlocals", "--no-header",
     "--strict-markers", "--strict-config", "--disable-warnings", "--color=no", "--color=yes"}
  const PYTEST_FLAGS_WITH_VALUE := {"-k", "-m", "-W"}
  const TB_STYLES := {"auto", "long", "short", "line", "native", "no"}

  predicate Letters(s: string) { s != "" && forall i :: 0 <= i < |s| ==> 'a' <= s[i] <= 'z' || 'A' <= s[i] <= 'Z' }

  predicate Numeral(s: string) { s != "" && forall i :: 0 <= i < |s| ==> '0' <= s[i] <= '9' }

  predicate AllowedPattern(s: string) {
    || ("-r" <= s && Letters(s[2..]))
    || ("--tb=" <= s && s[5..] in TB_STYLES)
    || ("--maxfail=" <= s && Numeral(s[10..]))
    || ("--durations=" <= s && Numeral(s[12..]))
  }

  // How much quieter an option makes the summary.
  function Quiet(s: string): int {
    if s == "-q" || s == "--quiet" then 1
    else if s == "-v" || s == "--verbose" then -1
    else if s == "-vv" then -2
    else 0
  }

  // `s.split("::", 1)[0]`.
  function File(s: string): string {
    if s == "" || "::" <= s then "" else [s[0]] + File(s[1..])
  }

  predicate Glob(s: string) { exists i :: 0 <= i < |s| && s[i] in {'*', '?', '[', ']'} }

  // A test file or a node id of one: no directory, glob or parent path.
  predicate Explicit(target: string) {
    var path := File(target);
    |path| >= 3 && path[|path| - 3..] == ".py" && !Glob(path) && ".." !in Split(path)
  }

  datatype Named = Named(targets: seq<string>, quiet: int)

  function AddQuiet(n: int, rest: Option<Named>): Option<Named> {
    if rest.None? then None else Some(rest.value.(quiet := n + rest.value.quiet))
  }

  function AddTarget(t: string, rest: Option<Named>): Option<Named> {
    if rest.None? then None else Some(rest.value.(targets := [t] + rest.value.targets))
  }

  function Names(args: seq<string>): Option<Named> {
    if args == [] then Some(Named([], 0))
    else if args[0] in PYTEST_FLAGS_WITH_VALUE then if |args| < 2 then None else Names(args[2..])
    else if Dashed(args[0]) then
      if args[0] !in PYTEST_FLAGS_ALLOWED && !AllowedPattern(args[0]) then None
      else AddQuiet(Quiet(args[0]), Names(args[1..]))
    else if !Explicit(args[0]) then None
    else AddTarget(args[0], Names(args[1..]))
  }

  function Targets(args: seq<string>): Option<seq<string>> {
    var named := Names(args);
    if named.None? || named.value.quiet >= 2 || named.value.targets == [] then None else Some(named.value.targets)
  }

  // Every positional argument is a target, and nothing else is.
  lemma {:induction false} NamedAreExplicit(args: seq<string>)
    requires Names(args).Some?
    ensures forall t :: t in Names(args).value.targets ==> t in args && Explicit(t) && !Dashed(t)
  {
    if args != [] {
      if args[0] in PYTEST_FLAGS_WITH_VALUE {
        NamedAreExplicit(args[2..]);
      } else {
        NamedAreExplicit(args[1..]);
      }
    }
  }

  // The grammar: a pytest command line is a row of items.
  datatype Item = WithValue(flag: string, value: string) | Option_(flag: string) | Target(name: string)

  predicate Allowed(i: Item) {
    match i
    case WithValue(f, _) => f in PYTEST_FLAGS_WITH_VALUE
    case Option_(f) => f !in PYTEST_FLAGS_WITH_VALUE && Dashed(f) && (f in PYTEST_FLAGS_ALLOWED || AllowedPattern(f))
    case Target(t) => !Dashed(t) && Explicit(t)
  }

  function Written(i: Item): seq<string> {
    match i
    case WithValue(f, v) => [f, v]
    case Option_(f) => [f]
    case Target(t) => [t]
  }

  function Render(items: seq<Item>): seq<string> { if items == [] then [] else Written(items[0]) + Render(items[1..]) }

  function TargetNames(items: seq<Item>): seq<string> {
    if items == [] then [] else (if items[0].Target? then [items[0].name] else []) + TargetNames(items[1..])
  }

  // Quiet options less verbose ones.
  function NetQuiet(items: seq<Item>): int {
    if items == [] then 0 else (if items[0].Option_? then Quiet(items[0].flag) else 0) + NetQuiet(items[1..])
  }

  ghost predicate Spells(items: seq<Item>, args: seq<string>) {
    Render(items) == args && forall i :: i in items ==> Allowed(i)
  }

  lemma FlagsWithValueAreDashed(f: string)
    requires f in PYTEST_FLAGS_WITH_VALUE
    ensures Dashed(f)
  {
  }

  // One item in front of what is read of the rest.
  function Read(i: Item, rest: Option<Named>): Option<Named> {
    match i
    case WithValue(_, _) => rest
    case Option_(f) => AddQuiet(Quiet(f), rest)
    case Target(t) => AddTarget(t, rest)
  }

  lemma NamesItem(i: Item, rest: seq<string>)
    requires Allowed(i)
    ensures Names(Written(i) + rest) == Read(i, Names(rest))
  {
    var args := Written(i) + rest;
    match i {
      case WithValue(f, v) => assert args[0] == f && args[2..] == rest;
      case Option_(f) => assert args[0] == f && args[1..] == rest;
      case Target(t) =>
        assert args[0] == t && args[1..] == rest;
        assert t !in PYTEST_FLAGS_WITH_VALUE by {
          if t in PYTEST_FLAGS_WITH_VALUE { FlagsWithValueAreDashed(t); }
        }
    }
  }

  lemma {:induction false} SpelledIsNamed(items: seq<Item>)
    requires forall i :: i in items ==> Allowed(i)
    ensures Names(Render(items)) == Some(Named(TargetNames(items), NetQuiet(items)))
  {
    hide Allowed, Quiet, Names;
    if items == [] {
      NothingNamed();
    } else {
      assert items[0] in items;
      SpelledIsNamed(items[1..]);
      NamesItem(items[0], Render(items[1..]));
      assert !items[0].Target? ==> TargetNames(items) == TargetNames(items[1..]);
    }
  }

  lemma {:induction false} NamedIsSpelled(args: seq<string>) returns (items: seq<Item>)
    requires Names(args).Some?
    ensures Spells(items, args)
  {
    if args == [] {
      items := [];
    } else if args[0] in PYTEST_FLAGS_WITH_VALUE {
      var rest := NamedIsSpelled(args[2..]);
      items := [WithValue(args[0], args[1])] + rest;
      assert items[1..] == rest && args == [args[0], args[1]] + args[2..];
    } else {
      var rest := NamedIsSpelled(args[1..]);
      items := [if Dashed(args[0]) then Option_(args[0]) else Target(args[0])] + rest;
      assert items[1..] == rest && args == [args[0]] + args[1..];
    }
  }

  // The targets are the grammar's, in order, and a command line is refused
  // exactly when it has no spelling, names no file or is too quiet.
  lemma TargetsIff(args: seq<string>, targets: seq<string>)
    ensures Targets(args) == Some(targets) <==>
              exists items :: Spells(items, args) && TargetNames(items) == targets && NetQuiet(items) < 2
                              && targets != []
  {
    if Targets(args) == Some(targets) {
      var items := NamedIsSpelled(args);
      SpelledIsNamed(items);
      assert Spells(items, args);
    }
    if items :| Spells(items, args) && TargetNames(items) == targets && NetQuiet(items) < 2 && targets != [] {
      SpelledIsNamed(items);
    }
  }

  // What was read so far in front of what is left.
  function Onto(targets: seq<string>, quiet: int, rest: Option<Named>): Option<Named> {
    if rest.None? then None else Some(Named(targets + rest.value.targets, quiet + rest.value.quiet))
  }

  lemma NothingInFront(inv: Option<Invocation>, rest: Option<Named>)
    ensures WithFlags([], inv) == inv && Onto([], 0, rest) == rest
  {
    assert inv.Some? ==> [] + inv.value.flags == inv.value.flags;
    assert rest.Some? ==> [] + rest.value.targets == rest.value.targets;
  }

  method PytestTargets(args: seq<string>) returns (targets: Option<seq<string>>)
    ensures targets == Targets(args)
  {
    hide Names, Quiet, Dashed, AllowedPattern, Explicit;
    var found: seq<string> := [];
    var quiet, i := 0, 0;
    NothingInFront(None, Names(args));
    assert args[0..] == args;
    while i < |args|
      invariant 0 <= i <= |args|
      invariant Names(args) == Onto(found, quiet, Names(args[i..]))
    {
      var part := args[i];
      NamesAt(args, i);
      if part in PYTEST_FLAGS_WITH_VALUE {
        if i + 1 >= |args| { return None; }
        i := i + 2;
      } else if Dashed(part) {
        if part !in PYTEST_FLAGS_ALLOWED && !AllowedPattern(part) { return None; }
        OntoQuiet(found, quiet, Quiet(part), Names(args[i + 1..]));
        quiet := quiet + Quiet(part);
        i := i + 1;
      } else {
        if !Explicit(part) { return None; }
        OntoTarget(found, part, quiet, Names(args[i + 1..]));
        found := found + [part];
        i := i + 1;
      }
    }
    assert args[i..] == [] && found + [] == found;
    NothingNamed();
    assert Names(args) == Some(Named(found, quiet));
    if quiet >= 2 || found == [] { return None; }
    return Some(found);
  }

  lemma NothingNamed()
    ensures Names([]) == Some(Named([], 0))
  {
  }

  // What is read from position `i` on.
  lemma NamesAt(args: seq<string>, i: nat)
    requires i < |args|
    ensures Names(args[i..]) ==
              if args[i] in PYTEST_FLAGS_WITH_VALUE then if i + 1 >= |args| then None else Names(args[i + 2..])
              else if Dashed(args[i]) then
                if args[i] !in PYTEST_FLAGS_ALLOWED && !AllowedPattern(args[i]) then None
                else AddQuiet(Quiet(args[i]), Names(args[i + 1..]))
              else if !Explicit(args[i]) then None
              else AddTarget(args[i], Names(args[i + 1..]))
  {
    assert args[i..][0] == args[i] && args[i..][1..] == args[i + 1..];
    assert i + 1 < |args| ==> args[i..][2..] == args[i + 2..];
  }

  lemma OntoQuiet(targets: seq<string>, quiet: int, n: int, rest: Option<Named>)
    ensures Onto(targets, quiet, AddQuiet(n, rest)) == Onto(targets, quiet + n, rest)
  {
  }

  lemma OntoTarget(targets: seq<string>, t: string, quiet: int, rest: Option<Named>)
    ensures Onto(targets, quiet, AddTarget(t, rest)) == Onto(targets + [t], quiet, rest)
  {
    if rest.Some? {
      assert targets + ([t] + rest.value.targets) == targets + [t] + rest.value.targets;
    }
  }

  // ---- Validation ----------------------------------------------------------

  // The arguments pytest gets, if this is a pytest check.
  function PytestArgs(argv: Argv): Option<seq<string>> {
    if argv == [] then None
    else if Basename(argv[0]) == "pytest" then Some(argv[1..])
    else if Basename(argv[0]) in PYTHONS then
      var inv := Parse(argv[1..], PYTHON_FLAGS);
      if inv.Some? && inv.value.mode == "-m" && inv.value.target == "pytest" then Some(inv.value.rest) else None
    else None
  }

  // `check_targets` raises for these.
  predicate TargetsRefused(argv: Argv) {
    argv != [] &&
    if PytestArgs(argv).Some? then Targets(PytestArgs(argv).value).None?
    else Basename(argv[0]) in PYTHONS &&
         var inv := Parse(argv[1..], PYTHON_FLAGS);
         inv.None? || (inv.value.mode == "path" && ".." in Split(inv.value.target))
  }

  predicate CleanPart(s: string) { |s| <= MAX_ARG_LEN && forall i :: 0 <= i < |s| ==> s[i] != '\0' }

  predicate Validated(argv: Argv) {
    && 0 < |argv| <= MAX_ARGS && (forall i :: 0 <= i < |argv| ==> CleanPart(argv[i]))
    && argv[0] in ALLOWED_EXECUTABLES
    && (argv[0] in PYTHONS ==> Parse(argv[1..], PYTHON_FLAGS).Some?)
    && !TargetsRefused(argv)
  }

  lemma BareNames(s: string)
    requires s in ALLOWED_EXECUTABLES
    ensures Basename(s) == s
  {
    assert s == "python" || s == "python3" || s == "pytest" || s == "ruff";
    assert forall i :: 0 <= i < |s| ==> s[i] != '/';
    NoSlashIsOnePart(s);
  }

  lemma {:induction false} NoSlashIsOnePart(s: string)
    requires forall i :: 0 <= i < |s| ==> s[i] != '/'
    ensures Split(s) == [s]
  {
    if s != [] {
      NoSlashIsOnePart(s[1..]);
      assert s == [s[0]] + s[1..];
    }
  }

  // Every accepted pytest check, in either spelling, names a test file, and
  // leaves the summary readable.
  lemma ValidatedPytestIsExplicit(argv: Argv)
    requires Validated(argv) && PytestArgs(argv).Some?
    ensures var args := PytestArgs(argv).value;
            && Names(args).Some? && Names(args).value.quiet < 2 && Names(args).value.targets != []
            && (forall t :: t in Names(args).value.targets ==> t in args && Explicit(t))
  {
    NamedAreExplicit(PytestArgs(argv).value);
  }

  // ---- Hardening -----------------------------------------------------------

  const PYTEST_FLAGS :=
    ["--noconftest", "-c", "/dev/null", "--rootdir", "/", "-p", "no:cacheprovider", "--import-mode=append"]
  const RUFF_FLAGS := ["--isolated", "--no-cache"]

  function HardenPython(executable: string, inv: Invocation, bootstrap: string): Argv {
    var tail := if inv.mode == "-m" && inv.target == "pytest" then PYTEST_FLAGS + inv.rest else inv.rest;
    [executable, "-I", "-B"] + inv.flags + ["-c", bootstrap, inv.mode, inv.target] + tail
  }

  // `pytestPython` is the interpreter of the resolved pytest, once it is known.
  function HardenArgv(argv: Argv, pytestPython: Option<string>, bootstrap: string): Option<Argv> {
    if argv == [] || TargetsRefused(argv) then None
    else
      var name := Basename(argv[0]);
      if name in PYTHONS then
        var inv := Parse(argv[1..], PYTHON_FLAGS);
        if inv.None? then None else Some(HardenPython(argv[0], inv.value, bootstrap))
      else if name == "pytest" then
        if pytestPython.Some? then
          Some([pytestPython.value, "-I", "-B", "-c", bootstrap, "-m", "pytest"] + PYTEST_FLAGS + argv[1..])
        else Some([argv[0]] + PYTEST_FLAGS + argv[1..])
      else if name == "ruff" then
        if |argv| > 1 && !Dashed(argv[1]) then Some([argv[0], argv[1]] + RUFF_FLAGS + argv[2..])
        else Some([argv[0]] + RUFF_FLAGS + argv[1..])
      else Some(argv)
  }

  datatype Split3 = Split3(mode: string, target: string, args: seq<string>)

  // What the interpreter makes of a hardened argv, and the bootstrap of that:
  // `-I` is a flag to the interpreter, and the code after `-c` reads
  // `sys.argv[1:]`.
  function Bootstrapped(argv: Argv): Option<(string, Split3)> {
    if argv == [] then None
    else
      var inv := Parse(argv[1..], PYTHON_FLAGS + {"-I"});
      if inv.None? || inv.value.mode != "-c" || |inv.value.rest| < 2 then None
      else Some((inv.value.target, Split3(inv.value.rest[0], inv.value.rest[1], inv.value.rest[2..])))
  }

  lemma {:induction false} MoreFlags(flags: seq<string>)
    requires IsFlags(flags, PYTHON_FLAGS)
    ensures IsFlags(flags, PYTHON_FLAGS + {"-I"})
  {
    if flags != [] {
      if flags[0] in PYTHON_FLAGS { MoreFlags(flags[1..]); } else { MoreFlags(flags[2..]); }
    }
  }

  lemma HardenedFlags(flags: seq<string>)
    requires IsFlags(flags, PYTHON_FLAGS)
    ensures IsFlags(["-I", "-B"] + flags, PYTHON_FLAGS + {"-I"})
  {
    MoreFlags(flags);
    var all := ["-I", "-B"] + flags;
    assert all[1..] == ["-B"] + flags;
    assert (["-B"] + flags)[1..] == flags;
  }

  lemma SplitsBack(argv: Argv, executable: string, flags: seq<string>, bootstrap: string, mode: string, target: string,
                   tail: seq<string>)
    requires IsFlags(flags, PYTHON_FLAGS) && bootstrap != ""
    requires argv == [executable, "-I", "-B"] + flags + ["-c", bootstrap, mode, target] + tail
    ensures Bootstrapped(argv) == Some((bootstrap, Split3(mode, target, tail)))
  {
    var inv := Invocation(["-I", "-B"] + flags, "-c", bootstrap, [mode, target] + tail);
    HardenedFlags(flags);
    PythonFlagsArePlain();
    assert argv[1..] == inv.flags + Call(inv);
    ParseIff(argv[1..], inv, PYTHON_FLAGS + {"-I"});
  }

  // The bootstrap runs the mode, target and arguments the check asked for, with
  // the fixed pytest options put in front of a pytest run's own and nothing
  // else changed.
  lemma HardenedPythonRunsTheCheck(argv: Argv, pytestPython: Option<string>, bootstrap: string)
    requires argv != [] && Basename(argv[0]) in PYTHONS && bootstrap != ""
    requires HardenArgv(argv, pytestPython, bootstrap).Some?
    ensures var inv := Parse(argv[1..], PYTHON_FLAGS);
            && inv.Some? && argv == [argv[0]] + inv.value.flags + Call(inv.value)
            && Bootstrapped(HardenArgv(argv, pytestPython, bootstrap).value)
               == Some((bootstrap, Split3(inv.value.mode, inv.value.target,
                                          (if PytestArgs(argv).Some? then PYTEST_FLAGS else []) + inv.value.rest)))
  {
    hide HardenArgv, HardenPython, PytestArgs, Basename, Bootstrapped, Parse, Call;
    HardenedIs(argv, pytestPython, bootstrap);
    var inv := Parse(argv[1..], PYTHON_FLAGS).value;
    PythonFlagsArePlain();
    ParseIsGrammar(argv[1..], PYTHON_FLAGS);
    assert argv == [argv[0]] + argv[1..];
    var tail := (if PytestArgs(argv).Some? then PYTEST_FLAGS else []) + inv.rest;
    var hardened := HardenArgv(argv, pytestPython, bootstrap).value;
    SplitsBack(hardened, argv[0], inv.flags, bootstrap, inv.mode, inv.target, tail);
  }

  lemma HardenedIs(argv: Argv, pytestPython: Option<string>, bootstrap: string)
    requires argv != [] && Basename(argv[0]) in PYTHONS && HardenArgv(argv, pytestPython, bootstrap).Some?
    ensures var inv := Parse(argv[1..], PYTHON_FLAGS);
            inv.Some? &&
            var tail := (if PytestArgs(argv).Some? then PYTEST_FLAGS else []) + inv.value.rest;
            HardenArgv(argv, pytestPython, bootstrap).value
            == [argv[0], "-I", "-B"] + inv.value.flags + ["-c", bootstrap, inv.value.mode, inv.value.target] + tail
  {
    hide Parse, TargetsRefused;
    var inv := Parse(argv[1..], PYTHON_FLAGS).value;
    assert [] + inv.rest == inv.rest;
  }

  // The same arguments spelled `python -m pytest`.
  function AsModule(argv: Argv, python: string): Argv
    requires argv != []
  {
    [python, "-m", "pytest"] + argv[1..]
  }

  lemma ModuleIsPytest(argv: Argv, python: string)
    requires argv != [] && Basename(python) in PYTHONS
    ensures var inv := Parse(AsModule(argv, python)[1..], PYTHON_FLAGS);
            inv == Some(Invocation([], "-m", "pytest", argv[1..]))
    ensures PytestArgs(AsModule(argv, python)) == Some(argv[1..])
  {
    var spelled := AsModule(argv, python);
    var inv := Invocation([], "-m", "pytest", argv[1..]);
    PythonFlagsArePlain();
    assert spelled[1..] == inv.flags + Call(inv);
    ParseIff(spelled[1..], inv, PYTHON_FLAGS);
  }

  lemma BareHardened(argv: Argv, interpreter: string, bootstrap: string)
    requires argv != [] && Basename(argv[0]) == "pytest" && bootstrap != ""
    requires HardenArgv(argv, Some(interpreter), bootstrap).Some?
    ensures Targets(argv[1..]).Some?
    ensures Bootstrapped(HardenArgv(argv, Some(interpreter), bootstrap).value)
         == Some((bootstrap, Split3("-m", "pytest", PYTEST_FLAGS + argv[1..])))
  {
    SplitsBack(HardenArgv(argv, Some(interpreter), bootstrap).value, interpreter, [], bootstrap, "-m", "pytest",
               PYTEST_FLAGS + argv[1..]);
  }

  // A bare pytest check, once its interpreter is known, runs exactly like
  // `python -m pytest` with the same arguments.
  lemma BarePytestRunsAsModule(argv: Argv, python: string, interpreter: string, bootstrap: string)
    requires argv != [] && Basename(argv[0]) == "pytest" && Basename(python) in PYTHONS && bootstrap != ""
    requires HardenArgv(argv, Some(interpreter), bootstrap).Some?
    ensures HardenArgv(AsModule(argv, python), None, bootstrap).Some?
    ensures Bootstrapped(HardenArgv(argv, Some(interpreter), bootstrap).value)
         == Bootstrapped(HardenArgv(AsModule(argv, python), None, bootstrap).value)
  {
    BareHardened(argv, interpreter, bootstrap);
    ModuleIsPytest(argv, python);
    HardenedPythonRunsTheCheck(AsModule(argv, python), None, bootstrap);
  }

  // Whatever was accepted when it was registered can be hardened when it runs.
  lemma ValidatedHardens(argv: Argv, pytestPython: Option<string>, bootstrap: string)
    requires Validated(argv)
    ensures HardenArgv(argv, pytestPython, bootstrap).Some?
  {
    BareNames(argv[0]);
  }
}
