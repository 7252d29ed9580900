/** The words of the check grammars, spelled out (sdf_core/checks.py): which pytest
    options there are, what they weigh, and which targets are explicit. */
module CheckWords {
  import opened Results
  import opened Identities
  import opened Paths
  import opened Checks

  const ALPHA := LETTERS + CAPITALS

  lemma MadeIs(s: string)
    ensures Letters(s) <==> s != "" && Made(s, ALPHA)
    ensures Numeral(s) <==> s != "" && Made(s, DIGITS)
  {
    hide LETTERS, CAPITALS, DIGITS;
    forall c: char
      ensures 'a' <= c <= 'z' || 'A' <= c <= 'Z' <==> c in ALPHA
      ensures '0' <= c <= '9' <==> c in DIGITS
    {
      LetterIs(c);
      CapitalIs(c);
      DigitIs(c);
    }
  }

  // An option of the form `-rCHARS`, `--tb=STYLE`, `--maxfail=N` or `--durations=N`.
  ghost predicate Patterned(s: string) {
    || (exists chars :: s == "-r" + chars && chars != "" && Made(chars, ALPHA))
    || s in {"--tb=auto", "--tb=long", "--tb=short", "--tb=line", "--tb=native", "--tb=no"}
    || (exists n :: s == "--maxfail=" + n && n != "" && Made(n, DIGITS))
    || (exists n :: s == "--durations=" + n && n != "" && Made(n, DIGITS))
  }

  lemma After(prefix: string, s: string)
    ensures prefix <= s ==> s == prefix + s[|prefix|..]
    ensures forall rest :: s == prefix + rest ==> prefix <= s && rest == s[|prefix|..]
  {
  }

  lemma StyleIs(s: string)
    ensures "--tb=" <= s && s[5..] in TB_STYLES <==>
              s in {"--tb=auto", "--tb=long", "--tb=short", "--tb=line", "--tb=native", "--tb=no"}
  {
    if "--tb=" <= s { assert s == "--tb=" + s[5..]; }
    assert "--tb=auto" == "--tb=" + "auto" && "--tb=long" == "--tb=" + "long" && "--tb=short" == "--tb=" + "short";
    assert "--tb=line" == "--tb=" + "line" && "--tb=native" == "--tb=" + "native" && "--tb=no" == "--tb=" + "no";
  }

  lemma PatternIs(s: string)
    ensures AllowedPattern(s) <==> Patterned(s)
  {
    hide Letters, Numeral, Made, TB_STYLES;
    StyleIs(s);
    After("-r", s);
    After("--maxfail=", s);
    After("--durations=", s);
    if |s| >= 2 { MadeIs(s[2..]); }
    if |s| >= 10 { MadeIs(s[10..]); }
    if |s| >= 12 { MadeIs(s[12..]); }
  }

  // The file a target names: what is in front of its first `::`.
  ghost predicate FileOf(target: string, path: string) {
    && (path == target || exists rest :: target == path + "::" + rest)
    && forall i :: 0 <= i < |path| ==> !("::" <= target[i..])
  }

  lemma {:induction false} FileIs(target: string)
    ensures FileOf(target, File(target))
  {
    if target == "" {
    } else if "::" <= target {
      assert target == "" + "::" + target[2..];
    } else {
      var more := target[1..];
      FileIs(more);
      assert target == [target[0]] + more;
      if rest :| more == File(more) + "::" + rest { assert target == File(target) + "::" + rest; }
      forall i | 0 <= i < |File(target)| ensures !("::" <= target[i..]) {
        if i > 0 { assert target[i..] == more[i - 1..]; }
      }
    }
  }

  lemma OneFile(target: string, a: string, b: string)
    requires FileOf(target, a) && FileOf(target, b)
    ensures a == b
  {
    assert a == target[..|a|] && b == target[..|b|];
    if |a| < |b| { FileStops(target, a, b); }
    if |b| < |a| { FileStops(target, b, a); }
  }

  lemma FileStops(target: string, a: string, b: string)
    requires (a == target || exists rest :: target == a + "::" + rest) && |a| < |b| <= |target|
    ensures "::" <= target[|a|..]
  {
    var rest :| target == a + "::" + rest;
    assert target[|a|..] == "::" + rest;
  }

  // A python file by name, without a wildcard and without a parent directory.
  lemma ExplicitIs(target: string)
    ensures Explicit(target) <==>
              exists path, stem :: FileOf(target, path) && path == stem + ".py"
                && (forall i :: 0 <= i < |path| ==> path[i] !in "*?[]") && ".." !in Split(path)
  {
    hide File, FileOf, Split;
    var path := File(target);
    FileIs(target);
    assert forall c :: c in "*?[]" <==> c in {'*', '?', '[', ']'};
    if Explicit(target) { assert path == path[..|path| - 3] + ".py"; }
    if other, stem :| FileOf(target, other) && other == stem + ".py"
                      && (forall i :: 0 <= i < |other| ==> other[i] !in "*?[]") && ".." !in Split(other)
    {
      OneFile(target, path, other);
      assert path[|path| - 3..] == ".py";
    }
  }

  // One item of a pytest command line, word for word.
  ghost predicate Worded(i: Item) {
    match i
    case WithValue(f, _) => f in {"-k", "-m", "-W"}
    case Option_(f) =>
      || f in {"-q", "--quiet", "-v", "--verbose", "-vv", "-x", "--exitfirst", "-s", "-l", "--showlocals",
               "--no-header", "--strict-markers", "--strict-config", "--disable-warnings", "--color=no", "--color=yes"}
      || Patterned(f)
    case Target(t) => (t == "" || t[0] != '-') && Explicit(t)
  }

  lemma ItemIs(i: Item)
    ensures Allowed(i) <==> Worded(i)
  {
    hide Explicit, AllowedPattern, Patterned;
    if i.Option_? {
      PatternIs(i.flag);
      PatternIsDashed(i.flag);
    }
  }

  lemma PatternIsDashed(s: string)
    ensures Patterned(s) ==> Dashed(s) && s !in {"-k", "-m", "-W"}
  {
    if Patterned(s) {
      PatternIs(s);
      assert s[0] == '-';
    }
  }

  lemma QuietIs(s: string)
    ensures Quiet(s) == (if s in {"-q", "--quiet"} then 1 else 0) - (if s in {"-v", "--verbose"} then 1 else 0)
                        - (if s == "-vv" then 2 else 0)
  {
  }

  // ---- Whole checks --------------------------------------------------------

  // A pytest command line: items that name a file and leave the summary readable.
  ghost predicate PytestLine(args: seq<string>) {
    exists items :: Render(items) == args && (forall i :: i in items ==> Worded(i)) && TargetNames(items) != []
                    && NetQuiet(items) < 2
  }

  lemma PytestLineIs(args: seq<string>)
    ensures Targets(args).Some? <==> PytestLine(args)
  {
    hide Worded, Allowed;
    forall i: Item ensures Allowed(i) <==> Worded(i) { ItemIs(i); }
    if Targets(args).Some? {
      TargetsIff(args, Targets(args).value);
      var items :| Spells(items, args) && TargetNames(items) == Targets(args).value && NetQuiet(items) < 2
                   && TargetNames(items) != [];
      assert forall i :: i in items ==> Worded(i);
    }
    if items :| Render(items) == args && (forall i :: i in items ==> Worded(i)) && TargetNames(items) != []
                && NetQuiet(items) < 2
    {
      TargetsIff(args, TargetNames(items));
      assert Spells(items, args);
    }
  }

  ghost predicate FlagWords(s: seq<string>) {
    || s == []
    || (s[0] in {"-B", "-u", "-O", "-OO", "-b", "-bb", "-q"} && FlagWords(s[1..]))
    || (s[0] == "-W" && |s| > 1 && FlagWords(s[2..]))
  }

  lemma {:induction false} FlagsAre(s: seq<string>)
    ensures IsFlags(s, PYTHON_FLAGS) <==> FlagWords(s)
    decreases |s|
  {
    if s != [] {
      PythonFlagsArePlain();
      FlagsAre(s[1..]);
      if |s| > 1 { FlagsAre(s[2..]); }
    }
  }

  // A python command line: flags, and a command, a module or a script. `pytest` as
  // a module gets a pytest command line; a script is in no parent directory.
  ghost predicate PythonLine(args: seq<string>, inv: Invocation) {
    && FlagWords(inv.flags)
    && match inv.mode
       case "-c" => inv.target != "" && args == inv.flags + ["-c", inv.target] + inv.rest
       case "-m" =>
         && inv.target != "" && args == inv.flags + ["-m", inv.target] + inv.rest
         && (inv.target == "pytest" ==> PytestLine(inv.rest))
       case "path" =>
         && (inv.target == "" || inv.target[0] != '-') && args == inv.flags + [inv.target] + inv.rest
         && ".." !in Split(inv.target)
       case _ => false
  }

  // The checks that are accepted.
  ghost predicate Acceptable(argv: Argv) {
    && 1 <= |argv| <= 64 && (forall i :: 0 <= i < |argv| ==> |argv[i]| <= 4096 && '\0' !in argv[i])
    && (|| argv[0] == "ruff"
        || (argv[0] == "pytest" && PytestLine(argv[1..]))
        || (argv[0] in {"python", "python3"} && exists inv :: PythonLine(argv[1..], inv)))
  }

  lemma PythonLineIs(argv: Argv)
    requires argv != [] && argv[0] in {"python", "python3"}
    ensures Parse(argv[1..], PYTHON_FLAGS).Some? && !TargetsRefused(argv) <==>
              exists inv :: PythonLine(argv[1..], inv)
  {
    hide Parse, Targets, PytestLine, Split, IsFlags, FlagWords;
    PythonFlagsArePlain();
    BareNames(argv[0]);
    if Parse(argv[1..], PYTHON_FLAGS).Some? {
      var inv := Parse(argv[1..], PYTHON_FLAGS).value;
      ParseIff(argv[1..], inv, PYTHON_FLAGS);
      FlagsAre(inv.flags);
      PytestLineIs(inv.rest);
      Regrouped(inv);
      if !TargetsRefused(argv) { assert PythonLine(argv[1..], inv); }
    }
    if inv :| PythonLine(argv[1..], inv) {
      FlagsAre(inv.flags);
      PytestLineIs(inv.rest);
      Regrouped(inv);
      ParseIff(argv[1..], inv, PYTHON_FLAGS);
    }
  }

  lemma Regrouped(inv: Invocation)
    ensures inv.flags + ([inv.mode, inv.target] + inv.rest) == inv.flags + [inv.mode, inv.target] + inv.rest
    ensures inv.flags + ([inv.target] + inv.rest) == inv.flags + [inv.target] + inv.rest
  {
  }

  lemma CleanIs(s: string)
    ensures CleanPart(s) <==> |s| <= 4096 && '\0' !in s
  {
  }

  // A check is accepted exactly if it is one of these.
  lemma ValidatedIs(argv: Argv)
    ensures Validated(argv) <==> Acceptable(argv)
  {
    hide TargetsRefused, PytestLine, PythonLine, Parse;
    if argv != [] {
      forall i | 0 <= i < |argv| ensures CleanPart(argv[i]) <==> |argv[i]| <= 4096 && '\0' !in argv[i] {
        CleanIs(argv[i]);
      }
      if argv[0] in {"python", "python3"} {
        PythonLineIs(argv);
      } else if argv[0] in ALLOWED_EXECUTABLES {
        OthersRefused(argv);
      }
    }
  }

  lemma OthersRefused(argv: Argv)
    requires argv != [] && argv[0] in {"pytest", "ruff"}
    ensures TargetsRefused(argv) <==> argv[0] == "pytest" && !PytestLine(argv[1..])
  {
    hide Targets, PytestLine, Split;
    BareNames(argv[0]);
    PytestLineIs(argv[1..]);
  }

  // How the other two run: isolated, and pytest without configuration or plugins
  // of the workspace.
  lemma OthersHardened(argv: Argv, bootstrap: string)
    requires Acceptable(argv) && argv[0] in {"pytest", "ruff"}
    ensures HardenArgv(argv, None, bootstrap) == Some(
              if argv[0] == "pytest" then
                ["pytest", "--noconftest", "-c", "/dev/null", "--rootdir", "/", "-p", "no:cacheprovider",
                 "--import-mode=append"] + argv[1..]
              else if |argv| > 1 && (argv[1] == "" || argv[1][0] != '-') then
                ["ruff", argv[1], "--isolated", "--no-cache"] + argv[2..]
              else ["ruff", "--isolated", "--no-cache"] + argv[1..])
  {
    hide TargetsRefused, PytestLine, Split;
    OthersAccepted(argv);
    BareNames(argv[0]);
    assert argv[0] != "python" && argv[0] != "python3";
    assert ["pytest"] + PYTEST_FLAGS
        == ["pytest", "--noconftest", "-c", "/dev/null", "--rootdir", "/", "-p", "no:cacheprovider",
            "--import-mode=append"];
    assert ["ruff"] + RUFF_FLAGS == ["ruff", "--isolated", "--no-cache"];
    if |argv| > 1 { assert ["ruff", argv[1]] + RUFF_FLAGS == ["ruff", argv[1], "--isolated", "--no-cache"]; }
  }

  // What is neither python, pytest nor ruff is left as it is.
  lemma StrangersStay(argv: Argv, pytestPython: Option<string>, bootstrap: string)
    requires argv != [] && Basename(argv[0]) !in {"python", "python3", "pytest", "ruff"}
    ensures HardenArgv(argv, pytestPython, bootstrap) == Some(argv)
  {
    hide Basename, Parse, Targets;
  }

  lemma OthersAccepted(argv: Argv)
    requires Acceptable(argv) && argv[0] in {"pytest", "ruff"}
    ensures !TargetsRefused(argv)
  {
    hide PytestLine;
    ValidatedIs(argv);
  }
}
