/** A worker's tree applied to the fixture within the subtask's paths
    (sdf_core/coordinator.py). A tree maps relative paths to contents; symbolic
    links and clashes between a file and a directory are not in it. */
module ScopedApply {
  import opened Results
  import opened Orders
  import opened Paths

  type Path = string

  type Tree = map<Path, string>

  const HELD_OUT_DIR := ".sdf-held-out"

  function At(t: Tree, rel: Path): Option<string> { if rel in t then Some(t[rel]) else None }

  // ---- Path prefixes -------------------------------------------------------

  function RStrip(p: string): string { if p != [] && p[|p| - 1] == '/' then RStrip(p[..|p| - 1]) else p }

  predicate Under(rel: Path, p: string) { rel == RStrip(p) || RStrip(p) + "/" <= rel }

  predicate Within(rel: Path, prefixes: seq<string>) { exists i :: 0 <= i < |prefixes| && Under(rel, prefixes[i]) }

  // The string test is a test on whole path components: `src` covers `src/a`
  // and not `src2/a`.
  lemma WithinIsComponents(rel: Path, prefixes: seq<string>)
    ensures Within(rel, prefixes) <==> exists i :: 0 <= i < |prefixes| && Split(RStrip(prefixes[i])) <= Split(rel)
  {
    forall i | 0 <= i < |prefixes| ensures Under(rel, prefixes[i]) <==> Split(RStrip(prefixes[i])) <= Split(rel) {
      UnderIsComponents(rel, RStrip(prefixes[i]));
    }
  }

  lemma UnderIsComponents(rel: Path, q: string)
    ensures rel == q || q + "/" <= rel <==> Split(q) <= Split(rel)
  {
    if q + "/" <= rel {
      UnderIsPrefix(rel, q);
    } else if Split(q) <= Split(rel) {
      PrefixIsUnder(rel, q);
    }
  }

  lemma UnderIsPrefix(rel: Path, q: string)
    requires q + "/" <= rel
    ensures Split(q) <= Split(rel)
  {
    var tail := rel[|q| + 1..];
    assert rel == q + "/" + tail;
    SplitConcat(q, tail);
  }

  lemma PrefixIsUnder(rel: Path, q: string)
    requires Split(q) <= Split(rel)
    ensures rel == q || q + "/" <= rel
  {
    var rest := Split(rel)[|Split(q)|..];
    JoinSplit(q);
    JoinSplit(rel);
    assert Split(rel) == Split(q) + rest;
    if rest == [] {
      assert Split(q) + rest == Split(q);
    } else {
      JoinConcat(Split(q), rest);
      assert q + "/" <= q + "/" + Join(rest);
    }
  }

  // ---- What is taken -------------------------------------------------------

  predicate HeldOut(rel: Path) { HELD_OUT_DIR in Split(rel) }

  predicate Bytecode(rel: Path) {
    "__pycache__" in Split(rel) || (|rel| >= 4 && rel[|rel| - 4..] == ".pyc")
  }

  // No allowed paths means all of them.
  predicate InScope(rel: Path, allowed: seq<string>, guarded: seq<string>) {
    !Within(rel, guarded) && (allowed == [] || Within(rel, allowed))
  }

  // The fixture as the agent got it.
  function Base(fixture: Tree): Tree { map rel | rel in fixture && !HeldOut(rel) :: fixture[rel] }

  // ---- The same rules, component by component ------------------------------

  ghost predicate Slashes(s: string) { forall i :: 0 <= i < |s| ==> s[i] == '/' }

  // `q` is `p` without its trailing slashes.
  ghost predicate Trimmed(p: string, q: string) {
    (exists slashes :: p == q + slashes && Slashes(slashes)) && (q != [] ==> q[|q| - 1] != '/')
  }

  lemma {:induction false} RStripIs(p: string) returns (slashes: string)
    ensures p == RStrip(p) + slashes && Slashes(slashes)
    ensures RStrip(p) != [] ==> RStrip(p)[|RStrip(p)| - 1] != '/'
  {
    slashes := "";
    if p != [] && p[|p| - 1] == '/' {
      var more := RStripIs(p[..|p| - 1]);
      slashes := more + "/";
      assert p == p[..|p| - 1] + "/";
    }
  }

  lemma LongerEndsInSlash(p: string, q: string, slashes: string, longer: string)
    requires p == q + slashes && Slashes(slashes) && longer <= p && |q| < |longer|
    ensures longer[|longer| - 1] == '/'
  {
    assert longer[|longer| - 1] == p[|longer| - 1] == slashes[|longer| - 1 - |q|];
  }

  lemma TrimmedIs(p: string, q: string)
    ensures Trimmed(p, q) <==> q == RStrip(p)
  {
    var slashes := RStripIs(p);
    if Trimmed(p, q) {
      var others :| p == q + others && Slashes(others);
      if |q| < |RStrip(p)| { LongerEndsInSlash(p, q, others, RStrip(p)); }
      if |q| > |RStrip(p)| { LongerEndsInSlash(p, RStrip(p), slashes, q); }
      assert q == p[..|q|] && RStrip(p) == p[..|RStrip(p)|];
    }
  }

  // `rel` is one of these paths or inside one of them.
  ghost predicate Inside(rel: Path, paths: seq<string>) {
    exists p, q :: p in paths && Trimmed(p, q) && Split(q) <= Split(rel)
  }

  lemma InsideIs(rel: Path, paths: seq<string>)
    ensures Within(rel, paths) <==> Inside(rel, paths)
  {
    hide Split;
    WithinIsComponents(rel, paths);
    if i :| 0 <= i < |paths| && Split(RStrip(paths[i])) <= Split(rel) {
      TrimmedIs(paths[i], RStrip(paths[i]));
      assert Inside(rel, paths);
    }
    if p, q :| p in paths && Trimmed(p, q) && Split(q) <= Split(rel) {
      TrimmedIs(p, q);
      var i :| 0 <= i < |paths| && paths[i] == p;
      assert Split(RStrip(paths[i])) <= Split(rel);
    }
  }

  // In scope is what no protected path covers and, if paths are allowed at all,
  // one of those does. Bytecode is a cache directory's or ends in `.pyc`. Of the
  // fixture, everything is there that no component names the held-out tree of.
  lemma RulesAre(rel: Path, allowed: seq<string>, guarded: seq<string>, fixture: Tree)
    ensures InScope(rel, allowed, guarded) <==> !Inside(rel, guarded) && (allowed != [] ==> Inside(rel, allowed))
    ensures Bytecode(rel) <==> "__pycache__" in Split(rel) || exists name :: rel == name + ".pyc"
    ensures At(Base(fixture), rel) == if ".sdf-held-out" in Split(rel) then None else At(fixture, rel)
  {
    hide Split, Within, Inside;
    InsideIs(rel, allowed);
    InsideIs(rel, guarded);
    if |rel| >= 4 && rel[|rel| - 4..] == ".pyc" { assert rel == rel[..|rel| - 4] + ".pyc"; }
    if name :| rel == name + ".pyc" { assert rel[|rel| - 4..] == ".pyc"; }
  }

  predicate Differs(fixture: Tree, collected: Tree, rel: Path) { At(Base(fixture), rel) != At(collected, rel) }

  ghost predicate Ascending(s: seq<Path>) { forall i, j :: 0 <= i < j < |s| ==> TextLe(s[i], s[j]) && s[i] != s[j] }

  // ---- The merge -----------------------------------------------------------

  // `sorted(...)` of a set of paths.
  method SortedPaths(paths: set<Path>) returns (sorted: seq<Path>)
    ensures Ascending(sorted)
    ensures forall p :: p in sorted <==> p in paths
  {
    var rest, listed: seq<Path> := paths, [];
    while rest != {}
      invariant rest <= paths
      invariant multiset(listed) == multiset(paths - rest)
      decreases rest
    {
      var p :| p in rest;
      assert paths - (rest - {p}) == (paths - rest) + {p};
      rest := rest - {p};
      listed := listed + [p];
    }
    assert paths - rest == paths;
    sorted := Sort(listed, TextLe);
    SortPermutes(listed, TextLe);
    SetSorts(paths, listed);
    forall p ensures p in sorted <==> p in paths {
      assert p in sorted <==> p in multiset(sorted);
    }
  }

  lemma SetSorts(paths: set<Path>, listed: seq<Path>)
    requires multiset(listed) == multiset(paths)
    ensures Ascending(Sort(listed, TextLe))
  {
    var sorted := Sort(listed, TextLe);
    TextLeIsTotalOrder();
    SortPermutes(listed, TextLe);
    SortSorts(listed, TextLe);
    forall i, j | 0 <= i < j < |sorted| ensures sorted[i] != sorted[j] {
      TwiceCounts(sorted, i, j);
    }
  }

  lemma TwiceCounts(s: seq<Path>, i: nat, j: nat)
    requires i < j < |s|
    ensures s[i] == s[j] ==> multiset(s)[s[i]] >= 2
  {
    assert s == s[..j] + s[j..];
    assert s[..j][i] == s[i] && s[j..][0] == s[j];
    assert multiset(s) == multiset(s[..j]) + multiset(s[j..]);
    assert s[i] in s[..j] && s[j] in s[j..];
    assert multiset(s[..j])[s[i]] >= 1 && multiset(s[j..])[s[j]] >= 1;
  }

  // The workspace once the paths in `done` are dealt with.
  ghost predicate Merged(workspace: Tree, base: Tree, collected: Tree, done: seq<Path>, allowed: seq<string>,
                         guarded: seq<string>)
  {
    forall rel :: At(workspace, rel) ==
      if rel in done && InScope(rel, allowed, guarded) && !Bytecode(rel) then At(collected, rel) else At(base, rel)
  }

  predicate Touched(rel: Path, inScope: bool, base: Tree, collected: Tree, allowed: seq<string>, guarded: seq<string>) {
    At(base, rel) != At(collected, rel) && !Bytecode(rel) && InScope(rel, allowed, guarded) == inScope
  }

  // The differing paths in `done`, those in scope or those out of it.
  ghost predicate Noted(list: seq<Path>, inScope: bool, base: Tree, collected: Tree, done: seq<Path>,
                        allowed: seq<string>, guarded: seq<string>)
  {
    && Ascending(list)
    && forall rel :: rel in list <==> rel in done && Touched(rel, inScope, base, collected, allowed, guarded)
  }

  lemma NotedNext(list: seq<Path>, list': seq<Path>, inScope: bool, base: Tree, collected: Tree, done: seq<Path>,
                  rel: Path, allowed: seq<string>, guarded: seq<string>)
    requires Noted(list, inScope, base, collected, done, allowed, guarded)
    requires forall p :: p in done ==> TextLe(p, rel) && p != rel
    requires list' == list + if Touched(rel, inScope, base, collected, allowed, guarded) then [rel] else []
    ensures Noted(list', inScope, base, collected, done + [rel], allowed, guarded)
  {
    assert forall i :: 0 <= i < |list| ==> list[i] in list;
  }

  lemma MergedNext(workspace: Tree, workspace': Tree, base: Tree, collected: Tree, done: seq<Path>, rel: Path,
                   allowed: seq<string>, guarded: seq<string>)
    requires Merged(workspace, base, collected, done, allowed, guarded)
    requires workspace' == if !Touched(rel, true, base, collected, allowed, guarded) then workspace
                           else if rel in collected then workspace[rel := collected[rel]] else workspace - {rel}
    ensures Merged(workspace', base, collected, done + [rel], allowed, guarded)
  {
    forall p ensures At(workspace', p) ==
      if p in done + [rel] && InScope(p, allowed, guarded) && !Bytecode(p) then At(collected, p) else At(base, p)
    {
      assert p != rel ==> At(workspace', p) == At(workspace, p);
    }
  }

  // The three loop facts for one more path.
  ghost predicate Done(workspace: Tree, changed: seq<Path>, ignored: seq<Path>, base: Tree, collected: Tree,
                       done: seq<Path>, allowed: seq<string>, guarded: seq<string>)
  {
    && Merged(workspace, base, collected, done, allowed, guarded)
    && Noted(changed, true, base, collected, done, allowed, guarded)
    && Noted(ignored, false, base, collected, done, allowed, guarded)
  }

  lemma DoneNext(workspace: Tree, workspace': Tree, changed: seq<Path>, changed': seq<Path>, ignored: seq<Path>,
                 ignored': seq<Path>, base: Tree, collected: Tree, paths: seq<Path>, k: nat, allowed: seq<string>,
                 guarded: seq<string>)
    requires Ascending(paths) && k < |paths|
    requires Done(workspace, changed, ignored, base, collected, paths[..k], allowed, guarded)
    requires var rel := paths[k];
             var skip, scope := At(base, rel) == At(collected, rel) || Bytecode(rel), InScope(rel, allowed, guarded);
             && workspace' == (if skip || !scope then workspace
                               else if rel in collected then workspace[rel := collected[rel]] else workspace - {rel})
             && changed' == changed + (if !skip && scope then [rel] else [])
             && ignored' == ignored + (if !skip && !scope then [rel] else [])
    ensures Done(workspace', changed', ignored', base, collected, paths[..k + 1], allowed, guarded)
  {
    var rel := paths[k];
    forall p | p in paths[..k] ensures TextLe(p, rel) && p != rel {
      var i :| 0 <= i < k && paths[i] == p;
    }
    MergedNext(workspace, workspace', base, collected, paths[..k], rel, allowed, guarded);
    NotedNext(changed, changed', true, base, collected, paths[..k], rel, allowed, guarded);
    NotedNext(ignored, ignored', false, base, collected, paths[..k], rel, allowed, guarded);
    assert paths[..k + 1] == paths[..k] + [rel];
  }

  method ApplyScoped(fixture: Tree, collected: Tree, allowed: seq<string>, guarded: seq<string>)
    returns (workspace: Tree, changed: seq<Path>, ignored: seq<Path>)
    // Every path holds what it should, and no path is forgotten.
    ensures forall rel :: At(workspace, rel) ==
              if InScope(rel, allowed, guarded) && !Bytecode(rel) then At(collected, rel) else At(Base(fixture), rel)
    ensures Ascending(changed) && Ascending(ignored)
    ensures forall rel :: rel in changed <==>
              Differs(fixture, collected, rel) && !Bytecode(rel) && InScope(rel, allowed, guarded)
    ensures forall rel :: rel in ignored <==>
              Differs(fixture, collected, rel) && !Bytecode(rel) && !InScope(rel, allowed, guarded)
  {
    hide Bytecode, Within;
    var base := Base(fixture);
    workspace, changed, ignored := base, [], [];
    var paths := SortedPaths(base.Keys + collected.Keys);
    for k := 0 to |paths|
      invariant Done(workspace, changed, ignored, base, collected, paths[..k], allowed, guarded)
    {
      var rel := paths[k];
      var before, after := At(base, rel), At(collected, rel);
      ghost var ws, ch, ig := workspace, changed, ignored;
      if before == after {
      } else if Bytecode(rel) {
      } else if Within(rel, guarded) || (allowed != [] && !Within(rel, allowed)) {
        ignored := ignored + [rel];
      } else {
        workspace := if after.None? then workspace - {rel} else workspace[rel := after.value];
        changed := changed + [rel];
      }
      DoneNext(ws, workspace, ch, changed, ig, ignored, base, collected, paths, k, allowed, guarded);
    }
    assert paths[..|paths|] == paths;
    AllPathsMerged(workspace, changed, ignored, fixture, collected, paths, allowed, guarded);
  }

  // A path in neither tree has nothing to take.
  lemma AllPathsMerged(workspace: Tree, changed: seq<Path>, ignored: seq<Path>, fixture: Tree, collected: Tree,
                       paths: seq<Path>, allowed: seq<string>, guarded: seq<string>)
    requires forall p :: p in paths <==> p in Base(fixture) || p in collected
    requires Merged(workspace, Base(fixture), collected, paths, allowed, guarded)
    requires Noted(changed, true, Base(fixture), collected, paths, allowed, guarded)
    requires Noted(ignored, false, Base(fixture), collected, paths, allowed, guarded)
    ensures forall rel :: At(workspace, rel) ==
              if InScope(rel, allowed, guarded) && !Bytecode(rel) then At(collected, rel) else At(Base(fixture), rel)
    ensures forall rel :: rel in changed <==>
              Differs(fixture, collected, rel) && !Bytecode(rel) && InScope(rel, allowed, guarded)
    ensures forall rel :: rel in ignored <==>
              Differs(fixture, collected, rel) && !Bytecode(rel) && !InScope(rel, allowed, guarded)
  {
    forall rel | rel !in paths ensures At(Base(fixture), rel) == At(collected, rel) == None {
      assert rel !in Base(fixture) && rel !in collected;
    }
  }

  // ---- What it means for a review ------------------------------------------

  // Putting the result through again changes nothing: what was taken is in it,
  // what was ignored is not.
  lemma ApplyingAgainIsStable(fixture: Tree, collected: Tree, workspace: Tree, again: Tree, allowed: seq<string>,
                              guarded: seq<string>)
    requires forall rel :: At(workspace, rel) ==
               if InScope(rel, allowed, guarded) && !Bytecode(rel) then At(collected, rel) else At(Base(fixture), rel)
    requires forall rel :: At(again, rel) ==
               if InScope(rel, allowed, guarded) && !Bytecode(rel) then At(workspace, rel) else At(Base(fixture), rel)
    ensures again == workspace
    ensures forall rel :: Differs(fixture, workspace, rel) ==> InScope(rel, allowed, guarded) && !Bytecode(rel)
  {
    forall rel ensures rel in again <==> rel in workspace {
      assert At(again, rel) == At(workspace, rel);
    }
    forall rel | rel in again ensures again[rel] == workspace[rel] {
      assert At(again, rel) == At(workspace, rel);
    }
  }
}
