/** The dispatch key of a run request: the caller's own, or one derived from
    what identifies the execution (sdf_core/dispatch_key.py, sdf_core/api.py). */
module DispatchKey {
  import opened Results

  datatype RunRequest = RunRequest(
    fixtureDir: string, instructions: string, checks: Option<map<string, seq<string>>>,
    targetKind: Option<string>, targetId: Option<string>, parent: Option<string>, tier: Option<string>)

  // The canonical payload.
  datatype Execution = Execution(
    task: string, fixtureDir: string, instructions: string, checks: Option<map<string, seq<string>>>,
    targetKind: Option<string>, targetId: Option<string>, parent: Option<string>, tier: Option<string>)

  predicate Given(s: Option<string>) { s.Some? && s.value != "" }

  function Canonical(task: string, r: RunRequest): Execution {
    var tier := if r.parent.None? && r.tier.None? then Some("basic") else r.tier;
    var (kind, target) := if Given(r.targetKind) && Given(r.targetId) then (r.targetKind, r.targetId) else (None, None);
    Execution(task, r.fixtureDir, r.instructions, r.checks, kind, target, r.parent, tier)
  }

  const PREFIX := "keyless-"

  // Canonical JSON and SHA-256, taken to be injective.
  ghost predicate Injective(digest: Execution -> string) { forall a, b :: digest(a) == digest(b) ==> a == b }

  function Derived(digest: Execution -> string, task: string, r: RunRequest): string {
    PREFIX + digest(Canonical(task, r))
  }

  predicate AllowedExplicit(key: string) { 1 <= |key| <= 200 && !(PREFIX <= key) }

  function KeyOf(digest: Execution -> string, task: string, explicit: Option<string>, r: RunRequest): string {
    if Given(explicit) then explicit.value else Derived(digest, task, r)
  }

  // A half-given target is no target.
  predicate NoTarget(r: RunRequest) {
    r.targetKind == None || r.targetKind == Some("") || r.targetId == None || r.targetId == Some("")
  }

  predicate SameTarget(a: RunRequest, b: RunRequest) {
    || (a.targetKind == b.targetKind && a.targetId == b.targetId)
    || (NoTarget(a) && NoTarget(b))
  }

  // Leaving the tier out means `basic` on a first Attempt, and on a retry
  // something no explicit tier says.
  predicate SameTier(a: RunRequest, b: RunRequest) {
    || a.tier == b.tier
    || (a.parent.None? && b.parent.None? && {a.tier, b.tier} == {None, Some("basic")})
  }

  // Two keyless requests replay one another exactly when they ask for the same
  // execution of the same Task.
  lemma DerivedKeyIff(digest: Execution -> string, t: string, a: RunRequest, u: string, b: RunRequest)
    requires Injective(digest)
    ensures Derived(digest, t, a) == Derived(digest, u, b) <==>
              && t == u && a.fixtureDir == b.fixtureDir && a.instructions == b.instructions && a.checks == b.checks
              && a.parent == b.parent && SameTarget(a, b) && SameTier(a, b)
  {
    var x, y := Derived(digest, t, a), Derived(digest, u, b);
    assert x == y ==> digest(Canonical(t, a)) == digest(Canonical(u, b)) by {
      assert x[|PREFIX|..] == digest(Canonical(t, a)) && y[|PREFIX|..] == digest(Canonical(u, b));
    }
    if a.tier != b.tier && SameTier(a, b) {
      assert a.tier in {a.tier, b.tier} && b.tier in {a.tier, b.tier};
    }
  }

  // The caller's key is used as it is if there is one; an empty one is none.
  lemma KeyIs(digest: Execution -> string, task: string, explicit: Option<string>, r: RunRequest)
    ensures KeyOf(digest, task, explicit, r) == match explicit
                                                case None => Derived(digest, task, r)
                                                case Some(key) => if key == "" then Derived(digest, task, r) else key
    ensures Derived(digest, task, r) == "keyless-" + digest(Canonical(task, r))
  {
  }

  // The keys a caller may name are those of at most 200 characters that no
  // digest could derive.
  lemma AllowedIff(key: string)
    ensures AllowedExplicit(key) <==>
              0 < |key| <= 200 && forall digest: Execution -> string, task, r :: key != Derived(digest, task, r)
  {
    if PREFIX <= key {
      var rest := key[|PREFIX|..];
      var digest: Execution -> string := (e: Execution) => rest;
      var r := RunRequest("", "", None, None, None, None, None);
      assert key == PREFIX + rest == Derived(digest, "", r);
    } else {
      forall digest: Execution -> string, task, r ensures key != Derived(digest, task, r) {
        assert PREFIX <= PREFIX + digest(Canonical(task, r));
      }
    }
  }

  // A caller cannot name a derived key.
  lemma ExplicitNeverDerived(digest: Execution -> string, key: string, task: string, r: RunRequest)
    requires AllowedExplicit(key)
    ensures key != Derived(digest, task, r)
  {
  }
}
