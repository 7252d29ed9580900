/** Who may sign a decision: the actor grammar, the reserved host and agent
    names, and the fold that compares two actors (sdf_core/plans.py). */
module Identities {
  import opened Results
  import Unicode

  predicate Digit(c: char) { '0' <= c <= '9' }

  predicate ActorChar(c: char) {
    'a' <= c <= 'z' || 'A' <= c <= 'Z' || Digit(c) || c in {'.', '_', '@', ':', '+', '-'}
  }

  predicate IsActor(s: string) { 1 <= |s| <= 120 && forall i :: 0 <= i < |s| ==> ActorChar(s[i]) }

  function FoldChar(c: char): char { if 'A' <= c <= 'Z' then ((c as int) + 32) as char else c }

  // `casefold` on an actor, whose alphabet is ASCII.
  function Fold(s: string): (folded: string)
    ensures |folded| == |s| && forall i :: 0 <= i < |s| ==> folded[i] == FoldChar(s[i])
  {
    seq(|s|, i requires 0 <= i < |s| => FoldChar(s[i]))
  }

  predicate AllDigits(s: string) { s != [] && forall i :: 0 <= i < |s| ==> Digit(s[i]) }

  // `role` or `role-N`.
  predicate Numbered(s: string, role: string) {
    s == role || (role + "-" <= s && AllDigits(s[|role| + 1..]))
  }

  predicate Reserved(s: string) {
    var f := Fold(s);
    || f == "sdf" || f == "host" || f == "manager"
    || Numbered(f, "lead") || Numbered(f, "worker") || Numbered(f, "workers")
    || "agent:" <= f || "policy:" <= f
  }

  function StripLeft(s: string): string {
    if s != [] && Unicode.IsSpace(s[0] as int) then StripLeft(s[1..]) else s
  }

  function StripRight(s: string): string {
    if s != [] && Unicode.IsSpace(s[|s| - 1] as int) then StripRight(s[..|s| - 1]) else s
  }

  predicate IsHuman(s: string) { IsActor(s) && !Reserved(s) }

  function ValidateHuman(actor: string): (human: Option<string>)
    ensures human.Some? ==> IsHuman(human.value)
  {
    var s := StripRight(StripLeft(actor));
    if IsHuman(s) then Some(s) else None
  }

  // ---- The same rules, in the words of the grammar -------------------------

  const LETTERS := "abcdefghijklmnopqrstuvwxyz"
  const CAPITALS := "ABCDEFGHIJKLMNOPQRSTUVWXYZ"
  const DIGITS := "0123456789"

  // Folding turns every capital into its letter and nothing else.
  lemma FoldIs(c: char)
    ensures forall i :: 0 <= i < 26 ==> FoldChar(CAPITALS[i]) == LETTERS[i]
    ensures c !in CAPITALS ==> FoldChar(c) == c
  {
    if 'A' <= c <= 'Z' { assert CAPITALS[c as int - 'A' as int] == c; }
  }

  ghost predicate Spaces(s: string) { forall i :: 0 <= i < |s| ==> Unicode.IsSpace(s[i] as int) }

  // `t` is `s` without the white space around it.
  ghost predicate IsStripped(s: string, t: string) {
    && (exists before, after :: s == before + t + after && Spaces(before) && Spaces(after))
    && (t != [] ==> !Unicode.IsSpace(t[0] as int) && !Unicode.IsSpace(t[|t| - 1] as int))
  }

  lemma {:induction false} StripLeftIs(s: string) returns (before: string)
    ensures s == before + StripLeft(s) && Spaces(before)
    ensures StripLeft(s) != [] ==> !Unicode.IsSpace(StripLeft(s)[0] as int)
  {
    hide Unicode.IsSpace;
    before := "";
    if s != [] && Unicode.IsSpace(s[0] as int) {
      var more := StripLeftIs(s[1..]);
      before := [s[0]] + more;
      assert s == [s[0]] + s[1..];
    }
  }

  lemma {:induction false} StripRightIs(s: string) returns (after: string)
    ensures s == StripRight(s) + after && Spaces(after)
    ensures StripRight(s) != [] ==> !Unicode.IsSpace(StripRight(s)[|StripRight(s)| - 1] as int)
  {
    hide Unicode.IsSpace;
    after := "";
    if s != [] && Unicode.IsSpace(s[|s| - 1] as int) {
      var front, last := s[..|s| - 1], s[|s| - 1];
      var more := StripRightIs(front);
      after := more + [last];
      assert s == front + [last] == StripRight(front) + more + [last] == StripRight(front) + after;
    }
  }

  lemma StripIs(s: string)
    ensures IsStripped(s, StripRight(StripLeft(s)))
  {
    var before := StripLeftIs(s);
    var after := StripRightIs(StripLeft(s));
    assert s == before + StripRight(StripLeft(s)) + after;
  }

  ghost predicate Made(s: string, alphabet: string) { forall i :: 0 <= i < |s| ==> s[i] in alphabet }

  // `sdf`, `host`, `manager`, a role, a role with a number, or an agent's or a
  // policy's signature.
  ghost predicate ReservedName(f: string) {
    || f in {"sdf", "host", "manager", "lead", "worker", "workers"}
    || (exists n :: n != "" && Made(n, DIGITS) && f in {"lead-" + n, "worker-" + n, "workers-" + n})
    || (exists rest :: f in {"agent:" + rest, "policy:" + rest})
  }

  lemma NumberedIs(f: string, role: string)
    ensures Numbered(f, role) <==> f == role || exists n :: n != "" && Made(n, DIGITS) && f == role + "-" + n
  {
    hide Digit;
    forall c ensures Digit(c) <==> c in DIGITS {
      DigitIs(c);
    }
    if role + "-" <= f {
      assert f == role + "-" + f[|role| + 1..];
    }
    forall n | f == role + "-" + n ensures n == f[|role| + 1..] {}
  }

  lemma SignedIs(f: string, prefix: string)
    ensures prefix <= f <==> exists rest :: f == prefix + rest
  {
    if prefix <= f { assert f == prefix + f[|prefix|..]; }
  }

  // Case never matters.
  lemma ReservedIs(s: string)
    ensures Reserved(s) <==> ReservedName(Fold(s))
  {
    var f := Fold(s);
    NumberedIs(f, "lead");
    NumberedIs(f, "worker");
    NumberedIs(f, "workers");
    SignedIs(f, "agent:");
    SignedIs(f, "policy:");
    RolesWithNumbers(f);
  }

  lemma RolesWithNumbers(f: string)
    ensures (exists n :: n != "" && Made(n, DIGITS) && f in {"lead-" + n, "worker-" + n, "workers-" + n}) <==>
              || (exists n :: n != "" && Made(n, DIGITS) && f == "lead" + "-" + n)
              || (exists n :: n != "" && Made(n, DIGITS) && f == "worker" + "-" + n)
              || (exists n :: n != "" && Made(n, DIGITS) && f == "workers" + "-" + n)
  {
    assert "lead" + "-" == "lead-" && "worker" + "-" == "worker-" && "workers" + "-" == "workers-";
  }

  const ACTOR_CHARS := LETTERS + CAPITALS + DIGITS + "._@:+-"

  lemma ActorIs(s: string)
    ensures IsActor(s) <==> 1 <= |s| <= 120 && Made(s, ACTOR_CHARS)
  {
    hide ActorChar;
    forall c ensures ActorChar(c) <==> c in ACTOR_CHARS {
      ActorCharIs(c);
    }
  }

  lemma LetterIs(c: char)
    ensures 'a' <= c <= 'z' <==> c in LETTERS
  {
    if 'a' <= c <= 'z' { assert LETTERS[c as int - 'a' as int] == c; }
  }

  lemma CapitalIs(c: char)
    ensures 'A' <= c <= 'Z' <==> c in CAPITALS
  {
    if 'A' <= c <= 'Z' { assert CAPITALS[c as int - 'A' as int] == c; }
  }

  lemma DigitIs(c: char)
    ensures Digit(c) <==> c in DIGITS
  {
    if Digit(c) { assert DIGITS[c as int - '0' as int] == c; }
  }

  lemma MarkIs(c: char)
    ensures c in {'.', '_', '@', ':', '+', '-'} <==> c in "._@:+-"
  {
  }

  lemma ActorCharIs(c: char)
    ensures ActorChar(c) <==> c in ACTOR_CHARS
  {
    hide LETTERS, CAPITALS, DIGITS;
    LetterIs(c);
    CapitalIs(c);
    DigitIs(c);
    MarkIs(c);
  }

  // Who may sign: the name without the white space around it, if it is made of
  // the actor alphabet and not reserved in any letter case.
  lemma ValidHumanIs(actor: string)
    ensures match ValidateHuman(actor)
            case Some(s) =>
              && IsStripped(actor, s) && 1 <= |s| <= 120 && Made(s, ACTOR_CHARS)
              && !ReservedName(Fold(s))
            case None =>
              exists s :: IsStripped(actor, s)
                          && (|s| < 1 || |s| > 120 || !Made(s, ACTOR_CHARS)
                              || ReservedName(Fold(s)))
  {
    hide StripLeft, StripRight, IsStripped, Made, ReservedName, IsActor, Reserved;
    var s := StripRight(StripLeft(actor));
    StripIs(actor);
    ActorIs(s);
    ReservedIs(s);
  }

  // A signature is stable: signing with a validated name changes nothing.
  lemma HumanIsStripped(s: string)
    requires IsHuman(s)
    ensures ValidateHuman(s) == Some(s)
  {
    assert ActorChar(s[0]) && ActorChar(s[|s| - 1]);
  }

  // What a policy signs with is never a human name, in any letter case.
  lemma PolicyIsNoHuman(name: string, s: string)
    requires Fold(s) == Fold("policy:" + name)
    ensures !IsHuman(s)
  {
    assert Fold(s)[..7] == "policy:" by {
      assert forall i :: 0 <= i < 7 ==> Fold(s)[i] == FoldChar(("policy:" + name)[i]) == "policy:"[i];
    }
    assert "policy:" <= Fold(s);
  }
}
