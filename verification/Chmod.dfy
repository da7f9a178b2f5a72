/** internal/tools/files/chmod/chmod.go: the mode language of chmod, and what
    the parsed mode does to the twelve mode bits. */
module Chmod {
  import opened Text

  /** The numbers of the bits that are 1, the lowest being 0. */
  type Bits = set<nat>

  const SETID: Bits := {10, 11}        // 6000 in octal
  const EXEC: Bits := {0, 3, 6}        // 0111
  const ALL: Bits := {0, 1, 2, 3, 4, 5, 6, 7, 8, 9, 10, 11}

  datatype Clause = Clause(who: Bits, op: char, perms: string)

  datatype Mode = Octal(value: Bits, exact: bool) | Symbolic(clauses: seq<Clause>)

  datatype Result<+T> = Ok(value: T) | Err(error: string)

  // ----- the language -----

  predicate IsWho(c: char) {
    c == 'u' || c == 'g' || c == 'o' || c == 'a'
  }

  predicate IsOp(c: char) {
    c == '+' || c == '-' || c == '='
  }

  predicate IsPerm(c: char) {
    c == 'r' || c == 'w' || c == 'x' || c == 'X' || c == 's' || c == 't'
  }

  predicate IsOctal(c: char) {
    '0' <= c <= '7'
  }

  /** unicode.IsSpace. */
  predicate IsSpace(c: char) {
    '\t' <= c <= '\r' || c == ' ' || c == '\U{85}' || c == '\U{A0}' || c == '\U{1680}' || '\U{2000}' <= c <= '\U{200A}'
    || c == '\U{2028}' || c == '\U{2029}' || c == '\U{202F}' || c == '\U{205F}' || c == '\U{3000}'
  }

  ghost predicate AllOf(s: string, p: char -> bool) {
    forall i :: 0 <= i < |s| ==> p(s[i])
  }

  function WhoBit(c: char): Bits {
    if c == 'u' then {11, 8, 7, 6} else if c == 'g' then {10, 5, 4, 3} else if c == 'o' then {9, 2, 1, 0}
    else if c == 'a' then ALL else {}
  }

  function WhoMask(letters: string): Bits {
    if letters == "" then {} else WhoMask(letters[..|letters| - 1]) + WhoBit(letters[|letters| - 1])
  }

  /** What one comma-separated part means. */
  ghost predicate IsClause(part: string, letters: string, op: char, perms: string) {
    part == letters + [op] + perms && AllOf(letters, IsWho) && IsOp(op) && AllOf(perms, IsPerm)
  }

  function Meaning(letters: string, op: char, perms: string): Clause {
    Clause(if letters == "" then ALL else WhoMask(letters), op, perms)
  }

  lemma {:induction false} SomeWho(letters: string)
    requires AllOf(letters, IsWho)
    ensures WhoMask(letters) == {} <==> letters == ""
  {
    if letters != "" {
      var init := letters[..|letters| - 1];
      assert AllOf(init, IsWho);
      assert IsWho(letters[|letters| - 1]);
      SomeWho(init);
      WhoBitIsSome(WhoMask(init), letters[|letters| - 1]);
    }
  }

  lemma WhoBitIsSome(mask: Bits, c: char)
    requires IsWho(c)
    ensures mask + WhoBit(c) != {}
  {
    assert 8 in WhoBit(c) || 5 in WhoBit(c) || 2 in WhoBit(c);
  }

  /** The letters a part starts with, and the bits they are about. */
  method ScanWho(part: string) returns (i: nat, who: Bits)
    ensures i <= |part| && AllOf(part[..i], IsWho) && (i < |part| ==> !IsWho(part[i]))
    ensures who == WhoMask(part[..i])
  {
    i, who := 0, {};
    while i < |part| && IsWho(part[i])
      invariant i <= |part| && AllOf(part[..i], IsWho) && who == WhoMask(part[..i])
    {
      assert part[..i + 1][..i] == part[..i];
      who := who + WhoBit(part[i]);
      i := i + 1;
    }
  }

  /** strings.Trim(perms, "rwxXst") == "". */
  method ArePerms(perms: string) returns (yes: bool)
    ensures yes <==> AllOf(perms, IsPerm)
  {
    for j := 0 to |perms|
      invariant AllOf(perms[..j], IsPerm)
    {
      if !IsPerm(perms[j]) {
        return false;
      }
    }
    assert perms[..|perms|] == perms;
    return true;
  }

  method ParseClause(part: string) returns (r: Result<Clause>)
    ensures r.Ok? <==> SomeClause(part)
    ensures forall letters, op, perms :: IsClause(part, letters, op, perms) ==> r == Ok(Meaning(letters, op, perms))
  {
    var i, who := ScanWho(part);
    SomeWho(part[..i]);
    if who == {} {
      who := ALL;
    }
    forall letters, op, perms | IsClause(part, letters, op, perms)
      ensures i < |part| && letters == part[..i] && op == part[i] && perms == part[i + 1..]
    {
      WhereOpIs(part, i, letters, op, perms);
    }
    if i >= |part| || !IsOp(part[i]) {
      return Err("invalid mode");
    }
    var op, perms := part[i], part[i + 1..];
    var valid := ArePerms(perms);
    if !valid {
      return Err("invalid permissions");
    }
    ThreeParts(part, i);
    assert IsClause(part, part[..i], op, perms);
    return Ok(Clause(who, op, perms));
  }

  lemma ThreeParts(part: string, i: nat)
    requires i < |part|
    ensures part == part[..i] + [part[i]] + part[i + 1..]
  {
  }

  lemma WhereOpIs(part: string, i: nat, letters: string, op: char, perms: string)
    requires i <= |part| && AllOf(part[..i], IsWho) && (i < |part| ==> !IsWho(part[i]))
    requires IsClause(part, letters, op, perms)
    ensures i < |part| && letters == part[..i] && op == part[i] && perms == part[i + 1..]
  {
    var n := |letters|;
    assert part[n] == op && !IsWho(op);
    forall j | 0 <= j < n ensures IsWho(part[j]) {
      assert part[j] == letters[j];
    }
    forall j | 0 <= j < i ensures IsWho(part[j]) {
      assert part[j] == part[..i][j];
    }
    assert n == i;
    assert part[..n] == letters && part[n + 1..] == perms;
  }

  function OctalValue(digits: string): nat {
    if digits == "" then 0 else OctalValue(digits[..|digits| - 1]) * 8 + (digits[|digits| - 1] as int - '0' as int) % 8
  }

  /** v >> i & 1. */
  predicate Bit(v: nat, i: nat) {
    if i == 0 then v % 2 == 1 else Bit(v / 2, i - 1)
  }

  function BitsOf(v: nat): Bits {
    set i | i in ALL && Bit(v, i)
  }

  function TrimLeft(s: string): string {
    if s != "" && IsSpace(s[0]) then TrimLeft(s[1..]) else s
  }

  function TrimSpace(s: string): string {
    TrimRight(TrimLeft(s))
  }

  function TrimRight(s: string): string {
    if s != "" && IsSpace(s[|s| - 1]) then TrimRight(s[..|s| - 1]) else s
  }

  /** Each part of `parts` is a clause, and `clauses` are what they mean. */
  ghost predicate Reads(parts: seq<string>, clauses: seq<Clause>) {
    |parts| == |clauses| && forall i :: 0 <= i < |parts| ==> ReadsAs(parts[i], clauses[i])
  }

  ghost predicate ReadsAs(part: string, c: Clause) {
    exists letters, op, perms :: IsClause(part, letters, op, perms) && c == Meaning(letters, op, perms)
  }

  ghost predicate SomeClause(part: string) {
    exists letters, op, perms :: IsClause(part, letters, op, perms)
  }

  /** Clauses, all of them in order; one bad part spoils the mode. */
  ghost predicate ParsedClauses(parts: seq<string>, r: Result<Mode>) {
    && (r.Ok? <==> forall i :: 0 <= i < |parts| ==> SomeClause(parts[i]))
    && (r.Ok? ==> r.value.Symbolic? && Reads(parts, r.value.clauses))
  }

  ghost predicate ParsedOctal(spec: string, r: Result<Mode>) {
    if |spec| > 5 || OctalValue(spec) > 0xFFF then r.Err?
    else r == Ok(Octal(BitsOf(OctalValue(spec)), |spec| == 5))
  }

  /** ParseMode: octal of at most five digits, or comma-separated clauses. */
  method ParseMode(text: string) returns (r: Result<Mode>)
    ensures var spec := TrimSpace(text);
            if spec != "" && AllOf(spec, IsOctal) then ParsedOctal(spec, r) else ParsedClauses(Split(spec, ','), r)
  {
    var spec := TrimSpace(text);
    var octal := IsNumber(spec);
    if spec != "" && octal {
      var v := OctalValue(spec);
      if |spec| > 5 || v > 0xFFF {
        return Err("invalid octal mode");
      }
      return Ok(Octal(BitsOf(v), |spec| == 5));
    }
    r := ParseClauses(Split(spec, ','));
  }

  method IsNumber(spec: string) returns (octal: bool)
    ensures octal <==> AllOf(spec, IsOctal)
  {
    for i := 0 to |spec|
      invariant AllOf(spec[..i], IsOctal)
    {
      if !IsOctal(spec[i]) {
        return false;
      }
    }
    assert spec[..|spec|] == spec;
    return true;
  }

  method ParseClauses(parts: seq<string>) returns (r: Result<Mode>)
    ensures ParsedClauses(parts, r)
  {
    var clauses: seq<Clause> := [];
    for k := 0 to |parts|
      invariant |clauses| == k && forall i :: 0 <= i < k ==> ReadsAs(parts[i], clauses[i]) && SomeClause(parts[i])
    {
      var c := ParseClause(parts[k]);
      if c.Err? {
        assert !SomeClause(parts[k]);
        return Err(c.error);
      }
      clauses := clauses + [c.value];
    }
    return Ok(Symbolic(clauses));
  }

  // ----- what a mode does -----

  /** The bits a letter stands for; `exec` is what X asks for. */
  function PermBit(p: char, exec: bool): Bits {
    if p == 'r' then {8, 5, 2} else if p == 'w' then {7, 4, 1} else if p == 'x' then EXEC
    else if p == 'X' then (if exec then EXEC else {})
    else if p == 's' then SETID else if p == 't' then {9} else {}
  }

  function PermBits(perms: string, exec: bool): Bits {
    if perms == "" then {} else PermBits(perms[..|perms| - 1], exec) + PermBit(perms[|perms| - 1], exec)
  }

  function Named(c: Clause, exec: bool): Bits {
    PermBits(c.perms, exec) * c.who
  }

  /** What an = clause clears: a directory keeps setuid and setgid. */
  function Cleared(c: Clause, dir: bool): Bits {
    if dir then c.who - SETID else c.who
  }

  /** One clause: `named` is added, taken away, or put in the place of `cleared`. */
  function Step(op: char, named: Bits, cleared: Bits, mode: Bits): Bits {
    if op == '+' then mode + named
    else if op == '-' then mode - named
    else if op == '=' then (mode - cleared) + named
    else mode
  }

  function Steps(clauses: seq<Clause>, exec: bool, dir: bool, mode: Bits): Bits {
    if clauses == [] then mode
    else
      var c := clauses[|clauses| - 1];
      Step(c.op, Named(c, exec), Cleared(c, dir), Steps(clauses[..|clauses| - 1], exec, dir, mode))
  }

  predicate Executable(mode: Bits) {
    mode * EXEC != {}
  }

  function Applied(m: Mode, old_: Bits, dir: bool): Bits {
    match m
    case Octal(v, exact) => if dir && !exact then v + old_ * SETID else v
    case Symbolic(clauses) => Steps(clauses, dir || Executable(old_), dir, old_) * ALL
  }

  /** The function ParseMode returns. */
  method Apply(m: Mode, old_: Bits, dir: bool) returns (mode: Bits)
    ensures mode == Applied(m, old_, dir)
  {
    match m {
      case Octal(v, exact) =>
        if dir && !exact {
          return v + old_ * SETID;
        }
        return v;
      case Symbolic(clauses) =>
        mode := old_;
        for k := 0 to |clauses|
          invariant mode == Steps(clauses[..k], dir || Executable(old_), dir, old_)
        {
          var c := clauses[k];
          var bits := PermsOf(c.perms, dir || Executable(old_));
          bits := bits * c.who;
          assert clauses[..k + 1][..k] == clauses[..k];
          match c.op {
            case '+' => mode := mode + bits;
            case '-' => mode := mode - bits;
            case '=' =>
              var clear := c.who;
              if dir {
                clear := clear - SETID;
              }
              mode := (mode - clear) + bits;
            case _ =>
          }
        }
        assert clauses[..|clauses|] == clauses;
        mode := mode * ALL;
    }
  }

  method PermsOf(perms: string, exec: bool) returns (bits: Bits)
    ensures bits == PermBits(perms, exec)
  {
    bits := {};
    for i := 0 to |perms|
      invariant bits == PermBits(perms[..i], exec)
    {
      assert perms[..i + 1][..i] == perms[..i];
      bits := bits + PermBit(perms[i], exec);
    }
    assert perms[..|perms|] == perms;
  }

  // ----- masks -----

  function KeepStep(op: char, named: Bits, cleared: Bits, k: Bits): Bits {
    if op == '-' then k - named else if op == '=' then k - cleared else k
  }

  /** The bits a list of clauses keeps, and those it sets. */
  function Keep(clauses: seq<Clause>, exec: bool, dir: bool): Bits {
    if clauses == [] then ALL
    else
      var c := clauses[|clauses| - 1];
      KeepStep(c.op, Named(c, exec), Cleared(c, dir), Keep(clauses[..|clauses| - 1], exec, dir))
  }

  function Set(clauses: seq<Clause>, exec: bool, dir: bool): Bits {
    Steps(clauses, exec, dir, {}) * ALL
  }

  /** However many clauses there are, they act as one mask and one set of bits. */
  lemma {:induction false} ActsAsMask(clauses: seq<Clause>, exec: bool, dir: bool, m: Bits)
    ensures Steps(clauses, exec, dir, m) * ALL == m * Keep(clauses, exec, dir) + Set(clauses, exec, dir)
  {
    if clauses != [] {
      var init, c := clauses[..|clauses| - 1], clauses[|clauses| - 1];
      ActsAsMask(init, exec, dir, m);
      StepOnMask(c.op, Named(c, exec), Cleared(c, dir), m, Keep(init, exec, dir),
                 Steps(init, exec, dir, {}), Steps(init, exec, dir, m));
    }
  }

  lemma StepOnMask(op: char, n: Bits, c: Bits, m: Bits, k: Bits, s: Bits, t: Bits)
    requires t * ALL == m * k + s * ALL
    ensures Step(op, n, c, t) * ALL == m * KeepStep(op, n, c, k) + Step(op, n, c, s) * ALL
  {
    AfterPlus(n, m, k, s, t);
    AfterMinus(n, m, k, s, t);
    AfterEquals(n, c, m, k, s, t);
  }

  lemma AfterPlus(n: Bits, m: Bits, k: Bits, s: Bits, t: Bits)
    requires t * ALL == m * k + s * ALL
    ensures (t + n) * ALL == m * k + (s + n) * ALL
  {
    assert (t + n) * ALL == t * ALL + n * ALL && (s + n) * ALL == s * ALL + n * ALL;
  }

  lemma AfterMinus(n: Bits, m: Bits, k: Bits, s: Bits, t: Bits)
    requires t * ALL == m * k + s * ALL
    ensures (t - n) * ALL == m * (k - n) + (s - n) * ALL
  {
    assert (t - n) * ALL == t * ALL - n && (s - n) * ALL == s * ALL - n;
    assert m * (k - n) == m * k - n;
  }

  lemma AfterEquals(n: Bits, c: Bits, m: Bits, k: Bits, s: Bits, t: Bits)
    requires t * ALL == m * k + s * ALL
    ensures ((t - c) + n) * ALL == m * (k - c) + ((s - c) + n) * ALL
  {
    AfterMinus(c, m, k, s, t);
    AfterPlus(n, m, k - c, s - c, t - c);
  }

  /** The mask and the bits of any parsed mode; `exec` is what X asks for. */
  function KeepOf(m: Mode, exec: bool, dir: bool): Bits {
    match m
    case Octal(v, exact) => if dir && !exact then SETID else {}
    case Symbolic(clauses) => Keep(clauses, exec, dir)
  }

  function SetOf(m: Mode, exec: bool, dir: bool): Bits {
    match m
    case Octal(v, exact) => v
    case Symbolic(clauses) => Set(clauses, exec, dir)
  }

  predicate UsesX(m: Mode) {
    m.Symbolic? && exists i :: 0 <= i < |m.clauses| && 'X' in m.clauses[i].perms
  }

  lemma {:induction false} NoXNoExec(perms: string)
    requires 'X' !in perms
    ensures PermBits(perms, true) == PermBits(perms, false)
  {
    if perms != "" {
      var init, p := perms[..|perms| - 1], perms[|perms| - 1];
      assert perms == init + [p] && p in perms;
      NoXNoExec(init);
      assert PermBit(p, true) == PermBit(p, false);
    }
  }

  lemma {:induction false} NoXNoExecSteps(clauses: seq<Clause>, dir: bool, m: Bits)
    requires forall i :: 0 <= i < |clauses| ==> 'X' !in clauses[i].perms
    ensures Steps(clauses, true, dir, m) == Steps(clauses, false, dir, m) && Keep(clauses, true, dir) == Keep(clauses, false, dir)
  {
    if clauses != [] {
      NoXNoExec(clauses[|clauses| - 1].perms);
      NoXNoExecSteps(clauses[..|clauses| - 1], dir, m);
    }
  }

  /** Every mode acts as m -> (m & A) | B, with A and B fixed for a directory and
      for a mode without X, and otherwise by whether `old` is executable. */
  lemma ModeIsAMask(m: Mode, old_: Bits, dir: bool)
    ensures var exec := dir || Executable(old_); Applied(m, old_, dir) == old_ * KeepOf(m, exec, dir) + SetOf(m, exec, dir)
    ensures !UsesX(m) ==> KeepOf(m, true, dir) == KeepOf(m, false, dir) && SetOf(m, true, dir) == SetOf(m, false, dir)
  {
    if m.Symbolic? {
      ActsAsMask(m.clauses, dir || Executable(old_), dir, old_);
      if !UsesX(m) {
        NoXNoExecSteps(m.clauses, dir, {});
      }
    }
  }

  /** Changing a mode twice is changing it once, for a directory and for a mode
      without X. */
  lemma IdempotentWithoutX(m: Mode, old_: Bits, dir: bool)
    requires dir || !UsesX(m)
    ensures Applied(m, Applied(m, old_, dir), dir) == Applied(m, old_, dir)
  {
    ModeIsAMask(m, old_, dir);
    ModeIsAMask(m, Applied(m, old_, dir), dir);
  }

  // ----- X on files -----

  /** X names at least as much when it is asked for, and only execute bits more. */
  lemma {:induction false} ExecNamesMore(perms: string)
    ensures PermBits(perms, false) <= PermBits(perms, true)
    ensures PermBits(perms, false) - EXEC == PermBits(perms, true) - EXEC
  {
    if perms != "" {
      var init, p := perms[..|perms| - 1], perms[|perms| - 1];
      ExecNamesMore(init);
      assert PermBit(p, false) <= PermBit(p, true) && PermBit(p, false) - EXEC == PermBit(p, true) - EXEC;
      forall e ensures PermBits(perms, e) - EXEC == (PermBits(init, e) - EXEC) + (PermBit(p, e) - EXEC) {
      }
    }
  }

  /** Between the two readings of X: only execute bits differ, and a bit that is
      set without X is, with it, set too or not kept. */
  ghost predicate Near(k0: Bits, s0: Bits, k1: Bits, s1: Bits) {
    k0 - EXEC == k1 - EXEC && s0 - EXEC == s1 - EXEC && s0 * k1 <= s1
  }

  lemma NearStep(op: char, n0: Bits, n1: Bits, c: Bits, k0: Bits, s0: Bits, k1: Bits, s1: Bits)
    requires Near(k0, s0, k1, s1) && n0 <= n1 && n0 - EXEC == n1 - EXEC && n0 <= c
    ensures Near(KeepStep(op, n0, c, k0), Step(op, n0, c, s0), KeepStep(op, n1, c, k1), Step(op, n1, c, s1))
  {
    var k0', s0', k1', s1' := KeepStep(op, n0, c, k0), Step(op, n0, c, s0), KeepStep(op, n1, c, k1), Step(op, n1, c, s1);
    forall b ensures b !in EXEC ==> (b in k0' <==> b in k1') && (b in s0' <==> b in s1') {
      SameOutside(k0, k1, b);
      SameOutside(s0, s1, b);
      SameOutside(n0, n1, b);
    }
    forall b | b in s0' && b in k1' ensures b in s1' {
      if b in s0 && b in k1 { assert b in s0 * k1; }
    }
    assert k0' - EXEC == k1' - EXEC && s0' - EXEC == s1' - EXEC;
    assert s0' * k1' <= s1';
  }

  lemma SameOutside(a: Bits, b: Bits, x: nat)
    requires a - EXEC == b - EXEC
    ensures x !in EXEC ==> (x in a <==> x in b)
  {
    assert x in a - EXEC <==> x in b - EXEC;
  }

  lemma {:induction false} ReadingsAreNear(clauses: seq<Clause>)
    ensures Near(Keep(clauses, false, false), Steps(clauses, false, false, {}), Keep(clauses, true, false), Steps(clauses, true, false, {}))
  {
    if clauses != [] {
      var init, c := clauses[..|clauses| - 1], clauses[|clauses| - 1];
      ReadingsAreNear(init);
      ExecNamesMore(c.perms);
      var n0, n1 := Named(c, false), Named(c, true);
      assert n0 <= n1 && n0 <= Cleared(c, false);
      assert n0 - EXEC == (PermBits(c.perms, false) - EXEC) * c.who && n1 - EXEC == (PermBits(c.perms, true) - EXEC) * c.who;
      NearStep(c.op, n0, n1, Cleared(c, false), Keep(init, false, false), Steps(init, false, false, {}),
               Keep(init, true, false), Steps(init, true, false, {}));
    }
  }

  lemma NearWithinAll(k0: Bits, s0: Bits, k1: Bits, s1: Bits)
    requires Near(k0, s0, k1, s1)
    ensures Near(k0, s0 * ALL, k1, s1 * ALL)
  {
    assert s0 * ALL - EXEC == (s0 - EXEC) * ALL && s1 * ALL - EXEC == (s1 - EXEC) * ALL;
    assert (s0 * ALL) * k1 == (s0 * k1) * ALL;
  }

  /** A mode on files, as two masks: one for executable files and one for others. */
  function OnFile(k0: Bits, s0: Bits, k1: Bits, s1: Bits, m: Bits): Bits {
    if Executable(m) then m * k1 + s1 else m * k0 + s0
  }

  lemma SettledEverywhere(k0: Bits, s0: Bits, k1: Bits, s1: Bits, m: Bits)
    requires Near(k0, s0, k1, s1)
    requires OnFile(k0, s0, k1, s1, OnFile(k0, s0, k1, s1, {})) == OnFile(k0, s0, k1, s1, {})
    ensures OnFile(k0, s0, k1, s1, OnFile(k0, s0, k1, s1, m)) == OnFile(k0, s0, k1, s1, m)
  {
    var once := OnFile(k0, s0, k1, s1, m);
    var twice := OnFile(k0, s0, k1, s1, once);
    assert OnFile(k0, s0, k1, s1, {}) == s0 by {
      assert {} * k0 + s0 == s0;
    }
    if Executable(once) != Executable(m) {
      if Executable(m) {
        LosesExecute(k0, s0, k1, s1, m);
      } else {
        GainsExecute(k0, s0, k1, s1, m);
      }
    }
  }

  lemma SettledSet(s0: Bits, k1: Bits, s1: Bits)
    ensures s0 * k1 <= s1 && s0 * k1 + s1 == s0 ==> s1 == s0
  {
  }

  /** An executable file stops being one: the mode without X sets no execute bit. */
  lemma LosesExecute(k0: Bits, s0: Bits, k1: Bits, s1: Bits, m: Bits)
    requires Near(k0, s0, k1, s1) && !Executable(m * k1 + s1)
    requires OnFile(k0, s0, k1, s1, s0) == s0
    ensures (m * k1 + s1) * k0 + s0 == m * k1 + s1
  {
    var once := m * k1 + s1;
    assert !Executable(s1) by {
      forall b | b in s1 ensures b !in EXEC {
        assert b in EXEC ==> b in once * EXEC;
      }
    }
    SettledSet(s0, k1, s1);
    forall b | b in EXEC ensures b !in once && b !in s0 {
      assert b !in once * EXEC && b !in s0 * EXEC;
    }
    forall b ensures b in once * k0 + s0 <==> b in once {
      SameOutside(k0, k1, b);
      SameOutside(s0, s1, b);
    }
  }

  /** A file becomes executable: the mode with X does to it what it had done. */
  lemma GainsExecute(k0: Bits, s0: Bits, k1: Bits, s1: Bits, m: Bits)
    requires Near(k0, s0, k1, s1) && !Executable(m) && Executable(m * k0 + s0)
    requires OnFile(k0, s0, k1, s1, s0) == s0
    ensures (m * k0 + s0) * k1 + s1 == m * k0 + s0
  {
    var once := m * k0 + s0;
    forall b | b in EXEC ensures b in once <==> b in s0 {
      assert b !in m * EXEC;
    }
    var x :| x in once * EXEC;
    assert x in s0 * EXEC;
    assert Executable(s0) && s0 * k1 + s1 == s0;
    forall b ensures b in once * k1 + s1 <==> b in once {
      SameOutside(k0, k1, b);
      SameOutside(s0, s1, b);
      if b in EXEC { assert b in s0 * k1 + s1 <==> b in s0; }
    }
  }

  /** On files a mode is idempotent exactly when it is so on mode 0000: applying
      it to 0000 and again to the result tells for all files. */
  lemma IdempotentOnFiles(m: Mode)
    ensures (forall old_ :: Applied(m, Applied(m, old_, false), false) == Applied(m, old_, false))
            <==> Applied(m, Applied(m, {}, false), false) == Applied(m, {}, false)
  {
    if m.Symbolic? && Applied(m, Applied(m, {}, false), false) == Applied(m, {}, false) {
      var k0, s0, k1, s1 := KeepOf(m, false, false), SetOf(m, false, false), KeepOf(m, true, false), SetOf(m, true, false);
      ReadingsAreNear(m.clauses);
      NearWithinAll(k0, Steps(m.clauses, false, false, {}), k1, Steps(m.clauses, true, false, {}));
      AppliedIsOnFile(m, {});
      AppliedIsOnFile(m, OnFile(k0, s0, k1, s1, {}));
      forall old_ ensures Applied(m, Applied(m, old_, false), false) == Applied(m, old_, false) {
        AppliedIsOnFile(m, old_);
        AppliedIsOnFile(m, OnFile(k0, s0, k1, s1, old_));
        SettledEverywhere(k0, s0, k1, s1, old_);
      }
    }
  }

  lemma AppliedIsOnFile(m: Mode, old_: Bits)
    ensures Applied(m, old_, false)
         == OnFile(KeepOf(m, false, false), SetOf(m, false, false), KeepOf(m, true, false), SetOf(m, true, false), old_)
  {
    ModeIsAMask(m, old_, false);
  }

  /** chmod is announced as idempotent, but "+x,-X" on a file is not: 0000
      becomes 0111 and then 0000 again. */
  lemma PlusXMinusXIsNot()
    ensures var m := Symbolic([Meaning("", '+', "x"), Meaning("", '-', "X")]);
            Applied(m, {}, false) == EXEC && Applied(m, EXEC, false) == {}
  {
    var plus, minus := Meaning("", '+', "x"), Meaning("", '-', "X");
    assert "x"[..0] == "" && "X"[..0] == "";
    forall e ensures Named(plus, e) == EXEC && Named(minus, e) == if e then EXEC else {} {
      assert PermBits("x", e) == {} + EXEC && PermBits("X", e) == {} + (if e then EXEC else {});
      assert EXEC * ALL == EXEC;
    }
    forall old_: Bits, e ensures Steps([plus, minus], e, false, old_) == (old_ + EXEC) - Named(minus, e) {
      assert [plus, minus][..1] == [plus] && [plus][..0] == [];
      assert Steps([plus], e, false, old_) == old_ + Named(plus, e);
      assert Steps([plus, minus], e, false, old_) == Step('-', Named(minus, e), Cleared(minus, false), Steps([plus], e, false, old_));
    }
    assert 0 in EXEC * EXEC;
  }

  // ----- what never changes -----

  function WhoUnion(clauses: seq<Clause>): Bits {
    if clauses == [] then {} else WhoUnion(clauses[..|clauses| - 1]) + clauses[|clauses| - 1].who
  }

  /** Bits no clause is about stay as they are. */
  lemma {:induction false} OtherBitsStay(clauses: seq<Clause>, exec: bool, dir: bool, m: Bits)
    ensures Steps(clauses, exec, dir, m) - WhoUnion(clauses) == m - WhoUnion(clauses)
  {
    if clauses != [] {
      var init, c := clauses[..|clauses| - 1], clauses[|clauses| - 1];
      OtherBitsStay(init, exec, dir, m);
      var t := Steps(init, exec, dir, m);
      forall b | b !in WhoUnion(clauses) ensures b in Steps(clauses, exec, dir, m) <==> b in m {
        assert b in t - WhoUnion(init) <==> b in m - WhoUnion(init);
      }
    }
  }

  /** Some clause takes away setuid or setgid by name. */
  predicate MinusS(clauses: seq<Clause>) {
    exists i :: 0 <= i < |clauses| && clauses[i].op == '-' && 's' in clauses[i].perms
  }

  lemma {:induction false} SetidByName(perms: string, exec: bool)
    requires 's' !in perms
    ensures PermBits(perms, exec) * SETID == {}
  {
    if perms != "" {
      assert perms == perms[..|perms| - 1] + [perms[|perms| - 1]];
      SetidByName(perms[..|perms| - 1], exec);
      assert PermBit(perms[|perms| - 1], exec) * SETID == {};
    }
  }

  lemma {:induction false} StepsKeepSetid(clauses: seq<Clause>, exec: bool, m: Bits)
    requires !MinusS(clauses)
    ensures m * SETID <= Steps(clauses, exec, true, m)
  {
    if clauses != [] {
      var init, c := clauses[..|clauses| - 1], clauses[|clauses| - 1];
      assert forall i :: 0 <= i < |init| ==> init[i] == clauses[i];
      StepsKeepSetid(init, exec, m);
      if c.op == '-' {
        assert clauses[|clauses| - 1].op == '-';
        SetidByName(c.perms, exec);
        forall b | b in m * SETID ensures b !in Named(c, exec) {
          assert b !in PermBits(c.perms, exec) * SETID;
        }
      }
    }
  }

  /** On a directory only a - clause that names s, or an octal mode of five
      digits, can clear setuid or setgid. */
  lemma DirectoryKeepsSetid(m: Mode, old_: Bits)
    requires match m case Octal(v, exact) => !exact case Symbolic(clauses) => !MinusS(clauses)
    ensures old_ * SETID <= Applied(m, old_, true)
  {
    if m.Symbolic? {
      StepsKeepSetid(m.clauses, true, old_);
    }
  }

  // ----- what is what, bit by bit -----

  /** The letters of the language. */
  lemma LettersAre(c: char)
    ensures IsWho(c) <==> c in "ugoa"
    ensures IsOp(c) <==> c in "+-="
    ensures IsPerm(c) <==> c in "rwxXst"
    ensures IsOctal(c) <==> c in "01234567"
  {
    if '0' <= c <= '7' {
      assert c == '0' || c == '1' || c == '2' || c == '3' || c == '4' || c == '5' || c == '6' || c == '7';
    }
  }

  /** Bits come in three rows of r, w and x, for o, g and u; above them t for o, and
      s for g and for u. */
  function ClassOf(b: nat): char
    requires b < 12
  {
    "ogu"[if b < 9 then b / 3 else b - 9]
  }

  predicate About(letters: string, b: nat)
    requires b < 12
  {
    letters == "" || 'a' in letters || ClassOf(b) in letters
  }

  predicate Asked(perms: string, exec: bool, b: nat)
    requires b < 12
  {
    if b < 9 then "xwr"[b % 3] in perms || (b % 3 == 0 && exec && 'X' in perms)
    else (if b == 9 then 't' else 's') in perms
  }

  lemma {:induction false} WhoMaskIs(letters: string, b: nat)
    requires AllOf(letters, IsWho) && b < 12
    ensures b in WhoMask(letters) <==> 'a' in letters || ClassOf(b) in letters
  {
    if letters != "" {
      var init, c := letters[..|letters| - 1], letters[|letters| - 1];
      assert letters == init + [c] && AllOf(init, IsWho) && IsWho(c);
      WhoMaskIs(init, b);
      OneWhoBit(c, b);
    }
  }

  lemma OneWhoBit(c: char, b: nat)
    requires IsWho(c) && b < 12
    ensures b in WhoBit(c) <==> c == 'a' || c == ClassOf(b)
  {
  }

  lemma OnePermBit(p: char, exec: bool, b: nat)
    requires IsPerm(p) && b < 12
    ensures b in PermBit(p, exec) <==>
              if b < 9 then p == "xwr"[b % 3] || (b % 3 == 0 && exec && p == 'X') else p == if b == 9 then 't' else 's'
  {
  }

  lemma {:induction false} PermBitsIs(perms: string, exec: bool, b: nat)
    requires AllOf(perms, IsPerm) && b < 12
    ensures b in PermBits(perms, exec) <==> Asked(perms, exec, b)
  {
    if perms != "" {
      var init, p := perms[..|perms| - 1], perms[|perms| - 1];
      assert perms == init + [p] && AllOf(init, IsPerm) && IsPerm(p);
      PermBitsIs(init, exec, b);
      OnePermBit(p, exec, b);
    }
  }

  /** One clause, bit by bit: + sets what is asked for, - clears it, and = sets it
      and clears the rest of what the clause is about, but for setuid and setgid
      of a directory. X asks for execute where there is some already. */
  lemma ClauseDoes(letters: string, op: char, perms: string, old_: Bits, dir: bool, b: nat)
    requires AllOf(letters, IsWho) && IsOp(op) && AllOf(perms, IsPerm) && b < 12
    ensures var exec := dir || 0 in old_ || 3 in old_ || 6 in old_;
            var named := About(letters, b) && Asked(perms, exec, b);
            b in Applied(Symbolic([Meaning(letters, op, perms)]), old_, dir) <==>
              if op == '+' then b in old_ || named
              else if op == '-' then b in old_ && !named
              else named || (b in old_ && (!About(letters, b) || (dir && b >= 10)))
  {
    var c := Meaning(letters, op, perms);
    var exec := dir || Executable(old_);
    assert Executable(old_) <==> 0 in old_ || 3 in old_ || 6 in old_ by {
      assert 0 in old_ ==> 0 in old_ * EXEC;
      assert 3 in old_ ==> 3 in old_ * EXEC;
      assert 6 in old_ ==> 6 in old_ * EXEC;
    }
    WhoMaskIs(letters, b);
    PermBitsIs(perms, exec, b);
    assert b in ALL;
    assert b in c.who <==> About(letters, b);
    assert [c][..0] == [];
    assert Steps([c], exec, dir, old_) == Step(op, Named(c, exec), Cleared(c, dir), old_);
    assert b in SETID <==> b >= 10;
  }

  lemma OctalInit(digits: string)
    requires digits != ""
    ensures OctalValue(digits) / 8 == OctalValue(digits[..|digits| - 1])
    ensures OctalValue(digits) % 8 == (digits[|digits| - 1] as int - '0' as int) % 8
  {
  }

  function DigitOf(c: char): nat
    requires IsOctal(c)
  {
    c as int - '0' as int
  }

  /** The b-th bit of an octal number is a bit of one of its digits. */
  lemma {:induction false} OctalBit(digits: string, b: nat)
    requires AllOf(digits, IsOctal)
    ensures Bit(OctalValue(digits), b) <==> b / 3 < |digits| && BitOfDigit(digits, b)
    decreases |digits|
  {
    if digits == "" {
      ZeroHasNoBits(b);
    } else {
      var init, last := digits[..|digits| - 1], digits[|digits| - 1];
      assert AllOf(init, IsOctal) && IsOctal(last);
      OctalInit(digits);
      if b >= 3 {
        OctalBit(init, b - 3);
        ThreeUp(OctalValue(digits), b);
        assert b / 3 == (b - 3) / 3 + 1 && b % 3 == (b - 3) % 3;
      } else {
        LowBits(OctalValue(digits), b);
        DigitBits(last, b);
        assert b / 3 == 0 && b % 3 == b;
      }
    }
  }

  /** The bit of the digit that stands for bit `b`; three bits to a digit. */
  predicate BitOfDigit(digits: string, b: nat)
    requires b / 3 < |digits|
  {
    digits[|digits| - 1 - b / 3] in ["1357", "2367", "4567"][b % 3]
  }

  lemma DigitBits(c: char, i: nat)
    requires IsOctal(c) && i < 3
    ensures Bit(DigitOf(c), i) <==> c in ["1357", "2367", "4567"][i]
  {
    ThreeBits(DigitOf(c));
    assert c == '0' || c == '1' || c == '2' || c == '3' || c == '4' || c == '5' || c == '6' || c == '7';
  }

  lemma {:induction false} ZeroHasNoBits(b: nat)
    ensures !Bit(0, b)
  {
    if b > 0 {
      ZeroHasNoBits(b - 1);
    }
  }

  lemma LowBits(v: nat, b: nat)
    requires b < 3
    ensures Bit(v, b) <==> Bit(v % 8, b)
  {
    Parity(v, v / 8, v % 8);
    ThreeBits(v);
    ThreeBits(v % 8);
  }

  lemma ThreeBits(v: nat)
    ensures Bit(v, 0) <==> v % 2 == 1
    ensures Bit(v, 1) <==> v / 2 % 2 == 1
    ensures Bit(v, 2) <==> v / 2 / 2 % 2 == 1
  {
    assert Bit(v, 2) <==> Bit(v / 2, 1);
    assert Bit(v / 2, 1) <==> Bit(v / 2 / 2, 0);
  }

  lemma Parity(v: nat, u: nat, d: nat)
    requires v == 8 * u + d
    ensures v % 2 == d % 2 && v / 2 % 2 == d / 2 % 2 && v / 2 / 2 % 2 == d / 2 / 2 % 2
  {
    assert v == 2 * (4 * u) + d;
    assert v / 2 == 2 * (2 * u) + d / 2;
    assert v / 2 / 2 == 2 * u + d / 2 / 2;
  }

  lemma ThreeUp(v: nat, b: nat)
    requires b >= 3
    ensures Bit(v, b) <==> Bit(v / 8, b - 3)
  {
    assert Bit(v, b) <==> Bit(v / 2, b - 1);
    assert Bit(v / 2, b - 1) <==> Bit(v / 2 / 2, b - 2);
    assert Bit(v / 2 / 2, b - 2) <==> Bit(v / 2 / 2 / 2, b - 3);
    assert v / 2 / 2 / 2 == v / 8;
  }

  /** An octal mode: refused if it is longer than five digits or the fifth is not
      0; else each digit gives three bits. */
  lemma OctalModeIs(spec: string, r: Result<Mode>)
    requires AllOf(spec, IsOctal) && ParsedOctal(spec, r)
    ensures r.Err? <==> |spec| > 5 || (|spec| == 5 && spec[0] != '0')
    ensures r.Ok? ==> r.value.Octal? && (r.value.exact <==> |spec| == 5)
    ensures r.Ok? ==> forall b: nat :: b in r.value.value <==> b < 12 && b / 3 < |spec| && BitOfDigit(spec, b)
  {
    if |spec| <= 5 {
      OctalSize(spec);
    }
    if r.Ok? {
      forall b: nat | b < 12
        ensures b in r.value.value <==> b / 3 < |spec| && BitOfDigit(spec, b)
      {
        OctalBit(spec, b);
        assert b in ALL;
      }
    }
  }

  lemma OctalSize(spec: string)
    requires AllOf(spec, IsOctal) && |spec| <= 5
    ensures OctalValue(spec) > 0xFFF <==> |spec| == 5 && spec[0] != '0'
  {
    if |spec| < 5 {
      OctalBound(spec);
    } else {
      OctalReaches(spec);
    }
  }

  /** A number of n digits needs its first one to reach 8 to the n - 1. */
  lemma {:induction false} OctalReaches(s: string)
    requires AllOf(s, IsOctal) && 1 <= |s| <= 5
    ensures OctalValue(s) >= [1, 8, 64, 512, 4096][|s| - 1] <==> s[0] != '0'
  {
    var init := s[..|s| - 1];
    assert IsOctal(s[0]);
    if init == "" {
      assert OctalValue(s) == DigitOf(s[0]);
    } else {
      assert AllOf(init, IsOctal) && init[0] == s[0];
      OctalReaches(init);
      OctalInit(s);
    }
  }

  lemma {:induction false} OctalBound(s: string)
    requires |s| < 5
    ensures OctalValue(s) < [1, 8, 64, 512, 4096][|s|] <= 4096
  {
    if s != "" {
      OctalBound(s[..|s| - 1]);
    }
  }
}
