/** The parser's seccomp policy (internal/sandbox/parser_linux_amd64.go): a
    compiler from argument rules and a deny list to a BPF program, proved against
    a policy that never mentions instructions. */
module ParserPolicy {
  import opened Bpf

  const ARCH_OFFSET: Word := 4
  const NUMBER_OFFSET: Word := 0
  const ARGS_OFFSET: Word := 16
  const X32_BIT: Word := 0x4000_0000
  const AUDIT_ARCH_X86_64: Word := 0xC000_003E

  const KILL_PROCESS: Word := 0x8000_0000
  const ALLOW: Word := 0x7fff_0000
  const DENY_ENOSYS: Word := 0x0005_0026   // SECCOMP_RET_ERRNO | ENOSYS
  const DENY_EPERM: Word := 0x0005_0001    // SECCOMP_RET_ERRNO | EPERM

  type Argument = x: int | 0 <= x < 6

  datatype ArgumentRule =
    | MaskRule(number: Word, argument: Argument, mask: Word, requireSet: bool)
    | EqualRule(number: Word, argument: Argument, value: Word)
    | NotEqualRule(number: Word, argument: Argument, value: Word)

  // ----- The declarative policy -----

  function Number(d: SeccompData): Word { d[0] }
  function Arch(d: SeccompData): Word { d[1] }

  /** The low 32 bits of an argument, the only half the filter looks at. */
  function ArgumentLow(d: SeccompData, a: Argument): Word { d[4 + 2 * a] }

  predicate Accepts(rule: ArgumentRule, d: SeccompData) {
    match rule
    case MaskRule(_, a, mask, requireSet) => Overlaps(ArgumentLow(d, a), mask) == requireSet
    case EqualRule(_, a, value) => ArgumentLow(d, a) == value
    case NotEqualRule(_, a, value) => ArgumentLow(d, a) != value
  }

  /** The verdict on a native call: the first rule about the call decides, and
      the deny list speaks only about calls without a rule. */
  ghost predicate Permitted(rules: seq<ArgumentRule>, denied: seq<Word>, d: SeccompData) {
    || (exists i :: 0 <= i < |rules| && Decides(rules, i, Number(d)) && Accepts(rules[i], d))
    || (Number(d) !in denied && forall i :: 0 <= i < |rules| ==> rules[i].number != Number(d))
  }

  ghost predicate Decides(rules: seq<ArgumentRule>, i: int, number: Word)
    requires 0 <= i < |rules|
  {
    && rules[i].number == number
    && forall j :: 0 <= j < i ==> rules[j].number != number
  }

  ghost function Policy(rules: seq<ArgumentRule>, denied: seq<Word>, d: SeccompData): Word {
    if Arch(d) != AUDIT_ARCH_X86_64 then KILL_PROCESS
    else if Number(d) >= X32_BIT then DENY_ENOSYS
    else if Permitted(rules, denied, d) then ALLOW
    else DENY_EPERM
  }

  // ----- The compiler -----

  const PROLOGUE: seq<Instruction> := [
    Stmt(LOAD_WORD, ARCH_OFFSET),
    Jump(JUMP_EQUAL, AUDIT_ARCH_X86_64, 1, 0),
    Stmt(RETURN, KILL_PROCESS),
    Stmt(LOAD_WORD, NUMBER_OFFSET),
    Jump(JUMP_GE, X32_BIT, 0, 1),
    Stmt(RETURN, DENY_ENOSYS)]

  /** The test in the middle of a rule: it steps onto the ALLOW return when the
      rule accepts and over it otherwise. */
  function RuleTest(rule: ArgumentRule): Instruction {
    match rule
    case MaskRule(_, _, mask, requireSet) => if requireSet then Jump(JUMP_SET, mask, 0, 1) else Jump(JUMP_SET, mask, 1, 0)
    case EqualRule(_, _, value) => Jump(JUMP_EQUAL, value, 0, 1)
    case NotEqualRule(_, _, value) => Jump(JUMP_EQUAL, value, 1, 0)
  }

  function RuleCode(rule: ArgumentRule): seq<Instruction> {
    [Jump(JUMP_EQUAL, rule.number, 0, 4),
     Stmt(LOAD_WORD, ARGS_OFFSET + rule.argument * 8),
     RuleTest(rule),
     Stmt(RETURN, ALLOW),
     Stmt(RETURN, DENY_EPERM),
     Stmt(LOAD_WORD, NUMBER_OFFSET)]
  }

  function RulesCode(rules: seq<ArgumentRule>): seq<Instruction> {
    if rules == [] then [] else RuleCode(rules[0]) + RulesCode(rules[1..])
  }

  function DenyCode(number: Word): seq<Instruction> {
    [Jump(JUMP_EQUAL, number, 0, 1), Stmt(RETURN, DENY_EPERM)]
  }

  function DenyListCode(denied: seq<Word>): seq<Instruction> {
    if denied == [] then [] else DenyCode(denied[0]) + DenyListCode(denied[1..])
  }

  function Compile(rules: seq<ArgumentRule>, denied: seq<Word>): seq<Instruction> {
    PROLOGUE + RulesCode(rules) + DenyListCode(denied) + [Stmt(RETURN, ALLOW)]
  }

  // ----- Fragments -----

  lemma RuleSkipped(rule: ArgumentRule, rest: seq<Instruction>, d: SeccompData)
    requires Number(d) != rule.number
    ensures Run(RuleCode(rule) + rest, 0, Number(d), d).outcome == Run(rest, 0, Number(d), d).outcome
  {
    var p, n := RuleCode(rule) + rest, Number(d);
    assert p[0] == RuleCode(rule)[0] && p[5] == RuleCode(rule)[5];
    assert Run(p, 0, n, d).outcome == Run(p, 5, n, d).outcome == Run(p, 6, n, d).outcome;
    Relocate(RuleCode(rule), rest, 0, n, d);
  }

  lemma RuleDecides(rule: ArgumentRule, rest: seq<Instruction>, d: SeccompData)
    requires Number(d) == rule.number
    ensures Run(RuleCode(rule) + rest, 0, Number(d), d).outcome == Verdict(if Accepts(rule, d) then ALLOW else DENY_EPERM)
  {
    var p, n := RuleCode(rule) + rest, Number(d);
    var a := ArgumentLow(d, rule.argument);
    assert forall i :: 0 <= i < 6 ==> p[i] == RuleCode(rule)[i];
    assert p[1].k == 16 + rule.argument * 8 && p[1].k / 4 == 4 + 2 * rule.argument;
    assert Run(p, 0, n, d).outcome == Run(p, 1, n, d).outcome == Run(p, 2, a, d).outcome;
    assert Run(p, 3, a, d).outcome == Verdict(ALLOW) && Run(p, 4, a, d).outcome == Verdict(DENY_EPERM);
  }

  /** One rule decides its own call, and hands every other call to the code
      behind it with the call number back in the accumulator. */
  lemma RuleFragment(rule: ArgumentRule, rest: seq<Instruction>, d: SeccompData)
    ensures Run(RuleCode(rule) + rest, 0, Number(d), d).outcome ==
            if Number(d) != rule.number then Run(rest, 0, Number(d), d).outcome
            else if Accepts(rule, d) then Verdict(ALLOW)
            else Verdict(DENY_EPERM)
  {
    if Number(d) != rule.number { RuleSkipped(rule, rest, d); } else { RuleDecides(rule, rest, d); }
  }

  lemma DenyFragment(number: Word, rest: seq<Instruction>, d: SeccompData)
    ensures Run(DenyCode(number) + rest, 0, Number(d), d).outcome ==
            if Number(d) == number then Verdict(DENY_EPERM) else Run(rest, 0, Number(d), d).outcome
  {
    var p := DenyCode(number) + rest;
    assert p[0] == DenyCode(number)[0] && p[1] == DenyCode(number)[1];
    if Number(d) == number {
      assert Run(p, 0, Number(d), d).outcome == Run(p, 1, Number(d), d).outcome;
    } else {
      assert Run(p, 0, Number(d), d).outcome == Run(p, 2, Number(d), d).outcome;
      Relocate(DenyCode(number), rest, 0, Number(d), d);
    }
  }

  lemma {:induction false} DenyListFragment(denied: seq<Word>, d: SeccompData)
    ensures Run(DenyListCode(denied) + [Stmt(RETURN, ALLOW)], 0, Number(d), d).outcome ==
            if Number(d) in denied then Verdict(DENY_EPERM) else Verdict(ALLOW)
  {
    var last := [Stmt(RETURN, ALLOW)];
    if denied == [] {
      assert DenyListCode(denied) + last == last;
    } else {
      var rest := DenyListCode(denied[1..]) + last;
      assert DenyListCode(denied) + last == DenyCode(denied[0]) + rest;
      DenyFragment(denied[0], rest, d);
      DenyListFragment(denied[1..], d);
    }
  }

  lemma {:induction false} RulesFragment(rules: seq<ArgumentRule>, denied: seq<Word>, d: SeccompData)
    ensures Run(RulesCode(rules) + (DenyListCode(denied) + [Stmt(RETURN, ALLOW)]), 0, Number(d), d).outcome ==
            if Permitted(rules, denied, d) then Verdict(ALLOW) else Verdict(DENY_EPERM)
  {
    var tail := DenyListCode(denied) + [Stmt(RETURN, ALLOW)];
    if rules == [] {
      assert RulesCode(rules) + tail == tail;
      DenyListFragment(denied, d);
    } else {
      var rest := RulesCode(rules[1..]) + tail;
      assert RulesCode(rules) + tail == RuleCode(rules[0]) + rest;
      RuleFragment(rules[0], rest, d);
      RulesFragment(rules[1..], denied, d);
      if rules[0].number == Number(d) {
        FirstRuleDecides(rules, denied, d);
      } else {
        LaterRuleDecides(rules, denied, d);
      }
    }
  }

  lemma FirstRuleDecides(rules: seq<ArgumentRule>, denied: seq<Word>, d: SeccompData)
    requires rules != [] && rules[0].number == Number(d)
    ensures Permitted(rules, denied, d) <==> Accepts(rules[0], d)
  {
    assert Decides(rules, 0, Number(d));
  }

  lemma LaterRuleDecides(rules: seq<ArgumentRule>, denied: seq<Word>, d: SeccompData)
    requires rules != [] && rules[0].number != Number(d)
    ensures Permitted(rules, denied, d) <==> Permitted(rules[1..], denied, d)
  {
    var n := Number(d);
    var tail := rules[1..];
    forall i | 0 <= i < |tail| ensures Decides(tail, i, n) <==> Decides(rules, i + 1, n) {
      assert tail[i] == rules[i + 1];
      if Decides(tail, i, n) {
        forall j | 0 <= j < i + 1 ensures rules[j].number != n {
          if j > 0 { assert rules[j] == tail[j - 1]; }
        }
      }
      if Decides(rules, i + 1, n) {
        forall j | 0 <= j < i ensures tail[j].number != n {
          assert tail[j] == rules[j + 1];
        }
      }
    }
    if exists i :: 0 <= i < |rules| && Decides(rules, i, n) && Accepts(rules[i], d) {
      var i :| 0 <= i < |rules| && Decides(rules, i, n) && Accepts(rules[i], d);
      assert tail[i - 1] == rules[i];
      assert Decides(tail, i - 1, n);
    }
    if exists i :: 0 <= i < |tail| && Decides(tail, i, n) && Accepts(tail[i], d) {
      var i :| 0 <= i < |tail| && Decides(tail, i, n) && Accepts(tail[i], d);
      assert Decides(rules, i + 1, n);
    }
    assert (forall i :: 0 <= i < |rules| ==> rules[i].number != n)
      <==> (forall i :: 0 <= i < |tail| ==> tail[i].number != n) by {
      assert forall i :: 0 < i < |rules| ==> rules[i] == tail[i - 1];
      assert forall i :: 0 <= i < |tail| ==> tail[i] == rules[i + 1];
    }
  }

  // ----- Whole programs -----

  /** Compiler correctness: on every seccomp_data the program returns what the
      policy says, whatever the accumulator held, within one pass over it. */
  lemma CompilerCorrect(rules: seq<ArgumentRule>, denied: seq<Word>, acc: Word, d: SeccompData)
    ensures Run(Compile(rules, denied), 0, acc, d).outcome == Verdict(Policy(rules, denied, d))
    ensures Run(Compile(rules, denied), 0, acc, d).steps <= |Compile(rules, denied)|
  {
    var body := RulesCode(rules) + (DenyListCode(denied) + [Stmt(RETURN, ALLOW)]);
    var p := Compile(rules, denied);
    assert p == PROLOGUE + body;
    assert forall i :: 0 <= i < 6 ==> p[i] == PROLOGUE[i];
    assert Run(p, 0, acc, d).outcome == Run(p, 1, Arch(d), d).outcome;
    if Arch(d) != AUDIT_ARCH_X86_64 {
      assert Run(p, 1, Arch(d), d).outcome == Run(p, 2, Arch(d), d).outcome;
    } else {
      assert Run(p, 1, Arch(d), d).outcome == Run(p, 3, Arch(d), d).outcome == Run(p, 4, Number(d), d).outcome;
      if Number(d) >= X32_BIT {
        assert Run(p, 4, Number(d), d).outcome == Run(p, 5, Number(d), d).outcome;
      } else {
        assert Run(p, 4, Number(d), d).outcome == Run(p, 6, Number(d), d).outcome;
        Relocate(PROLOGUE, body, 0, Number(d), d);
        RulesFragment(rules, denied, d);
      }
    }
  }

  lemma RuleCodeClosed(rule: ArgumentRule)
    ensures ClosedFragment(RuleCode(rule))
  {
    assert RuleCode(rule)[1].k == 16 + rule.argument * 8;
    assert RuleCode(rule)[1].k % 4 == 0;
  }

  lemma {:induction false} DenyListAttachable(denied: seq<Word>)
    ensures Attachable(DenyListCode(denied) + [Stmt(RETURN, ALLOW)])
  {
    var last := [Stmt(RETURN, ALLOW)];
    if denied == [] {
      assert DenyListCode(denied) + last == last;
    } else {
      DenyListAttachable(denied[1..]);
      PrependKeepsAttachable(DenyCode(denied[0]), DenyListCode(denied[1..]) + last);
      assert DenyListCode(denied) + last == DenyCode(denied[0]) + (DenyListCode(denied[1..]) + last);
    }
  }

  lemma {:induction false} RulesAttachable(rules: seq<ArgumentRule>, tail: seq<Instruction>)
    requires Attachable(tail)
    ensures Attachable(RulesCode(rules) + tail)
  {
    if rules == [] {
      assert RulesCode(rules) + tail == tail;
    } else {
      RulesAttachable(rules[1..], tail);
      RuleCodeClosed(rules[0]);
      PrependKeepsAttachable(RuleCode(rules[0]), RulesCode(rules[1..]) + tail);
      assert RulesCode(rules) + tail == RuleCode(rules[0]) + (RulesCode(rules[1..]) + tail);
    }
  }

  /** Every jump of a compiled program lands inside it and every load is legal,
      so the kernel's own check accepts it. */
  lemma CompiledIsAttachable(rules: seq<ArgumentRule>, denied: seq<Word>)
    ensures Attachable(Compile(rules, denied))
  {
    var tail := DenyListCode(denied) + [Stmt(RETURN, ALLOW)];
    DenyListAttachable(denied);
    RulesAttachable(rules, tail);
    PrependKeepsAttachable(PROLOGUE, RulesCode(rules) + tail);
    assert Compile(rules, denied) == PROLOGUE + (RulesCode(rules) + tail);
  }

  /** The order and multiplicity of the deny list do not matter. */
  lemma DenyOrderIrrelevant(rules: seq<ArgumentRule>, denied: seq<Word>, denied': seq<Word>, acc: Word, d: SeccompData)
    requires forall n: Word :: n in denied <==> n in denied'
    ensures Run(Compile(rules, denied), 0, acc, d).outcome == Run(Compile(rules, denied'), 0, acc, d).outcome
  {
    CompilerCorrect(rules, denied, acc, d);
    CompilerCorrect(rules, denied', acc, d);
  }

  lemma {:induction false} CodeLengths(rules: seq<ArgumentRule>, denied: seq<Word>)
    ensures |RulesCode(rules)| == 6 * |rules|
    ensures |DenyListCode(denied)| == 2 * |denied|
    decreases |rules| + |denied|
  {
    if rules != [] {
      CodeLengths(rules[1..], denied);
    } else if denied != [] {
      CodeLengths(rules, denied[1..]);
    }
  }
}
