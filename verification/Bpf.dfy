/** The classic BPF machine that runs a seccomp filter, as far as the parser
    sandbox uses it: absolute 32-bit loads, three conditional forward jumps and
    a constant return. */
module Bpf {
  type Word = x: int | 0 <= x < 0x1_0000_0000
  type Offset = x: int | 0 <= x < 0x100

  datatype Instruction = Instruction(code: nat, k: Word, jt: Offset, jf: Offset)

  const LOAD_WORD: nat := 0x20    // BPF_LD | BPF_W | BPF_ABS
  const JUMP_EQUAL: nat := 0x15   // BPF_JMP | BPF_JEQ | BPF_K
  const JUMP_GE: nat := 0x35      // BPF_JMP | BPF_JGE | BPF_K
  const JUMP_SET: nat := 0x45     // BPF_JMP | BPF_JSET | BPF_K
  const RETURN: nat := 0x06       // BPF_RET | BPF_K

  function Stmt(code: nat, value: Word): Instruction {
    Instruction(code, value, 0, 0)
  }

  function Jump(code: nat, value: Word, onTrue: Offset, onFalse: Offset): Instruction {
    Instruction(code, value, onTrue, onFalse)
  }

  /** struct seccomp_data seen as its sixteen aligned 32-bit words: the system
      call number, the architecture, the instruction pointer (two words) and six
      64-bit arguments, low word first. */
  type SeccompData = w: seq<Word> | |w| == 16 witness seq(16, _ => 0)

  predicate CommonBit(a: bv32, m: bv32) { a & m != 0 }

  predicate AllBits(a: bv32, m: bv32) { a & m == m }

  predicate OneBit(m: bv32) { m != 0 && m & (m - 1) == 0 }

  /** The test of BPF_JSET. */
  predicate Overlaps(a: Word, mask: Word) { CommonBit(a as bv32, mask as bv32) }

  predicate ContainsAll(a: Word, mask: Word) { AllBits(a as bv32, mask as bv32) }

  predicate SingleBit(mask: Word) { OneBit(mask as bv32) }

  lemma OneBitTests(a: bv32, m: bv32)
    requires OneBit(m)
    ensures CommonBit(a, m) <==> AllBits(a, m)
  {
  }

  /** BPF_JSET asks for any common bit; for a one-bit mask that is containment. */
  lemma OneBitOverlapIsContainment(a: Word, mask: Word)
    requires SingleBit(mask)
    ensures Overlaps(a, mask) <==> ContainsAll(a, mask)
  {
    OneBitTests(a as bv32, mask as bv32);
  }

  lemma AndTwice(m: bv32, x: bv32)
    ensures (m & x) & m == m & x
  {
  }

  lemma LowestBitCleared(m: bv32)
    requires m != 0
    ensures m & (m - 1) != m
  {
  }

  /** An argument for which the two tests differ, if the mask has no bit or several. */
  lemma OtherTestsDiffer(m: bv32) returns (a: bv32)
    requires !OneBit(m)
    ensures CommonBit(a, m) != AllBits(a, m)
  {
    a := m & (m - 1);
    AndTwice(m, m - 1);
    if m != 0 { LowestBitCleared(m); }
  }

  lemma WordOf(v: bv32) returns (a: Word)
    ensures a as bv32 == v
  {
    a := v as Word;
  }

  lemma OtherMasksDiffer(mask: Word) returns (a: Word)
    requires !SingleBit(mask)
    ensures Overlaps(a, mask) != ContainsAll(a, mask)
  {
    var v := OtherTestsDiffer(mask as bv32);
    a := WordOf(v);
  }

  /** The any-bit test is containment for every argument exactly if the mask has one bit. */
  lemma OverlapIsContainment(mask: Word)
    ensures (forall a: Word :: Overlaps(a, mask) <==> ContainsAll(a, mask)) <==> SingleBit(mask)
  {
    if SingleBit(mask) {
      forall a: Word ensures Overlaps(a, mask) <==> ContainsAll(a, mask) {
        OneBitOverlapIsContainment(a, mask);
      }
    } else {
      var a := OtherMasksDiffer(mask);
    }
  }

  datatype Outcome = Verdict(value: Word) | Fault

  /** The outcome of a run and the number of instructions it executed. */
  datatype Execution = Execution(outcome: Outcome, steps: nat)

  predicate Taken(i: Instruction, acc: Word) {
    if i.code == JUMP_EQUAL then acc == i.k
    else if i.code == JUMP_GE then acc >= i.k
    else Overlaps(acc, i.k)
  }

  function Run(p: seq<Instruction>, pc: nat, acc: Word, d: SeccompData): (r: Execution)
    ensures r.steps <= if pc < |p| then |p| - pc else 0
    decreases |p| - pc
  {
    if pc >= |p| then Execution(Fault, 0)
    else
      var i := p[pc];
      if i.code == LOAD_WORD then
        if i.k % 4 == 0 && i.k / 4 < 16 then
          var r := Run(p, pc + 1, d[i.k / 4], d);
          Execution(r.outcome, r.steps + 1)
        else Execution(Fault, 1)
      else if i.code in {JUMP_EQUAL, JUMP_GE, JUMP_SET} then
        var r := Run(p, pc + 1 + if Taken(i, acc) then i.jt else i.jf, acc, d);
        Execution(r.outcome, r.steps + 1)
      else if i.code == RETURN then Execution(Verdict(i.k), 1)
      else Execution(Fault, 1)
  }

  /** What the kernel demands before it attaches a program: known instructions,
      aligned loads inside seccomp_data, jumps that land inside the program. */
  predicate InstructionOk(p: seq<Instruction>, pc: nat)
    requires pc < |p|
  {
    var i := p[pc];
    || (i.code == LOAD_WORD && i.k % 4 == 0 && i.k < 64 && pc + 1 < |p|)
    || (i.code in {JUMP_EQUAL, JUMP_GE, JUMP_SET} && pc + 1 + i.jt < |p| && pc + 1 + i.jf < |p|)
    || i.code == RETURN
  }

  ghost predicate Attachable(p: seq<Instruction>) {
    && |p| > 0
    && forall pc: nat :: pc < |p| ==> InstructionOk(p, pc)
  }

  /** An attachable program always reaches a return instruction. */
  lemma {:induction false} AttachableNeverFaults(p: seq<Instruction>, pc: nat, acc: Word, d: SeccompData)
    requires Attachable(p) && pc < |p|
    ensures Run(p, pc, acc, d).outcome.Verdict?
    decreases |p| - pc
  {
    var i := p[pc];
    assert InstructionOk(p, pc);
    if i.code == LOAD_WORD {
      AttachableNeverFaults(p, pc + 1, d[i.k / 4], d);
    } else if i.code != RETURN {
      AttachableNeverFaults(p, pc + 1 + if Taken(i, acc) then i.jt else i.jf, acc, d);
    }
  }

  /** Jumps are relative and forward, so code placed before a fragment does not
      change how the fragment runs. */
  lemma {:induction false} Relocate(before: seq<Instruction>, p: seq<Instruction>, pc: nat, acc: Word, d: SeccompData)
    ensures Run(before + p, |before| + pc, acc, d) == Run(p, pc, acc, d)
    decreases |p| - pc
  {
    var all := before + p;
    if pc < |p| {
      var i := p[pc];
      assert all[|before| + pc] == i;
      if i.code == LOAD_WORD {
        if i.k % 4 == 0 && i.k / 4 < 16 {
          Relocate(before, p, pc + 1, d[i.k / 4], d);
        }
      } else if i.code in {JUMP_EQUAL, JUMP_GE, JUMP_SET} {
        Relocate(before, p, pc + 1 + if Taken(i, acc) then i.jt else i.jf, acc, d);
      }
    }
  }

  /** Prepending `pre` keeps a program attachable when `pre`'s own loads and
      jumps stay within `pre` or land on the first instruction after it. */
  ghost predicate ClosedFragment(pre: seq<Instruction>) {
    forall pc: nat :: pc < |pre| ==>
      var i := pre[pc];
      || (i.code == LOAD_WORD && i.k % 4 == 0 && i.k < 64)
      || (i.code in {JUMP_EQUAL, JUMP_GE, JUMP_SET} && pc + 1 + i.jt <= |pre| && pc + 1 + i.jf <= |pre|)
      || i.code == RETURN
  }

  lemma PrependKeepsAttachable(pre: seq<Instruction>, p: seq<Instruction>)
    requires ClosedFragment(pre) && Attachable(p)
    ensures Attachable(pre + p)
  {
    var all := pre + p;
    forall pc: nat | pc < |all| ensures InstructionOk(all, pc) {
      if pc >= |pre| {
        assert all[pc] == p[pc - |pre|];
        assert InstructionOk(p, pc - |pre|);
      } else {
        assert all[pc] == pre[pc];
      }
    }
  }
}
