/** The program RestrictParser installs: the six argument rules and the four deny
    lists of the repository, emitted step by step, as an instance of the compiler. */
module ParserSandbox {
  import opened Bpf
  import opened ParserPolicy

  const SYS_CLONE: Word := 56
  const SYS_TGKILL: Word := 234
  const SYS_PRLIMIT64: Word := 302
  const SYS_PRCTL: Word := 157
  const SYS_OPEN: Word := 2
  const SYS_OPENAT: Word := 257

  const CLONE_THREAD: Word := 0x0001_0000
  const PR_SET_PDEATHSIG: Word := 1
  const WRITE_OPEN_FLAGS: Word := 0x643   // O_WRONLY | O_RDWR | O_CREAT | O_TRUNC | O_APPEND

  const MAX_INSTRUCTIONS: nat := 4096     // BPF_MAXINSNS

  const NETWORK: seq<Word> := [
    41, 53, 42, 49, 50, 43, 288, 44, 45, 46, 47, 307, 299, 51, 52, 54, 55, 48, 425, 426, 427]

  const PROCESS_ISOLATION: seq<Word> := [
    57, 58, 435, 62, 200, 129, 297, 434, 438, 424, 101, 310, 311, 440, 448, 312, 308, 272, 112,
    109, 203, 142, 144, 314, 141, 251]

  // creat .. fchownat
  const PATH_MUTATION: seq<Word> := [
    85, 437, 87, 263, 82, 264, 316, 83, 258, 84, 86, 265, 88, 266, 133, 259, 90, 91, 268, 452, 92,
    93, 94, 260]

  // truncate .. open_by_handle_at
  const CONTENT_AND_MOUNT_MUTATION: seq<Word> := [
    76, 77, 285, 132, 235, 261, 280, 188, 189, 190, 197, 198, 199, 165, 166, 155, 161, 429, 428,
    430, 431, 432, 433, 442, 304]

  const FILESYSTEM_MUTATION: seq<Word> := PATH_MUTATION + CONTENT_AND_MOUNT_MUTATION

  const KERNEL_SURFACE: seq<Word> := [
    321, 298, 323, 250, 248, 249, 169, 246, 320, 175, 313, 176, 163, 167, 168, 179, 319, 29, 30, 31,
    68, 69, 70, 71, 64, 65, 66, 220, 240, 241, 242, 243, 244, 245]

  const DENIED: seq<Word> := NETWORK + PROCESS_ISOLATION + FILESYSTEM_MUTATION + KERNEL_SURFACE

  function ParserRules(processID: Word): seq<ArgumentRule> {
    [MaskRule(SYS_CLONE, 0, CLONE_THREAD, true),
     EqualRule(SYS_TGKILL, 0, processID),
     EqualRule(SYS_PRLIMIT64, 0, 0),
     NotEqualRule(SYS_PRCTL, 0, PR_SET_PDEATHSIG),
     MaskRule(SYS_OPEN, 1, WRITE_OPEN_FLAGS, false),
     MaskRule(SYS_OPENAT, 2, WRITE_OPEN_FLAGS, false)]
  }

  // ----- Emission -----

  method AppendArgumentMaskRule(filters: seq<Instruction>, number: Word, argument: Argument, mask: Word, requireSet: bool)
    returns (extended: seq<Instruction>)
    ensures extended == filters + RuleCode(MaskRule(number, argument, mask, requireSet))
  {
    extended := filters + [
      Jump(JUMP_EQUAL, number, 0, 4),
      Stmt(LOAD_WORD, ARGS_OFFSET + argument * 8)];
    if requireSet {
      extended := extended + [Jump(JUMP_SET, mask, 0, 1)];
    } else {
      extended := extended + [Jump(JUMP_SET, mask, 1, 0)];
    }
    extended := extended + [
      Stmt(RETURN, ALLOW),
      Stmt(RETURN, DENY_EPERM),
      Stmt(LOAD_WORD, NUMBER_OFFSET)];
  }

  function AppendArgumentEqualRule(filters: seq<Instruction>, number: Word, argument: Argument, value: Word): seq<Instruction> {
    filters + [
      Jump(JUMP_EQUAL, number, 0, 4),
      Stmt(LOAD_WORD, ARGS_OFFSET + argument * 8),
      Jump(JUMP_EQUAL, value, 0, 1),
      Stmt(RETURN, ALLOW),
      Stmt(RETURN, DENY_EPERM),
      Stmt(LOAD_WORD, NUMBER_OFFSET)]
  }

  function AppendArgumentNotEqualRule(filters: seq<Instruction>, number: Word, argument: Argument, value: Word): seq<Instruction> {
    filters + [
      Jump(JUMP_EQUAL, number, 0, 4),
      Stmt(LOAD_WORD, ARGS_OFFSET + argument * 8),
      Jump(JUMP_EQUAL, value, 1, 0),
      Stmt(RETURN, ALLOW),
      Stmt(RETURN, DENY_EPERM),
      Stmt(LOAD_WORD, NUMBER_OFFSET)]
  }

  method AppendDenyList(filters: seq<Instruction>, denied: seq<Word>) returns (extended: seq<Instruction>)
    ensures extended == filters + DenyListCode(denied)
  {
    extended := filters;
    for i := 0 to |denied|
      invariant extended + DenyListCode(denied[i..]) == filters + DenyListCode(denied)
    {
      assert denied[i..][0] == denied[i] && denied[i..][1..] == denied[i + 1..];
      assert extended + DenyListCode(denied[i..]) == extended + DenyCode(denied[i]) + DenyListCode(denied[i + 1..]);
      extended := extended + [
        Jump(JUMP_EQUAL, denied[i], 0, 1),
        Stmt(RETURN, DENY_EPERM)];
    }
    assert denied[|denied|..] == [];
  }

  /** parserFilters, over its four deny lists: the emitted program is the
      compiled form of the six rules and the lists together. */
  method EmitFilters(processID: Word, network: seq<Word>, isolation: seq<Word>, filesystem: seq<Word>, surface: seq<Word>)
    returns (filters: seq<Instruction>)
    ensures filters == Compile(ParserRules(processID), network + isolation + filesystem + surface)
  {
    filters := [
      Stmt(LOAD_WORD, ARCH_OFFSET),
      Jump(JUMP_EQUAL, AUDIT_ARCH_X86_64, 1, 0),
      Stmt(RETURN, KILL_PROCESS),
      Stmt(LOAD_WORD, NUMBER_OFFSET),
      Jump(JUMP_GE, X32_BIT, 0, 1),
      Stmt(RETURN, DENY_ENOSYS)];
    filters := AppendArgumentMaskRule(filters, SYS_CLONE, 0, CLONE_THREAD, true);
    filters := AppendArgumentEqualRule(filters, SYS_TGKILL, 0, processID);
    filters := AppendArgumentEqualRule(filters, SYS_PRLIMIT64, 0, 0);
    filters := AppendArgumentNotEqualRule(filters, SYS_PRCTL, 0, PR_SET_PDEATHSIG);
    filters := AppendArgumentMaskRule(filters, SYS_OPEN, 1, WRITE_OPEN_FLAGS, false);
    filters := AppendArgumentMaskRule(filters, SYS_OPENAT, 2, WRITE_OPEN_FLAGS, false);
    SixRules(PROLOGUE, filters, ParserRules(processID));
    var denied: seq<Word> := [];
    denied := denied + network;
    denied := denied + isolation;
    denied := denied + filesystem;
    denied := denied + surface;
    assert denied == network + isolation + filesystem + surface;
    filters := AppendDenyList(filters, denied);
    filters := filters + [Stmt(RETURN, ALLOW)];
  }

  lemma DenyListLengths()
    ensures |NETWORK| == 21 && |PROCESS_ISOLATION| == 26 && |FILESYSTEM_MUTATION| == 49 && |KERNEL_SURFACE| == 34
  {
  }

  /** The installed program decides every system call as the declarative policy
      does, passes the kernel's check, and fits the 16-bit length field. */
  method ParserFilters(processID: Word) returns (filters: seq<Instruction>)
    ensures forall acc: Word, d: SeccompData ::
              Run(filters, 0, acc, d).outcome == Verdict(Policy(ParserRules(processID), DENIED, d))
    ensures Attachable(filters)
    ensures |filters| == 303 < MAX_INSTRUCTIONS
  {
    filters := EmitFilters(processID, NETWORK, PROCESS_ISOLATION, FILESYSTEM_MUTATION, KERNEL_SURFACE);
    DenyListLengths();
    ghost var rules, denied := ParserRules(processID), DENIED;
    forall acc: Word, d: SeccompData
      ensures Run(filters, 0, acc, d).outcome == Verdict(Policy(rules, denied, d))
    {
      CompilerCorrect(rules, denied, acc, d);
    }
    CompiledIsAttachable(rules, denied);
    CodeLengths(rules, denied);
  }

  lemma SixRules(before: seq<Instruction>, after: seq<Instruction>, r: seq<ArgumentRule>)
    requires |r| == 6
    requires after == before + RuleCode(r[0]) + RuleCode(r[1]) + RuleCode(r[2]) + RuleCode(r[3]) + RuleCode(r[4]) + RuleCode(r[5])
    ensures after == before + RulesCode(r)
  {
    var r5 := r[5..];
    var r4 := r[4..];
    var r3 := r[3..];
    var r2 := r[2..];
    var r1 := r[1..];
    assert r5[1..] == [] && r4[1..] == r5 && r3[1..] == r4 && r2[1..] == r3 && r1[1..] == r2;
    assert RulesCode(r5) == RuleCode(r[5]);
    assert RulesCode(r4) == RuleCode(r[4]) + RulesCode(r5);
    assert RulesCode(r3) == RuleCode(r[3]) + RulesCode(r4);
    assert RulesCode(r2) == RuleCode(r[2]) + RulesCode(r3);
    assert RulesCode(r1) == RuleCode(r[1]) + RulesCode(r2);
  }

  // ----- What the installed policy means -----

  predicate HasRule(n: Word) {
    n in {SYS_CLONE, SYS_TGKILL, SYS_PRLIMIT64, SYS_PRCTL, SYS_OPEN, SYS_OPENAT}
  }

  lemma NetworkUnruled(n: Word) requires n in NETWORK ensures !HasRule(n) {}
  lemma ProcessIsolationUnruled(n: Word) requires n in PROCESS_ISOLATION ensures !HasRule(n) {}
  lemma PathMutationUnruled(n: Word) requires n in PATH_MUTATION ensures !HasRule(n) {}
  lemma ContentMutationUnruled(n: Word) requires n in CONTENT_AND_MOUNT_MUTATION ensures !HasRule(n) {}
  lemma KernelSurfaceUnruled(n: Word) requires n in KERNEL_SURFACE ensures !HasRule(n) {}

  ghost predicate Native(d: SeccompData) {
    Arch(d) == AUDIT_ARCH_X86_64 && Number(d) < X32_BIT
  }

  lemma RuledDecision(processID: Word, denied: seq<Word>, d: SeccompData, i: nat)
    requires Native(d) && i < 6 && Number(d) == ParserRules(processID)[i].number
    ensures Policy(ParserRules(processID), denied, d) == if Accepts(ParserRules(processID)[i], d) then ALLOW else DENY_EPERM
  {
    var rules := ParserRules(processID);
    assert Decides(rules, i, Number(d));
  }

  lemma UnruledDecision(processID: Word, denied: seq<Word>, d: SeccompData)
    requires Native(d) && !HasRule(Number(d))
    ensures Policy(ParserRules(processID), denied, d) == if Number(d) in denied then DENY_EPERM else ALLOW
  {
  }

  /** Every native call, decided: the six ruled calls by one argument each, any
      other call by the deny lists alone. */
  lemma InstalledPolicy(processID: Word, denied: seq<Word>, d: SeccompData)
    requires Native(d)
    ensures var n := Number(d);
            Policy(ParserRules(processID), denied, d) ==
            if n == SYS_CLONE then (if ContainsAll(ArgumentLow(d, 0), CLONE_THREAD) then ALLOW else DENY_EPERM)
            else if n == SYS_TGKILL then (if ArgumentLow(d, 0) == processID then ALLOW else DENY_EPERM)
            else if n == SYS_PRLIMIT64 then (if ArgumentLow(d, 0) == 0 then ALLOW else DENY_EPERM)
            else if n == SYS_PRCTL then (if ArgumentLow(d, 0) == PR_SET_PDEATHSIG then DENY_EPERM else ALLOW)
            else if n == SYS_OPEN then (if Overlaps(ArgumentLow(d, 1), WRITE_OPEN_FLAGS) then DENY_EPERM else ALLOW)
            else if n == SYS_OPENAT then (if Overlaps(ArgumentLow(d, 2), WRITE_OPEN_FLAGS) then DENY_EPERM else ALLOW)
            else if n in denied then DENY_EPERM
            else ALLOW
  {
    var n := Number(d);
    if n == SYS_CLONE {
      RuledDecision(processID, denied, d, 0);
      OneBitOverlapIsContainment(ArgumentLow(d, 0), CLONE_THREAD);
    } else if n == SYS_TGKILL {
      RuledDecision(processID, denied, d, 1);
    } else if n == SYS_PRLIMIT64 {
      RuledDecision(processID, denied, d, 2);
    } else if n == SYS_PRCTL {
      RuledDecision(processID, denied, d, 3);
    } else if n == SYS_OPEN {
      RuledDecision(processID, denied, d, 4);
    } else if n == SYS_OPENAT {
      RuledDecision(processID, denied, d, 5);
    } else {
      UnruledDecision(processID, denied, d);
    }
  }

  lemma UnruledDenialsHold(processID: Word, denied: seq<Word>, acc: Word, d: SeccompData)
    requires Number(d) in denied && !HasRule(Number(d))
    ensures Run(Compile(ParserRules(processID), denied), 0, acc, d).outcome ==
            if Arch(d) != AUDIT_ARCH_X86_64 then Verdict(KILL_PROCESS)
            else if Number(d) >= X32_BIT then Verdict(DENY_ENOSYS)
            else Verdict(DENY_EPERM)
  {
    CompilerCorrect(ParserRules(processID), denied, acc, d);
    if Native(d) {
      InstalledPolicy(processID, denied, d);
    }
  }

  /** No argument makes a listed call succeed. */
  lemma ListedCallsNeverSucceed(processID: Word, acc: Word, d: SeccompData)
    ensures Number(d) in DENIED ==> Run(Compile(ParserRules(processID), DENIED), 0, acc, d).outcome != Verdict(ALLOW)
  {
    var n := Number(d);
    if n !in DENIED {
      return;
    }
    if n in NETWORK {
      NetworkUnruled(n);
    } else if n in PROCESS_ISOLATION {
      ProcessIsolationUnruled(n);
    } else if n in PATH_MUTATION {
      PathMutationUnruled(n);
    } else if n in CONTENT_AND_MOUNT_MUTATION {
      ContentMutationUnruled(n);
    } else {
      KernelSurfaceUnruled(n);
    }
    UnruledDenialsHold(processID, DENIED, acc, d);
  }
}
