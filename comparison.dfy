/**
 * What the code `ord_asm` emits for `eq`, `lt` and `gt` does on the Hack
 * machine. Unlike the other commands it jumps, so it is run with the program
 * counter machine `Run`, placed anywhere in a program whose labels the
 * assembler has bound to their own slots.
 */
module Comparison {
  import opened Options
  import opened Numeric
  import opened Asm
  import opened Hack
  import opened Commands
  import opened Translations
  import Babel
  import opened Vm
  import opened Correctness

  /** The assembler binds every label of the program to the slot it marks. */
  predicate LabelsResolved(sym: Symbols, p: seq<Assembly>)
  {
    forall k :: 0 <= k < |p| && p[k].Label? ==> p[k].name in sym && sym[p[k].name] as int == k
  }

  /** `code` occupies the slots of `p` from `at` on. */
  predicate Placed(p: seq<Assembly>, at: nat, code: seq<Assembly>)
  {
    at + |code| <= |p| && p[at..at + |code|] == code
  }

  lemma PlacedSlot(p: seq<Assembly>, at: nat, code: seq<Assembly>, i: nat)
    requires Placed(p, at, code) && i < |code|
    ensures p[at + i] == code[i]
  {
    assert p[at..at + |code|][i] == code[i];
  }

  lemma PlacedSlice(p: seq<Assembly>, at: nat, code: seq<Assembly>, i: nat, j: nat)
    requires Placed(p, at, code) && i <= j <= |code|
    ensures Placed(p, at + i, code[i..j])
  {
    forall k | 0 <= k < j - i
      ensures p[at + i..at + j][k] == code[i..j][k]
    {
      PlacedSlot(p, at, code, i + k);
    }
    assert p[at + i..at + j] == code[i..j];
  }

  /** Code placed as `a + b` places `a` at `at` and `b` right after it. */
  lemma PlacedSplit(p: seq<Assembly>, at: nat, a: seq<Assembly>, b: seq<Assembly>)
    requires Placed(p, at, a + b)
    ensures Placed(p, at, a) && Placed(p, at + |a|, b)
  {
    PlacedSlice(p, at, a + b, 0, |a|);
    PlacedSlice(p, at, a + b, |a|, |a + b|);
    assert (a + b)[0..|a|] == a && (a + b)[|a|..|a + b|] == b;
  }

  /** Code placed as `[x] + ([y] + c)` places `x`, `y` and `c` one after the other. */
  lemma PlacedTwoThen(p: seq<Assembly>, at: nat, x: Assembly, y: Assembly, c: seq<Assembly>)
    requires Placed(p, at, [x] + ([y] + c))
    ensures Placed(p, at, [x]) && Placed(p, at + 1, [y]) && Placed(p, at + 2, c)
  {
    PlacedSplit(p, at, [x], [y] + c);
    PlacedSplit(p, at + 1, [y], c);
  }

  /** A label that is not `SP` resolves to the slot it marks. */
  lemma ResolveLabel(sym: Symbols, p: seq<Assembly>, k: nat, name: string)
    requires LabelsResolved(sym, p) && k < |p| && p[k] == Label(name) && name != "SP"
    ensures Resolve(sym, name) as int == k
  {
  }

  /** The layout of the 18 slots that follow the pops in `ord_asm`. */
  lemma FlagLayout(n: nat, jump: Jump)
    ensures var code := FlagCode(n, jump);
            && |code| == 18
            && code[0] == AddrSym(JumpLabel(jump, n))
            && code[1] == Command(None, Comp.D, Some(jump))
            && code[2..8] == FalseCode(n)[..6]
            && code[8] == Command(None, Zero, Some(JMP))
            && code[9] == Label(JumpLabel(jump, n))
            && code[9..18] == TrueCode(n, jump) + JoinCode(n)
            && code[15] == Label(AfterLabel(n))
            && code[15..18] == JoinCode(n)
  {
    var code := FlagCode(n, jump);
    var bf := BranchCode(n, jump) + FalseCode(n);
    assert code == bf + (TrueCode(n, jump) + JoinCode(n));
    assert code[..9] == bf;
    assert code[9..18] == TrueCode(n, jump) + JoinCode(n);
    assert code[2..8] == FalseCode(n)[..6];
  }

  /** The layout of the 26 slots of `ord_asm`. */
  lemma OrdLayout(n: nat, jump: Jump)
    ensures var code := OrdCode(n, jump);
            && |code| == 26
            && code[..8] == PopOperandsCode(DminusM)
            && code[..9] == PopOperandsCode(DminusM) + [AddrSym(JumpLabel(jump, n))]
            && code[9] == Command(None, Comp.D, Some(jump))
            && code[10..16] == FalseCode(n)[..6]
            && code[16] == Command(None, Zero, Some(JMP))
            && code[17] == Label(JumpLabel(jump, n))
            && code[17..26] == TrueCode(n, jump) + JoinCode(n)
            && code[23] == Label(AfterLabel(n))
            && code[23..26] == JoinCode(n)
  {
    var code := OrdCode(n, jump);
    var flag := FlagCode(n, jump);
    FlagLayout(n, jump);
    assert code[8..] == flag;
    assert code[10..16] == flag[2..8];
    assert code[17..26] == flag[9..18];
    assert code[23..26] == flag[15..18];
  }

  /** The slots of a placed `ord_asm` that the run consults one at a time. */
  lemma OrdPlacedSlots(sym: Symbols, p: seq<Assembly>, at: nat, n: nat, jump: Jump)
    requires Placed(p, at, OrdCode(n, jump)) && LabelsResolved(sym, p)
    ensures at + 26 <= |p|
    ensures p[at + 9] == Command(None, Comp.D, Some(jump))
    ensures p[at + 16] == Command(None, Zero, Some(JMP))
    ensures Resolve(sym, JumpLabel(jump, n)) as int == at + 17
    ensures Resolve(sym, AfterLabel(n)) as int == at + 23
  {
    var code := OrdCode(n, jump);
    OrdLayout(n, jump);
    JumpLabelNotSp(jump, n);
    AfterLabelNotSp(n);
    PlacedSlot(p, at, code, 9);
    PlacedSlot(p, at, code, 16);
    PlacedSlot(p, at, code, 17);
    PlacedSlot(p, at, code, 23);
    ResolveLabel(sym, p, at + 17, JumpLabel(jump, n));
    ResolveLabel(sym, p, at + 23, AfterLabel(n));
  }

  /** The straight stretches of a placed `ord_asm`. */
  lemma OrdPlacedPieces(p: seq<Assembly>, at: nat, n: nat, jump: Jump)
    requires Placed(p, at, OrdCode(n, jump))
    ensures Placed(p, at, PopOperandsCode(DminusM) + [AddrSym(JumpLabel(jump, n))])
    ensures Placed(p, at + 10, FalseCode(n)[..6])
    ensures Placed(p, at + 17, TrueCode(n, jump) + JoinCode(n))
    ensures Placed(p, at + 23, JoinCode(n))
  {
    var code := OrdCode(n, jump);
    OrdLayout(n, jump);
    PlacedSlice(p, at, code, 0, 9);
    PlacedSlice(p, at, code, 10, 16);
    PlacedSlice(p, at, code, 17, 26);
    PlacedSlice(p, at, code, 23, 26);
  }

  /**
   * `@0`, `D=A`, `@SP`, `A=M`, `M=c`: the cell SP points at receives `c`
   * computed with D = 0.
   */
  lemma ExecWriteFlag(sym: Symbols, c: Comp, s: State)
    ensures var sp := Sp0(s);
            Exec(sym, WriteFlagCode(c), s) == State(sp, 0, s.ram[sp := Eval(c, State(sp, 0, s.ram))])
  {
    var s1 := State(0, 0, s.ram);
    ExecCons(sym, Address(0), [Assign(Dest.D, Comp.A), Sp(), Assign(Dest.A, Comp.M), Assign(Dest.M, c)], s);
    ExecCons(sym, Assign(Dest.D, Comp.A), [Sp(), Assign(Dest.A, Comp.M), Assign(Dest.M, c)], s.(a := 0));
    ExecCons(sym, Sp(), [Assign(Dest.A, Comp.M), Assign(Dest.M, c)], s1);
    ExecDeref(sym, Dest.M, c, s1);
  }

  /**
   * The value D holds at the conditional jump: top - second, as `D=D-M`
   * computes it with A at the second operand's cell.
   */
  function BranchValue(s: State): Word
    requires Sp0(s) >= 18
  {
    var second := Offset(Sp0(s), -2);
    Eval(DminusM, State(second, Read(s.ram, Offset(Sp0(s), -1)), s.ram[SpAddress := second]))
  }

  /** The branch value is the difference of the two operands modulo 2^16. */
  lemma BranchDifference(s: State)
    requires Sp0(s) >= 18
    ensures BranchValue(s) == ToWord(Read(s.ram, Offset(Sp0(s), -1)) as int - Read(s.ram, Offset(Sp0(s), -2)) as int)
  {
    OffsetInRange(Sp0(s), -2);
    SubtractMeaning(Offset(Sp0(s), -2), Read(s.ram, Offset(Sp0(s), -1)), s.ram);
  }

  /** The code up to the conditional jump pops both operands and leaves the branch value in D. */
  lemma ExecToBranch(sym: Symbols, n: nat, jump: Jump, s: State)
    requires Sp0(s) >= 18
    ensures Exec(sym, PopOperandsCode(DminusM) + [AddrSym(JumpLabel(jump, n))], s)
         == State(Resolve(sym, JumpLabel(jump, n)), BranchValue(s), s.ram[SpAddress := Offset(Sp0(s), -2)])
  {
    ExecAppend(sym, PopOperandsCode(DminusM), [AddrSym(JumpLabel(jump, n))], s);
    ExecPopOperands(sym, DminusM, s);
    ExecOne(sym, AddrSym(JumpLabel(jump, n)), Exec(sym, PopOperandsCode(DminusM), s));
  }

  /** `D=D-M` with A = `second`: the difference of D and the cell `second`, taken modulo 2^16. */
  lemma SubtractMeaning(second: Word, v: Word, ram: Ram)
    requires second != SpAddress
    ensures Eval(DminusM, State(second, v, ram)) == ToWord(v as int - Read(ram[SpAddress := second], second) as int)
    ensures Read(ram[SpAddress := second], second) == Read(ram, second)
  {
  }

  /** The taken branch: -1 at the second operand's cell, and SP just above it. */
  lemma ExecTruePath(sym: Symbols, n: nat, jump: Jump, s: State, second: Word, top: Word)
    requires Sp0(s) == second && second >= 16 && top as int == second as int + 1
    ensures Exec(sym, TrueCode(n, jump) + JoinCode(n), s)
         == State(SpAddress, 0, s.ram[second := Flag(true)][SpAddress := top])
  {
    ExecAppend(sym, TrueCode(n, jump), JoinCode(n), s);
    ExecCons(sym, MkLabel(JumpLabel(jump, n)), WriteFlagCode(Dminus1), s);
    ExecWriteFlag(sym, Dminus1, s);
    ExecJoin(sym, n, State(second, 0, s.ram[second := Flag(true)]), second, top);
  }

  /** The fall-through: 0 at the second operand's cell, then A = the join label. */
  lemma ExecFalsePath(sym: Symbols, n: nat, s: State)
    ensures var sp := Sp0(s);
            Exec(sym, FalseCode(n)[..6], s) == State(Resolve(sym, AfterLabel(n)), 0, s.ram[sp := Flag(false)])
  {
    assert FalseCode(n)[..6] == WriteFlagCode(Comp.D) + [AddrSym(AfterLabel(n))];
    ExecAppend(sym, WriteFlagCode(Comp.D), [AddrSym(AfterLabel(n))], s);
    ExecWriteFlag(sym, Comp.D, s);
  }

  /** The join: SP moves just above the cell the flag was written to. */
  lemma ExecJoin(sym: Symbols, n: nat, s: State, second: Word, top: Word)
    requires Sp0(s) == second && top as int == second as int + 1
    ensures Exec(sym, JoinCode(n), s) == State(SpAddress, s.d, s.ram[SpAddress := top])
  {
    ExecCons(sym, MkLabel(AfterLabel(n)), IncrementSpCode(), s);
    ExecIncrementSp(sym, s);
    OffsetInRange(second, 1);
  }

  /** The number of steps `ord_asm` takes: 19 when the jump is taken, 20 when not. */
  function OrdSteps(taken: bool): nat
  {
    if taken then 19 else 20
  }

  /** The state at the conditional jump: operands popped, D = top - second, A = the jump target. */
  function AtBranch(at: nat, s: State): State
    requires Sp0(s) >= 18 && at + 17 < 0x1_0000
  {
    var top := Offset(Sp0(s), -1);
    var second := Offset(Sp0(s), -2);
    State((at + 17) as Word, BranchValue(s), s.ram[SpAddress := second])
  }

  /** Whether the conditional jump of `ord_asm` is taken. */
  predicate Taken(jump: Jump, s: State)
  {
    Holds(jump, s.d)
  }

  /** One step at a conditional jump that writes nothing. */
  lemma RunJumpStep(sym: Symbols, p: seq<Assembly>, pc: nat, s: State, jump: Jump, c: Comp, fuel: nat)
    requires pc < |p| && p[pc] == Command(None, c, Some(jump)) && fuel >= 1
    ensures Run(sym, p, s, pc, fuel)
         == Run(sym, p, s, if Holds(jump, Eval(c, s)) then s.a as nat else pc + 1, fuel - 1)
  {
  }

  lemma RunToBranch(sym: Symbols, p: seq<Assembly>, at: nat, n: nat, jump: Jump, s: State, fuel: nat)
    requires Placed(p, at, OrdCode(n, jump)) && LabelsResolved(sym, p) && Sp0(s) >= 18 && fuel >= 10
    ensures at + 17 < 0x1_0000
    ensures Run(sym, p, s, at, fuel) == Run(sym, p, AtBranch(at, s), at + 9, fuel - 9)
  {
    OrdPlacedSlots(sym, p, at, n, jump);
    OrdPlacedPieces(p, at, n, jump);
    var head := PopOperandsCode(DminusM) + [AddrSym(JumpLabel(jump, n))];
    ExecToBranch(sym, n, jump, s);
    RunStraight(sym, p, s, at, head, fuel);
  }

  lemma RunBranch(sym: Symbols, p: seq<Assembly>, at: nat, n: nat, jump: Jump, b: State, fuel: nat)
    requires Placed(p, at, OrdCode(n, jump)) && LabelsResolved(sym, p) && b.a as int == at + 17 && fuel >= 1
    ensures Run(sym, p, b, at + 9, fuel) == Run(sym, p, b, if Taken(jump, b) then at + 17 else at + 10, fuel - 1)
  {
    OrdPlacedSlots(sym, p, at, n, jump);
    RunJumpStep(sym, p, at + 9, b, jump, Comp.D, fuel);
  }

  lemma RunTaken(sym: Symbols, p: seq<Assembly>, at: nat, n: nat, jump: Jump, b: State, second: Word, top: Word, fuel: nat)
    requires Placed(p, at, OrdCode(n, jump)) && fuel >= 9
    requires Sp0(b) == second && second >= 16 && top as int == second as int + 1
    ensures Run(sym, p, b, at + 17, fuel)
         == Run(sym, p, State(SpAddress, 0, b.ram[second := Flag(true)][SpAddress := top]), at + 26, fuel - 9)
  {
    OrdPlacedPieces(p, at, n, jump);
    var q := TrueCode(n, jump) + JoinCode(n);
    assert |q| == 9;
    RunStraight(sym, p, b, at + 17, q, fuel);
    ExecTruePath(sym, n, jump, b, second, top);
  }

  /** The fall-through writes 0 and reaches the unconditional jump to `AFTER<n>`. */
  lemma RunFalseWrite(sym: Symbols, p: seq<Assembly>, at: nat, n: nat, jump: Jump, b: State, fuel: nat)
    requires Placed(p, at, OrdCode(n, jump)) && LabelsResolved(sym, p) && fuel >= 6
    ensures at + 23 < 0x1_0000
    ensures Run(sym, p, b, at + 10, fuel)
         == Run(sym, p, State((at + 23) as Word, 0, b.ram[Sp0(b) := Flag(false)]), at + 16, fuel - 6)
  {
    OrdPlacedSlots(sym, p, at, n, jump);
    OrdPlacedPieces(p, at, n, jump);
    var q := FalseCode(n)[..6];
    assert |q| == 6;
    RunStraight(sym, p, b, at + 10, q, fuel);
    ExecFalsePath(sym, n, b);
  }

  /** The unconditional jump to `AFTER<n>`, then SP moves just above the flag. */
  lemma RunFalseJoin(sym: Symbols, p: seq<Assembly>, at: nat, n: nat, jump: Jump, f: State, second: Word, top: Word, fuel: nat)
    requires Placed(p, at, OrdCode(n, jump)) && LabelsResolved(sym, p) && f.a as int == at + 23 && fuel >= 4
    requires Sp0(f) == second && top as int == second as int + 1
    ensures Run(sym, p, f, at + 16, fuel)
         == Run(sym, p, State(SpAddress, f.d, f.ram[SpAddress := top]), at + 26, fuel - 4)
  {
    OrdPlacedSlots(sym, p, at, n, jump);
    OrdPlacedPieces(p, at, n, jump);
    RunJumpStep(sym, p, at + 16, f, JMP, Zero, fuel);
    RunStraight(sym, p, f, at + 23, JoinCode(n), fuel - 1);
    ExecJoin(sym, n, f, second, top);
  }

  lemma RunNotTaken(sym: Symbols, p: seq<Assembly>, at: nat, n: nat, jump: Jump, b: State, second: Word, top: Word, fuel: nat)
    requires Placed(p, at, OrdCode(n, jump)) && LabelsResolved(sym, p) && fuel >= 10
    requires Sp0(b) == second && top as int == second as int + 1
    ensures Run(sym, p, b, at + 10, fuel)
         == Run(sym, p, State(SpAddress, 0, b.ram[second := Flag(false)][SpAddress := top]), at + 26, fuel - 10)
  {
    RunFalseWrite(sym, p, at, n, jump, b, fuel);
    var f := State((at + 23) as Word, 0, b.ram[second := Flag(false)]);
    assert Sp0(f) == second;
    RunFalseJoin(sym, p, at, n, jump, f, second, top, fuel - 6);
  }

  /** The memory `ord_asm` leaves: the stack one entry shorter, the flag at the new top. */
  function OrdResult(s: State, taken: bool): State
    requires Sp0(s) >= 18
  {
    State(SpAddress, 0, s.ram[SpAddress := Offset(Sp0(s), -1)][Offset(Sp0(s), -2) := Flag(taken)])
  }

  /** The taken path of `ord_asm` from its first slot. */
  lemma OrdRunTaken(sym: Symbols, p: seq<Assembly>, at: nat, n: nat, jump: Jump, s: State, fuel: nat)
    requires Placed(p, at, OrdCode(n, jump)) && LabelsResolved(sym, p) && OrdTaken(jump, s)
    requires fuel >= 19
    ensures Run(sym, p, s, at, fuel) == Run(sym, p, OrdResult(s, true), at + 26, fuel - 19)
  {
    OffsetInRange(Sp0(s), -1);
    OffsetInRange(Sp0(s), -2);
    RunToBranch(sym, p, at, n, jump, s, fuel);
    var b := AtBranch(at, s);
    assert Taken(jump, b);
    RunBranch(sym, p, at, n, jump, b, fuel - 9);
    assert Sp0(b) == Offset(Sp0(s), -2);
    RunTaken(sym, p, at, n, jump, b, Offset(Sp0(s), -2), Offset(Sp0(s), -1), fuel - 10);
    MoveSp(s.ram, Offset(Sp0(s), -2), Offset(Sp0(s), -1), Flag(true));
  }

  /** The fall-through path of `ord_asm` from its first slot. */
  lemma OrdRunNotTaken(sym: Symbols, p: seq<Assembly>, at: nat, n: nat, jump: Jump, s: State, fuel: nat)
    requires Placed(p, at, OrdCode(n, jump)) && LabelsResolved(sym, p) && Sp0(s) >= 18 && !OrdTaken(jump, s)
    requires fuel >= 20
    ensures Run(sym, p, s, at, fuel) == Run(sym, p, OrdResult(s, false), at + 26, fuel - 20)
  {
    OffsetInRange(Sp0(s), -1);
    OffsetInRange(Sp0(s), -2);
    RunToBranch(sym, p, at, n, jump, s, fuel);
    var b := AtBranch(at, s);
    assert !Taken(jump, b);
    RunBranch(sym, p, at, n, jump, b, fuel - 9);
    assert Sp0(b) == Offset(Sp0(s), -2);
    RunNotTaken(sym, p, at, n, jump, b, Offset(Sp0(s), -2), Offset(Sp0(s), -1), fuel - 10);
    MoveSp(s.ram, Offset(Sp0(s), -2), Offset(Sp0(s), -1), Flag(false));
  }

  /** Whether D = top - second satisfies `jump` once the operands are popped. */
  predicate OrdTaken(jump: Jump, s: State)
  {
    Sp0(s) >= 18 && Holds(jump, BranchValue(s))
  }

  /**
   * `ord_asm` placed at `at` runs to its end, in 19 steps when the jump is
   * taken and 20 when not, with -1 or 0 at the second operand's cell as
   * D = top - second satisfies the jump condition or not, and the stack one
   * entry shorter.
   */
  lemma OrdRun(sym: Symbols, p: seq<Assembly>, at: nat, n: nat, jump: Jump, s: State, fuel: nat, end: nat, rest: nat)
    requires Placed(p, at, OrdCode(n, jump)) && LabelsResolved(sym, p) && Sp0(s) >= 18
    requires end == at + 26 && fuel == rest + OrdSteps(OrdTaken(jump, s))
    ensures Run(sym, p, s, at, fuel) == Run(sym, p, OrdResult(s, OrdTaken(jump, s)), end, rest)
  {
    if OrdTaken(jump, s) {
      OrdRunTaken(sym, p, at, n, jump, s, fuel);
    } else {
      OrdRunNotTaken(sym, p, at, n, jump, s, fuel);
    }
  }

  /** A signed value in range is recovered from its word. */
  lemma SignedToWord(v: int)
    requires -0x8000 <= v < 0x8000
    ensures Signed(ToWord(v)) == v
  {
  }

  /** Words that differ by a multiple of 2^16 are the same word. */
  lemma ToWordCongruent(a: int, b: int, k: int)
    requires a == b + k * 0x1_0000
    ensures ToWord(a) == ToWord(b)
  {
  }

  /** The difference `top - second` the code tests, read as a signed value. */
  lemma DifferenceWord(x: Word, y: Word)
    ensures ToWord(y as int - x as int) == ToWord(Signed(y) - Signed(x))
  {
    var ky := if y < 0x8000 then 0 else 1;
    var kx := if x < 0x8000 then 0 else 1;
    ToWordCongruent(y as int - x as int, Signed(y) - Signed(x), ky - kx);
  }

  /** The signed difference of the operands fits in a word. */
  predicate NoOverflow(x: Word, y: Word)
  {
    -0x8000 <= Signed(y) - Signed(x) < 0x8000
  }

  /**
   * The jump each comparison emits decides the VM's comparison of `second`
   * (x) with `top` (y): always for `eq`, and for `lt` and `gt` whenever
   * `top - second` does not overflow.
   */
  lemma ComparisonJumpMeaning(cmd: Command, x: Word, y: Word)
    requires Babel.IsComparison(cmd) && (cmd.Equal? || NoOverflow(x, y))
    ensures Holds(Babel.ComparisonJump(cmd), ToWord(y as int - x as int)) == Compare(cmd, x, y)
  {
    DifferenceWord(x, y);
    if cmd.Equal? {
      var d := ToWord(y as int - x as int);
      assert Signed(d) == 0 <==> d == 0;
      assert d == 0 <==> x == y;
    } else {
      SignedToWord(Signed(y) - Signed(x));
    }
  }

  /**
   * The overflow the code does not guard against: with second = -32768 and
   * top = 1, `lt` is true, but top - second wraps to -32767 and the code
   * pushes false.
   */
  lemma LessThanOverflow()
    ensures var x: Word := 0x8000;
            var y: Word := 1;
            Compare(LessThan, x, y) && !Holds(Babel.ComparisonJump(LessThan), ToWord(y as int - x as int))
  {
  }

  /** The steps a whole comparison command takes: its two comments, then `ord_asm`. */
  function ComparisonSteps(taken: bool): nat
  {
    2 + OrdSteps(taken)
  }

  /** A comparison command's code is its debug comment, then the arm's comment, then `ord_asm`. */
  lemma ComparisonLayout(counter: nat, basename: string, cmd: Command)
    requires Babel.IsComparison(cmd)
    ensures Babel.TranslateCode(counter, basename, cmd)
         == [MkComment(DebugText(cmd))] + ([MkComment(Babel.ArithmeticComment(cmd))] + OrdCode(counter + 1, Babel.ComparisonJump(cmd)))
  {
  }

  /** Where a comparison command's code is placed, its comments and `ord_asm` are placed. */
  lemma ComparisonPlaced(p: seq<Assembly>, at: nat, counter: nat, basename: string, cmd: Command)
    requires Babel.IsComparison(cmd) && Placed(p, at, Babel.TranslateCode(counter, basename, cmd))
    ensures Placed(p, at, [MkComment(DebugText(cmd))]) && Placed(p, at + 1, [MkComment(Babel.ArithmeticComment(cmd))])
    ensures Placed(p, at + 2, OrdCode(counter + 1, Babel.ComparisonJump(cmd)))
  {
    ComparisonLayout(counter, basename, cmd);
    PlacedTwoThen(p, at, MkComment(DebugText(cmd)), MkComment(Babel.ArithmeticComment(cmd)), OrdCode(counter + 1, Babel.ComparisonJump(cmd)));
  }

  /** Two comments take two steps and change nothing. */
  lemma RunComments(sym: Symbols, p: seq<Assembly>, at: nat, t1: string, t2: string, s: State, fuel: nat)
    requires Placed(p, at, [MkComment(t1)]) && Placed(p, at + 1, [MkComment(t2)]) && fuel >= 2
    ensures Run(sym, p, s, at, fuel) == Run(sym, p, s, at + 2, fuel - 2)
  {
    RunStraight(sym, p, s, at, [MkComment(t1)], fuel);
    ExecOne(sym, MkComment(t1), s);
    RunStraight(sym, p, s, at + 1, [MkComment(t2)], fuel - 1);
    ExecOne(sym, MkComment(t2), s);
  }

  /** Two comments followed by `ord_asm`. */
  lemma RunCommentedOrd(sym: Symbols, p: seq<Assembly>, at: nat, t1: string, t2: string, n: nat, jump: Jump, s: State, fuel: nat)
    requires Placed(p, at, [MkComment(t1)]) && Placed(p, at + 1, [MkComment(t2)]) && Placed(p, at + 2, OrdCode(n, jump))
    requires LabelsResolved(sym, p) && Sp0(s) >= 18
    requires fuel >= ComparisonSteps(OrdTaken(jump, s))
    ensures var taken := OrdTaken(jump, s);
            Run(sym, p, s, at, fuel) == Run(sym, p, OrdResult(s, taken), at + 28, fuel - ComparisonSteps(taken))
  {
    RunComments(sym, p, at, t1, t2, s, fuel);
    OrdRun(sym, p, at + 2, n, jump, s, fuel - 2, at + 28, fuel - ComparisonSteps(OrdTaken(jump, s)));
  }

  /**
   * With `top - second` in range (always, for `eq`), the comparison's code
   * leaves the memory the VM prescribes.
   */
  lemma ComparisonCorrect(sym: Symbols, p: seq<Assembly>, at: nat, counter: nat, basename: string, cmd: Command, s: State, fuel: nat)
    requires Babel.IsComparison(cmd) && StackReady(cmd, s.ram)
    requires cmd.Equal? || NoOverflow(Read(s.ram, Offset(Sp0(s), -2)), Read(s.ram, Offset(Sp0(s), -1)))
    requires Placed(p, at, Babel.TranslateCode(counter, basename, cmd)) && LabelsResolved(sym, p)
    requires fuel >= ComparisonSteps(Compare(cmd, Read(s.ram, Offset(Sp0(s), -2)), Read(s.ram, Offset(Sp0(s), -1))))
    ensures var verdict := Compare(cmd, Read(s.ram, Offset(Sp0(s), -2)), Read(s.ram, Offset(Sp0(s), -1)));
            Run(sym, p, s, at, fuel)
              == Run(sym, p, State(SpAddress, 0, VmStep(sym, basename, cmd, s.ram)), at + 28, fuel - ComparisonSteps(verdict))
  {
    ComparisonPlaced(p, at, counter, basename, cmd);
    CommentedComparison(sym, p, at, counter, basename, cmd, s, fuel);
  }

  /** `ComparisonCorrect` for the code seen as its two comments and `ord_asm`. */
  lemma CommentedComparison(sym: Symbols, p: seq<Assembly>, at: nat, counter: nat, basename: string, cmd: Command, s: State, fuel: nat)
    requires Babel.IsComparison(cmd) && StackReady(cmd, s.ram)
    requires cmd.Equal? || NoOverflow(Read(s.ram, Offset(Sp0(s), -2)), Read(s.ram, Offset(Sp0(s), -1)))
    requires Placed(p, at, [MkComment(DebugText(cmd))]) && Placed(p, at + 1, [MkComment(Babel.ArithmeticComment(cmd))])
    requires Placed(p, at + 2, OrdCode(counter + 1, Babel.ComparisonJump(cmd)))
    requires LabelsResolved(sym, p)
    requires fuel >= ComparisonSteps(Compare(cmd, Read(s.ram, Offset(Sp0(s), -2)), Read(s.ram, Offset(Sp0(s), -1))))
    ensures var verdict := Compare(cmd, Read(s.ram, Offset(Sp0(s), -2)), Read(s.ram, Offset(Sp0(s), -1)));
            Run(sym, p, s, at, fuel)
              == Run(sym, p, State(SpAddress, 0, VmStep(sym, basename, cmd, s.ram)), at + 28, fuel - ComparisonSteps(verdict))
  {
    ComparisonVerdict(sym, basename, cmd, s);
    RunCommentedOrd(sym, p, at, DebugText(cmd), Babel.ArithmeticComment(cmd), counter + 1, Babel.ComparisonJump(cmd), s, fuel);
  }

  /** Without overflow, the jump's verdict is the VM's and `ord_asm`'s result is the VM's step. */
  lemma ComparisonVerdict(sym: Symbols, basename: string, cmd: Command, s: State)
    requires Babel.IsComparison(cmd) && StackReady(cmd, s.ram)
    requires cmd.Equal? || NoOverflow(Read(s.ram, Offset(Sp0(s), -2)), Read(s.ram, Offset(Sp0(s), -1)))
    ensures Sp0(s) >= 18
    ensures OrdTaken(Babel.ComparisonJump(cmd), s) == Compare(cmd, Read(s.ram, Offset(Sp0(s), -2)), Read(s.ram, Offset(Sp0(s), -1)))
    ensures OrdResult(s, Compare(cmd, Read(s.ram, Offset(Sp0(s), -2)), Read(s.ram, Offset(Sp0(s), -1))))
         == State(SpAddress, 0, VmStep(sym, basename, cmd, s.ram))
  {
    var x := Read(s.ram, Offset(Sp0(s), -2));
    var y := Read(s.ram, Offset(Sp0(s), -1));
    BranchDifference(s);
    ComparisonJumpMeaning(cmd, x, y);
  }
}
