/**
 * A small executable semantics of the Hack instructions the translator
 * emits: the A and D registers, a 16-bit RAM and a program counter over an
 * instruction sequence. Labels and comments occupy an instruction slot and do
 * nothing; a label is resolved, through the symbol table, to its own slot.
 * This is the Hack platform of chapter 4 of "The Elements of Computing
 * Systems"; it is not part of the translator and serves to state what the
 * emitted code does.
 */
module Hack {
  import opened Options
  import opened Numeric
  import opened Asm

  /** A 16-bit word, as its unsigned value. */
  newtype Word = x: int | 0 <= x < 0x1_0000
  type Ram = map<Word, Word>

  /** Cells never written read as zero. */
  function Read(ram: Ram, addr: Word): Word
  {
    if addr in ram then ram[addr] else 0
  }

  /** The two's-complement value of a word. */
  function Signed(w: Word): (v: int)
    ensures -0x8000 <= v < 0x8000
    ensures ToWord(v) == w
  {
    if w < 0x8000 then w as int else w as int - 0x1_0000
  }

  /** The word holding an integer, modulo 2^16. */
  function ToWord(n: int): Word
  {
    (n % 0x1_0000) as Word
  }

  /** Word arithmetic wraps around: `w + k` modulo 2^16. */
  function Offset(w: Word, k: int): Word
  {
    ToWord(w as int + k)
  }

  /** Bitwise and, or and complement of 16-bit words. */
  function BitAnd(x: Word, y: Word): Word
  {
    ((x as bv16) & (y as bv16)) as int as Word
  }

  function BitOr(x: Word, y: Word): Word
  {
    ((x as bv16) | (y as bv16)) as int as Word
  }

  function BitNot(x: Word): Word
  {
    0xFFFF - x
  }

  /** Addresses of the predefined symbols of the Hack assembler. */
  const SpAddress: Word := 0

  function RegisterAddress(r: Register): (w: Word)
    ensures w != SpAddress
  {
    match r
    case LCL => 1
    case ARG => 2
    case THIS => 3
    case THAT => 4
    case R13 => 13
  }

  /** The assembler's bindings of labels and variables; `SP` is predefined. */
  type Symbols = map<string, Word>

  function Resolve(sym: Symbols, name: string): Word
  {
    if name == "SP" then SpAddress else if name in sym then sym[name] else 0
  }

  datatype State = State(a: Word, d: Word, ram: Ram)

  /** The value a computation yields, with M the cell the A register addresses. */
  function Eval(c: Comp, s: State): Word
  {
    var m := Read(s.ram, s.a);
    match c
    case Zero => 0
    case A => s.a
    case M => m
    case D => s.d
    case Mplus1 => Offset(m, 1)
    case DplusM => ToWord(s.d as int + m as int)
    case DminusM => ToWord(s.d as int - m as int)
    case Mminus1 => Offset(m, -1)
    case DplusA => ToWord(s.d as int + s.a as int)
    case MminusD => ToWord(m as int - s.d as int)
    case DandM => BitAnd(s.d, m)
    case DorM => BitOr(s.d, m)
    case NegateM => ToWord(-(m as int))
    case NotM => BitNot(m)
    case Dminus1 => Offset(s.d, -1)
  }

  /** Whether a jump condition holds of a computed value. */
  predicate Holds(j: Jump, v: Word)
  {
    match j
    case JLE => Signed(v) <= 0
    case JEQ => Signed(v) == 0
    case JGT => Signed(v) > 0
    case JLT => Signed(v) < 0
    case JMP => true
  }

  predicate WritesM(d: Dest) { d == Dest.M || d == DM || d == AM || d == ADM }
  predicate WritesD(d: Dest) { d == Dest.D || d == DM || d == AD || d == ADM }
  predicate WritesA(d: Dest) { d == Dest.A || d == AM || d == AD || d == ADM }

  /** Storing a computed value: M is written at the address A held before the instruction. */
  function Store(dest: Option<Dest>, v: Word, s: State): State
  {
    if dest.None? then s
    else
      var d := dest.value;
      State(if WritesA(d) then v else s.a,
            if WritesD(d) then v else s.d,
            if WritesM(d) then s.ram[s.a := v] else s.ram)
  }

  /** The effect of one instruction on the registers and RAM. */
  function Exec1(sym: Symbols, i: Assembly, s: State): State
  {
    match i
    case Label(_) => s
    case Comment(_) => s
    case Address(n) => s.(a := ToWord(n as int))
    case AddressSymbol(name) => s.(a := Resolve(sym, name))
    case VariableSymbol(name) => s.(a := Resolve(sym, name))
    case BaseRegister(r) => s.(a := RegisterAddress(r))
    case Command(dest, comp, _) => Store(dest, Eval(comp, s), s)
  }

  /** Whether an instruction transfers control, judged in the state before it. */
  predicate Jumps(i: Assembly, s: State)
  {
    i.Command? && i.jump.Some? && Holds(i.jump.value, Eval(i.comp, s))
  }

  /** Running a sequence of instructions one after the other, ignoring jumps. */
  function Exec(sym: Symbols, p: seq<Assembly>, s: State): State
    decreases |p|
  {
    if p == [] then s else Exec(sym, p[1..], Exec1(sym, p[0], s))
  }

  lemma {:induction false} ExecAppend(sym: Symbols, p: seq<Assembly>, q: seq<Assembly>, s: State)
    ensures Exec(sym, p + q, s) == Exec(sym, q, Exec(sym, p, s))
    decreases |p|
  {
    if p != [] {
      assert (p + q)[0] == p[0] && (p + q)[1..] == p[1..] + q;
      ExecAppend(sym, p[1..], q, Exec1(sym, p[0], s));
    } else {
      assert p + q == q;
    }
  }

  /** No instruction of the sequence carries a jump condition. */
  predicate Straight(p: seq<Assembly>)
  {
    forall i :: 0 <= i < |p| ==> !(p[i].Command? && p[i].jump.Some?)
  }

  /**
   * Running a program from `pc` for at most `fuel` steps: the program counter
   * moves to the next slot, or to the address in A when a jump is taken.
   */
  function Run(sym: Symbols, p: seq<Assembly>, s: State, pc: nat, fuel: nat): (State, nat)
    decreases fuel
  {
    if fuel == 0 || pc >= |p| then (s, pc)
    else
      var next := if Jumps(p[pc], s) then s.a as nat else pc + 1;
      Run(sym, p, Exec1(sym, p[pc], s), next, fuel - 1)
  }

  /** A straight stretch of the program runs as `Exec` of that stretch. */
  lemma {:induction false} RunStraight(sym: Symbols, p: seq<Assembly>, s: State, pc: nat, q: seq<Assembly>, fuel: nat)
    requires pc + |q| <= |p| && p[pc..pc + |q|] == q && Straight(q)
    requires |q| <= fuel
    ensures Run(sym, p, s, pc, fuel) == Run(sym, p, Exec(sym, q, s), pc + |q|, fuel - |q|)
    decreases |q|
  {
    if q != [] {
      assert p[pc] == q[0];
      assert p[pc + 1..pc + 1 + |q[1..]|] == q[1..];
      RunStraight(sym, p, Exec1(sym, q[0], s), pc + 1, q[1..], fuel - 1);
    }
  }

  /** A straight program runs to its end, as `Exec` of the whole program. */
  lemma RunStraightProgram(sym: Symbols, p: seq<Assembly>, s: State)
    requires Straight(p)
    ensures Run(sym, p, s, 0, |p|) == (Exec(sym, p, s), |p|)
  {
    assert p[0..|p|] == p;
    RunStraight(sym, p, s, 0, p, |p|);
  }
}
