/**
 * The Hack assembly instruction algebra (src/assembly.rs) and its text
 * rendering (the `Display` impls).
 *
 * The enum shown in assembly.rs lists only part of the computations and
 * variants the translator uses; the rest (`DplusA`, `MminusD`, `DandM`,
 * `DorM`, `NegateM`, `NotM`, `Dminus1`, `VariableSymbol` and the base
 * register helpers) are added here. `Comp`'s `Display` falls back to the
 * derived `Debug` name for every variant it does not list, so those
 * variants render as their Debug names.
 */
module Asm {
  import opened Options
  import opened Numeric

  datatype Dest = M | D | A | DM | AM | AD | ADM

  datatype Comp =
    | Zero | A | M | D | Mplus1 | DplusM | DminusM | Mminus1
    | DplusA | MminusD | DandM | DorM | NegateM | NotM | Dminus1

  datatype Jump = JLE | JEQ | JGT | JLT | JMP

  /** The named cells the translator addresses: the four segment base registers and the scratch register. */
  datatype Register = LCL | ARG | THIS | THAT | R13

  datatype Assembly =
    | Label(name: string)
    | Comment(text: string)
    | Address(addr: u32)
    | AddressSymbol(symbol: string)
    | VariableSymbol(variable: string)
    | BaseRegister(reg: Register)
    | Command(dest: Option<Dest>, comp: Comp, jump: Option<Jump>)

  /** The derived `Debug` name of a destination. */
  function DestName(d: Dest): string
  {
    match d
    case M => "M"
    case D => "D"
    case A => "A"
    case DM => "DM"
    case AM => "AM"
    case AD => "AD"
    case ADM => "ADM"
  }

  /** The derived `Debug` name of a computation. */
  function CompName(c: Comp): string
  {
    match c
    case Zero => "Zero"
    case A => "A"
    case M => "M"
    case D => "D"
    case Mplus1 => "Mplus1"
    case DplusM => "DplusM"
    case DminusM => "DminusM"
    case Mminus1 => "Mminus1"
    case DplusA => "DplusA"
    case MminusD => "MminusD"
    case DandM => "DandM"
    case DorM => "DorM"
    case NegateM => "NegateM"
    case NotM => "NotM"
    case Dminus1 => "Dminus1"
  }

  /** The derived `Debug` name of a jump condition. */
  function JumpName(j: Jump): (s: string)
    ensures |s| == 3 && s[0] == 'J'
  {
    match j
    case JLE => "JLE"
    case JEQ => "JEQ"
    case JGT => "JGT"
    case JLT => "JLT"
    case JMP => "JMP"
  }

  function RegisterName(r: Register): string
  {
    match r
    case LCL => "LCL"
    case ARG => "ARG"
    case THIS => "THIS"
    case THAT => "THAT"
    case R13 => "R13"
  }

  /** `Display for Dest`: the name followed by `=`, which occurs nowhere else in the text. */
  function RenderDest(d: Dest): (r: string)
    ensures 2 <= |r| && r[|r| - 1] == '='
    ensures '=' !in r[..|r| - 1] && ';' !in r
  {
    DestName(d) + "="
  }

  /** `Display for Comp`: five variants have Hack spellings, the rest fall back to their Debug names. */
  function RenderComp(c: Comp): (r: string)
    ensures r != [] && '=' !in r && ';' !in r
  {
    match c
    case Zero => "0"
    case Mplus1 => "M+1"
    case DplusM => "D+M"
    case DminusM => "D-M"
    case Mminus1 => "M-1"
    case _ => CompName(c)
  }

  /** `Display for Jump`: `;` followed by the name. */
  function RenderJump(j: Jump): (r: string)
    ensures |r| == 4 && r[0] == ';' && r[1] == 'J'
    ensures '=' !in r && ';' !in r[1..]
  {
    ";" + JumpName(j)
  }

  /** The text of a register-transfer command: `[dest=]comp[;jump]`. */
  function RenderCommand(dest: Option<Dest>, comp: Comp, jump: Option<Jump>): (r: string)
    ensures dest.None? ==> '=' !in r
    ensures jump.None? ==> ';' !in r
    ensures dest.Some? ==> |RenderDest(dest.value)| <= |r| && r[..|RenderDest(dest.value)|] == RenderDest(dest.value)
    ensures jump.Some? ==> 4 <= |r| && r[|r| - 4..] == RenderJump(jump.value)
  {
    DestText(dest) + (RenderComp(comp) + JumpText(jump))
  }

  /**
   * `Display for Assembly`: one line of text for every instruction. The
   * renderings of `VariableSymbol` and `BaseRegister` are not part of
   * assembly.rs; they are taken to be `@` followed by the symbol.
   */
  function Render(a: Assembly): (r: string)
    ensures r != []
  {
    match a
    case Label(s) => "(" + s + ")"
    case Comment(s) => "// " + s
    case Address(n) => "@" + Decimal(n as nat)
    case AddressSymbol(s) => "@" + s
    case VariableSymbol(s) => "@" + s
    case BaseRegister(reg) => "@" + RegisterName(reg)
    case Command(dest, comp, jump) => RenderCommand(dest, comp, jump)
  }

  function RenderAll(code: seq<Assembly>): (lines: seq<string>)
    ensures |lines| == |code|
    ensures forall i :: 0 <= i < |code| ==> lines[i] == Render(code[i])
  {
    if code == [] then [] else [Render(code[0])] + RenderAll(code[1..])
  }

  /** The unit test of assembly.rs: `Dest::M` displays as `M=`. */
  lemma DestMRendersAsMEquals()
    ensures RenderDest(Dest.M) == "M="
  {
  }

  /** Distinct destinations have distinct texts. */
  lemma RenderDestInjective(d1: Dest, d2: Dest)
    requires RenderDest(d1) == RenderDest(d2)
    ensures d1 == d2
  {
  }

  /** Distinct computations have distinct texts. */
  lemma RenderCompInjective(c1: Comp, c2: Comp)
    requires RenderComp(c1) == RenderComp(c2)
    ensures c1 == c2
  {
  }

  /** Distinct jumps have distinct texts. */
  lemma RenderJumpInjective(j1: Jump, j2: Jump)
    requires RenderJump(j1) == RenderJump(j2)
    ensures j1 == j2
  {
  }

  /** The character at position `k` of `x + y` comes from `y` past `x`'s end, and otherwise from `x`. */
  lemma SeparatorAt(x: string, y: string, k: nat, sep: char)
    requires k < |x + y|
    requires (x + y)[k] == sep
    ensures k < |x| ==> sep in x
    ensures |x| <= k ==> sep in y
  {
    if k < |x| {
      assert x[k] == sep;
    } else {
      assert y[k - |x|] == sep;
    }
  }

  /** Two splittings of one text agree on a head that ends with the only `sep` in it. */
  lemma HeadUpToSeparator(x1: string, y1: string, x2: string, y2: string, sep: char)
    requires x1 + y1 == x2 + y2
    requires x1 == [] || (x1[|x1| - 1] == sep && sep !in x1[..|x1| - 1])
    requires x2 == [] || (x2[|x2| - 1] == sep && sep !in x2[..|x2| - 1])
    requires sep !in y1 && sep !in y2
    ensures x1 == x2
  {
    var t := x1 + y1;
    if |x1| < |x2| {
      SeparatorAt(x1, y1, |x2| - 1, sep);
      assert false;
    } else if |x2| < |x1| {
      SeparatorAt(x2, y2, |x1| - 1, sep);
      assert false;
    }
    assert x1 == t[..|x1|] == x2;
  }

  /** Two splittings of one text agree on a tail that starts with the only `sep` in it. */
  lemma TailFromSeparator(x1: string, y1: string, x2: string, y2: string, sep: char)
    requires x1 + y1 == x2 + y2
    requires y1 == [] || (y1[0] == sep && sep !in y1[1..])
    requires y2 == [] || (y2[0] == sep && sep !in y2[1..])
    requires sep !in x1 && sep !in x2
    ensures y1 == y2
  {
    var t := x1 + y1;
    if |y1| < |y2| {
      SeparatorAt(x1, y1, |x2|, sep);
      assert false;
    } else if |y2| < |y1| {
      SeparatorAt(x2, y2, |x1|, sep);
      assert false;
    }
    assert y1 == t[|x1|..] == y2;
  }

  function DestText(d: Option<Dest>): (r: string)
    ensures r == [] || (r[|r| - 1] == '=' && '=' !in r[..|r| - 1])
    ensures ';' !in r
  {
    if d.Some? then RenderDest(d.value) else ""
  }

  function JumpText(j: Option<Jump>): (r: string)
    ensures r == [] || (r[0] == ';' && ';' !in r[1..])
    ensures '=' !in r
  {
    if j.Some? then RenderJump(j.value) else ""
  }

  /** Three-part texts delimited by a trailing `=` and a leading `;` split in only one way. */
  lemma SplitCommandText(dt1: string, ct1: string, jt1: string, dt2: string, ct2: string, jt2: string)
    requires dt1 + (ct1 + jt1) == dt2 + (ct2 + jt2)
    requires dt1 == [] || (dt1[|dt1| - 1] == '=' && '=' !in dt1[..|dt1| - 1])
    requires dt2 == [] || (dt2[|dt2| - 1] == '=' && '=' !in dt2[..|dt2| - 1])
    requires jt1 == [] || (jt1[0] == ';' && ';' !in jt1[1..])
    requires jt2 == [] || (jt2[0] == ';' && ';' !in jt2[1..])
    requires '=' !in ct1 + jt1 && '=' !in ct2 + jt2 && ';' !in ct1 && ';' !in ct2
    ensures dt1 == dt2 && ct1 == ct2 && jt1 == jt2
  {
    HeadUpToSeparator(dt1, ct1 + jt1, dt2, ct2 + jt2, '=');
    assert ct1 + jt1 == (dt1 + (ct1 + jt1))[|dt1|..] == ct2 + jt2;
    TailFromSeparator(ct1, jt1, ct2, jt2, ';');
    assert |ct1| == |ct2|;
    assert ct1 == (ct1 + jt1)[..|ct1|] == ct2;
  }

  /**
   * A rendered command determines its destination, computation and jump:
   * the `=` and `;` that delimit them occur nowhere else in the text.
   */
  lemma RenderCommandInjective(d1: Option<Dest>, c1: Comp, j1: Option<Jump>,
                               d2: Option<Dest>, c2: Comp, j2: Option<Jump>)
    requires RenderCommand(d1, c1, j1) == RenderCommand(d2, c2, j2)
    ensures d1 == d2 && c1 == c2 && j1 == j2
  {
    var dt1, ct1, jt1 := DestText(d1), RenderComp(c1), JumpText(j1);
    var dt2, ct2, jt2 := DestText(d2), RenderComp(c2), JumpText(j2);
    assert '=' !in ct1 + jt1 && '=' !in ct2 + jt2;
    SplitCommandText(dt1, ct1, jt1, dt2, ct2, jt2);
    RenderCompInjective(c1, c2);
    if d1.Some? && d2.Some? { RenderDestInjective(d1.value, d2.value); }
    if j1.Some? && j2.Some? { RenderJumpInjective(j1.value, j2.value); }
  }

  /** `Assembly::comment`. */
  function MkComment(s: string): Assembly
  {
    Comment(s)
  }

  /** `Assembly::label`. */
  function MkLabel(s: string): Assembly
  {
    Label(s)
  }

  /** `Assembly::addr_sym`. */
  function AddrSym(s: string): Assembly
  {
    AddressSymbol(s)
  }

  /** `Assembly::sp`: the stack pointer symbol. */
  function Sp(): Assembly
  {
    AddrSym("SP")
  }

  /** `Assembly::assign`: `dest=comp` with no jump. */
  function Assign(d: Dest, c: Comp): Assembly
  {
    Command(Some(d), c, None)
  }

  /**
   * The constructors wrap their argument unchanged, and the instructions
   * they build render as `// s`, `(s)`, `@s`, `@SP` and `dest=comp`.
   */
  lemma ConstructorRenderings(s: string, d: Dest, c: Comp)
    ensures MkComment(s) == Comment(s) && Render(MkComment(s)) == "// " + s
    ensures MkLabel(s) == Label(s) && Render(MkLabel(s)) == "(" + s + ")"
    ensures AddrSym(s) == AddressSymbol(s) && Render(AddrSym(s)) == "@" + s
    ensures Sp() == AddressSymbol("SP") && Render(Sp()) == "@SP"
    ensures Assign(d, c).Command? && Assign(d, c).dest == Some(d) && Assign(d, c).jump == None
    ensures Render(Assign(d, c)) == RenderDest(d) + RenderComp(c)
  {
    assert RenderCommand(Some(d), c, None) == RenderDest(d) + (RenderComp(c) + "");
    assert RenderComp(c) + "" == RenderComp(c);
  }

  /** An address renders as `@` followed by its decimal digits. */
  lemma AddressRendering(n: u32)
    ensures Render(Address(n)) == "@" + Decimal(n as nat)
  {
  }

  /** The computations the translator emits render as the Hack mnemonics. */
  lemma CompRenderings()
    ensures RenderComp(Zero) == "0" && RenderComp(Mplus1) == "M+1" && RenderComp(DplusM) == "D+M"
    ensures RenderComp(DminusM) == "D-M" && RenderComp(Mminus1) == "M-1"
    ensures RenderComp(Comp.A) == "A" && RenderComp(Comp.M) == "M" && RenderComp(Comp.D) == "D"
  {
  }

  /** Every destination renders as its variant name followed by `=`. */
  lemma DestRenderings()
    ensures RenderDest(Dest.M) == "M=" && RenderDest(Dest.D) == "D=" && RenderDest(Dest.A) == "A="
    ensures RenderDest(DM) == "DM=" && RenderDest(AM) == "AM=" && RenderDest(AD) == "AD="
    ensures RenderDest(ADM) == "ADM="
  {
  }

  /** Every jump condition renders as `;` followed by its variant name. */
  lemma JumpRenderings()
    ensures RenderJump(JLE) == ";JLE" && RenderJump(JEQ) == ";JEQ" && RenderJump(JGT) == ";JGT"
    ensures RenderJump(JLT) == ";JLT" && RenderJump(JMP) == ";JMP"
  {
  }

  /** The unconditional jump renders as `0;JMP`. */
  lemma JumpRendering()
    ensures RenderJump(JMP) == ";JMP" && Render(Command(None, Zero, Some(JMP))) == "0;JMP"
  {
    assert RenderCommand(None, Zero, Some(JMP)) == "" + ("0" + ";JMP");
  }

  // Base register helpers (their definitions are not part of assembly.rs).
  function Local(): Assembly { BaseRegister(LCL) }
  function Argument(): Assembly { BaseRegister(ARG) }
  function This(): Assembly { BaseRegister(THIS) }
  function That(): Assembly { BaseRegister(THAT) }
  function Reg13(): Assembly { BaseRegister(R13) }
}
