/**
 * The instruction buffer `Translation` of src/babel.rs and the fixed blocks
 * its helpers append. Each helper is a method that extends the buffer in
 * place; the block it appends is given by a function of the same name with
 * `Code` at the end.
 */
module Translations {
  import opened Options
  import opened Asm
  import Commands

  /** `store_sp_to_dreg`: D = RAM[RAM[SP]], the value at the stack pointer. */
  function StoreSpToDregCode(): seq<Assembly>
  {
    [Sp(), Assign(Dest.A, Comp.M), Assign(Dest.D, Comp.M)]
  }

  /** `store_dreg_to_sp`: RAM[RAM[SP]] = D. */
  function StoreDregToSpCode(): seq<Assembly>
  {
    [Sp(), Assign(Dest.A, Comp.M), Assign(Dest.M, Comp.D)]
  }

  function IncrementSpCode(): seq<Assembly>
  {
    [Sp(), Assign(Dest.M, Mplus1)]
  }

  function DecrementSpCode(): seq<Assembly>
  {
    [Sp(), Assign(Dest.M, Mminus1)]
  }

  /** `store_dreg_in_reg13`: R13 = D. */
  function StoreDregInReg13Code(): seq<Assembly>
  {
    [Reg13(), Assign(Dest.M, Comp.D)]
  }

  /** `finish`: the halting loop `(END)`, `@END`, `0;JMP`. */
  function FinishCode(): (r: seq<Assembly>)
    ensures RenderAll(r) == ["(END)", "@END", "0;JMP"]
  {
    var r := [MkLabel("END"), AddrSym("END"), Command(None, Zero, Some(JMP))];
    JumpRendering();
    assert Render(r[0]) == "(END)" && Render(r[1]) == "@END";
    assert RenderAll(r) == [Render(r[0]), Render(r[1]), Render(r[2])];
    r
  }

  /** `unary_asm`: replace the top of the stack by `m_comp` applied to it. */
  function UnaryCode(mComp: Comp): seq<Assembly>
  {
    [MkComment("Unary " + RenderComp(mComp))] + ApplyToTopCode(mComp) + IncrementSpCode()
  }

  /** SP = SP - 1, then M = `mComp` with A at the entry just popped. */
  function ApplyToTopCode(mComp: Comp): seq<Assembly>
  {
    DecrementSpCode() + [Assign(Dest.A, Comp.M), Assign(Dest.M, mComp)]
  }

  /**
   * The first eight instructions `binary_asm` and `ord_asm` share: pop the
   * top into D, pop again so that M is the second element, and set
   * D = `dmComp`(D, M).
   */
  function PopOperandsCode(dmComp: Comp): seq<Assembly>
  {
    PopIntoDCode(Comp.M) + PopIntoDCode(dmComp)
  }

  /** SP = SP - 1, then D = `dComp` with A at the entry just popped. */
  function PopIntoDCode(dComp: Comp): seq<Assembly>
  {
    DecrementSpCode() + [Assign(Dest.A, Comp.M), Assign(Dest.D, dComp)]
  }

  /**
   * `binary_asm`: D = top, then D = `dm_comp`(D, second) with M the second
   * element, written into the second element's slot.
   */
  function BinaryCode(dmComp: Comp): seq<Assembly>
  {
    PopOperandsCode(dmComp) + StoreDregToSpCode() + IncrementSpCode()
  }

  /** The label an order comparison jumps to when its condition holds: `<Jump><n>`. */
  function JumpLabel(jump: Jump, n: nat): string
  {
    JumpName(jump) + Numeric.Decimal(n)
  }

  /** The label both paths of an order comparison meet at: `AFTER<n>`. */
  function AfterLabel(n: nat): string
  {
    "AFTER" + Numeric.Decimal(n)
  }

  /** A comparison label never collides with the predefined symbol `SP`. */
  lemma JumpLabelNotSp(jump: Jump, n: nat)
    ensures JumpLabel(jump, n) != "SP"
  {
    assert JumpLabel(jump, n)[0] == 'J' && "SP"[0] == 'S';
  }

  lemma AfterLabelNotSp(n: nat)
    ensures AfterLabel(n) != "SP"
  {
    assert AfterLabel(n)[0] == 'A' && "SP"[0] == 'S';
  }

  /**
   * `ord_asm` with the counter already incremented to `n`: D = top - second;
   * on `jump` write -1 (D = 0, then D-1), otherwise write 0; both paths
   * meet at `AFTER<n>` and increment SP.
   */
  function OrdCode(n: nat, jump: Jump): seq<Assembly>
  {
    PopOperandsCode(DminusM) + FlagCode(n, jump)
  }

  /** With D = top - second: write -1 at RAM[SP] if D satisfies `jump`, 0 otherwise, then push. */
  function FlagCode(n: nat, jump: Jump): seq<Assembly>
  {
    BranchCode(n, jump) + FalseCode(n) + TrueCode(n, jump) + JoinCode(n)
  }

  /** `(AFTER<n>)`, where both paths meet, then SP = SP + 1. */
  function JoinCode(n: nat): seq<Assembly>
  {
    [MkLabel(AfterLabel(n))] + IncrementSpCode()
  }

  /** `@<Jump><n>`, `D;<Jump>`: jump when D satisfies the condition. */
  function BranchCode(n: nat, jump: Jump): seq<Assembly>
  {
    [AddrSym(JumpLabel(jump, n)), Command(None, Comp.D, Some(jump))]
  }

  /** The fall-through path: write 0 at RAM[SP] and jump to `AFTER<n>`. */
  function FalseCode(n: nat): seq<Assembly>
  {
    WriteFlagCode(Comp.D) + [AddrSym(AfterLabel(n)), Command(None, Zero, Some(JMP))]
  }

  /** The jump target `(<Jump><n>)`: write D - 1 with D = 0, that is -1, at RAM[SP]. */
  function TrueCode(n: nat, jump: Jump): seq<Assembly>
  {
    [MkLabel(JumpLabel(jump, n))] + WriteFlagCode(Dminus1)
  }

  /** `@0`, `D=A`, then RAM[RAM[SP]] = `c` computed with D = 0. */
  function WriteFlagCode(c: Comp): seq<Assembly>
  {
    [Address(0), Assign(Dest.D, Comp.A), Sp(), Assign(Dest.A, Comp.M), Assign(Dest.M, c)]
  }

  class Translation {
    var code: seq<Assembly>

    /** `Translation::new`: an empty buffer. */
    constructor ()
      ensures code == []
    {
      code := [];
    }

    /** `push`: append one instruction. */
    method Push(asm: Assembly)
      modifies this
      ensures code == old(code) + [asm]
    {
      code := code + [asm];
    }

    /** `comment`: append the command's Debug text as a comment. */
    method CommentOn(cmd: Commands.Command)
      modifies this
      ensures code == old(code) + [Comment(Commands.DebugText(cmd))]
    {
      Push(MkComment(Commands.DebugText(cmd)));
    }

    /** `with_asm`: append a block, in order. */
    method WithAsm(block: seq<Assembly>)
      modifies this
      ensures code == old(code) + block
    {
      code := code + block;
    }

    method StoreSpToDreg()
      modifies this
      ensures code == old(code) + StoreSpToDregCode()
    {
      WithAsm(StoreSpToDregCode());
    }

    method StoreDregToSp()
      modifies this
      ensures code == old(code) + StoreDregToSpCode()
    {
      WithAsm(StoreDregToSpCode());
    }

    method IncrementSp()
      modifies this
      ensures code == old(code) + IncrementSpCode()
    {
      WithAsm(IncrementSpCode());
    }

    method DecrementSp()
      modifies this
      ensures code == old(code) + DecrementSpCode()
    {
      WithAsm(DecrementSpCode());
    }

    method StoreDregInReg13()
      modifies this
      ensures code == old(code) + StoreDregInReg13Code()
    {
      WithAsm(StoreDregInReg13Code());
    }

    /** `Translation::finish`: a fresh buffer holding the halting loop. */
    static method Finish() returns (t: Translation)
      ensures fresh(t) && t.code == FinishCode()
    {
      t := new Translation();
      t.WithAsm(FinishCode());
    }

    method UnaryAsm(mComp: Comp)
      modifies this
      ensures code == old(code) + UnaryCode(mComp)
    {
      WithAsm(UnaryCode(mComp));
    }

    method BinaryAsm(dmComp: Comp)
      modifies this
      ensures code == old(code) + BinaryCode(dmComp)
    {
      WithAsm(BinaryCode(dmComp));
    }

    /**
     * `ord_asm`: the counter passed by `&mut` is incremented first, and the
     * incremented value numbers both labels of the block.
     */
    method OrdAsm(counter: nat, jump: Jump) returns (next: nat)
      modifies this
      ensures next == counter + 1
      ensures code == old(code) + OrdCode(next, jump)
    {
      next := counter + 1;
      WithAsm(OrdCode(next, jump));
    }
  }
}
