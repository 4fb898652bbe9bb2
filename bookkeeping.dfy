/**
 * Stack bookkeeping of the emitted code, counted syntactically: how many
 * times a block bumps the stack pointer up (`@SP`, `M=M+1`) and down
 * (`@SP`, `M=M-1`).
 */
module Bookkeeping {
  import opened Options
  import opened Numeric
  import opened Asm
  import Segments
  import opened Commands
  import opened Translations
  import opened Babel
  import LattSegment
  import PointerSegment
  import StaticSegment
  import TempSegment

  /** The number of positions k where `code[k] == x` and `code[k + 1] == y`. */
  function PairCount(code: seq<Assembly>, x: Assembly, y: Assembly): nat
    decreases |code|
  {
    if |code| < 2 then 0
    else (if code[0] == x && code[1] == y then 1 else 0) + PairCount(code[1..], x, y)
  }

  function SpIncrements(code: seq<Assembly>): nat
  {
    PairCount(code, Sp(), Assign(Dest.M, Mplus1))
  }

  function SpDecrements(code: seq<Assembly>): nat
  {
    PairCount(code, Sp(), Assign(Dest.M, Mminus1))
  }

  /**
   * `code` bumps SP up `inc` times and down `dec` times, and does not end
   * with `@SP` (so no pair straddles the end of `code` and what follows it).
   */
  predicate Tally(code: seq<Assembly>, inc: nat, dec: nat)
  {
    SpIncrements(code) == inc && SpDecrements(code) == dec && (code == [] || code[|code| - 1] != Sp())
  }

  lemma {:induction false} PairCountAppend(a: seq<Assembly>, b: seq<Assembly>, x: Assembly, y: Assembly)
    requires a == [] || a[|a| - 1] != x
    ensures PairCount(a + b, x, y) == PairCount(a, x, y) + PairCount(b, x, y)
    decreases |a|
  {
    if a == [] {
      assert a + b == b;
    } else if |a| == 1 {
      if b != [] {
        assert (a + b)[1..] == b;
      }
    } else {
      assert (a + b)[1..] == a[1..] + b;
      PairCountAppend(a[1..], b, x, y);
    }
  }

  lemma {:induction false} PairCountAbsent(a: seq<Assembly>, x: Assembly, y: Assembly)
    requires x !in a
    ensures PairCount(a, x, y) == 0
    decreases |a|
  {
    if |a| >= 2 {
      assert a[0] == a[0] && a[1..] <= a[1..];
      assert x !in a[1..] by {
        forall k | 0 <= k < |a[1..]| ensures a[1..][k] != x {
          assert a[1..][k] == a[k + 1];
        }
      }
      PairCountAbsent(a[1..], x, y);
    }
  }

  /** Tallies add up across a concatenation. */
  lemma TallyAppend(a: seq<Assembly>, b: seq<Assembly>, ia: nat, da: nat, ib: nat, db: nat)
    requires Tally(a, ia, da) && Tally(b, ib, db)
    ensures Tally(a + b, ia + ib, da + db)
  {
    PairCountAppend(a, b, Sp(), Assign(Dest.M, Mplus1));
    PairCountAppend(a, b, Sp(), Assign(Dest.M, Mminus1));
    if b == [] {
      assert a + b == a;
    }
  }

  lemma TallyNoSp(a: seq<Assembly>)
    requires Sp() !in a
    ensures Tally(a, 0, 0)
  {
    PairCountAbsent(a, Sp(), Assign(Dest.M, Mplus1));
    PairCountAbsent(a, Sp(), Assign(Dest.M, Mminus1));
    if a != [] {
      assert a[|a| - 1] in a;
    }
  }

  /** A block that opens with `@SP` but does not follow it with an SP bump. */
  lemma TallySpAccess(a: seq<Assembly>)
    requires |a| >= 2 && a[0] == Sp() && a[1] != Assign(Dest.M, Mplus1) && a[1] != Assign(Dest.M, Mminus1)
    requires Sp() !in a[1..]
    ensures Tally(a, 0, 0)
  {
    TallyNoSp(a[1..]);
    assert a == [a[0]] + a[1..];
    assert a[|a| - 1] == a[1..][|a[1..]| - 1];
  }

  lemma IncrementTally()
    ensures Tally(IncrementSpCode(), 1, 0)
  {
    assert IncrementSpCode()[1..] == [Assign(Dest.M, Mplus1)];
  }

  lemma DecrementTally()
    ensures Tally(DecrementSpCode(), 0, 1)
  {
    assert DecrementSpCode()[1..] == [Assign(Dest.M, Mminus1)];
  }

  lemma LoadTally()
    ensures Tally(StoreSpToDregCode(), 0, 0)
  {
    TallySpAccess(StoreSpToDregCode());
  }

  lemma StoreTally()
    ensures Tally(StoreDregToSpCode(), 0, 0)
  {
    TallySpAccess(StoreDregToSpCode());
  }

  lemma ApplyToTopTally(mComp: Comp)
    ensures Tally(ApplyToTopCode(mComp), 0, 1)
  {
    DecrementTally();
    TallyNoSp([Assign(Dest.A, Comp.M), Assign(Dest.M, mComp)]);
    TallyAppend(DecrementSpCode(), [Assign(Dest.A, Comp.M), Assign(Dest.M, mComp)], 0, 1, 0, 0);
  }

  /** `unary_asm` bumps SP down once and back up once. */
  lemma UnaryTally(mComp: Comp)
    ensures Tally(UnaryCode(mComp), 1, 1)
  {
    var head := [MkComment("Unary " + RenderComp(mComp))];
    TallyNoSp(head);
    ApplyToTopTally(mComp);
    IncrementTally();
    TallyAppend(head, ApplyToTopCode(mComp), 0, 0, 0, 1);
    TallyAppend(head + ApplyToTopCode(mComp), IncrementSpCode(), 0, 1, 1, 0);
  }

  lemma PopIntoDTally(dComp: Comp)
    ensures Tally(PopIntoDCode(dComp), 0, 1)
  {
    DecrementTally();
    TallyNoSp([Assign(Dest.A, Comp.M), Assign(Dest.D, dComp)]);
    TallyAppend(DecrementSpCode(), [Assign(Dest.A, Comp.M), Assign(Dest.D, dComp)], 0, 1, 0, 0);
  }

  lemma PopOperandsTally(dmComp: Comp)
    ensures Tally(PopOperandsCode(dmComp), 0, 2)
  {
    PopIntoDTally(Comp.M);
    PopIntoDTally(dmComp);
    TallyAppend(PopIntoDCode(Comp.M), PopIntoDCode(dmComp), 0, 1, 0, 1);
  }

  /** `binary_asm` pops two operands and pushes one result. */
  lemma BinaryTally(dmComp: Comp)
    ensures Tally(BinaryCode(dmComp), 1, 2)
  {
    StoreTally();
    IncrementTally();
    PopOperandsTally(dmComp);
    TallyAppend(PopOperandsCode(dmComp), StoreDregToSpCode(), 0, 2, 0, 0);
    TallyAppend(PopOperandsCode(dmComp) + StoreDregToSpCode(), IncrementSpCode(), 0, 2, 1, 0);
  }

  lemma WriteFlagTally(c: Comp)
    ensures Tally(WriteFlagCode(c), 0, 0)
  {
    var head := [Address(0), Assign(Dest.D, Comp.A)];
    var store := [Sp(), Assign(Dest.A, Comp.M), Assign(Dest.M, c)];
    assert WriteFlagCode(c) == head + store;
    TallyNoSp(head);
    TallySpAccess(store);
    TallyAppend(head, store, 0, 0, 0, 0);
  }

  lemma FalseTally(n: nat)
    ensures Tally(FalseCode(n), 0, 0)
  {
    var jumpAfter := [AddrSym(AfterLabel(n)), Command(None, Zero, Some(JMP))];
    AfterLabelNotSp(n);
    WriteFlagTally(Comp.D);
    TallyNoSp(jumpAfter);
    TallyAppend(WriteFlagCode(Comp.D), jumpAfter, 0, 0, 0, 0);
  }

  lemma TrueTally(n: nat, jump: Jump)
    ensures Tally(TrueCode(n, jump), 0, 0)
  {
    TallyNoSp([MkLabel(JumpLabel(jump, n))]);
    WriteFlagTally(Dminus1);
    TallyAppend([MkLabel(JumpLabel(jump, n))], WriteFlagCode(Dminus1), 0, 0, 0, 0);
  }

  lemma JoinTally(n: nat)
    ensures Tally(JoinCode(n), 1, 0)
  {
    IncrementTally();
    TallyNoSp([MkLabel(AfterLabel(n))]);
    TallyAppend([MkLabel(AfterLabel(n))], IncrementSpCode(), 0, 0, 1, 0);
  }

  lemma BranchFalseTally(n: nat, jump: Jump)
    ensures Tally(BranchCode(n, jump) + FalseCode(n), 0, 0)
  {
    JumpLabelNotSp(jump, n);
    TallyNoSp(BranchCode(n, jump));
    FalseTally(n);
    TallyAppend(BranchCode(n, jump), FalseCode(n), 0, 0, 0, 0);
  }

  lemma FlagTally(n: nat, jump: Jump)
    ensures Tally(FlagCode(n, jump), 1, 0)
  {
    BranchFalseTally(n, jump);
    TrueTally(n, jump);
    JoinTally(n);
    TallyAppend(BranchCode(n, jump) + FalseCode(n), TrueCode(n, jump), 0, 0, 0, 0);
    TallyAppend(BranchCode(n, jump) + FalseCode(n) + TrueCode(n, jump), JoinCode(n), 0, 0, 1, 0);
  }

  /** `ord_asm` pops two operands and pushes one flag. */
  lemma OrdTally(n: nat, jump: Jump)
    ensures Tally(OrdCode(n, jump), 1, 2)
  {
    PopOperandsTally(DminusM);
    FlagTally(n, jump);
    TallyAppend(PopOperandsCode(DminusM), FlagCode(n, jump), 0, 2, 1, 0);
  }

  /** A push: one read into D, then `*SP = D` and one SP increment. */
  lemma PushTally(read: seq<Assembly>)
    requires Sp() !in read
    ensures Tally(read + StoreDregToSpCode() + IncrementSpCode(), 1, 0)
  {
    StoreTally();
    IncrementTally();
    TallyNoSp(read);
    TallyAppend(read, StoreDregToSpCode(), 0, 0, 0, 0);
    TallyAppend(read + StoreDregToSpCode(), IncrementSpCode(), 0, 0, 1, 0);
  }

  /** A pop: one SP decrement, D = *SP, then one write of D that does not touch SP. */
  lemma PopTally(write: seq<Assembly>)
    requires Sp() !in write
    ensures Tally(DecrementSpCode() + StoreSpToDregCode() + write, 0, 1)
  {
    DecrementTally();
    LoadTally();
    TallyNoSp(write);
    TallyAppend(DecrementSpCode(), StoreSpToDregCode(), 0, 1, 0, 0);
    TallyAppend(DecrementSpCode() + StoreSpToDregCode(), write, 0, 1, 0, 0);
  }

  lemma PushLattTally(latt: Segments.Latt, index: u32)
    ensures Tally(LattSegment.PushLattCode(latt, index), 1, 0)
  {
    var read := LattSegment.BaseIndexPrefix(latt, index) + [Assign(Dest.A, DplusA), Assign(Dest.D, Comp.M)];
    PushTally(read);
  }

  lemma PopLattTally(latt: Segments.Latt, index: u32)
    ensures Tally(LattSegment.PopLattCode(latt, index), 0, 1)
  {
    var address := LattSegment.BaseIndexPrefix(latt, index) + [Assign(Dest.D, DplusA)] + StoreDregInReg13Code();
    var write := [Reg13(), Assign(Dest.A, Comp.M), Assign(Dest.M, Comp.D)];
    TallyNoSp(address);
    PopTally(write);
    TallyAppend(address, DecrementSpCode() + StoreSpToDregCode() + write, 0, 0, 0, 1);
    assert LattSegment.PopLattCode(latt, index) == address + (DecrementSpCode() + StoreSpToDregCode() + write);
  }

  /** Positive and negative SP bumps of one translated command, by kind. */
  function Increments(cmd: Command): nat
  {
    if cmd.Pop? then 0 else 1
  }

  function Decrements(cmd: Command): nat
  {
    if cmd.Push? then 0
    else if cmd.Pop? || IsUnary(cmd) then 1
    else 2
  }

  /** The net change of the stack depth each VM command stands for. */
  function StackEffect(cmd: Command): int
  {
    match cmd
    case Push(_) => 1
    case Pop(_) => -1
    case Negate => 0
    case Not => 0
    case _ => -1
  }

  lemma SegmentTally(basename: string, cmd: Command)
    requires Translatable(cmd) && (cmd.Push? || cmd.Pop?)
    ensures Tally(SegmentCode(basename, cmd), Increments(cmd), Decrements(cmd))
  {
    match cmd {
      case Push(Segment(Pointer, index)) =>
        PushTally([PointerSegment.Pointee(index), Assign(Dest.D, Comp.M)]);
      case Pop(Segment(Pointer, index)) =>
        PopTally([PointerSegment.Pointee(index), Assign(Dest.M, Comp.D)]);
      case Push(Segment(Constant, x)) =>
        PushTally([Address(x as int as u32), Assign(Dest.D, Comp.A)]);
      case Push(Segment(LATT(latt), index)) => PushLattTally(latt, index as int as u32);
      case Pop(Segment(LATT(latt), index)) => PopLattTally(latt, index as int as u32);
      case Pop(Segment(Temp, index)) =>
        PopTally([Address(TempSegment.TempAddress(index as int as u32)), Assign(Dest.M, Comp.D)]);
      case Push(Segment(Temp, index)) =>
        PushTally([Address(TempSegment.TempAddress(index as int as u32)), Assign(Dest.D, Comp.M)]);
      case Pop(Segment(Static, index)) =>
        PopTally([StaticSegment.VarSymbol(index as int as u32, basename), Assign(Dest.M, Comp.D)]);
      case Push(Segment(Static, index)) =>
        PushTally([StaticSegment.VarSymbol(index as int as u32, basename), Assign(Dest.D, Comp.M)]);
    }
  }

  /** A comment in front of a block changes none of its tallies. */
  lemma TallyCommented(text: string, block: seq<Assembly>, inc: nat, dec: nat)
    requires Tally(block, inc, dec)
    ensures Tally([MkComment(text)] + block, inc, dec)
  {
    TallyNoSp([MkComment(text)]);
    TallyAppend([MkComment(text)], block, 0, 0, inc, dec);
  }

  lemma ArithmeticTally(counter: nat, cmd: Command)
    requires !cmd.Push? && !cmd.Pop?
    ensures Tally(ArithmeticCode(counter, cmd), Increments(cmd), Decrements(cmd))
  {
    if IsComparison(cmd) {
      OrdTally(counter + 1, ComparisonJump(cmd));
      TallyCommented(ArithmeticComment(cmd), OrdCode(counter + 1, ComparisonJump(cmd)), 1, 2);
    } else if IsUnary(cmd) {
      UnaryTally(UnaryComp(cmd));
      TallyCommented(ArithmeticComment(cmd), UnaryCode(UnaryComp(cmd)), 1, 1);
    } else {
      BinaryTally(BinaryComp(cmd));
      TallyCommented(ArithmeticComment(cmd), BinaryCode(BinaryComp(cmd)), 1, 2);
    }
  }

  /**
   * Stack bookkeeping of `translate`: a push bumps SP up once and never
   * down, a pop down once and never up, a binary operation or comparison
   * down twice and up once, a unary operation once each way; so the net
   * bumps equal the command's stack effect.
   */
  lemma StackBookkeeping(counter: nat, basename: string, cmd: Command)
    requires Translatable(cmd)
    ensures Tally(TranslateCode(counter, basename, cmd), Increments(cmd), Decrements(cmd))
    ensures SpIncrements(TranslateCode(counter, basename, cmd)) - SpDecrements(TranslateCode(counter, basename, cmd))
         == StackEffect(cmd)
  {
    if cmd.Push? || cmd.Pop? {
      SegmentTally(basename, cmd);
    } else {
      ArithmeticTally(counter, cmd);
    }
    TallyCommented(DebugText(cmd), CommandCode(counter, basename, cmd), Increments(cmd), Decrements(cmd));
  }
}
