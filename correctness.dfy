/**
 * What the emitted code does on the Hack machine: running the block that
 * `translate` returns for a command changes the memory as the VM command
 * prescribes (module Vm), except that `pop` to a frame segment also leaves
 * the slot address in the scratch register R13.
 */
module Correctness {
  import opened Options
  import opened Numeric
  import opened Asm
  import opened Hack
  import Segments
  import opened Commands
  import opened Translations
  import opened Babel
  import LattSegment
  import PointerSegment
  import StaticSegment
  import TempSegment
  import opened Vm

  function Sp0(s: State): Word
  {
    Read(s.ram, SpAddress)
  }

  /** Word offsets that stay in range do not wrap. */
  lemma OffsetInRange(w: Word, k: int)
    requires 0 <= w as int + k < 0x1_0000
    ensures Offset(w, k) as int == w as int + k
  {
  }

  lemma ExecOne(sym: Symbols, i: Assembly, s: State)
    ensures Exec(sym, [i], s) == Exec1(sym, i, s)
  {
  }

  lemma ExecCons(sym: Symbols, i: Assembly, p: seq<Assembly>, s: State)
    ensures Exec(sym, [i] + p, s) == Exec(sym, p, Exec1(sym, i, s))
  {
    assert ([i] + p)[0] == i && ([i] + p)[1..] == p;
  }

  /** `@SP`, `M=M+1`. */
  lemma ExecIncrementSp(sym: Symbols, s: State)
    ensures Exec(sym, IncrementSpCode(), s) == State(SpAddress, s.d, s.ram[SpAddress := Offset(Sp0(s), 1)])
  {
    ExecCons(sym, Sp(), [Assign(Dest.M, Mplus1)], s);
  }

  /** `@SP`, `M=M-1`. */
  lemma ExecDecrementSp(sym: Symbols, s: State)
    ensures Exec(sym, DecrementSpCode(), s) == State(SpAddress, s.d, s.ram[SpAddress := Offset(Sp0(s), -1)])
  {
    ExecCons(sym, Sp(), [Assign(Dest.M, Mminus1)], s);
  }

  /** `@SP`, `A=M`, `D=M`: D is the cell SP points at. */
  lemma ExecStoreSpToDreg(sym: Symbols, s: State)
    ensures Exec(sym, StoreSpToDregCode(), s) == State(Sp0(s), Read(s.ram, Sp0(s)), s.ram)
  {
    ExecCons(sym, Sp(), [Assign(Dest.A, Comp.M), Assign(Dest.D, Comp.M)], s);
    var s1 := Exec1(sym, Sp(), s);
    ExecCons(sym, Assign(Dest.A, Comp.M), [Assign(Dest.D, Comp.M)], s1);
  }

  /** `@SP`, `A=M`, `M=D`: the cell SP points at becomes D. */
  lemma ExecStoreDregToSp(sym: Symbols, s: State)
    ensures Exec(sym, StoreDregToSpCode(), s) == State(Sp0(s), s.d, s.ram[Sp0(s) := s.d])
  {
    ExecCons(sym, Sp(), [Assign(Dest.A, Comp.M), Assign(Dest.M, Comp.D)], s);
    var s1 := Exec1(sym, Sp(), s);
    ExecCons(sym, Assign(Dest.A, Comp.M), [Assign(Dest.M, Comp.D)], s1);
  }

  /** `@R13`, `M=D`. */
  lemma ExecStoreDregInReg13(sym: Symbols, s: State)
    ensures Exec(sym, StoreDregInReg13Code(), s) == State(13, s.d, s.ram[13 := s.d])
  {
    ExecCons(sym, Reg13(), [Assign(Dest.M, Comp.D)], s);
  }

  /** A push: some reading code that leaves D = v and memory alone, then `*SP = D`, `SP++`. */
  lemma ExecPush(sym: Symbols, read: seq<Assembly>, s: State)
    requires Exec(sym, read, s).ram == s.ram && Sp0(s) != SpAddress
    ensures Exec(sym, read + StoreDregToSpCode() + IncrementSpCode(), s).ram
         == s.ram[Sp0(s) := Exec(sym, read, s).d][SpAddress := Offset(Sp0(s), 1)]
  {
    var s1 := Exec(sym, read, s);
    ExecAppend(sym, read, StoreDregToSpCode(), s);
    ExecStoreDregToSp(sym, s1);
    var s2 := Exec(sym, StoreDregToSpCode(), s1);
    ExecAppend(sym, read + StoreDregToSpCode(), IncrementSpCode(), s);
    ExecIncrementSp(sym, s2);
    assert s2.ram == s.ram[Sp0(s) := s1.d];
    assert Sp0(s2) == Sp0(s);
  }

  /** A pop: `SP--`, `D = *SP`, then writing code whose effect on the memory is given. */
  lemma ExecPop(sym: Symbols, write: seq<Assembly>, s: State)
    requires Sp0(s) >= 17
    ensures var top := Offset(Sp0(s), -1);
            Exec(sym, DecrementSpCode() + StoreSpToDregCode() + write, s)
              == Exec(sym, write, State(top, Read(s.ram, top), s.ram[SpAddress := top]))
  {
    var sp := Offset(Sp0(s), -1);
    ExecAppend(sym, DecrementSpCode(), StoreSpToDregCode(), s);
    ExecDecrementSp(sym, s);
    var s1 := Exec(sym, DecrementSpCode(), s);
    ExecStoreSpToDreg(sym, s1);
    assert Sp0(s1) == sp && Read(s1.ram, sp) == Read(s.ram, sp);
    ExecAppend(sym, DecrementSpCode() + StoreSpToDregCode(), write, s);
  }

  /** Writing D to a directly named cell: `@target`, `M=D`. */
  lemma ExecWriteTo(sym: Symbols, target: Assembly, s: State)
    requires target.Address? || target.VariableSymbol? || target.BaseRegister?
    ensures Exec(sym, [target, Assign(Dest.M, Comp.D)], s).ram == s.ram[Exec1(sym, target, s).a := s.d]
  {
    ExecCons(sym, target, [Assign(Dest.M, Comp.D)], s);
  }

  /** Reading a directly named cell into D: `@target`, `D=M`. */
  lemma ExecReadFrom(sym: Symbols, target: Assembly, s: State)
    requires target.Address? || target.VariableSymbol? || target.BaseRegister?
    ensures Exec(sym, [target, Assign(Dest.D, Comp.M)], s).ram == s.ram
    ensures Exec(sym, [target, Assign(Dest.D, Comp.M)], s).d == Read(s.ram, Exec1(sym, target, s).a)
  {
    ExecCons(sym, target, [Assign(Dest.D, Comp.M)], s);
  }

  /** `BaseIndexPrefix`: D holds RAM[base] and A the index. */
  lemma ExecBaseIndex(sym: Symbols, latt: Segments.Latt, index: u32, s: State)
    ensures Exec(sym, LattSegment.BaseIndexPrefix(latt, index), s)
         == State(ToWord(index as int), Read(s.ram, RegisterAddress(BaseOf(latt))), s.ram)
  {
    var base := Segments.AsAsm(latt);
    assert base == BaseRegister(BaseOf(latt));
    var rest := [Assign(Dest.D, Comp.M), Address(index)];
    assert LattSegment.BaseIndexPrefix(latt, index) == [base] + rest;
    ExecCons(sym, base, rest, s);
    var s1 := Exec1(sym, base, s);
    ExecCons(sym, Assign(Dest.D, Comp.M), [Address(index)], s1);
  }

  /** Adding an index to a word after truncating the index to a word is adding it modulo 2^16. */
  lemma AddTruncatedIndex(b: Word, index: u32)
    ensures ToWord(b as int + ToWord(index as int) as int) == Offset(b, index as int)
  {
    assert (b as int + (index as int % 0x1_0000)) % 0x1_0000 == (b as int + index as int) % 0x1_0000;
  }

  /** `BaseIndexPrefix` then `A=D+A`: A holds RAM[base] + index. */
  lemma ExecSlotAddress(sym: Symbols, latt: Segments.Latt, index: u32, s: State)
    ensures var s1 := Exec(sym, LattSegment.BaseIndexPrefix(latt, index), s);
            s1.ram == s.ram && s1.d == Read(s.ram, RegisterAddress(BaseOf(latt)))
            && ToWord(s1.d as int + s1.a as int) == Offset(Read(s.ram, RegisterAddress(BaseOf(latt))), index as int)
  {
    ExecBaseIndex(sym, latt, index, s);
    AddTruncatedIndex(Read(s.ram, RegisterAddress(BaseOf(latt))), index);
  }

  /** `push` of a frame segment reads RAM[RAM[base] + index]. */
  lemma ExecReadLatt(sym: Symbols, latt: Segments.Latt, index: u32, s: State)
    ensures var read := LattSegment.BaseIndexPrefix(latt, index) + [Assign(Dest.A, DplusA), Assign(Dest.D, Comp.M)];
            Exec(sym, read, s).ram == s.ram
            && Exec(sym, read, s).d == Read(s.ram, Offset(Read(s.ram, RegisterAddress(BaseOf(latt))), index as int))
  {
    var prefix := LattSegment.BaseIndexPrefix(latt, index);
    ExecSlotAddress(sym, latt, index, s);
    ExecAppend(sym, prefix, [Assign(Dest.A, DplusA), Assign(Dest.D, Comp.M)], s);
    ExecCons(sym, Assign(Dest.A, DplusA), [Assign(Dest.D, Comp.M)], Exec(sym, prefix, s));
  }

  /** The instructions of a push that leave the value to push in D. */
  function PushRead(basename: string, seg: Segments.Segment): seq<Assembly>
    requires 0 <= seg.index && (seg.segment == Segments.Pointer ==> seg.index <= 1)
  {
    var index := seg.index as int as u32;
    match seg.segment
    case Pointer => [PointerSegment.Pointee(seg.index), Assign(Dest.D, Comp.M)]
    case Constant => [Address(index), Assign(Dest.D, Comp.A)]
    case LATT(latt) => LattSegment.BaseIndexPrefix(latt, index) + [Assign(Dest.A, DplusA), Assign(Dest.D, Comp.M)]
    case Temp => [Address(TempSegment.TempAddress(index)), Assign(Dest.D, Comp.M)]
    case Static => [StaticSegment.VarSymbol(index, basename), Assign(Dest.D, Comp.M)]
  }

  /** Every push block reads a value into D, then stores it at SP and increments SP. */
  lemma PushShape(basename: string, cmd: Command)
    requires cmd.Push? && Translatable(cmd)
    ensures SegmentCode(basename, cmd) == PushRead(basename, cmd.seg) + StoreDregToSpCode() + IncrementSpCode()
  {
  }

  /** The reading part of a push leaves memory alone and loads the VM's pushed value. */
  lemma ExecPushRead(sym: Symbols, basename: string, seg: Segments.Segment, s: State)
    requires 0 <= seg.index && (seg.segment == Segments.Pointer ==> seg.index <= 1)
    ensures Exec(sym, PushRead(basename, seg), s).ram == s.ram
    ensures Exec(sym, PushRead(basename, seg), s).d == PushedValue(sym, basename, seg, s.ram)
  {
    var index := seg.index as int as u32;
    match seg.segment {
      case Pointer =>
        ExecReadFrom(sym, PointerSegment.Pointee(seg.index), s);
      case Constant =>
        ExecCons(sym, Address(index), [Assign(Dest.D, Comp.A)], s);
      case LATT(latt) =>
        ExecReadLatt(sym, latt, index, s);
      case Temp =>
        ExecReadFrom(sym, Address(TempSegment.TempAddress(index)), s);
      case Static =>
        ExecReadFrom(sym, StaticSegment.VarSymbol(index, basename), s);
    }
  }

  /** The VM's push, written out. */
  lemma VmPush(sym: Symbols, basename: string, cmd: Command, ram: Ram)
    requires cmd.Push? && Translatable(cmd)
    ensures var sp := Read(ram, SpAddress);
            VmStep(sym, basename, cmd, ram)
              == ram[sp := PushedValue(sym, basename, cmd.seg, ram)][SpAddress := Offset(sp, 1)]
  {
  }

  /** `push seg index` for every segment: the block does exactly the VM's push. */
  lemma PushCorrect(sym: Symbols, basename: string, cmd: Command, s: State)
    requires cmd.Push? && Translatable(cmd) && StackReady(cmd, s.ram)
    ensures Exec(sym, SegmentCode(basename, cmd), s).ram == VmStep(sym, basename, cmd, s.ram)
  {
    PushShape(basename, cmd);
    ExecPushRead(sym, basename, cmd.seg, s);
    ExecPush(sym, PushRead(basename, cmd.seg), s);
    VmPush(sym, basename, cmd, s.ram);
  }

  /** The cell a pop to a segment other than a frame segment writes: `@target`. */
  function PopTarget(basename: string, seg: Segments.Segment): (r: Assembly)
    requires seg.segment in {Segments.Pointer, Segments.Temp, Segments.Static} && 0 <= seg.index
    requires seg.segment == Segments.Pointer ==> seg.index <= 1
    ensures r.Address? || r.VariableSymbol? || r.BaseRegister?
  {
    var index := seg.index as int as u32;
    match seg.segment
    case Pointer => PointerSegment.Pointee(seg.index)
    case Temp => Address(TempSegment.TempAddress(index))
    case Static => StaticSegment.VarSymbol(index, basename)
  }

  /** Every such pop block pops the top into D, then writes D to its target. */
  lemma PopShape(basename: string, cmd: Command)
    requires cmd.Pop? && Translatable(cmd) && !cmd.seg.segment.LATT?
    ensures cmd.seg.segment in {Segments.Pointer, Segments.Temp, Segments.Static}
    ensures SegmentCode(basename, cmd)
         == DecrementSpCode() + StoreSpToDregCode() + [PopTarget(basename, cmd.seg), Assign(Dest.M, Comp.D)]
  {
  }

  /** The target addresses the VM's segment cell. */
  lemma PopTargetAddress(sym: Symbols, basename: string, seg: Segments.Segment, s: State)
    requires seg.segment in {Segments.Pointer, Segments.Temp, Segments.Static} && 0 <= seg.index
    requires seg.segment == Segments.Pointer ==> seg.index <= 1
    ensures Exec1(sym, PopTarget(basename, seg), s).a == SegmentAddress(sym, basename, seg, s.ram)
  {
  }

  /** The VM's pop, written out. */
  lemma VmPop(sym: Symbols, basename: string, cmd: Command, ram: Ram)
    requires cmd.Pop? && Translatable(cmd)
    ensures var top := Offset(Read(ram, SpAddress), -1);
            VmStep(sym, basename, cmd, ram)
              == ram[SpAddress := top][SegmentAddress(sym, basename, cmd.seg, ram) := Read(ram, top)]
  {
  }

  /**
   * `pop` to a segment other than a frame segment: the block does exactly
   * the VM's pop.
   */
  lemma PopCorrect(sym: Symbols, basename: string, cmd: Command, s: State)
    requires cmd.Pop? && Translatable(cmd) && StackReady(cmd, s.ram) && !cmd.seg.segment.LATT?
    ensures Exec(sym, SegmentCode(basename, cmd), s).ram == VmStep(sym, basename, cmd, s.ram)
  {
    var top := Offset(Sp0(s), -1);
    var s1 := State(top, Read(s.ram, top), s.ram[SpAddress := top]);
    PopShape(basename, cmd);
    var target := PopTarget(basename, cmd.seg);
    ExecPop(sym, [target, Assign(Dest.M, Comp.D)], s);
    ExecWriteTo(sym, target, s1);
    PopTargetAddress(sym, basename, cmd.seg, s1);
    VmPop(sym, basename, cmd, s.ram);
  }

  /** `pop_latt`'s first part: RAM[base] + index, kept in R13. */
  lemma ExecPopLattAddress(sym: Symbols, latt: Segments.Latt, index: u32, s: State)
    ensures var slot := Offset(Read(s.ram, RegisterAddress(BaseOf(latt))), index as int);
            var address := LattSegment.BaseIndexPrefix(latt, index) + [Assign(Dest.D, DplusA)];
            Exec(sym, address + StoreDregInReg13Code(), s) == State(13, slot, s.ram[13 := slot])
  {
    var prefix := LattSegment.BaseIndexPrefix(latt, index);
    var address := prefix + [Assign(Dest.D, DplusA)];
    ExecSlotAddress(sym, latt, index, s);
    ExecAppend(sym, prefix, [Assign(Dest.D, DplusA)], s);
    ExecOne(sym, Assign(Dest.D, DplusA), Exec(sym, prefix, s));
    ExecAppend(sym, address, StoreDregInReg13Code(), s);
    ExecStoreDregInReg13(sym, Exec(sym, address, s));
  }

  /** `pop_latt`'s last part: write D through the address kept in R13. */
  lemma ExecWriteThroughR13(sym: Symbols, s: State)
    ensures Exec(sym, [Reg13(), Assign(Dest.A, Comp.M), Assign(Dest.M, Comp.D)], s).ram
         == s.ram[Read(s.ram, 13) := s.d]
  {
    ExecCons(sym, Reg13(), [Assign(Dest.A, Comp.M), Assign(Dest.M, Comp.D)], s);
    var s1 := Exec1(sym, Reg13(), s);
    ExecCons(sym, Assign(Dest.A, Comp.M), [Assign(Dest.M, Comp.D)], s1);
  }

  /**
   * `pop_latt` on its own: R13 receives the slot address RAM[base] + index,
   * then the top is popped and written to that slot.
   */
  lemma ExecPopLatt(sym: Symbols, latt: Segments.Latt, index: u32, s: State)
    requires Sp0(s) >= 17
    ensures var slot := Offset(Read(s.ram, RegisterAddress(BaseOf(latt))), index as int);
            var top := Offset(Sp0(s), -1);
            Exec(sym, LattSegment.PopLattCode(latt, index), s).ram
              == s.ram[13 := slot][SpAddress := top][slot := Read(s.ram, top)]
  {
    var slot := Offset(Read(s.ram, RegisterAddress(BaseOf(latt))), index as int);
    var top := Offset(Sp0(s), -1);
    var address := LattSegment.BaseIndexPrefix(latt, index) + [Assign(Dest.D, DplusA)];
    var write := [Reg13(), Assign(Dest.A, Comp.M), Assign(Dest.M, Comp.D)];
    assert LattSegment.PopLattCode(latt, index)
        == (address + StoreDregInReg13Code()) + (DecrementSpCode() + StoreSpToDregCode() + write);
    ExecAppend(sym, address + StoreDregInReg13Code(), DecrementSpCode() + StoreSpToDregCode() + write, s);
    ExecPopLattAddress(sym, latt, index, s);
    var s2 := State(13, slot, s.ram[13 := slot]);
    assert Sp0(s2) == Sp0(s);
    ExecPop(sym, write, s2);
    var s3 := State(top, Read(s2.ram, top), s2.ram[SpAddress := top]);
    OffsetInRange(Sp0(s), -1);
    assert Read(s2.ram, top) == Read(s.ram, top);
    ExecWriteThroughR13(sym, s3);
    assert Read(s3.ram, 13) == slot;
  }

  /**
   * `pop` to a frame segment: the block does the VM's pop and also leaves
   * the slot address in R13 (unless the slot is R13 itself).
   */
  lemma PopLattCorrect(sym: Symbols, basename: string, cmd: Command, s: State)
    requires cmd.Pop? && Translatable(cmd) && StackReady(cmd, s.ram) && cmd.seg.segment.LATT?
    ensures var slot := SegmentAddress(sym, basename, cmd.seg, s.ram);
            var vm := VmStep(sym, basename, cmd, s.ram);
            Exec(sym, SegmentCode(basename, cmd), s).ram == if slot == 13 then vm else vm[13 := slot]
  {
    var latt := cmd.seg.segment.latt;
    var index := cmd.seg.index as int as u32;
    assert SegmentCode(basename, cmd) == LattSegment.PopLattCode(latt, index);
    ExecPopLatt(sym, latt, index, s);
    VmPop(sym, basename, cmd, s.ram);
  }

  /** `A=M` followed by a computation: A follows the pointer in A, then D or M is computed. */
  lemma ExecDeref(sym: Symbols, dest: Dest, c: Comp, s: State)
    ensures var a := Read(s.ram, s.a);
            Exec(sym, [Assign(Dest.A, Comp.M), Assign(dest, c)], s)
              == Store(Some(dest), Eval(c, State(a, s.d, s.ram)), State(a, s.d, s.ram))
  {
    ExecCons(sym, Assign(Dest.A, Comp.M), [Assign(dest, c)], s);
  }

  /** `@SP`, `M=M-1`, `A=M`, then a computation on the new top cell. */
  lemma ExecDecDeref(sym: Symbols, dest: Dest, c: Comp, s: State)
    ensures var top := Offset(Sp0(s), -1);
            var st := State(top, s.d, s.ram[SpAddress := top]);
            Exec(sym, DecrementSpCode() + [Assign(Dest.A, Comp.M), Assign(dest, c)], s)
              == Store(Some(dest), Eval(c, st), st)
  {
    var top := Offset(Sp0(s), -1);
    ExecAppend(sym, DecrementSpCode(), [Assign(Dest.A, Comp.M), Assign(dest, c)], s);
    ExecDecrementSp(sym, s);
    var s1 := State(SpAddress, s.d, s.ram[SpAddress := top]);
    ExecDeref(sym, dest, c, s1);
    assert Read(s1.ram, s1.a) == top;
  }

  /** The first pop of `binary_asm`: SP drops by one and D is the old top. */
  lemma ExecPopFirst(sym: Symbols, s: State)
    requires Sp0(s) >= 17
    ensures var top := Offset(Sp0(s), -1);
            Exec(sym, DecrementSpCode() + [Assign(Dest.A, Comp.M), Assign(Dest.D, Comp.M)], s)
              == State(top, Read(s.ram, top), s.ram[SpAddress := top])
  {
    OffsetInRange(Sp0(s), -1);
    ExecDecDeref(sym, Dest.D, Comp.M, s);
  }

  /** The second pop: SP drops again and D = `c` with M the second element. */
  lemma ExecPopSecond(sym: Symbols, c: Comp, s: State, top: Word, second: Word)
    requires Sp0(s) >= 18 && top == Offset(Sp0(s), -1) && second == Offset(Sp0(s), -2)
    ensures var s1 := State(top, Read(s.ram, top), s.ram[SpAddress := top]);
            Exec(sym, DecrementSpCode() + [Assign(Dest.A, Comp.M), Assign(Dest.D, c)], s1)
              == State(second, Eval(c, State(second, Read(s.ram, top), s.ram[SpAddress := second])), s.ram[SpAddress := second])
  {
    OffsetInRange(Sp0(s), -1);
    OffsetInRange(Sp0(s), -2);
    OffsetInRange(top, -1);
    var s1 := State(top, Read(s.ram, top), s.ram[SpAddress := top]);
    assert Sp0(s1) == top;
    ExecDecDeref(sym, Dest.D, c, s1);
    assert s.ram[SpAddress := top][SpAddress := second] == s.ram[SpAddress := second];
  }

  /**
   * The shared start of `binary_asm` and `ord_asm`: SP drops by two, A is the
   * second element's address, and D is `c` computed with D = top, M = second.
   */
  lemma ExecPopOperands(sym: Symbols, c: Comp, s: State)
    requires Sp0(s) >= 18
    ensures var second := Offset(Sp0(s), -2);
            var ram := s.ram[SpAddress := second];
            Exec(sym, PopOperandsCode(c), s)
              == State(second, Eval(c, State(second, Read(s.ram, Offset(Sp0(s), -1)), ram)), ram)
  {
    var first := DecrementSpCode() + [Assign(Dest.A, Comp.M), Assign(Dest.D, Comp.M)];
    var next := DecrementSpCode() + [Assign(Dest.A, Comp.M), Assign(Dest.D, c)];
    assert PopOperandsCode(c) == first + next;
    ExecAppend(sym, first, next, s);
    ExecPopFirst(sym, s);
    ExecPopSecond(sym, c, s, Offset(Sp0(s), -1), Offset(Sp0(s), -2));
  }

  lemma BitAndCommutes(x: Word, y: Word)
    ensures BitAnd(x, y) == BitAnd(y, x)
  {
    assert (x as bv16) & (y as bv16) == (y as bv16) & (x as bv16);
  }

  lemma BitOrCommutes(x: Word, y: Word)
    ensures BitOr(x, y) == BitOr(y, x)
  {
    assert (x as bv16) | (y as bv16) == (y as bv16) | (x as bv16);
  }

  /** `binary_asm(c)`: the second entry becomes `c` with D = top and M = second; SP drops by one. */
  lemma ExecBinaryBlock(sym: Symbols, c: Comp, s: State)
    requires Sp0(s) >= 18
    ensures var top := Offset(Sp0(s), -1);
            var second := Offset(Sp0(s), -2);
            var r := Eval(c, State(second, Read(s.ram, top), s.ram[SpAddress := second]));
            Exec(sym, BinaryCode(c), s).ram == s.ram[SpAddress := top][second := r]
  {
    var top := Offset(Sp0(s), -1);
    var second := Offset(Sp0(s), -2);
    OffsetInRange(Sp0(s), -1);
    OffsetInRange(Sp0(s), -2);
    var pops := PopOperandsCode(c);
    ExecAppend(sym, pops, StoreDregToSpCode(), s);
    ExecAppend(sym, pops + StoreDregToSpCode(), IncrementSpCode(), s);
    ExecPopOperands(sym, c, s);
    var ram := s.ram[SpAddress := second];
    var r := Eval(c, State(second, Read(s.ram, top), ram));
    var s1 := State(second, r, ram);
    ExecStoreDregToSp(sym, s1);
    var s2 := State(second, r, ram[second := r]);
    ExecIncrementSp(sym, s2);
    OffsetInRange(second, 1);
    MoveSp(s.ram, second, top, r);
  }

  /** Setting SP to `second`, writing cell `second`, then setting SP to `top`: the first setting is lost. */
  lemma MoveSp(ram: Ram, second: Word, top: Word, v: Word)
    requires second != SpAddress
    ensures ram[SpAddress := second][second := v][SpAddress := top] == ram[SpAddress := top][second := v]
  {
  }

  /** The computation `binary_asm` is given yields the VM's `second op top`. */
  lemma BinaryCompMeaning(cmd: Command, st: State)
    requires cmd.Add? || cmd.Subtract? || cmd.And? || cmd.Or?
    ensures Eval(BinaryComp(cmd), st) == BinaryOp(cmd, Read(st.ram, st.a), st.d)
  {
    var m := Read(st.ram, st.a);
    match cmd {
      case Add =>
      case Subtract =>
      case And => BitAndCommutes(m, st.d);
      case Or => BitOrCommutes(m, st.d);
    }
  }

  /**
   * `add`, `sub`, `and`, `or`: the block replaces the two top entries by
   * `second op top`, as the VM prescribes.
   */
  lemma BinaryCorrect(sym: Symbols, counter: nat, basename: string, cmd: Command, s: State)
    requires (cmd.Add? || cmd.Subtract? || cmd.And? || cmd.Or?) && StackReady(cmd, s.ram)
    ensures Exec(sym, TranslateCode(counter, basename, cmd), s).ram == VmStep(sym, basename, cmd, s.ram)
  {
    var c := BinaryComp(cmd);
    var top := Offset(Sp0(s), -1);
    var second := Offset(Sp0(s), -2);
    OffsetInRange(Sp0(s), -2);
    ArithmeticLayout(counter, basename, cmd);
    var head := ArithmeticHead(cmd);
    ExecAppend(sym, head, BinaryCode(c), s);
    ExecArithmeticHead(sym, cmd, s);
    ExecBinaryBlock(sym, c, s);
    var st := State(second, Read(s.ram, top), s.ram[SpAddress := second]);
    BinaryCompMeaning(cmd, st);
    assert Read(st.ram, st.a) == Read(s.ram, second);
  }

  /** `unary_asm(c)`: the top entry becomes `c` with M = top. */
  lemma ExecUnaryBlock(sym: Symbols, c: Comp, s: State)
    requires Sp0(s) >= 17
    ensures var top := Offset(Sp0(s), -1);
            Exec(sym, UnaryCode(c), s).ram
              == s.ram[top := Eval(c, State(top, s.d, s.ram[SpAddress := top]))]
  {
    var top := Offset(Sp0(s), -1);
    OffsetInRange(Sp0(s), -1);
    OffsetInRange(top, 1);
    var head := [MkComment("Unary " + RenderComp(c))];
    ExecAppend(sym, head + ApplyToTopCode(c), IncrementSpCode(), s);
    ExecAppend(sym, head, ApplyToTopCode(c), s);
    ExecOne(sym, head[0], s);
    ExecDecDeref(sym, Dest.M, c, s);
    var r := Eval(c, State(top, s.d, s.ram[SpAddress := top]));
    ExecIncrementSp(sym, State(top, s.d, s.ram[SpAddress := top][top := r]));
    RestoreSp(s.ram, top, r);
  }

  /** Moving SP down, writing below it and moving it back writes only below it. */
  lemma RestoreSp(ram: Ram, top: Word, v: Word)
    requires top != SpAddress && SpAddress in ram
    ensures ram[SpAddress := top][top := v][SpAddress := ram[SpAddress]] == ram[top := v]
  {
  }

  /** The two comments `translate` puts before a non-comparison arithmetic block. */
  function ArithmeticHead(cmd: Command): seq<Assembly>
    requires !cmd.Push? && !cmd.Pop?
  {
    [MkComment(DebugText(cmd)), MkComment(ArithmeticComment(cmd))]
  }

  /** An arithmetic command other than a comparison translates to its two comments, then its block. */
  lemma ArithmeticLayout(counter: nat, basename: string, cmd: Command)
    requires !cmd.Push? && !cmd.Pop? && !IsComparison(cmd)
    ensures IsUnary(cmd) ==> TranslateCode(counter, basename, cmd) == ArithmeticHead(cmd) + UnaryCode(UnaryComp(cmd))
    ensures !IsUnary(cmd) ==> TranslateCode(counter, basename, cmd) == ArithmeticHead(cmd) + BinaryCode(BinaryComp(cmd))
  {
  }

  /** The comments change nothing. */
  lemma ExecArithmeticHead(sym: Symbols, cmd: Command, s: State)
    requires !cmd.Push? && !cmd.Pop?
    ensures Exec(sym, ArithmeticHead(cmd), s) == s
  {
    ExecCons(sym, MkComment(DebugText(cmd)), [MkComment(ArithmeticComment(cmd))], s);
    ExecOne(sym, MkComment(ArithmeticComment(cmd)), s);
  }

  /** The VM's `neg` and `not` replace the top entry and nothing else. */
  lemma UnaryVmStep(sym: Symbols, basename: string, cmd: Command, ram: Ram)
    requires cmd.Negate? || cmd.Not?
    ensures VmStep(sym, basename, cmd, ram)
         == ram[Offset(Read(ram, SpAddress), -1) := UnaryOp(cmd, Read(ram, Offset(Read(ram, SpAddress), -1)))]
  {
  }

  /** The computation `unary_asm` applies, with M the top entry, is the VM's operation. */
  lemma UnaryCompMeaning(cmd: Command, s: State)
    requires (cmd.Negate? || cmd.Not?) && Sp0(s) >= 17
    ensures var top := Offset(Sp0(s), -1);
            Eval(UnaryComp(cmd), State(top, s.d, s.ram[SpAddress := top])) == UnaryOp(cmd, Read(s.ram, top))
  {
    OffsetInRange(Sp0(s), -1);
    var top := Offset(Sp0(s), -1);
    assert Read(s.ram[SpAddress := top], top) == Read(s.ram, top);
  }

  /** `neg`, `not`: the block replaces the top entry by `op top`. */
  lemma UnaryCorrect(sym: Symbols, counter: nat, basename: string, cmd: Command, s: State)
    requires (cmd.Negate? || cmd.Not?) && StackReady(cmd, s.ram)
    ensures Exec(sym, TranslateCode(counter, basename, cmd), s).ram == VmStep(sym, basename, cmd, s.ram)
  {
    ArithmeticLayout(counter, basename, cmd);
    ExecAppend(sym, ArithmeticHead(cmd), UnaryCode(UnaryComp(cmd)), s);
    ExecArithmeticHead(sym, cmd, s);
    ExecUnaryBlock(sym, UnaryComp(cmd), s);
    UnaryCompMeaning(cmd, s);
    UnaryVmStep(sym, basename, cmd, s.ram);
  }
}
