/**
 * The labels of the emitted code. Only comparisons define labels:
 * `<Jump><n>` and `AFTER<n>`, with n the counter after its increment, and
 * `finish` defines `END`. Because the counter only grows, every label a
 * translation unit defines is defined once.
 */
module Labels {
  import opened Options
  import opened Numeric
  import opened Asm
  import opened Commands
  import opened Translations
  import opened Babel
  import Segments
  import LattSegment
  import PointerSegment
  import StaticSegment
  import TempSegment

  /** The names `code` defines with `(name)`, in order. */
  function LabelsOf(code: seq<Assembly>): seq<string>
  {
    if code == [] then []
    else (if code[0].Label? then [code[0].name] else []) + LabelsOf(code[1..])
  }

  predicate NoDuplicates(names: seq<string>)
  {
    forall i, j :: 0 <= i < j < |names| ==> names[i] != names[j]
  }

  predicate NoLabels(code: seq<Assembly>)
  {
    forall k :: 0 <= k < |code| ==> !code[k].Label?
  }

  lemma {:induction false} LabelsOfAppend(a: seq<Assembly>, b: seq<Assembly>)
    ensures LabelsOf(a + b) == LabelsOf(a) + LabelsOf(b)
    decreases |a|
  {
    if a == [] {
      assert a + b == b;
    } else {
      assert (a + b)[0] == a[0] && (a + b)[1..] == a[1..] + b;
      LabelsOfAppend(a[1..], b);
    }
  }

  lemma {:induction false} NoLabelsOf(code: seq<Assembly>)
    requires NoLabels(code)
    ensures LabelsOf(code) == []
    decreases |code|
  {
    if code != [] {
      assert !code[0].Label?;
      NoLabelsOf(code[1..]);
    }
  }

  /** The number a counter label carries: the digits after `J..` or `AFTER`. */
  function LabelIndex(l: string): nat
  {
    if |l| >= 3 && l[0] == 'J' && AllDigits(l[3..]) then Value(l[3..])
    else if |l| >= 5 && AllDigits(l[5..]) then Value(l[5..])
    else 0
  }

  /** A label made from the counter starts with `J` (a jump name) or `A` (`AFTER`). */
  predicate CounterLabel(l: string)
  {
    |l| >= 1 && (l[0] == 'J' || l[0] == 'A')
  }

  lemma JumpLabelIndex(jump: Jump, n: nat)
    ensures CounterLabel(JumpLabel(jump, n)) && LabelIndex(JumpLabel(jump, n)) == n
  {
    var l := JumpLabel(jump, n);
    assert l[3..] == Decimal(n);
    assert l[0] == JumpName(jump)[0] == 'J';
    ValueOfDecimal(n);
  }

  lemma AfterLabelIndex(n: nat)
    ensures CounterLabel(AfterLabel(n)) && LabelIndex(AfterLabel(n)) == n
  {
    var l := AfterLabel(n);
    assert l[5..] == Decimal(n);
    assert l[0] == 'A';
    ValueOfDecimal(n);
  }

  lemma JumpLabelNotAfterLabel(jump: Jump, m: nat, n: nat)
    ensures JumpLabel(jump, m) != AfterLabel(n)
  {
    assert JumpLabel(jump, m)[0] == 'J';
    assert AfterLabel(n)[0] == 'A';
  }

  lemma NoLabelsAppend(a: seq<Assembly>, b: seq<Assembly>)
    requires LabelsOf(a) == [] && LabelsOf(b) == []
    ensures LabelsOf(a + b) == []
  {
    LabelsOfAppend(a, b);
  }

  /** A comment in front of a block defines no label. */
  lemma LabelsCommented(text: string, block: seq<Assembly>)
    ensures LabelsOf([MkComment(text)] + block) == LabelsOf(block)
  {
    LabelsOfAppend([MkComment(text)], block);
  }

  lemma WriteFlagNoLabels(c: Comp)
    ensures LabelsOf(WriteFlagCode(c)) == []
  {
    NoLabelsOf(WriteFlagCode(c));
  }

  lemma BranchFalseLabels(n: nat, jump: Jump)
    ensures LabelsOf(BranchCode(n, jump) + FalseCode(n)) == []
  {
    NoLabelsOf(BranchCode(n, jump));
    WriteFlagNoLabels(Comp.D);
    NoLabelsOf([AddrSym(AfterLabel(n)), Command(None, Zero, Some(JMP))]);
    NoLabelsAppend(WriteFlagCode(Comp.D), [AddrSym(AfterLabel(n)), Command(None, Zero, Some(JMP))]);
    NoLabelsAppend(BranchCode(n, jump), FalseCode(n));
  }

  lemma TrueLabels(n: nat, jump: Jump)
    ensures LabelsOf(TrueCode(n, jump)) == [JumpLabel(jump, n)]
  {
    WriteFlagNoLabels(Dminus1);
    LabelsOfAppend([MkLabel(JumpLabel(jump, n))], WriteFlagCode(Dminus1));
  }

  lemma JoinLabels(n: nat)
    ensures LabelsOf(JoinCode(n)) == [AfterLabel(n)]
  {
    NoLabelsOf(IncrementSpCode());
    LabelsOfAppend([MkLabel(AfterLabel(n))], IncrementSpCode());
  }

  lemma FlagLabels(n: nat, jump: Jump)
    ensures LabelsOf(FlagCode(n, jump)) == [JumpLabel(jump, n), AfterLabel(n)]
  {
    BranchFalseLabels(n, jump);
    TrueLabels(n, jump);
    JoinLabels(n);
    LabelsOfAppend(BranchCode(n, jump) + FalseCode(n), TrueCode(n, jump));
    LabelsOfAppend(BranchCode(n, jump) + FalseCode(n) + TrueCode(n, jump), JoinCode(n));
  }

  /** `ord_asm` defines `<Jump><n>` and then `AFTER<n>`, and nothing else. */
  lemma OrdLabels(n: nat, jump: Jump)
    ensures LabelsOf(OrdCode(n, jump)) == [JumpLabel(jump, n), AfterLabel(n)]
  {
    NoLabelsOf(PopOperandsCode(DminusM));
    FlagLabels(n, jump);
    LabelsOfAppend(PopOperandsCode(DminusM), FlagCode(n, jump));
  }

  /** One of the four instructions that mention a comparison block's labels. */
  predicate LabelUse(n: nat, jump: Jump, x: Assembly)
  {
    x == Label(JumpLabel(jump, n)) || x == AddressSymbol(JumpLabel(jump, n))
    || x == Label(AfterLabel(n)) || x == AddressSymbol(AfterLabel(n))
  }

  lemma PopOperandsCount(n: nat, jump: Jump, x: Assembly)
    requires LabelUse(n, jump, x)
    ensures multiset(PopOperandsCode(DminusM))[x] == 0
  {
    JumpLabelNotSp(jump, n);
    AfterLabelNotSp(n);
    assert x !in PopOperandsCode(DminusM);
  }

  lemma BranchCount(n: nat, jump: Jump, x: Assembly)
    requires LabelUse(n, jump, x)
    ensures multiset(BranchCode(n, jump))[x] == if x == AddressSymbol(JumpLabel(jump, n)) then 1 else 0
  {
    JumpLabelNotAfterLabel(jump, n, n);
  }

  lemma WriteFlagCount(n: nat, jump: Jump, c: Comp, x: Assembly)
    requires LabelUse(n, jump, x)
    ensures multiset(WriteFlagCode(c))[x] == 0
  {
    JumpLabelNotSp(jump, n);
    AfterLabelNotSp(n);
    assert x !in WriteFlagCode(c);
  }

  lemma FalseCount(n: nat, jump: Jump, x: Assembly)
    requires LabelUse(n, jump, x)
    ensures multiset(FalseCode(n))[x] == if x == AddressSymbol(AfterLabel(n)) then 1 else 0
  {
    JumpLabelNotAfterLabel(jump, n, n);
    WriteFlagCount(n, jump, Comp.D, x);
  }

  lemma TrueCount(n: nat, jump: Jump, x: Assembly)
    requires LabelUse(n, jump, x)
    ensures multiset(TrueCode(n, jump))[x] == if x == Label(JumpLabel(jump, n)) then 1 else 0
  {
    JumpLabelNotAfterLabel(jump, n, n);
    WriteFlagCount(n, jump, Dminus1, x);
  }

  lemma JoinCount(n: nat, jump: Jump, x: Assembly)
    requires LabelUse(n, jump, x)
    ensures multiset(JoinCode(n))[x] == if x == Label(AfterLabel(n)) then 1 else 0
  {
    JumpLabelNotAfterLabel(jump, n, n);
    assert x !in IncrementSpCode();
  }

  /**
   * Inside one comparison block, each of its two labels is defined exactly
   * once and referenced (`@label`) exactly once.
   */
  lemma OrdLabelUse(n: nat, jump: Jump, x: Assembly)
    requires LabelUse(n, jump, x)
    ensures multiset(OrdCode(n, jump))[x] == 1
  {
    PopOperandsCount(n, jump, x);
    BranchCount(n, jump, x);
    FalseCount(n, jump, x);
    TrueCount(n, jump, x);
    JoinCount(n, jump, x);
    JumpLabelNotAfterLabel(jump, n, n);
  }

  lemma PushNoLabels(read: seq<Assembly>)
    requires NoLabels(read)
    ensures LabelsOf(read + StoreDregToSpCode() + IncrementSpCode()) == []
  {
    NoLabelsOf(read);
    NoLabelsOf(StoreDregToSpCode());
    NoLabelsOf(IncrementSpCode());
    NoLabelsAppend(read, StoreDregToSpCode());
    NoLabelsAppend(read + StoreDregToSpCode(), IncrementSpCode());
  }

  lemma PopNoLabels(write: seq<Assembly>)
    requires NoLabels(write)
    ensures LabelsOf(DecrementSpCode() + StoreSpToDregCode() + write) == []
  {
    NoLabelsOf(write);
    NoLabelsOf(DecrementSpCode());
    NoLabelsOf(StoreSpToDregCode());
    NoLabelsAppend(DecrementSpCode(), StoreSpToDregCode());
    NoLabelsAppend(DecrementSpCode() + StoreSpToDregCode(), write);
  }

  /** The first half of `pop_latt`: the slot address, parked in R13. */
  lemma PopLattAddressNoLabels(latt: Segments.Latt, index: u32)
    ensures LabelsOf(LattSegment.BaseIndexPrefix(latt, index) + [Assign(Dest.D, DplusA)] + StoreDregInReg13Code()) == []
  {
    NoLabelsOf(LattSegment.BaseIndexPrefix(latt, index) + [Assign(Dest.D, DplusA)]);
    NoLabelsOf(StoreDregInReg13Code());
    NoLabelsAppend(LattSegment.BaseIndexPrefix(latt, index) + [Assign(Dest.D, DplusA)], StoreDregInReg13Code());
  }

  lemma PopLattNoLabels(latt: Segments.Latt, index: u32)
    ensures LabelsOf(LattSegment.PopLattCode(latt, index)) == []
  {
    var address := LattSegment.BaseIndexPrefix(latt, index) + [Assign(Dest.D, DplusA)] + StoreDregInReg13Code();
    var write := [Reg13(), Assign(Dest.A, Comp.M), Assign(Dest.M, Comp.D)];
    PopLattAddressNoLabels(latt, index);
    NoLabelsOf(DecrementSpCode());
    NoLabelsOf(StoreSpToDregCode());
    NoLabelsOf(write);
    NoLabelsAppend(address, DecrementSpCode());
    NoLabelsAppend(address + DecrementSpCode(), StoreSpToDregCode());
    NoLabelsAppend(address + DecrementSpCode() + StoreSpToDregCode(), write);
  }

  /** A push or pop block defines no label. */
  lemma SegmentLabels(basename: string, cmd: Command)
    requires Translatable(cmd) && (cmd.Push? || cmd.Pop?)
    ensures LabelsOf(SegmentCode(basename, cmd)) == []
  {
    match cmd {
      case Push(Segment(Pointer, index)) =>
        PushNoLabels([PointerSegment.Pointee(index), Assign(Dest.D, Comp.M)]);
      case Pop(Segment(Pointer, index)) =>
        PopNoLabels([PointerSegment.Pointee(index), Assign(Dest.M, Comp.D)]);
      case Push(Segment(Constant, x)) =>
        PushNoLabels([Address(x as int as u32), Assign(Dest.D, Comp.A)]);
      case Push(Segment(LATT(latt), index)) =>
        PushNoLabels(LattSegment.BaseIndexPrefix(latt, index as int as u32) + [Assign(Dest.A, DplusA), Assign(Dest.D, Comp.M)]);
      case Pop(Segment(LATT(latt), index)) => PopLattNoLabels(latt, index as int as u32);
      case Pop(Segment(Temp, index)) =>
        PopNoLabels([Address(TempSegment.TempAddress(index as int as u32)), Assign(Dest.M, Comp.D)]);
      case Push(Segment(Temp, index)) =>
        PushNoLabels([Address(TempSegment.TempAddress(index as int as u32)), Assign(Dest.D, Comp.M)]);
      case Pop(Segment(Static, index)) =>
        PopNoLabels([StaticSegment.VarSymbol(index as int as u32, basename), Assign(Dest.M, Comp.D)]);
      case Push(Segment(Static, index)) =>
        PushNoLabels([StaticSegment.VarSymbol(index as int as u32, basename), Assign(Dest.D, Comp.M)]);
    }
  }

  lemma UnaryNoLabels(c: Comp)
    ensures LabelsOf(UnaryCode(c)) == []
  {
    NoLabelsOf([MkComment("Unary " + RenderComp(c))] + ApplyToTopCode(c));
    NoLabelsOf(IncrementSpCode());
    NoLabelsAppend([MkComment("Unary " + RenderComp(c))] + ApplyToTopCode(c), IncrementSpCode());
  }

  lemma BinaryNoLabels(c: Comp)
    ensures LabelsOf(BinaryCode(c)) == []
  {
    NoLabelsOf(PopOperandsCode(c));
    NoLabelsOf(StoreDregToSpCode());
    NoLabelsOf(IncrementSpCode());
    NoLabelsAppend(PopOperandsCode(c), StoreDregToSpCode());
    NoLabelsAppend(PopOperandsCode(c) + StoreDregToSpCode(), IncrementSpCode());
  }

  lemma ArithmeticLabels(counter: nat, cmd: Command)
    requires !cmd.Push? && !cmd.Pop?
    ensures LabelsOf(ArithmeticCode(counter, cmd))
         == if IsComparison(cmd) then [JumpLabel(ComparisonJump(cmd), counter + 1), AfterLabel(counter + 1)] else []
  {
    if IsComparison(cmd) {
      OrdLabels(counter + 1, ComparisonJump(cmd));
      LabelsCommented(ArithmeticComment(cmd), OrdCode(counter + 1, ComparisonJump(cmd)));
    } else if IsUnary(cmd) {
      UnaryNoLabels(UnaryComp(cmd));
      LabelsCommented(ArithmeticComment(cmd), UnaryCode(UnaryComp(cmd)));
    } else {
      BinaryNoLabels(BinaryComp(cmd));
      LabelsCommented(ArithmeticComment(cmd), BinaryCode(BinaryComp(cmd)));
    }
  }

  /** The labels `translate` defines: two for a comparison, numbered with the new counter; none otherwise. */
  lemma TranslateLabels(counter: nat, basename: string, cmd: Command)
    requires Translatable(cmd)
    ensures LabelsOf(TranslateCode(counter, basename, cmd))
         == if IsComparison(cmd) then [JumpLabel(ComparisonJump(cmd), counter + 1), AfterLabel(counter + 1)] else []
  {
    LabelsCommented(DebugText(cmd), CommandCode(counter, basename, cmd));
    if cmd.Push? || cmd.Pop? {
      SegmentLabels(basename, cmd);
    } else {
      ArithmeticLabels(counter, cmd);
    }
  }

  lemma NoDuplicatesAppend(a: seq<string>, b: seq<string>)
    requires NoDuplicates(a) && NoDuplicates(b)
    requires forall x :: x in a ==> x !in b
    ensures NoDuplicates(a + b)
  {
    forall i, j | 0 <= i < j < |a + b| ensures (a + b)[i] != (a + b)[j] {
      if i < |a| && j >= |a| {
        assert (a + b)[i] in a;
        assert (a + b)[j] == b[j - |a|];
      } else if i >= |a| {
        assert (a + b)[i] == b[i - |a|] && (a + b)[j] == b[j - |a|];
      }
    }
  }

  lemma AllTranslatableTail(cmds: seq<Command>)
    requires AllTranslatable(cmds) && cmds != []
    ensures AllTranslatable(cmds[1..]) && Translatable(cmds[0])
  {
    forall i | 0 <= i < |cmds[1..]| ensures Translatable(cmds[1..][i]) {
      assert cmds[1..][i] == cmds[i + 1];
    }
  }

  /** The labels of one comparison block are distinct, numbered `counter + 1`, and counter labels. */
  lemma ComparisonLabelsFresh(counter: nat, basename: string, cmd: Command)
    requires Translatable(cmd)
    ensures forall l :: l in LabelsOf(TranslateCode(counter, basename, cmd)) ==> CounterLabel(l) && LabelIndex(l) == counter + 1
    ensures NoDuplicates(LabelsOf(TranslateCode(counter, basename, cmd)))
  {
    TranslateLabels(counter, basename, cmd);
    if IsComparison(cmd) {
      PairFresh(ComparisonJump(cmd), counter + 1);
    }
  }

  /** The two labels of a comparison block are distinct counter labels numbered `n`. */
  lemma PairFresh(jump: Jump, n: nat)
    ensures forall l :: l in [JumpLabel(jump, n), AfterLabel(n)] ==> CounterLabel(l) && LabelIndex(l) == n
    ensures NoDuplicates([JumpLabel(jump, n), AfterLabel(n)])
  {
    JumpLabelIndex(jump, n);
    AfterLabelIndex(n);
    JumpLabelNotAfterLabel(jump, n, n);
  }

  /**
   * Every label translating `cmds` from counter `counter` defines is a
   * counter label numbered above `counter`, and no two are equal.
   */
  lemma {:induction false} LabelsFresh(counter: nat, basename: string, cmds: seq<Command>)
    requires AllTranslatable(cmds)
    ensures forall l :: l in LabelsOf(TranslateAll(counter, basename, cmds)) ==> CounterLabel(l) && LabelIndex(l) > counter
    ensures NoDuplicates(LabelsOf(TranslateAll(counter, basename, cmds)))
    decreases |cmds|
  {
    if cmds != [] {
      AllTranslatableTail(cmds);
      var cmd := cmds[0];
      var next := NextCounter(counter, cmd);
      var here := LabelsOf(TranslateCode(counter, basename, cmd));
      var later := LabelsOf(TranslateAll(next, basename, cmds[1..]));
      LabelsFresh(next, basename, cmds[1..]);
      ComparisonLabelsFresh(counter, basename, cmd);
      LabelsOfAppend(TranslateCode(counter, basename, cmd), TranslateAll(next, basename, cmds[1..]));
      assert LabelsOf(TranslateAll(counter, basename, cmds)) == here + later;
      if !IsComparison(cmd) {
        TranslateLabels(counter, basename, cmd);
      }
      NoDuplicatesAppend(here, later);
    }
  }

  /**
   * All labels of a translation unit (the blocks of `cmds` translated in
   * order on one translator, then `finish`) are pairwise distinct.
   */
  lemma ProgramLabelsDistinct(counter: nat, basename: string, cmds: seq<Command>)
    requires AllTranslatable(cmds)
    ensures NoDuplicates(LabelsOf(TranslateAll(counter, basename, cmds) + FinishCode()))
  {
    var blocks := LabelsOf(TranslateAll(counter, basename, cmds));
    LabelsFresh(counter, basename, cmds);
    LabelsOfAppend(TranslateAll(counter, basename, cmds), FinishCode());
    assert LabelsOf(FinishCode()) == ["END"];
    assert !CounterLabel("END");
    assert "END" !in blocks;
    assert LabelsOf(TranslateAll(counter, basename, cmds) + FinishCode()) == blocks + ["END"];
  }
}
