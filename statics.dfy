/**
 * Push and pop for the static segment (src/commands/statics.rs): slot i of
 * a file named `basename` is the assembler variable `basename.i`.
 */
module StaticSegment {
  import opened Numeric
  import opened Asm
  import opened Translations

  /** The name of a static slot: the basename, a dot, the decimal index. */
  function StaticName(basename: string, index: u32): string
  {
    basename + "." + Decimal(index as nat)
  }

  /** `var_symbol`. */
  function VarSymbol(index: u32, basename: string): (r: Assembly)
    ensures r.VariableSymbol? && Render(r) == "@" + basename + "." + Decimal(index as nat)
  {
    VariableSymbol(StaticName(basename, index))
  }

  lemma DotAfterBasename(b: string, d: string)
    ensures (b + "." + d)[|b + "." + d| - |d| - 1] == '.'
  {
  }

  /**
   * Two static slots share a name only when they have the same basename and
   * the same index: the text after the last dot is all digits.
   */
  lemma {:induction false} StaticNameInjective(b1: string, i1: u32, b2: string, i2: u32)
    requires StaticName(b1, i1) == StaticName(b2, i2)
    ensures b1 == b2 && i1 == i2
  {
    var s := StaticName(b1, i1);
    var d1, d2 := Decimal(i1 as nat), Decimal(i2 as nat);
    assert s == b1 + "." + d1 == b2 + "." + d2;
    if |d1| < |d2| {
      DotAfterBasename(b1, d1);
      assert false;
    } else if |d2| < |d1| {
      DotAfterBasename(b2, d2);
      assert false;
    }
    assert d1 == s[|s| - |d1|..] == d2;
    assert b1 == s[..|b1|] == b2;
    DecimalInjective(i1 as nat, i2 as nat);
  }

  /** `push_static`: the symbol is the slot; read it and push. */
  function PushStaticCode(index: u32, basename: string): seq<Assembly>
  {
    [VarSymbol(index, basename), Assign(Dest.D, Comp.M)] + StoreDregToSpCode() + IncrementSpCode()
  }

  /** `pop_static`: pop the top and write it to the symbol's slot. */
  function PopStaticCode(index: u32, basename: string): seq<Assembly>
  {
    DecrementSpCode() + StoreSpToDregCode() + [VarSymbol(index, basename), Assign(Dest.M, Comp.D)]
  }

  method PushStatic(t: Translation, index: u32, basename: string)
    modifies t
    ensures t.code == old(t.code) + PushStaticCode(index, basename)
  {
    var symbol := VarSymbol(index, basename);
    t.WithAsm([symbol, Assign(Dest.D, Comp.M)]);
    t.StoreDregToSp();
    t.IncrementSp();
  }

  method PopStatic(t: Translation, index: u32, basename: string)
    modifies t
    ensures t.code == old(t.code) + PopStaticCode(index, basename)
  {
    var symbol := VarSymbol(index, basename);
    t.DecrementSp();
    t.StoreSpToDreg();
    t.WithAsm([symbol, Assign(Dest.M, Comp.D)]);
  }

  /** Static access uses no scratch register and no base-plus-offset arithmetic. */
  lemma StaticSingleIndirection(index: u32, basename: string)
    ensures Reg13() !in PushStaticCode(index, basename) && Reg13() !in PopStaticCode(index, basename)
    ensures Assign(Dest.A, DplusA) !in PushStaticCode(index, basename)
    ensures Assign(Dest.D, DplusA) !in PopStaticCode(index, basename)
  {
  }

  /** Static 2 of the file `Foo` is the variable `Foo.2`. */
  lemma StaticNameExample()
    ensures StaticName("Foo", 2) == "Foo.2"
  {
  }
}
