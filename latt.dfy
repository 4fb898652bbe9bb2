/**
 * Push and pop for the frame segments local, argument, this and that
 * (src/latt.rs): the slot is RAM[RAM[base] + index].
 */
module LattSegment {
  import opened Numeric
  import opened Asm
  import Segments
  import opened Translations

  /** The address computation both directions share: D = RAM[base] + index. */
  function BaseIndexPrefix(latt: Segments.Latt, index: u32): seq<Assembly>
  {
    [Segments.AsAsm(latt), Assign(Dest.D, Comp.M), Address(index)]
  }

  /** `push_latt`: read the slot at RAM[base] + index and push it. */
  function PushLattCode(latt: Segments.Latt, index: u32): seq<Assembly>
  {
    BaseIndexPrefix(latt, index) + [Assign(Dest.A, DplusA), Assign(Dest.D, Comp.M)]
    + StoreDregToSpCode() + IncrementSpCode()
  }

  /**
   * `pop_latt`: compute the slot address RAM[base] + index, park it in R13,
   * pop the top into D and store it through R13.
   */
  function PopLattCode(latt: Segments.Latt, index: u32): seq<Assembly>
  {
    BaseIndexPrefix(latt, index) + [Assign(Dest.D, DplusA)]
    + StoreDregInReg13Code() + DecrementSpCode() + StoreSpToDregCode()
    + [Reg13(), Assign(Dest.A, Comp.M), Assign(Dest.M, Comp.D)]
  }

  method PushLatt(t: Translation, latt: Segments.Latt, index: u32)
    modifies t
    ensures t.code == old(t.code) + PushLattCode(latt, index)
  {
    t.WithAsm([Segments.AsAsm(latt), Assign(Dest.D, Comp.M), Address(index),
               Assign(Dest.A, DplusA), Assign(Dest.D, Comp.M)]);
    t.StoreDregToSp();
    t.IncrementSp();
  }

  method PopLatt(t: Translation, latt: Segments.Latt, index: u32)
    modifies t
    ensures t.code == old(t.code) + PopLattCode(latt, index)
  {
    t.WithAsm([Segments.AsAsm(latt), Assign(Dest.D, Comp.M), Address(index), Assign(Dest.D, DplusA)]);
    t.StoreDregInReg13();
    t.DecrementSp();
    t.StoreSpToDreg();
    t.WithAsm([Reg13(), Assign(Dest.A, Comp.M), Assign(Dest.M, Comp.D)]);
  }

  /**
   * Push dereferences twice: the base register's cell, then the cell at
   * that value plus the index (`A=D+A`, `D=M`). Pop computes the address
   * with `D=D+A` and writes it to R13 before the stack pointer is touched.
   */
  lemma LattAddressing(latt: Segments.Latt, index: u32)
    ensures PushLattCode(latt, index)[..5]
         == [Segments.AsAsm(latt), Assign(Dest.D, Comp.M), Address(index), Assign(Dest.A, DplusA), Assign(Dest.D, Comp.M)]
    ensures PopLattCode(latt, index)[..6]
         == [Segments.AsAsm(latt), Assign(Dest.D, Comp.M), Address(index), Assign(Dest.D, DplusA), Reg13(), Assign(Dest.M, Comp.D)]
    ensures Sp() !in PopLattCode(latt, index)[..6]
    ensures PopLattCode(latt, index)[|PopLattCode(latt, index)| - 3..] == [Reg13(), Assign(Dest.A, Comp.M), Assign(Dest.M, Comp.D)]
  {
  }
}
