/**
 * Push and pop for the pointer segment (src/pointer.rs): index 0 is the
 * THIS register and 1 the THAT register, used as the datum itself.
 */
module PointerSegment {
  import opened Numeric
  import opened Asm
  import opened Translations

  /** The register a pointer index names; any other index panics in the source. */
  function Pointee(idx: i32): (r: Assembly)
    requires idx == 0 || idx == 1
    ensures r == (if idx == 0 then BaseRegister(THIS) else BaseRegister(THAT))
  {
    if idx == 0 then This() else That()
  }

  /** `push_pointer`: push the THIS/THAT register's own value. */
  function PushPointerCode(idx: i32): seq<Assembly>
    requires idx == 0 || idx == 1
  {
    [Pointee(idx), Assign(Dest.D, Comp.M)] + StoreDregToSpCode() + IncrementSpCode()
  }

  /** `pop_pointer`: pop the top into the THIS/THAT register. */
  function PopPointerCode(idx: i32): seq<Assembly>
    requires idx == 0 || idx == 1
  {
    DecrementSpCode() + StoreSpToDregCode() + [Pointee(idx), Assign(Dest.M, Comp.D)]
  }

  method PushPointer(t: Translation, idx: i32)
    requires idx == 0 || idx == 1
    modifies t
    ensures t.code == old(t.code) + PushPointerCode(idx)
  {
    var pointee := if idx == 0 then This() else That();
    t.WithAsm([pointee, Assign(Dest.D, Comp.M), Sp(), Assign(Dest.A, Comp.M), Assign(Dest.M, Comp.D),
               Sp(), Assign(Dest.M, Mplus1)]);
  }

  method PopPointer(t: Translation, idx: i32)
    requires idx == 0 || idx == 1
    modifies t
    ensures t.code == old(t.code) + PopPointerCode(idx)
  {
    var pointee := if idx == 0 then This() else That();
    t.DecrementSp();
    t.StoreSpToDreg();
    t.WithAsm([pointee, Assign(Dest.M, Comp.D)]);
  }

  /** Neither direction uses R13, nor any address arithmetic. */
  lemma PointerNoScratch(idx: i32)
    requires idx == 0 || idx == 1
    ensures forall i :: 0 <= i < |PushPointerCode(idx)| ==> PushPointerCode(idx)[i] != Reg13()
    ensures forall i :: 0 <= i < |PopPointerCode(idx)| ==> PopPointerCode(idx)[i] != Reg13()
    ensures forall i :: 0 <= i < |PushPointerCode(idx)| ==> !(PushPointerCode(idx)[i].Command? && PushPointerCode(idx)[i].comp == DplusA)
    ensures forall i :: 0 <= i < |PopPointerCode(idx)| ==> !(PopPointerCode(idx)[i].Command? && PopPointerCode(idx)[i].comp == DplusA)
  {
  }
}
