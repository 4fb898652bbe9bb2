/**
 * Push and pop for the temp segment (src/commands/temp.rs): slot i is the
 * fixed RAM address 5 + i. The index is not checked against the eight temp
 * cells; `5 + index` is `u32` arithmetic, which must not overflow.
 */
module TempSegment {
  import opened Numeric
  import opened Asm
  import opened Translations

  function TempAddress(index: u32): (r: u32)
    requires index as int <= 0xFFFF_FFFA
    ensures r as int == 5 + index as int
  {
    5 + index
  }

  /** `push_temp`: read RAM[5 + index] and push it. */
  function PushTempCode(index: u32): seq<Assembly>
    requires index as int <= 0xFFFF_FFFA
  {
    [Address(TempAddress(index)), Assign(Dest.D, Comp.M)] + StoreDregToSpCode() + IncrementSpCode()
  }

  /** `pop_temp`: pop the top and write it to RAM[5 + index]. */
  function PopTempCode(index: u32): seq<Assembly>
    requires index as int <= 0xFFFF_FFFA
  {
    DecrementSpCode() + StoreSpToDregCode() + [Address(TempAddress(index)), Assign(Dest.M, Comp.D)]
  }

  method PushTemp(t: Translation, index: u32)
    requires index as int <= 0xFFFF_FFFA
    modifies t
    ensures t.code == old(t.code) + PushTempCode(index)
  {
    var tempLoc := 5 + index;
    t.WithAsm([Address(tempLoc), Assign(Dest.D, Comp.M)]);
    t.StoreDregToSp();
    t.IncrementSp();
  }

  method PopTemp(t: Translation, index: u32)
    requires index as int <= 0xFFFF_FFFA
    modifies t
    ensures t.code == old(t.code) + PopTempCode(index)
  {
    var tempLoc := 5 + index;
    t.DecrementSp();
    t.StoreSpToDreg();
    t.WithAsm([Address(tempLoc), Assign(Dest.M, Comp.D)]);
  }

  /** Temp access names no base register and no scratch register. */
  lemma TempNoBaseRegister(index: u32)
    requires index as int <= 0xFFFF_FFFA
    ensures forall i :: 0 <= i < |PushTempCode(index)| ==> !PushTempCode(index)[i].BaseRegister?
    ensures forall i :: 0 <= i < |PopTempCode(index)| ==> !PopTempCode(index)[i].BaseRegister?
  {
  }
}
