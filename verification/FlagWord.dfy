// The flags word (src/core/Flags.cpp): four bits of a 32-bit word, and the
// operations on it that the machine model states on its Flags record.
module FlagWord {
  import opened Words
  import Machine
  import Alu

  // enum Bit
  datatype Bit = CF | ZF | SF | OF

  function Mask(b: Bit): bv32 {
    match b
    case CF => 0x001
    case ZF => 0x040
    case SF => 0x080
    case OF => 0x800
  }

  const SPARE: bv32 := 0xFFFF_F73E

  function Test(bits: bv32, b: Bit): bool {
    bits & Mask(b) != 0
  }

  function SetMask(bits: bv32, mask: bv32, value: bool): bv32 {
    if value then bits | mask else bits & !mask
  }

  function Set(bits: bv32, b: Bit, value: bool): bv32 {
    SetMask(bits, Mask(b), value)
  }

  function Spare(bits: bv32): nat {
    (bits & SPARE) as int
  }

  // ----- One bit -----

  lemma OrKeeps(bits: bv32, mask: bv32, other: bv32)
    requires mask & other == 0
    ensures (bits | mask) & other == bits & other
  {
    assert (bits | mask) & other == (bits & other) | (mask & other);
  }

  lemma AndNotKeeps(bits: bv32, mask: bv32, other: bv32)
    requires mask & other == 0
    ensures (bits & !mask) & other == bits & other
  {
    assert other & !mask == other;
    assert (bits & !mask) & other == bits & (other & !mask);
  }

  lemma SetsItself(bits: bv32, mask: bv32, value: bool)
    requires mask != 0
    ensures (SetMask(bits, mask, value) & mask != 0) == value
  {
    assert (bits | mask) & mask == mask && (bits & !mask) & mask == 0;
  }

  lemma SetKeepsOther(bits: bv32, mask: bv32, value: bool, other: bv32)
    requires mask & other == 0
    ensures SetMask(bits, mask, value) & other == bits & other
  {
    if value {
      OrKeeps(bits, mask, other);
    } else {
      AndNotKeeps(bits, mask, other);
    }
  }

  lemma MasksAreDisjoint(b: Bit, other: Bit)
    ensures Mask(b) != 0 && Mask(b) & SPARE == 0
    ensures b != other ==> Mask(b) & Mask(other) == 0
  {
  }

  lemma SameSpare(a: bv32, b: bv32)
    requires a & SPARE == b & SPARE
    ensures Spare(a) == Spare(b)
  {
  }

  lemma SameTest(a: bv32, b: bv32, bit: Bit)
    requires a & Mask(bit) == b & Mask(bit)
    ensures Test(a, bit) == Test(b, bit)
  {
    hide Mask;
  }

  lemma SetsBit(bits: bv32, b: Bit, value: bool)
    ensures Test(Set(bits, b, value), b) == value
  {
    hide SetMask, Mask;
    MasksAreDisjoint(b, b);
    SetsItself(bits, Mask(b), value);
  }

  lemma KeepsBit(bits: bv32, b: Bit, value: bool, other: Bit)
    requires other != b
    ensures Test(Set(bits, b, value), other) == Test(bits, other)
  {
    hide SetMask, Mask, Test;
    MasksAreDisjoint(b, other);
    SetKeepsOther(bits, Mask(b), value, Mask(other));
    SameTest(Set(bits, b, value), bits, other);
  }

  lemma KeepsSpare(bits: bv32, b: Bit, value: bool)
    ensures Spare(Set(bits, b, value)) == Spare(bits)
  {
    hide SetMask, Mask, Spare;
    MasksAreDisjoint(b, b);
    SetKeepsOther(bits, Mask(b), value, SPARE);
    SameSpare(Set(bits, b, value), bits);
  }

  /** Setting one flag sets it, and changes no other flag and no spare bit. */
  lemma SetIsLocal(bits: bv32, b: Bit, value: bool, other: Bit)
    ensures Test(Set(bits, b, value), b) == value
    ensures other != b ==> Test(Set(bits, b, value), other) == Test(bits, other)
    ensures Spare(Set(bits, b, value)) == Spare(bits)
  {
    hide Test, Set, Spare;
    SetsBit(bits, b, value);
    KeepsSpare(bits, b, value);
    if other != b {
      KeepsBit(bits, b, value, other);
    }
  }

  /** The word is the four flags and the spare bits, nothing else. */
  lemma WordIsDetermined(a: bv32, b: bv32)
    requires Test(a, CF) == Test(b, CF) && Test(a, ZF) == Test(b, ZF)
    requires Test(a, SF) == Test(b, SF) && Test(a, OF) == Test(b, OF)
    requires a & SPARE == b & SPARE
    ensures a == b
  {
  }

  /** Carry is bit 0, zero bit 6, sign bit 7 and overflow bit 11 of the word; the other 28 are spare. */
  lemma FlagBits()
    ensures Mask(CF) == 1 && Mask(ZF) == 64 && Mask(SF) == 128 && Mask(OF) == 2048
    ensures SPARE == 0xFFFF_FFFF - 1 - 64 - 128 - 2048
  {
  }

  // ----- The machine model's view of a word -----

  function View(bits: bv32): Machine.Flags {
    Machine.Flags(Test(bits, ZF), Test(bits, SF), Test(bits, CF), Test(bits, OF), Spare(bits))
  }

  function WithFlag(f: Machine.Flags, b: Bit, value: bool): Machine.Flags {
    match b
    case CF => f.(carry := value)
    case ZF => f.(zero := value)
    case SF => f.(sign := value)
    case OF => f.(overflow := value)
  }

  lemma SetViews(bits: bv32, b: Bit, value: bool)
    ensures View(Set(bits, b, value)) == WithFlag(View(bits), b, value)
  {
    hide Test, Set, Spare;
    SetIsLocal(bits, b, value, CF);
    SetIsLocal(bits, b, value, ZF);
    SetIsLocal(bits, b, value, SF);
    SetIsLocal(bits, b, value, OF);
  }

  class Flags {
    var bits: bv32

    constructor ()
      ensures View(bits) == Machine.Flags(false, false, false, false, 0)
    {
      bits := 0;
    }

    /** set: the one flag named, in the machine's view of the word. */
    method SetFlag(b: Bit, value: bool)
      modifies this
      ensures View(bits) == WithFlag(old(View(bits)), b, value)
      ensures bits == Set(old(bits), b, value)
    {
      hide View, Mask;
      SetViews(bits, b, value);
      if value {
        bits := bits | Mask(b);
      } else {
        bits := bits & !Mask(b);
      }
    }

    method UpdateZeroAndSign(result: i64)
      modifies this
      ensures View(bits) == Machine.WithZeroSign(old(View(bits)), result)
    {
      hide Set, View;
      SetFlag(ZF, result == 0);
      SetFlag(SF, result < 0);
    }

    /** applyALUResultToFlags */
    method Apply(result: Alu.AluResult)
      modifies this
      ensures View(bits) == Machine.WithResult(old(View(bits)), result)
    {
      hide Set, View;
      SetFlag(ZF, result.zero);
      SetFlag(SF, result.sign);
      SetFlag(CF, result.carry);
      SetFlag(OF, result.overflow);
    }

    /** packFlags */
    method Pack() returns (value: i64)
      ensures value == Machine.PackFlags(View(bits))
    {
      hide Test;
      value := 0;
      if Test(bits, ZF) {
        value := value + 1;
      }
      if Test(bits, SF) {
        value := value + 2;
      }
      if Test(bits, CF) {
        value := value + 4;
      }
      if Test(bits, OF) {
        value := value + 8;
      }
    }

    /** restoreFlags: the four low bits of the saved word; the spare bits stay. */
    method Restore(value: i64)
      modifies this
      ensures View(bits) == Machine.UnpackFlags(old(View(bits)), value)
    {
      hide Set, View;
      SetFlag(ZF, value % 2 == 1);
      SetFlag(SF, value / 2 % 2 == 1);
      SetFlag(CF, value / 4 % 2 == 1);
      SetFlag(OF, value / 8 % 2 == 1);
    }
  }
}
