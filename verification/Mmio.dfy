// The device bus (src/core/MMIOBus.cpp): mapping, overlap checks and lookup.
module Mmio {
  import opened Words

  const MAX_SIZE: u64 := 0xFFFF_FFFF_FFFF_FFFF

  // Devices are named by a number; None is the null pointer.
  type Device = Option<nat>

  datatype Mapping = Mapping(base: u64, size: u64, device: nat)

  predicate Contains(m: Mapping, address: u64) {
    m.base <= address < AddSize(m.base, m.size)
  }

  /** checkedEnd returns: the range is not empty and its end is a size_t. */
  predicate HasEnd(base: u64, size: u64) {
    size > 0 && base <= MAX_SIZE - size
  }

  predicate Overlap(a: Mapping, b: Mapping) {
    a.base < AddSize(b.base, b.size) && b.base < AddSize(a.base, a.size)
  }

  predicate Checked(m: Mapping) {
    HasEnd(m.base, m.size)
  }

  /** For checked ranges the overlap test is exact: it finds a shared address. */
  lemma OverlapMeansSharedAddress(a: Mapping, b: Mapping)
    requires Checked(a) && Checked(b)
    ensures Overlap(a, b) <==> exists x: u64 :: Contains(a, x) && Contains(b, x)
  {
    if Overlap(a, b) {
      var x := if a.base < b.base then b.base else a.base;
      assert Contains(a, x) && Contains(b, x);
    }
  }

  /** What the bus keeps: checked, pairwise disjoint ranges. */
  predicate Disjoint(ms: seq<Mapping>) {
    && (forall i :: 0 <= i < |ms| ==> Checked(ms[i]))
    && (forall i, j :: 0 <= i < j < |ms| ==> !Overlap(ms[i], ms[j]))
  }

  predicate CanMap(ms: seq<Mapping>, m: Mapping) {
    Checked(m) && forall i :: 0 <= i < |ms| ==> !Overlap(m, ms[i])
  }

  lemma MapKeepsDisjoint(ms: seq<Mapping>, m: Mapping)
    requires Disjoint(ms)
    ensures CanMap(ms, m) <==> Disjoint(ms + [m])
  {
    var all := ms + [m];
    assert all[|ms|] == m;
    if Disjoint(all) {
      forall i | 0 <= i < |ms|
        ensures !Overlap(m, ms[i])
      {
        assert !Overlap(all[i], all[|ms|]);
      }
    }
  }

  function FirstAt(ms: seq<Mapping>, address: u64): Option<Mapping> {
    if ms == [] then None
    else if Contains(ms[0], address) then Some(ms[0])
    else FirstAt(ms[1..], address)
  }

  /** At most one mapping holds an address, so the first found is the only one. */
  lemma {:induction false} LookupIsExact(ms: seq<Mapping>, address: u64, m: Mapping)
    requires Disjoint(ms)
    ensures FirstAt(ms, address) == Some(m) <==> m in ms && Contains(m, address)
  {
    if ms == [] {
    } else {
      LookupIsExact(ms[1..], address, m);
      assert ms == [ms[0]] + ms[1..];
      if Contains(ms[0], address) && m in ms[1..] && Contains(m, address) {
        var i :| 0 <= i < |ms[1..]| && ms[1..][i] == m;
        assert !Overlap(ms[0], ms[i + 1]);
        OverlapMeansSharedAddress(ms[0], m);
        assert false;
      }
    }
  }

  /** The order in which devices were mapped never matters. */
  lemma LookupIgnoresOrder(a: seq<Mapping>, b: seq<Mapping>, address: u64)
    requires Disjoint(a) && Disjoint(b) && forall m :: m in a <==> m in b
    ensures FirstAt(a, address) == FirstAt(b, address)
  {
    hide Disjoint, Contains;
    if FirstAt(a, address).Some? {
      LookupIsExact(a, address, FirstAt(a, address).value);
      LookupIsExact(b, address, FirstAt(a, address).value);
    }
    if FirstAt(b, address).Some? {
      LookupIsExact(a, address, FirstAt(b, address).value);
      LookupIsExact(b, address, FirstAt(b, address).value);
    }
  }

  class Bus {
    var mappings: seq<Mapping>

    constructor ()
      ensures mappings == []
    {
      mappings := [];
    }

    method MapDevice(base: u64, size: u64, device: Device) returns (ok: bool)
      requires Disjoint(mappings)
      modifies this
      ensures Disjoint(mappings)
      ensures ok <==> device.Some? && CanMap(old(mappings), Mapping(base, size, device.value))
      ensures mappings == if ok then old(mappings) + [Mapping(base, size, device.value)] else old(mappings)
    {
      if !HasEnd(base, size) || device.None? {
        return false;
      }
      var m := Mapping(base, size, device.value);
      for i := 0 to |mappings|
        invariant forall j :: 0 <= j < i ==> !Overlap(m, mappings[j])
      {
        if Overlap(m, mappings[i]) {
          return false;
        }
      }
      MapKeepsDisjoint(mappings, m);
      mappings := mappings + [m];
      return true;
    }

    /** findMapping: None is the C++ exception; hasDeviceAt is the same search. */
    method FindMapping(address: u64) returns (r: Option<Mapping>)
      ensures r == FirstAt(mappings, address)
    {
      for i := 0 to |mappings|
        invariant FirstAt(mappings, address) == FirstAt(mappings[i..], address)
      {
        assert mappings[i..][1..] == mappings[i + 1..];
        if Contains(mappings[i], address) {
          return Some(mappings[i]);
        }
      }
      return None;
    }
  }
}
