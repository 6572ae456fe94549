// The devices around the CPU in their own terms: what the interrupt
// controller's settings are after any sequence of calls, what the timer raises
// and keeps in its registers, and which device answers at an address
// (src/core/InterruptController.cpp, TimerDevice.cpp, MMIOBus.cpp).
module DeviceLaws {
  import opened Words
  import opened Interrupts
  import opened Timer
  import Mmio

  // ----- Interrupt controller -----

  // What a setting call is about.
  datatype Topic = Switching | Masking(v: byte) | Handling(v: byte)

  predicate About(topic: Topic, call: Call) {
    match topic
    case Switching => call.Enable?
    case Masking(v) => call == Mask(v) || call == Unmask(v)
    case Handling(v) => (call.SetHandler? && call.vector == v) || call == ClearHandler(v)
  }

  /** Call i is the last about the topic. */
  predicate LastAbout(calls: seq<Call>, topic: Topic, i: nat) {
    i < |calls| && About(topic, calls[i]) && forall j :: i < j < |calls| ==> !About(topic, calls[j])
  }

  lemma LastAppend(calls: seq<Call>, topic: Topic, i: nat)
    requires |calls| > 0
    ensures LastAbout(calls, topic, i)
       <==> if About(topic, calls[|calls| - 1]) then i == |calls| - 1
            else LastAbout(calls[..|calls| - 1], topic, i)
  {
    hide About;
    var n := |calls| - 1;
    assert forall j :: 0 <= j < n ==> calls[..n][j] == calls[j];
    if LastAbout(calls, topic, i) && i < n {
      assert !About(topic, calls[n]);
    }
  }

  /** Whether interrupts are on, what is masked and where a vector goes: the last call about it, or the default. */
  ghost predicate SettingsOf(c: Controller, calls: seq<Call>, v: byte) {
    && (forall i: nat :: LastAbout(calls, Switching, i) ==> c.enabled == calls[i].on)
    && ((forall i: nat :: !LastAbout(calls, Switching, i)) ==> c.enabled)
    && (forall i: nat :: LastAbout(calls, Masking(v), i) ==> c.masks[v] == calls[i].Mask?)
    && ((forall i: nat :: !LastAbout(calls, Masking(v), i)) ==> !c.masks[v])
    && (forall i: nat :: LastAbout(calls, Handling(v), i) ==>
                           c.handlers[v] == if calls[i].SetHandler? then Some(calls[i].address) else None)
    && ((forall i: nat :: !LastAbout(calls, Handling(v), i)) ==> c.handlers[v] == None)
  }

  lemma LastAppendAll(calls: seq<Call>, topic: Topic)
    requires |calls| > 0
    ensures var n := |calls| - 1;
            && (About(topic, calls[n]) ==> forall i: nat :: LastAbout(calls, topic, i) <==> i == n)
            && (!About(topic, calls[n]) ==>
                  forall i: nat :: LastAbout(calls, topic, i) <==> LastAbout(calls[..n], topic, i))
  {
    forall i: nat
      ensures LastAbout(calls, topic, i)
         <==> if About(topic, calls[|calls| - 1]) then i == |calls| - 1
              else LastAbout(calls[..|calls| - 1], topic, i)
    {
      LastAppend(calls, topic, i);
    }
  }

  lemma LastIsIndex(calls: seq<Call>, topic: Topic)
    ensures forall i: nat :: LastAbout(calls, topic, i) ==> i < |calls| && About(topic, calls[i])
  {
  }

  lemma SettingsAppend(c: Controller, calls: seq<Call>, v: byte, d: Controller)
    requires |calls| > 0 && SettingsOf(c, calls[..|calls| - 1], v)
    requires var call := calls[|calls| - 1];
             && d.enabled == (if call.Enable? then call.on else c.enabled)
             && d.masks[v] == (if call == Mask(v) then true else if call == Unmask(v) then false else c.masks[v])
             && d.handlers[v] == (if call.SetHandler? && call.vector == v then Some(call.address)
                                  else if call == ClearHandler(v) then None else c.handlers[v])
    ensures SettingsOf(d, calls, v)
  {
    var n := |calls| - 1;
    LastAppendAll(calls, Switching);
    LastAppendAll(calls, Masking(v));
    LastAppendAll(calls, Handling(v));
    LastIsIndex(calls[..n], Switching);
    LastIsIndex(calls[..n], Masking(v));
    LastIsIndex(calls[..n], Handling(v));
    hide LastAbout;
    assert forall j :: 0 <= j < n ==> calls[..n][j] == calls[j];
    assert About(Switching, calls[n]) ==> LastAbout(calls, Switching, n);
    assert About(Masking(v), calls[n]) ==> LastAbout(calls, Masking(v), n);
    assert About(Handling(v), calls[n]) ==> LastAbout(calls, Handling(v), n);
  }

  /** After any calls on a fresh controller, its settings are those of the last calls about them. */
  lemma {:induction false} SettingsLaw(calls: seq<Call>, v: byte)
    ensures SettingsOf(ApplyAll(EMPTY_HISTORY, calls).c, calls, v)
  {
    if |calls| > 0 {
      var h := ApplyAll(EMPTY_HISTORY, calls[..|calls| - 1]);
      SettingsLaw(calls[..|calls| - 1], v);
      hide SettingsOf;
      SettingsAppend(h.c, calls, v, ApplyAll(EMPTY_HISTORY, calls).c);
    }
  }

  /** A request joins the end of the queue; the calls about settings leave the queue alone. */
  lemma QueueLaw(h: History, call: Call)
    ensures call.Issue? ==> Apply(h, call).c == h.c.(pending := h.c.pending + [call.r])
    ensures !call.Issue? && !call.Acknowledge? && !call.AcknowledgeFor? ==> Apply(h, call).c.pending == h.c.pending
  {
  }

  /** Request k is one that `acknowledge(vector, source)` takes: the first with both. */
  predicate FirstFrom(c: Controller, v: byte, source: string, k: nat) {
    && k < |c.pending| && c.pending[k].vector == v && c.pending[k].source == source
    && forall j :: 0 <= j < k ==> !(c.pending[j].vector == v && c.pending[j].source == source)
  }

  /** acknowledge(vector, source): the first such request, if interrupts are on and the vector unmasked. */
  lemma AcknowledgeForLaw(h: History, v: byte, source: string)
    ensures forall k: nat :: h.c.enabled && !h.c.masks[v] && FirstFrom(h.c, v, source, k) ==>
              Apply(h, AcknowledgeFor(v, source))
              == h.(c := h.c.(pending := h.c.pending[..k] + h.c.pending[k + 1..]),
                    delivered := h.delivered + [h.c.pending[k]])
    ensures !h.c.enabled || h.c.masks[v] || (forall k: nat :: !FirstFrom(h.c, v, source, k)) ==>
              Apply(h, AcknowledgeFor(v, source)) == h
  {
    var k := FirstMatchFrom(h.c, v, source, 0);
    assert forall j :: 0 <= j < |h.c.pending| ==>
             (Matches(h.c.pending[j], v, source) <==> h.c.pending[j].vector == v && h.c.pending[j].source == source);
    if k < |h.c.pending| {
      assert FirstFrom(h.c, v, source, k);
    }
  }

  // ----- Timer -----

  /** The requests that n ticks raise: one for each multiple of the interval the count passes. */
  function Raised(t: Registers, n: nat): int {
    if t.enabled then (t.ticks + n) / t.interval - t.ticks / t.interval else 0
  }

  /** n ticks that fit the counter: the count, the requests at the end of the queue, and their number, modulo 2^64. */
  lemma TickingLaw(c: Clock, n: nat)
    requires c.t.ticks + n < 0x1_0000_0000_0000_0000
    ensures var r, raised := Ticks(c, n), Raised(c.t, n);
            && r.ok && 0 <= raised
            && r.c.t == c.t.(ticks := c.t.ticks + n,
                             interrupts := (c.t.interrupts + raised) % 0x1_0000_0000_0000_0000)
            && |r.c.pending| == |c.pending| + raised && r.c.pending[..|c.pending|] == c.pending
            && forall i :: |c.pending| <= i < |r.c.pending| ==>
                 r.c.pending[i] == Request(c.t.vector, c.t.payload, "timer")
  {
    TicksClosedForm(c, n);
    DivMonotone(c.t.ticks, c.t.ticks + n, c.t.interval);
  }

  /** A tick of a full counter fails and changes nothing. */
  lemma FullCounterLaw(c: Clock, n: nat)
    requires c.t.ticks == 0xFFFF_FFFF_FFFF_FFFF && n > 0
    ensures !Ticks(c, n).ok && Ticks(c, n).c == c
  {
    TicksClosedForm(c, n);
    AfterZero(c);
  }

  /** The timer's six registers, eight bytes apart; nothing else answers. */
  lemma RegisterLaw(t: Registers, offset: nat)
    ensures ReadRegister(t, 0) == Ok(ToI64(t.ticks)) && ReadRegister(t, 8) == Ok(ToI64(t.interval))
    ensures ReadRegister(t, 16) == Ok(if t.enabled then 1 else 0) && ReadRegister(t, 24) == Ok(t.vector)
    ensures ReadRegister(t, 32) == Ok(t.payload) && ReadRegister(t, 40) == Ok(ToI64(t.interrupts))
    ensures offset !in {0, 8, 16, 24, 32, 40} ==> ReadRegister(t, offset) == Err
  {
  }

  /** What may be written to them: no negative count, a positive interval, a vector, and only zero to the total. */
  lemma RegisterWriteLaw(t: Registers, offset: nat, v: i64)
    ensures WriteRegister(t, 0, v) == if v >= 0 then Ok(t.(ticks := v)) else Err
    ensures WriteRegister(t, 8, v) == if v > 0 then Ok(t.(interval := v)) else Err
    ensures WriteRegister(t, 16, v) == Ok(t.(enabled := v != 0))
    ensures WriteRegister(t, 24, v) == if 0 <= v <= 255 then Ok(t.(vector := v)) else Err
    ensures WriteRegister(t, 32, v) == Ok(t.(payload := v))
    ensures WriteRegister(t, 40, v) == if v == 0 then Ok(t.(interrupts := 0)) else Err
    ensures offset !in {0, 8, 16, 24, 32, 40} ==> WriteRegister(t, offset, v) == Err
  {
  }

  // ----- Device bus -----

  /** The address belongs to the mapping. */
  predicate Inside(m: Mmio.Mapping, x: nat) {
    m.base <= x < m.base + m.size
  }

  /** Some address belongs to both. */
  ghost predicate Share(a: Mmio.Mapping, b: Mmio.Mapping) {
    exists x: nat :: Inside(a, x) && Inside(b, x)
  }

  /** Not empty, and its end is representable. */
  predicate Bounded(m: Mmio.Mapping) {
    m.size > 0 && m.base + m.size < 0x1_0000_0000_0000_0000
  }

  lemma ShareIsOverlap(a: Mmio.Mapping, b: Mmio.Mapping)
    requires Bounded(a) && Bounded(b)
    ensures Share(a, b) <==> Mmio.Overlap(a, b)
  {
    if Mmio.Overlap(a, b) {
      var x := if a.base < b.base then b.base else a.base;
      assert Inside(a, x) && Inside(b, x);
    }
  }

  lemma ApartIsDisjoint(ms: seq<Mmio.Mapping>)
    requires forall i :: 0 <= i < |ms| ==> Bounded(ms[i])
    ensures (forall i, j :: 0 <= i < j < |ms| ==> !Share(ms[i], ms[j])) <==> Mmio.Disjoint(ms)
  {
    forall i, j | 0 <= i < j < |ms|
      ensures Share(ms[i], ms[j]) <==> Mmio.Overlap(ms[i], ms[j])
    {
      ShareIsOverlap(ms[i], ms[j]);
    }
    hide Share, Mmio.Overlap;
  }

  /** A device can be mapped when its range is bounded and shares no address with one already there. */
  lemma MapLaw(ms: seq<Mmio.Mapping>, m: Mmio.Mapping)
    requires forall i :: 0 <= i < |ms| ==> Bounded(ms[i])
    ensures Mmio.CanMap(ms, m) <==> Bounded(m) && forall i :: 0 <= i < |ms| ==> !Share(m, ms[i])
  {
    if Bounded(m) {
      forall i | 0 <= i < |ms|
        ensures Share(m, ms[i]) <==> Mmio.Overlap(m, ms[i])
      {
        ShareIsOverlap(m, ms[i]);
      }
    }
    hide Share, Mmio.Overlap;
  }

  /** Looking an address up finds the mapping it belongs to, and nothing when there is none. */
  lemma LookupLaw(ms: seq<Mmio.Mapping>, address: u64, m: Mmio.Mapping)
    requires forall i :: 0 <= i < |ms| ==> Bounded(ms[i])
    requires forall i, j :: 0 <= i < j < |ms| ==> !Share(ms[i], ms[j])
    ensures Mmio.FirstAt(ms, address) == Some(m) <==> m in ms && Inside(m, address)
  {
    ApartIsDisjoint(ms);
    Mmio.LookupIsExact(ms, address, m);
  }
}
