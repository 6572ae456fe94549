// The timer device (src/core/TimerDevice.cpp): n ticks in closed form, its
// registers, and the C++ object feeding an interrupt controller.
module Timer {
  import opened Words
  import opened Interrupts

  const MAX_TICKS: u64 := 0xFFFF_FFFF_FFFF_FFFF

  type Interval = k: u64 | k >= 1 witness 1

  datatype Registers = Registers(
    vector: byte,
    interval: Interval,
    ticks: u64,
    interrupts: u64,
    payload: i64,
    enabled: bool)

  // The timer and the queue of the controller it raises requests on.
  datatype Clock = Clock(t: Registers, pending: seq<Request>)

  function TimerRequest(t: Registers): Request {
    Request(t.vector, t.payload, "timer")
  }

  /** tick(): throws when the counter is full, and otherwise requests on every multiple of the interval. */
  function TickOnce(c: Clock): Result<Clock> {
    if c.t.ticks == MAX_TICKS then Err
    else
      var t := c.t.(ticks := c.t.ticks + 1);
      if !t.enabled || t.ticks % t.interval != 0 then Ok(Clock(t, c.pending))
      else Ok(Clock(t.(interrupts := AddSize(t.interrupts, 1)), c.pending + [TimerRequest(t)]))
  }

  // What n calls of tick() leave behind, and whether all of them returned.
  datatype Ticked = Ticked(c: Clock, ok: bool)

  function Ticks(c: Clock, n: nat): Ticked {
    if n == 0 then Ticked(c, true)
    else
      var before := Ticks(c, n - 1);
      if !before.ok then before
      else
        var next := TickOnce(before.c);
        if next.Err? then Ticked(before.c, false) else Ticked(next.value, true)
  }

  function Repeat(r: Request, n: nat): (q: seq<Request>)
    ensures |q| == n && forall i :: 0 <= i < n ==> q[i] == r
  {
    seq(n, _ => r)
  }

  /** How many multiples of k lie in (from, from + n]. */
  function Multiples(from: nat, n: nat, k: nat): nat
    requires k >= 1
  {
    DivMonotone(from, from + n, k);
    (from + n) / k - from / k
  }

  lemma DivMonotone(a: nat, b: nat, k: nat)
    requires a <= b && k >= 1
    ensures a / k <= b / k
  {
    var q, q' := a / k, b / k;
    assert (q - q') * k == q * k - q' * k;
    MulMonotone(q - q', k);
  }

  /** The next number opens a new multiple exactly when it is one. */
  lemma DivNext(a: nat, k: nat)
    requires k >= 1
    ensures (a + 1) / k == if (a + 1) % k == 0 then a / k + 1 else a / k
  {
    var q, r := a / k, a % k;
    assert a == q * k + r;
    if r + 1 == k {
      assert a + 1 == (q + 1) * k + 0;
      DivModUnique(a + 1, k, q + 1, 0);
    } else {
      DivModUnique(a + 1, k, q, r + 1);
    }
  }

  /** The state the closed form predicts after n ticks. */
  function After(c: Clock, n: nat): Clock
    requires c.t.ticks + n <= MAX_TICKS
  {
    var raised := if c.t.enabled then Multiples(c.t.ticks, n, c.t.interval) else 0;
    Clock(c.t.(ticks := c.t.ticks + n, interrupts := (c.t.interrupts + raised) % 0x1_0000_0000_0000_0000),
          c.pending + Repeat(TimerRequest(c.t), raised))
  }

  lemma AfterZero(c: Clock)
    ensures After(c, 0) == c
  {
  }

  lemma MultiplesNext(from: nat, n: nat, k: nat)
    requires k >= 1
    ensures Multiples(from, n + 1, k) == Multiples(from, n, k) + if (from + n + 1) % k == 0 then 1 else 0
  {
    DivNext(from + n, k);
  }

  lemma RepeatNext(q: seq<Request>, r: Request, n: nat)
    ensures q + Repeat(r, n) + [r] == q + Repeat(r, n + 1)
  {
  }

  lemma WrapNext(x: nat)
    ensures (x % 0x1_0000_0000_0000_0000 + 1) % 0x1_0000_0000_0000_0000 == (x + 1) % 0x1_0000_0000_0000_0000
  {
  }

  lemma AfterNext(c: Clock, n: nat)
    requires c.t.ticks + n < MAX_TICKS
    ensures TickOnce(After(c, n)) == Ok(After(c, n + 1))
  {
    var raised := Multiples(c.t.ticks, n, c.t.interval);
    MultiplesNext(c.t.ticks, n, c.t.interval);
    RepeatNext(c.pending, TimerRequest(c.t), raised);
    WrapNext(c.t.interrupts + raised);
    hide Multiples, Repeat;
  }

  /**
   * n ticks queue exactly floor((t + n) / k) - floor(t / k) requests when the
   * timer is enabled and none when it is not, and count them; a full counter
   * stops them at its last value.
   */
  lemma {:induction false} TicksClosedForm(c: Clock, n: nat)
    ensures var room := MAX_TICKS - c.t.ticks;
            Ticks(c, n) == if n <= room then Ticked(After(c, n), true) else Ticked(After(c, room), false)
  {
    hide After;
    if n == 0 {
      AfterZero(c);
    } else {
      TicksClosedForm(c, n - 1);
      if c.t.ticks + (n - 1) < MAX_TICKS {
        AfterNext(c, n - 1);
      } else {
        AfterFills(c);
      }
    }
  }

  lemma AfterFills(c: Clock)
    ensures After(c, MAX_TICKS - c.t.ticks).t.ticks == MAX_TICKS
  {
  }

  /** Ticking in two batches is ticking once for both. */
  lemma {:induction false} TicksCompose(c: Clock, m: nat, n: nat)
    requires Ticks(c, m).ok
    ensures Ticks(Ticks(c, m).c, n) == Ticks(c, m + n)
  {
    if n > 0 {
      TicksCompose(c, m, n - 1);
    }
  }

  // ----- Registers -----

  const TICK_COUNT: nat := 0
  const INTERVAL: nat := 8
  const ENABLED: nat := 16
  const VECTOR: nat := 24
  const PAYLOAD: nat := 32
  const INTERRUPT_COUNT: nat := 40

  function ReadRegister(t: Registers, offset: nat): Result<i64> {
    if offset == TICK_COUNT then Ok(ToI64(t.ticks))
    else if offset == INTERVAL then Ok(ToI64(t.interval))
    else if offset == ENABLED then Ok(if t.enabled then 1 else 0)
    else if offset == VECTOR then Ok(t.vector)
    else if offset == PAYLOAD then Ok(t.payload)
    else if offset == INTERRUPT_COUNT then Ok(ToI64(t.interrupts))
    else Err
  }

  function WriteRegister(t: Registers, offset: nat, value: i64): Result<Registers> {
    if offset == TICK_COUNT then (if value < 0 then Err else Ok(t.(ticks := value)))
    else if offset == INTERVAL then (if value <= 0 then Err else Ok(t.(interval := value)))
    else if offset == ENABLED then Ok(t.(enabled := value != 0))
    else if offset == VECTOR then (if value < 0 || value > 255 then Err else Ok(t.(vector := value)))
    else if offset == PAYLOAD then Ok(t.(payload := value))
    else if offset == INTERRUPT_COUNT then (if value != 0 then Err else Ok(t.(interrupts := 0)))
    else Err
  }

  /** An accepted write is read back, and no other register changes. */
  lemma RegisterReadsBack(t: Registers, offset: nat, value: i64, other: nat)
    requires WriteRegister(t, offset, value).Ok?
    ensures var u := WriteRegister(t, offset, value).value;
            && ReadRegister(u, offset) == Ok(if offset == ENABLED then (if value == 0 then 0 else 1) else value)
            && (other != offset ==> ReadRegister(u, other) == ReadRegister(t, other))
  {
  }

  // ----- The C++ object -----

  class TimerDevice {
    const controller: InterruptController
    var vector: byte
    var interval: Interval
    var tickCount: u64
    var interruptCount: u64
    var payload: i64
    var enabled: bool

    function Regs(): Registers
      reads this
    {
      Registers(vector, interval, tickCount, interruptCount, payload, enabled)
    }

    function View(): Clock
      reads this, controller
    {
      Clock(Regs(), controller.pending)
    }

    constructor (controller: InterruptController, vector: byte, interval: Interval, payload: i64)
      ensures this.controller == controller
      ensures View() == Clock(Registers(vector, interval, 0, 0, payload, true), controller.pending)
    {
      this.controller, this.vector, this.interval, this.payload := controller, vector, interval, payload;
      tickCount, interruptCount, enabled := 0, 0, true;
    }

    method SetInterval(interval: u64) returns (ok: bool)
      modifies this`interval
      ensures ok <==> interval > 0
      ensures Regs() == if ok then old(Regs()).(interval := interval) else old(Regs())
    {
      ok := interval != 0;
      if ok {
        this.interval := interval;
      }
    }

    method Tick() returns (ok: bool)
      requires controller.Valid()
      modifies this, controller
      ensures controller.Valid() && controller.View() == old(controller.View()).(pending := controller.pending)
      ensures var r := TickOnce(old(View()));
              ok == r.Ok? && View() == if r.Ok? then r.value else old(View())
    {
      if tickCount == MAX_TICKS {
        return false;
      }
      tickCount := tickCount + 1;
      MaybeRequestInterrupt();
      return true;
    }

    method MaybeRequestInterrupt()
      requires controller.Valid()
      modifies this, controller
      ensures controller.Valid() && controller.View() == old(controller.View()).(pending := controller.pending)
      ensures var c := old(View());
              View() == if !c.t.enabled || c.t.ticks % c.t.interval != 0 then c
                        else Clock(c.t.(interrupts := AddSize(c.t.interrupts, 1)), c.pending + [TimerRequest(c.t)])
    {
      if !enabled {
        return;
      }
      if tickCount % interval != 0 {
        return;
      }
      controller.Issue(Request(vector, payload, "timer"));
      interruptCount := AddSize(interruptCount, 1);
    }

    /** tick(count): count calls of tick(), up to the first that throws. */
    method TickMany(count: nat) returns (ok: bool)
      requires controller.Valid()
      modifies this, controller
      ensures controller.Valid() && controller.View() == old(controller.View()).(pending := controller.pending)
      ensures Ticked(View(), ok) == Ticks(old(View()), count)
    {
      hide TickOnce;
      for i := 0 to count
        invariant controller.Valid() && controller.View() == old(controller.View()).(pending := controller.pending)
        invariant Ticks(old(View()), i) == Ticked(View(), true)
      {
        var one := Tick();
        if !one {
          TicksStop(old(View()), i + 1, count);
          return false;
        }
      }
      return true;
    }

    method ReadAt(offset: nat) returns (r: Result<i64>)
      ensures r == ReadRegister(Regs(), offset)
    {
      match offset {
        case 0 => r := Ok(ToI64(tickCount));
        case 8 => r := Ok(ToI64(interval));
        case 16 => r := Ok(if enabled then 1 else 0);
        case 24 =>
          var v: i64 := vector;
          r := Ok(v);
        case 32 => r := Ok(payload);
        case 40 => r := Ok(ToI64(interruptCount));
        case _ => r := Err;
      }
    }

    method WriteAt(offset: nat, value: i64) returns (ok: bool)
      modifies this
      ensures var r := WriteRegister(old(Regs()), offset, value);
              ok == r.Ok? && Regs() == if r.Ok? then r.value else old(Regs())
    {
      ok := true;
      match offset {
        case 0 => if value < 0 { ok := false; } else { tickCount := value; }
        case 8 => if value <= 0 { ok := false; } else { interval := value; }
        case 16 => enabled := value != 0;
        case 24 => if value < 0 || value > 255 { ok := false; } else { vector := value; }
        case 32 => payload := value;
        case 40 => if value != 0 { ok := false; } else { interruptCount := 0; }
        case _ => ok := false;
      }
    }

    method Reset()
      modifies this
      ensures Regs() == old(Regs()).(ticks := 0, interrupts := 0, enabled := true)
    {
      tickCount, interruptCount, enabled := 0, 0, true;
    }
  }

  /** The constructor as the source has it: a zero interval throws. */
  method MakeTimer(controller: InterruptController, vector: byte, interval: u64, payload: i64)
    returns (r: Result<TimerDevice>)
    ensures r.Ok? <==> interval > 0
    ensures r.Ok? ==> fresh(r.value) && r.value.controller == controller
                      && r.value.Regs() == Registers(vector, interval, 0, 0, payload, true)
  {
    if interval == 0 {
      return Err;
    }
    var timer := new TimerDevice(controller, vector, interval, payload);
    return Ok(timer);
  }

  lemma {:induction false} TicksStop(c: Clock, m: nat, n: nat)
    requires m <= n && !Ticks(c, m).ok
    ensures Ticks(c, n) == Ticks(c, m)
  {
    if m < n {
      TicksStop(c, m, n - 1);
    }
  }
}
