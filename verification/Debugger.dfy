// The single-process debugger (src/debug/DebugSession.cpp).  Its run loops are
// proved to be "iterate the CPU's step to the first stop", over any machine.
module Debugger {
  import opened Words
  import opened Iteration
  import Machine

  // The last data access a step made, as the trace reports it.
  datatype Access = Access(address: u64, write: bool)

  // A machine under debug: a step function and what the debugger looks at.
  datatype Target<!M> = Target(
    step: M -> M,
    pc: M -> u64,
    halted: M -> bool,
    failed: M -> bool,
    access: M -> Option<Access>,
    codeEnd: u64)

  datatype WatchMode = OnRead | OnWrite | OnAccess

  datatype Watch = Watch(id: nat, address: nat, size: nat, mode: WatchMode)

  // `holds` is the truth value of the parsed condition.
  datatype Conditional<!M> = Conditional(id: nat, address: u64, holds: M -> bool)

  datatype Points<!M> = Points(plain: set<u64>, conditional: seq<Conditional<M>>, watches: seq<Watch>)

  datatype Reason =
    | Ready | StepComplete | Breakpoint | ConditionalBreakpoint | Watchpoint
    | ProgramEnd | Halted | Fault | StepLimit

  // Why execution stops at a state; `id` names the conditional breakpoint or watchpoint, else 0.
  datatype Hit = Hit(reason: Reason, id: nat)

  datatype Stop = Stop(hit: Hit, pc: u64, executed: nat, total: nat)

  // ----- Where a run stops -----

  /** classifyStoppedState */
  function Standing<M>(t: Target<M>, m: M): Reason {
    if t.failed(m) then Fault
    else if t.halted(m) then Halted
    else if t.pc(m) == t.codeEnd then ProgramEnd
    else Ready
  }

  predicate ConditionMet<M>(c: Conditional<M>, pc: u64, m: M) {
    c.address == pc && c.holds(m)
  }

  /** findConditionalBreakpointHit: the first in the list whose condition holds. */
  function FirstConditional<M>(cs: seq<Conditional<M>>, pc: u64, m: M): (r: Option<Hit>)
    ensures r.Some? ==> exists i :: 0 <= i < |cs| && ConditionMet(cs[i], pc, m)
                                    && r.value == Hit(ConditionalBreakpoint, cs[i].id)
                                    && forall j :: 0 <= j < i ==> !ConditionMet(cs[j], pc, m)
    ensures r.None? ==> forall i :: 0 <= i < |cs| ==> !ConditionMet(cs[i], pc, m)
  {
    if |cs| == 0 then None
    else if ConditionMet(cs[0], pc, m) then Some(Hit(ConditionalBreakpoint, cs[0].id))
    else
      var rest := FirstConditional(cs[1..], pc, m);
      assert forall i :: 0 < i < |cs| ==> cs[i] == cs[1..][i - 1];
      rest
  }

  function BreakAt<M>(t: Target<M>, p: Points<M>, m: M): Option<Hit> {
    if t.pc(m) in p.plain then Some(Hit(Breakpoint, 0)) else FirstConditional(p.conditional, t.pc(m), m)
  }

  predicate WatchMatches(w: Watch, a: Access) {
    && (w.mode.OnAccess? || w.mode.OnWrite? == a.write)
    && w.address < AddSize(a.address, 8) && a.address < w.address + w.size
  }

  /** findWatchpointHit: the first watch in the list that the access overlaps. */
  function FirstWatch(ws: seq<Watch>, a: Option<Access>): (r: Option<Hit>)
    ensures r.Some? ==> a.Some? && exists i :: 0 <= i < |ws| && WatchMatches(ws[i], a.value)
                                               && r.value == Hit(Watchpoint, ws[i].id)
                                               && forall j :: 0 <= j < i ==> !WatchMatches(ws[j], a.value)
    ensures r.None? && a.Some? ==> forall i :: 0 <= i < |ws| ==> !WatchMatches(ws[i], a.value)
  {
    if a.None? || |ws| == 0 then None
    else if WatchMatches(ws[0], a.value) then Some(Hit(Watchpoint, ws[0].id))
    else
      var rest := FirstWatch(ws[1..], a);
      assert forall i :: 0 < i < |ws| ==> ws[i] == ws[1..][i - 1];
      rest
  }

  /** Why to stop before executing anything at m. */
  function StopBefore<M>(t: Target<M>, p: Points<M>, m: M, skipBreak: bool): Option<Hit> {
    if Standing(t, m) != Ready then Some(Hit(Standing(t, m), 0))
    else if skipBreak then None
    else BreakAt(t, p, m)
  }

  /**
   * Why to stop at m, reached by a step.  A fault or halt wins over a
   * watchpoint, a watchpoint over the end of the program, and all of them
   * over a breakpoint at the new pc.
   */
  function StopAfter<M>(t: Target<M>, p: Points<M>, m: M): Option<Hit> {
    if Standing(t, m) == Fault || Standing(t, m) == Halted then Some(Hit(Standing(t, m), 0))
    else if FirstWatch(p.watches, t.access(m)).Some? then FirstWatch(p.watches, t.access(m))
    else StopBefore(t, p, m, false)
  }

  function Next<M>(t: Target<M>, m: M): M {
    t.step(m)
  }

  function At<M>(t: Target<M>, m: M, k: nat): M {
    Iterate(t.step, m, k)
  }

  /** The verdict on the state k steps from m; `extra` is a further reason to stop after a step. */
  function HitAt<M>(t: Target<M>, p: Points<M>, extra: M -> Option<Hit>, m: M, skipBreak: bool, k: nat): Option<Hit> {
    if k == 0 then StopBefore(t, p, m, skipBreak)
    else if StopAfter(t, p, At(t, m, k)).Some? then StopAfter(t, p, At(t, m, k))
    else extra(At(t, m, k))
  }

  /** k is the first state of the run from m with a verdict, or the step limit without one. */
  ghost predicate FirstStop<M>(t: Target<M>, p: Points<M>, extra: M -> Option<Hit>, m: M, skipBreak: bool,
                               limit: nat, k: nat, hit: Hit)
  {
    && k <= limit
    && (forall j: nat :: j < k ==> HitAt(t, p, extra, m, skipBreak, j).None?)
    && (HitAt(t, p, extra, m, skipBreak, k) == Some(hit)
        || (HitAt(t, p, extra, m, skipBreak, k).None? && k == limit && hit == Hit(StepLimit, 0)))
  }

  function NoExtra<M>(): M -> Option<Hit> {
    m => None
  }

  /** m is k steps from m0 and no earlier state had a verdict. */
  ghost predicate Running<M>(t: Target<M>, p: Points<M>, extra: M -> Option<Hit>, m0: M, skipBreak: bool, k: nat, m: M)
  {
    m == At(t, m0, k) && forall j: nat :: j < k ==> HitAt(t, p, extra, m0, skipBreak, j).None?
  }

  lemma RunningStart<M>(t: Target<M>, p: Points<M>, extra: M -> Option<Hit>, m0: M, skipBreak: bool)
    ensures Running(t, p, extra, m0, skipBreak, 0, m0)
    ensures HitAt(t, p, extra, m0, skipBreak, 0) == StopBefore(t, p, m0, skipBreak)
  {
  }

  lemma RunningStep<M>(t: Target<M>, p: Points<M>, extra: M -> Option<Hit>, m0: M, skipBreak: bool, k: nat, m: M)
    requires Running(t, p, extra, m0, skipBreak, k, m) && HitAt(t, p, extra, m0, skipBreak, k).None?
    ensures Running(t, p, extra, m0, skipBreak, k + 1, Next(t, m))
    ensures var after := StopAfter(t, p, Next(t, m));
            HitAt(t, p, extra, m0, skipBreak, k + 1) == if after.Some? then after else extra(Next(t, m))
    ensures NoExtra<M>()(Next(t, m)) == None
  {
    hide StopAfter, StopBefore;
  }

  lemma RunningStops<M>(t: Target<M>, p: Points<M>, extra: M -> Option<Hit>, m0: M, skipBreak: bool,
                        limit: nat, k: nat, m: M)
    requires Running(t, p, extra, m0, skipBreak, k, m) && k <= limit
    ensures HitAt(t, p, extra, m0, skipBreak, k).Some? ==>
              FirstStop(t, p, extra, m0, skipBreak, limit, k, HitAt(t, p, extra, m0, skipBreak, k).value)
    ensures HitAt(t, p, extra, m0, skipBreak, k).None? && k == limit ==>
              FirstStop(t, p, extra, m0, skipBreak, limit, k, Hit(StepLimit, 0))
  {
    hide HitAt;
  }

  lemma FirstStopIsUnique<M>(t: Target<M>, p: Points<M>, extra: M -> Option<Hit>, m: M, skipBreak: bool,
                             limit: nat, k: nat, hit: Hit, k': nat, hit': Hit)
    requires FirstStop(t, p, extra, m, skipBreak, limit, k, hit)
    requires FirstStop(t, p, extra, m, skipBreak, limit, k', hit')
    ensures k == k' && hit == hit'
  {
    if k < k' {
      assert false;
    } else if k' < k {
      assert false;
    }
  }

  lemma NoVerdictMeansRunnable<M>(t: Target<M>, p: Points<M>, m: M, skipBreak: bool, k: nat)
    requires k > 0 && HitAt(t, p, NoExtra(), m, skipBreak, k).None?
    ensures HitAt(t, p, NoExtra(), At(t, m, k), false, 0).None?
  {
  }

  lemma HitAtShift<M>(t: Target<M>, p: Points<M>, m: M, skipBreak: bool, a: nat, j: nat)
    requires a > 0 && HitAt(t, p, NoExtra(), m, skipBreak, a).None?
    ensures HitAt(t, p, NoExtra(), At(t, m, a), false, j)
         == if j == 0 then None else HitAt(t, p, NoExtra(), m, skipBreak, a + j)
  {
    IterateCompose(t.step, m, a, j);
    if j == 0 {
      NoVerdictMeansRunnable(t, p, m, skipBreak, a);
    }
  }

  /** A step limit is only ever reported for a state that has no other verdict. */
  lemma StepLimitHasNoVerdict<M>(t: Target<M>, p: Points<M>, m: M, skipBreak: bool, limit: nat, k: nat)
    requires FirstStop(t, p, NoExtra(), m, skipBreak, limit, k, Hit(StepLimit, 0))
    ensures k == limit && HitAt(t, p, NoExtra(), m, skipBreak, limit).None?
  {
  }

  /**
   * Cutting a run at its step limit and continuing is one run with the summed
   * limit: same final state, same stop, same number of steps.
   */
  lemma CutAndResume<M>(t: Target<M>, p: Points<M>, m: M, skipBreak: bool, a: nat, b: nat, k: nat, hit: Hit)
    requires a > 0
    requires FirstStop(t, p, NoExtra(), m, skipBreak, a, a, Hit(StepLimit, 0))
    requires FirstStop(t, p, NoExtra(), At(t, m, a), false, b, k, hit)
    ensures FirstStop(t, p, NoExtra(), m, skipBreak, a + b, a + k, hit)
    ensures At(t, At(t, m, a), k) == At(t, m, a + k)
  {
    hide HitAt;
    StepLimitHasNoVerdict(t, p, m, skipBreak, a, a);
    IterateCompose(t.step, m, a, k);
    forall j: nat | j < a + k
      ensures HitAt(t, p, NoExtra(), m, skipBreak, j).None?
    {
      if j >= a {
        assert HitAt(t, p, NoExtra(), At(t, m, a), false, j - a).None?;
        HitAtShift(t, p, m, skipBreak, a, j - a);
      }
    }
    HitAtShift(t, p, m, skipBreak, a, k);
  }

  /** Continuing from a breakpoint makes progress, unless the machine is already stopped. */
  lemma ResumeMakesProgress<M>(t: Target<M>, p: Points<M>, m: M, limit: nat, k: nat, hit: Hit)
    requires FirstStop(t, p, NoExtra(), m, true, limit, k, hit) && limit > 0
    ensures k > 0 <==> Standing(t, m) == Ready
  {
    assert HitAt(t, p, NoExtra(), m, true, 0) == StopBefore(t, p, m, true);
  }

  // ----- The session object -----

  class Session<M> {
    const target: Target<M>
    var cpu: M
    var points: Points<M>
    var totalSteps: nat
    var lastStop: Stop

    /** loadImage */
    constructor (target: Target<M>, cpu: M)
      ensures this.target == target && this.cpu == cpu && totalSteps == 0
      ensures points == Points({}, [], []) && lastStop == Stop(Hit(Ready, 0), target.pc(cpu), 0, 0)
    {
      this.target, this.cpu := target, cpu;
      points, totalSteps := Points({}, [], []), 0;
      lastStop := Stop(Hit(Ready, 0), target.pc(cpu), 0, 0);
    }

    method MakeStop(hit: Hit, executed: nat) returns (s: Stop)
      modifies this`lastStop
      ensures s == lastStop == Stop(hit, target.pc(cpu), executed, totalSteps)
    {
      lastStop := Stop(hit, target.pc(cpu), executed, totalSteps);
      return lastStop;
    }

    /** The breakpoint check is skipped once when the last stop was a breakpoint at this very pc. */
    predicate ResumesFromBreak()
      reads this
    {
      (lastStop.hit.reason.Breakpoint? || lastStop.hit.reason.ConditionalBreakpoint?)
      && lastStop.pc == target.pc(cpu)
    }

    method FindConditional(pc: u64) returns (r: Option<Hit>)
      ensures r == FirstConditional(points.conditional, pc, cpu)
    {
      var i := 0;
      while i < |points.conditional|
        invariant i <= |points.conditional|
        invariant FirstConditional(points.conditional, pc, cpu)
               == FirstConditional(points.conditional[i..], pc, cpu)
      {
        var c := points.conditional[i];
        assert points.conditional[i..][1..] == points.conditional[i + 1..];
        if c.address == pc && c.holds(cpu) {
          return Some(Hit(ConditionalBreakpoint, c.id));
        }
        i := i + 1;
      }
      return None;
    }

    method FindWatch() returns (r: Option<Hit>)
      ensures r == FirstWatch(points.watches, target.access(cpu))
    {
      var a := target.access(cpu);
      if a.None? {
        return None;
      }
      var i := 0;
      while i < |points.watches|
        invariant i <= |points.watches|
        invariant FirstWatch(points.watches, a) == FirstWatch(points.watches[i..], a)
      {
        var w := points.watches[i];
        assert points.watches[i..][1..] == points.watches[i + 1..];
        if WatchMatches(w, a.value) {
          return Some(Hit(Watchpoint, w.id));
        }
        i := i + 1;
      }
      return None;
    }

    method FindBreak() returns (r: Option<Hit>)
      ensures r == BreakAt(target, points, cpu)
    {
      if target.pc(cpu) in points.plain {
        return Some(Hit(Breakpoint, 0));
      }
      r := FindConditional(target.pc(cpu));
    }

    // The checks at the head of the run loops.
    method CheckBefore(skipBreak: bool) returns (r: Option<Hit>)
      ensures r == StopBefore(target, points, cpu, skipBreak)
    {
      if Standing(target, cpu) != Ready {
        return Some(Hit(Standing(target, cpu), 0));
      }
      if skipBreak {
        return None;
      }
      r := FindBreak();
    }

    // The checks right after a CPU step; breakpoints come at the loop head.
    method CheckAfter() returns (r: Option<Hit>)
      ensures r == StopAfter(target, points.(plain := {}, conditional := []), cpu)
      ensures StopAfter(target, points, cpu) == if r.Some? then r else StopBefore(target, points, cpu, false)
      ensures r.None? ==> Standing(target, cpu) == Ready
    {
      var after := Standing(target, cpu);
      if after == Fault || after == Halted {
        return Some(Hit(after, 0));
      }
      r := FindWatch();
      if r.None? && after != Ready {
        return Some(Hit(after, 0));
      }
    }

    /** step(): one CPU step, ignoring breakpoints. */
    method StepOnce() returns (s: Stop)
      modifies this
      ensures points == old(points) && s == lastStop
      ensures Standing(target, old(cpu)) != Ready ==>
                cpu == old(cpu) && totalSteps == old(totalSteps)
                && s == Stop(Hit(Standing(target, cpu), 0), target.pc(cpu), 0, totalSteps)
      ensures Standing(target, old(cpu)) == Ready ==>
                && cpu == target.step(old(cpu)) && totalSteps == old(totalSteps) + 1
                && s.executed == 1 && s.total == totalSteps && s.pc == target.pc(cpu)
                && var after := StopAfter(target, points.(plain := {}, conditional := []), cpu);
                   s.hit == if after.Some? then after.value else Hit(StepComplete, 0)
    {
      if Standing(target, cpu) != Ready {
        s := MakeStop(Hit(Standing(target, cpu), 0), 0);
        return;
      }
      cpu := target.step(cpu);
      totalSteps := totalSteps + 1;
      var after := CheckAfter();
      s := MakeStop(if after.Some? then after.value else Hit(StepComplete, 0), 1);
    }

    /**
     * continueExecution: the state k bare CPU steps away, where k is the first
     * stop in the order of StopBefore and StopAfter.
     */
    method ContinueExecution(maxSteps: nat) returns (r: Result<Stop>)
      modifies this
      ensures points == old(points)
      ensures maxSteps == 0 ==>
                r == Err && cpu == old(cpu) && totalSteps == old(totalSteps) && lastStop == old(lastStop)
      ensures maxSteps > 0 ==>
                && r.Ok? && r.value == lastStop
                && var k := r.value.executed;
                   && cpu == At(target, old(cpu), k)
                   && totalSteps == old(totalSteps) + k
                   && r.value == Stop(r.value.hit, target.pc(cpu), k, totalSteps)
                   && FirstStop(target, points, NoExtra(), old(cpu), old(ResumesFromBreak()), maxSteps, k, r.value.hit)
    {
      if maxSteps == 0 {
        return Err;
      }
      var executed := 0;
      var skipBreak := ResumesFromBreak();
      ghost var m0, skip0, t, p := cpu, skipBreak, target, points;
      RunningStart(t, p, NoExtra(), m0, skip0);
      hide StopAfter, StopBefore, HitAt, Running, FirstStop, Next;
      while true
        invariant target == t && points == p && executed <= maxSteps && totalSteps == old(totalSteps) + executed
        invariant Running(t, p, NoExtra(), m0, skip0, executed, cpu)
        invariant HitAt(t, p, NoExtra(), m0, skip0, executed) == StopBefore(t, p, cpu, skipBreak)
        decreases maxSteps - executed
      {
        RunningStops(t, p, NoExtra(), m0, skip0, maxSteps, executed, cpu);
        var before := CheckBefore(skipBreak);
        if before.Some? {
          var s := MakeStop(before.value, executed);
          return Ok(s);
        }
        if executed >= maxSteps {
          var s := MakeStop(Hit(StepLimit, 0), executed);
          return Ok(s);
        }
        RunningStep(t, p, NoExtra(), m0, skip0, executed, cpu);
        cpu := Next(target, cpu);
        executed := executed + 1;
        totalSteps := totalSteps + 1;
        skipBreak := false;
        RunningStops(t, p, NoExtra(), m0, skip0, maxSteps, executed, cpu);
        var after := CheckAfter();
        if after.Some? {
          var s := MakeStop(after.value, executed);
          return Ok(s);
        }
      }
    }

    /** The extra stop of source stepping: a mapped address on another line. */
    static function LineChanged(t: Target<M>, lineAt: u64 -> Option<nat>, line: nat): M -> Option<Hit> {
      m =>
        match lineAt(t.pc(m))
        case Some(l) => if l != line then Some(Hit(StepComplete, 0)) else None
        case None => None
    }

    /**
     * stepSourceLine: the first stop after the start, or the first state on
     * another source line; addresses without a line are stepped through.
     */
    method StepSourceLine(maxSteps: nat, lineAt: u64 -> Option<nat>) returns (r: Result<Stop>)
      modifies this
      ensures points == old(points)
      ensures r.Err? ==> cpu == old(cpu) && totalSteps == old(totalSteps) && lastStop == old(lastStop)
      ensures r.Err? <==> maxSteps == 0 || (Standing(target, old(cpu)) == Ready && lineAt(target.pc(old(cpu))).None?)
      ensures r.Ok? && Standing(target, old(cpu)) != Ready ==>
                && cpu == old(cpu) && totalSteps == old(totalSteps)
                && r.value == Stop(Hit(Standing(target, cpu), 0), target.pc(cpu), 0, totalSteps)
      ensures r.Ok? && Standing(target, old(cpu)) == Ready ==>
                && r.value == lastStop
                && var k := r.value.executed;
                   && cpu == At(target, old(cpu), k)
                   && totalSteps == old(totalSteps) + k
                   && r.value == Stop(r.value.hit, target.pc(cpu), k, totalSteps)
                   && FirstStop(target, points, LineChanged(target, lineAt, lineAt(target.pc(old(cpu))).value),
                                old(cpu), true, maxSteps, k, r.value.hit)
    {
      if maxSteps == 0 {
        return Err;
      }
      if Standing(target, cpu) != Ready {
        var s := MakeStop(Hit(Standing(target, cpu), 0), 0);
        return Ok(s);
      }
      var before := lineAt(target.pc(cpu));
      if before.None? {
        return Err;
      }
      var line := before.value;
      ghost var extra, m0, t, p := LineChanged(target, lineAt, line), cpu, target, points;
      RunningStart(t, p, extra, m0, true);
      var executed := 0;
      hide StopAfter, StopBefore, HitAt, Running, FirstStop, Next;
      while true
        invariant target == t && points == p && executed <= maxSteps && totalSteps == old(totalSteps) + executed
        invariant Running(t, p, extra, m0, true, executed, cpu)
        invariant HitAt(t, p, extra, m0, true, executed).None?
        decreases maxSteps - executed
      {
        RunningStops(t, p, extra, m0, true, maxSteps, executed, cpu);
        // The stop checks at the loop head repeat the ones made after the step.
        if executed >= maxSteps {
          var s := MakeStop(Hit(StepLimit, 0), executed);
          return Ok(s);
        }
        RunningStep(t, p, extra, m0, true, executed, cpu);
        cpu := Next(target, cpu);
        executed := executed + 1;
        totalSteps := totalSteps + 1;
        RunningStops(t, p, extra, m0, true, maxSteps, executed, cpu);
        var after := CheckAfter();
        if after.Some? {
          var s := MakeStop(after.value, executed);
          return Ok(s);
        }
        var before := CheckBefore(false);
        if before.Some? {
          var s := MakeStop(before.value, executed);
          return Ok(s);
        }
        var now := lineAt(target.pc(cpu));
        if now.Some? && now.value != line {
          var s := MakeStop(Hit(StepComplete, 0), executed);
          return Ok(s);
        }
      }
    }
  }

  // ----- The CPU as a target -----

  /** The CPU under debug; `access` is what the trace reports about the last step. */
  function CpuTarget(c: Machine.Setup, access: Machine.State -> Option<Access>, codeEnd: u64): Target<Machine.State> {
    Target(Machine.StepOf(c), (s: Machine.State) => s.pc, (s: Machine.State) => s.halted,
           (s: Machine.State) => s.error, access, codeEnd)
  }

  /** Debugging the CPU runs exactly CPU::step: the session's states are the machine's steps. */
  lemma CpuSessionIsSteps(c: Machine.Setup, access: Machine.State -> Option<Access>, codeEnd: u64,
                          p: Points<Machine.State>, s: Machine.State, skipBreak: bool, limit: nat, k: nat, hit: Hit)
    requires FirstStop(CpuTarget(c, access, codeEnd), p, NoExtra(), s, skipBreak, limit, k, hit)
    ensures At(CpuTarget(c, access, codeEnd), s, k) == Machine.Steps(c, s, k)
    ensures forall j: nat :: j < k ==> !Machine.Stopped(Machine.Steps(c, s, j))
    ensures hit.reason.Fault? <==> Machine.Steps(c, s, k).error
  {
    hide Machine.Step, FirstConditional, FirstWatch;
    var t := CpuTarget(c, access, codeEnd);
    forall j: nat | j < k
      ensures !Machine.Stopped(Machine.Steps(c, s, j))
    {
      assert HitAt(t, p, NoExtra(), s, skipBreak, j).None?;
      assert At(t, s, j) == Machine.Steps(c, s, j);
      assert Standing(t, At(t, s, j)) == Ready;
    }
    assert At(t, s, k) == Machine.Steps(c, s, k);
    BreakIsNotFault(t, p, s, skipBreak, k);
  }

  lemma BreakIsNotFault<M>(t: Target<M>, p: Points<M>, m: M, skipBreak: bool, k: nat)
    ensures var h := HitAt(t, p, NoExtra(), m, skipBreak, k);
            (h.Some? && h.value.reason.Fault?) <==> t.failed(At(t, m, k))
  {
  }
}
