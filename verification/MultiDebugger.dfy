// The multi-process debugger (src/debug/MultiProcessDebugSession.cpp) over an
// arbitrary scheduler: where its runs stop, how a breakpoint is resumed across
// preemption, and what its context-switch log says.
module MultiDebugger {
  import opened Words
  import opened Iteration
  import opened Debugger
  import DebugSymbols

  // Process ids; 0 stands for "no process".
  type Pid = nat

  // kernel::ProcessRuntimeState
  datatype Runtime = RuntimeReady | RuntimeRunning | RuntimeCompleted | RuntimeDeadlocked

  datatype MultiReason =
    | MReady | MStepComplete | MBreakpoint | MConditionalBreakpoint | MWatchpoint
    | MProcessTerminated | MProcessFaulted | MCompleted | MDeadlocked | MStepLimit

  // One ProcessLifecycleManager::step: `access` is the access of the traced
  // instruction, if one was traced.
  datatype Outcome<!W> = Outcome(world: W, terminated: bool, faulted: bool, preempted: bool, access: Option<Access>)

  // The processes, scheduler and CPU: a step function and what the debugger looks at.
  datatype System<!W> = System(
    lifecycle: W -> Outcome<W>,
    running: W -> Pid,
    runtime: W -> Runtime,
    contains: (W, Pid) -> bool,
    terminated: (W, Pid) -> bool,
    pc: (W, Pid) -> u64)

  datatype PidWatch = PidWatch(pid: Pid, watch: Watch)

  datatype PidConditional<!W> = PidConditional(pid: Pid, condition: Conditional<W>)

  datatype PidPoints<!W> =
    PidPoints(plain: set<(Pid, u64)>, conditional: seq<PidConditional<W>>, watches: seq<PidWatch>)

  datatype MultiHit = MultiHit(reason: MultiReason, pid: Pid, address: u64, id: nat)

  datatype MultiStop = MultiStop(hit: MultiHit, executed: nat, total: nat)

  predicate IsBreak(h: MultiHit) {
    h.reason == MBreakpoint || h.reason == MConditionalBreakpoint
  }

  function Place(h: MultiHit): (Pid, u64) {
    (h.pid, h.address)
  }

  function Plain(r: MultiReason): MultiHit {
    MultiHit(r, 0, 0, 0)
  }

  // ----- Verdicts -----

  predicate PidConditionMet<W>(c: PidConditional<W>, pid: Pid, pc: u64, w: W) {
    c.pid == pid && ConditionMet(c.condition, pc, w)
  }

  /** findConditionalBreakpointHit: the first of the process's conditions at the address that holds. */
  function FirstPidConditional<W>(cs: seq<PidConditional<W>>, pid: Pid, pc: u64, w: W): (r: Option<MultiHit>)
    ensures r.Some? ==> exists i :: 0 <= i < |cs| && PidConditionMet(cs[i], pid, pc, w)
                                    && r.value == MultiHit(MConditionalBreakpoint, pid, pc, cs[i].condition.id)
                                    && forall j :: 0 <= j < i ==> !PidConditionMet(cs[j], pid, pc, w)
    ensures r.None? ==> forall i :: 0 <= i < |cs| ==> !PidConditionMet(cs[i], pid, pc, w)
  {
    if |cs| == 0 then None
    else if PidConditionMet(cs[0], pid, pc, w) then
      Some(MultiHit(MConditionalBreakpoint, pid, pc, cs[0].condition.id))
    else
      var rest := FirstPidConditional(cs[1..], pid, pc, w);
      assert forall i :: 0 < i < |cs| ==> cs[i] == cs[1..][i - 1];
      rest
  }

  /** The breakpoint the running process stands on, whatever is skipped. */
  function PidBreakAt<W>(sys: System<W>, p: PidPoints<W>, w: W): (r: Option<MultiHit>)
    ensures r.Some? ==>
              && IsBreak(r.value) && r.value.pid == sys.running(w)
              && r.value.address == sys.pc(w, sys.running(w))
  {
    var pid := sys.running(w);
    var pc := sys.pc(w, pid);
    if (pid, pc) in p.plain then Some(MultiHit(MBreakpoint, pid, pc, 0))
    else FirstPidConditional(p.conditional, pid, pc, w)
  }

  predicate PidWatchMatches(w: PidWatch, pid: Pid, a: Access) {
    w.pid == pid && WatchMatches(w.watch, a)
  }

  /** findWatchpointHit: the first of the process's watchpoints that the access overlaps. */
  function FirstPidWatch(ws: seq<PidWatch>, pid: Pid, a: Option<Access>): (r: Option<MultiHit>)
    ensures r.Some? ==> a.Some? && exists i :: 0 <= i < |ws| && PidWatchMatches(ws[i], pid, a.value)
                                               && r.value == MultiHit(MWatchpoint, pid, a.value.address, ws[i].watch.id)
                                               && forall j :: 0 <= j < i ==> !PidWatchMatches(ws[j], pid, a.value)
    ensures r.None? && a.Some? ==> forall i :: 0 <= i < |ws| ==> !PidWatchMatches(ws[i], pid, a.value)
  {
    if a.None? || |ws| == 0 then None
    else if PidWatchMatches(ws[0], pid, a.value) then
      Some(MultiHit(MWatchpoint, pid, a.value.address, ws[0].watch.id))
    else
      var rest := FirstPidWatch(ws[1..], pid, a);
      assert forall i :: 0 < i < |ws| ==> ws[i] == ws[1..][i - 1];
      rest
  }

  /** makeTerminalStop */
  function Terminal(r: Runtime): MultiHit {
    match r
    case RuntimeCompleted => Plain(MCompleted)
    case RuntimeDeadlocked => Plain(MDeadlocked)
    case RuntimeReady => Plain(MReady)
    case RuntimeRunning => Plain(MStepComplete)
  }

  type Skip = Option<(Pid, u64)>

  /** The process still stands where its breakpoint was reported. */
  predicate Stays<W>(sys: System<W>, w: W, at: (Pid, u64)) {
    sys.contains(w, at.0) && !sys.terminated(w, at.0) && sys.pc(w, at.0) == at.1
  }

  /** refreshResumeSkip */
  function Refresh<W>(sys: System<W>, w: W, skip: Skip): Skip {
    if skip.Some? && !Stays(sys, w, skip.value) then None else skip
  }

  /** armResumeSkipFromLastStop */
  function Arm(skip: Skip, last: MultiHit): Skip {
    if IsBreak(last) then Some((last.pid, last.address)) else skip
  }

  /** Why to stop before the step from w, with `skip` already refreshed. */
  function PidStopBefore<W>(sys: System<W>, p: PidPoints<W>, w: W, skip: Skip): Option<MultiHit> {
    if sys.running(w) == 0 then Some(Terminal(sys.runtime(w)))
    else if skip == Some((sys.running(w), sys.pc(w, sys.running(w)))) then None
    else PidBreakAt(sys, p, w)
  }

  /** Why to stop after the step from w, or None for an ordinary StepComplete. */
  function PidStopAfter<W>(sys: System<W>, p: PidPoints<W>, w: W): Option<MultiHit> {
    var o := sys.lifecycle(w);
    if o.terminated then Some(Plain(if o.faulted then MProcessFaulted else MProcessTerminated))
    else if FirstPidWatch(p.watches, sys.running(w), o.access).Some? then
      FirstPidWatch(p.watches, sys.running(w), o.access)
    else if !sys.runtime(o.world).RuntimeRunning? then Some(Terminal(sys.runtime(o.world)))
    else None
  }

  function Advance<W>(sys: System<W>): W -> W {
    w => sys.lifecycle(w).world
  }

  function World<W>(sys: System<W>, w: W, k: nat): W {
    Iterate(Advance(sys), w, k)
  }

  /** The skip in force k steps on: it survives exactly while the process has not moved. */
  function SkipAt<W>(sys: System<W>, w: W, armed: Skip, k: nat): Skip {
    if k == 0 then Refresh(sys, w, armed) else Refresh(sys, World(sys, w, k), SkipAt(sys, w, armed, k - 1))
  }

  lemma {:induction false} SkipMeansStayed<W>(sys: System<W>, w: W, at: (Pid, u64), k: nat)
    ensures SkipAt(sys, w, Some(at), k) == Some(at) || SkipAt(sys, w, Some(at), k) == None
    ensures SkipAt(sys, w, Some(at), k) == Some(at) <==> forall j: nat :: j <= k ==> Stays(sys, World(sys, w, j), at)
  {
    hide Stays;
    assert World(sys, w, 0) == w;
    if k > 0 {
      SkipMeansStayed(sys, w, at, k - 1);
      assert Stays(sys, World(sys, w, k), at) || !Stays(sys, World(sys, w, k), at);
    }
  }

  /** The verdict before step k of the run from w. */
  function Before<W>(sys: System<W>, p: PidPoints<W>, w: W, armed: Skip, k: nat): Option<MultiHit> {
    PidStopBefore(sys, p, World(sys, w, k), SkipAt(sys, w, armed, k))
  }

  /** The verdict of step k itself, which leads from world k to world k + 1. */
  function After<W>(sys: System<W>, p: PidPoints<W>, w: W, k: nat): Option<MultiHit> {
    PidStopAfter(sys, p, World(sys, w, k))
  }

  predicate Quiet<W>(sys: System<W>, p: PidPoints<W>, w: W, armed: Skip, j: nat) {
    Before(sys, p, w, armed, j).None? && After(sys, p, w, j).None?
  }

  /**
   * Where continueExecution stops: after the first step with a verdict, or
   * before the first world with one, or at the step limit.
   */
  ghost predicate FirstMultiStop<W>(sys: System<W>, p: PidPoints<W>, w: W, armed: Skip, limit: nat, k: nat,
                                    hit: MultiHit)
  {
    || (k < limit && Before(sys, p, w, armed, k) == Some(hit)
        && (forall j: nat :: j < k ==> Quiet(sys, p, w, armed, j)))
    || (0 < k <= limit && Before(sys, p, w, armed, k - 1).None? && After(sys, p, w, k - 1) == Some(hit)
        && (forall j: nat :: j < k - 1 ==> Quiet(sys, p, w, armed, j)))
    || (k == limit && hit == Plain(MStepLimit) && (forall j: nat :: j < k ==> Quiet(sys, p, w, armed, j)))
  }

  lemma QuietAt<W>(sys: System<W>, p: PidPoints<W>, w: W, armed: Skip, j: nat)
    ensures Quiet(sys, p, w, armed, j) <==> Before(sys, p, w, armed, j).None? && After(sys, p, w, j).None?
  {
  }

  /** The stop is determined: there is one first verdict. */
  lemma FirstMultiStopIsUnique<W>(sys: System<W>, p: PidPoints<W>, w: W, armed: Skip, limit: nat,
                                  k: nat, hit: MultiHit, k': nat, hit': MultiHit)
    requires FirstMultiStop(sys, p, w, armed, limit, k, hit) && FirstMultiStop(sys, p, w, armed, limit, k', hit')
    ensures k == k' && hit == hit'
  {
    hide Before, After, Quiet;
    QuietAt(sys, p, w, armed, k);
    QuietAt(sys, p, w, armed, k');
    if k > 0 {
      QuietAt(sys, p, w, armed, k - 1);
    }
    if k' > 0 {
      QuietAt(sys, p, w, armed, k' - 1);
    }
  }

  lemma BeforeIsBreakOrTerminal<W>(sys: System<W>, p: PidPoints<W>, w: W, armed: Skip, k: nat)
    requires Before(sys, p, w, armed, k).Some? && IsBreak(Before(sys, p, w, armed, k).value)
    ensures var h := Before(sys, p, w, armed, k).value;
            && h.pid == sys.running(World(sys, w, k)) && h.address == sys.pc(World(sys, w, k), h.pid)
            && SkipAt(sys, w, armed, k) != Some((h.pid, h.address))
  {
    hide SkipAt, World;
  }

  /**
   * After a breakpoint stop at (pid, address), one continueExecution reports
   * that process at that address again only if the process has terminated or
   * its own pc has left the address in between, whatever other processes did.
   */
  lemma ResumeSkipHolds<W>(sys: System<W>, p: PidPoints<W>, w: W, at: (Pid, u64), limit: nat, k: nat, hit: MultiHit)
    requires FirstMultiStop(sys, p, w, Some(at), limit, k, hit)
    requires IsBreak(hit) && Place(hit) == at
    ensures exists j: nat :: j <= k && !Stays(sys, World(sys, w, j), at)
  {
    hide Before, After, SkipAt;
    AfterIsNotBreak(sys, p, w, k);
    assert Before(sys, p, w, Some(at), k) == Some(hit);
    BeforeIsBreakOrTerminal(sys, p, w, Some(at), k);
    SkipMeansStayed(sys, w, at, k);
  }

  lemma AfterIsNotBreak<W>(sys: System<W>, p: PidPoints<W>, w: W, k: nat)
    ensures k > 0 && After(sys, p, w, k - 1).Some? ==> !IsBreak(After(sys, p, w, k - 1).value)
  {
  }

  /** The other direction: a breakpoint the running process reaches is reported unless it is the one being resumed. */
  lemma BreakpointIsReported<W>(sys: System<W>, p: PidPoints<W>, w: W, at: (Pid, u64), k: nat)
    requires sys.running(World(sys, w, k)) != 0 && PidBreakAt(sys, p, World(sys, w, k)).Some?
    ensures var x := World(sys, w, k);
            var here := (sys.running(x), sys.pc(x, sys.running(x)));
            Before(sys, p, w, Some(at), k).Some?
            <==> here != at || exists j: nat :: j <= k && !Stays(sys, World(sys, w, j), at)
  {
    SkipMeansStayed(sys, w, at, k);
  }

  /** A call that ends with anything but another breakpoint hands its skip to the next call unchanged. */
  lemma {:induction false} SkipSurvivesCalls<W>(sys: System<W>, w: W, armed: Skip, a: nat, k: nat)
    ensures SkipAt(sys, World(sys, w, a), SkipAt(sys, w, armed, a), k) == SkipAt(sys, w, armed, a + k)
  {
    hide Refresh;
    IterateCompose(Advance(sys), w, a, k);
    if k == 0 {
      RefreshTwice(sys, World(sys, w, a), if a == 0 then armed else SkipAt(sys, w, armed, a - 1));
    } else {
      SkipSurvivesCalls(sys, w, armed, a, k - 1);
    }
  }

  // ----- A second breakpoint stop re-arms the skip -----

  // Two processes that never move, alternating on every step.
  function Alternating(): System<int> {
    System((w: int) => Outcome(w + 1, false, false, true, None),
           (w: int) => if w % 2 == 0 then 1 else 2,
           (w: int) => RuntimeRunning,
           (w: int, pid: Pid) => true,
           (w: int, pid: Pid) => false,
           (w: int, pid: Pid) => if pid == 1 then 0x200 else 0x218)
  }

  const BOTH: PidPoints<int> := PidPoints({(1, 0x200), (2, 0x218)}, [], [])

  /**
   * Across calls the protection is lost to another process's breakpoint: the
   * second stop re-arms the skip for process 2, and process 1, which has not
   * moved, is reported a second time.
   */
  lemma OtherBreakpointRearms()
    ensures var first := MultiHit(MBreakpoint, 1, 0x200, 0);
            var second := MultiHit(MBreakpoint, 2, 0x218, 0);
            && FirstMultiStop(Alternating(), BOTH, 0, Arm(None, first), 10, 1, second)
            && FirstMultiStop(Alternating(), BOTH, 1, Arm(SkipAt(Alternating(), 0, Arm(None, first), 1), second), 10, 1,
                              first)
            && forall j: nat :: j <= 2 ==> Stays(Alternating(), World(Alternating(), 0, j), (1, 0x200))
  {
    var sys := Alternating();
    assert World(sys, 0, 0) == 0 && World(sys, 0, 1) == 1 && World(sys, 0, 2) == 2;
    assert World(sys, 1, 0) == 1 && World(sys, 1, 1) == 2;
    assert SkipAt(sys, 0, Some((1, 0x200)), 0) == Some((1, 0x200));
    assert SkipAt(sys, 0, Some((1, 0x200)), 1) == Some((1, 0x200));
    assert SkipAt(sys, 1, Some((2, 0x218)), 0) == Some((2, 0x218));
    assert SkipAt(sys, 1, Some((2, 0x218)), 1) == Some((2, 0x218));
    assert Quiet(sys, BOTH, 0, Some((1, 0x200)), 0);
    assert Quiet(sys, BOTH, 1, Some((2, 0x218)), 0);
  }

  // ----- The context-switch log -----

  datatype Switch = Switch(step: nat, from: Pid, to: Pid, preempted: bool, byTermination: bool)

  function RecordOf<W>(sys: System<W>, w: W, n: nat): Switch {
    var x := World(sys, w, n);
    var o := sys.lifecycle(x);
    Switch(n + 1, sys.running(x), sys.running(o.world), o.preempted, o.terminated)
  }

  /** What step n + 1 (from world n) appends: a record when the running process changed. */
  function SwitchOf<W>(sys: System<W>, w: W, n: nat): seq<Switch> {
    var r := RecordOf(sys, w, n);
    if r.from == r.to then [] else [r]
  }

  /** The log after n lifecycle steps from w. */
  function LogOf<W>(sys: System<W>, w: W, n: nat): seq<Switch> {
    if n == 0 then [] else LogOf(sys, w, n - 1) + SwitchOf(sys, w, n - 1)
  }

  /** The process the log says is running after lifecycle step i, starting from `pid`. */
  function Replay(log: seq<Switch>, pid: Pid, i: nat): Pid {
    if |log| == 0 then pid
    else if log[|log| - 1].step <= i then log[|log| - 1].to
    else Replay(log[..|log| - 1], pid, i)
  }

  ghost predicate WellFormedLog(log: seq<Switch>, pid: Pid, last: Pid, n: nat) {
    && (forall i :: 0 <= i < |log| ==> log[i].from != log[i].to && 0 < log[i].step <= n)
    && (forall i, j :: 0 <= i && j == i + 1 && j < |log| ==> log[i].to == log[j].from && log[i].step < log[j].step)
    && (if |log| == 0 then last == pid else log[0].from == pid && log[|log| - 1].to == last)
  }

  lemma WorldStep<W>(sys: System<W>, w: W, n: nat)
    ensures World(sys, w, n + 1) == sys.lifecycle(World(sys, w, n)).world
  {
  }

  lemma EmptyLog(pid: Pid)
    ensures WellFormedLog([], pid, pid, 0)
  {
  }

  lemma AppendKeepsLog(log: seq<Switch>, pid: Pid, last: Pid, n: nat, s: Switch)
    requires WellFormedLog(log, pid, last, n) && s.step == n + 1 && s.from == last && s.to != last
    ensures WellFormedLog(log + [s], pid, s.to, n + 1)
  {
  }

  lemma WidenLog(log: seq<Switch>, pid: Pid, last: Pid, n: nat)
    requires WellFormedLog(log, pid, last, n)
    ensures WellFormedLog(log, pid, last, n + 1)
  {
  }

  lemma {:induction false} ReplayAppend(log: seq<Switch>, pid: Pid, s: Switch, i: nat)
    ensures Replay(log + [s], pid, i) == if s.step <= i then s.to else Replay(log, pid, i)
  {
    assert (log + [s])[..|log|] == log;
  }

  lemma {:induction false} ReplayEnd(log: seq<Switch>, pid: Pid, last: Pid, n: nat, i: nat)
    requires WellFormedLog(log, pid, last, n) && n <= i
    ensures Replay(log, pid, i) == last
  {
  }

  lemma WorldZero<W>(sys: System<W>, w: W)
    ensures World(sys, w, 0) == w
  {
  }

  lemma LogZero<W>(sys: System<W>, w: W)
    ensures LogOf(sys, w, 0) == []
  {
  }

  lemma LogStep<W>(sys: System<W>, w: W, n: nat)
    ensures var r := RecordOf(sys, w, n);
            && r.step == n + 1 && r.from == sys.running(World(sys, w, n)) && r.to == sys.running(World(sys, w, n + 1))
            && LogOf(sys, w, n + 1) == if r.from == r.to then LogOf(sys, w, n) else LogOf(sys, w, n) + [r]
  {
    hide World;
    WorldStep(sys, w, n);
  }

  /** Records chain, step numbers increase, and from and to always differ. */
  lemma {:induction false} LogIsWellFormed<W>(sys: System<W>, w: W, n: nat)
    ensures WellFormedLog(LogOf(sys, w, n), sys.running(w), sys.running(World(sys, w, n)), n)
  {
    hide World, RecordOf, WellFormedLog, LogOf;
    WorldZero(sys, w);
    LogZero(sys, w);
    EmptyLog(sys.running(w));
    if n > 0 {
      LogIsWellFormed(sys, w, n - 1);
      LogStep(sys, w, n - 1);
      var r := RecordOf(sys, w, n - 1);
      if r.from != r.to {
        AppendKeepsLog(LogOf(sys, w, n - 1), sys.running(w), r.from, n - 1, r);
      } else {
        WidenLog(LogOf(sys, w, n - 1), sys.running(w), r.from, n - 1);
      }
    }
  }

  /** Replaying the log gives the process that really ran after every lifecycle step. */
  lemma {:induction false} LogReplaysSchedule<W>(sys: System<W>, w: W, n: nat, i: nat)
    requires i <= n
    ensures Replay(LogOf(sys, w, n), sys.running(w), i) == sys.running(World(sys, w, i))
  {
    hide World, LogOf, RecordOf, WellFormedLog, Replay;
    if i == n {
      LogIsWellFormed(sys, w, n);
      ReplayEnd(LogOf(sys, w, n), sys.running(w), sys.running(World(sys, w, n)), n, n);
    } else {
      LogReplaysSchedule(sys, w, n - 1, i);
      LogStep(sys, w, n - 1);
      ReplayAppend(LogOf(sys, w, n - 1), sys.running(w), RecordOf(sys, w, n - 1), i);
    }
  }

  // ----- The run loop's bookkeeping -----

  /** k steps from w0 without a verdict: the world reached, and the skip in force there. */
  ghost predicate MultiRunning<W>(sys: System<W>, p: PidPoints<W>, w0: W, armed: Skip, k: nat, w: W, skip: Skip) {
    && w == World(sys, w0, k)
    && Refresh(sys, w, skip) == SkipAt(sys, w0, armed, k)
    && forall j: nat :: j < k ==> Quiet(sys, p, w0, armed, j)
  }

  lemma MultiRunningStart<W>(sys: System<W>, p: PidPoints<W>, w: W, armed: Skip)
    ensures MultiRunning(sys, p, w, armed, 0, w, armed)
  {
  }

  lemma MultiRunningStops<W>(sys: System<W>, p: PidPoints<W>, w0: W, armed: Skip, limit: nat, k: nat, w: W, skip: Skip)
    requires MultiRunning(sys, p, w0, armed, k, w, skip) && k <= limit
    ensures var before := PidStopBefore(sys, p, w, Refresh(sys, w, skip));
            before.Some? && k < limit ==> FirstMultiStop(sys, p, w0, armed, limit, k, before.value)
    ensures k == limit ==> FirstMultiStop(sys, p, w0, armed, limit, k, Plain(MStepLimit))
  {
    hide PidStopBefore, Refresh, SkipAt, World, Quiet;
  }

  lemma MultiRunningStep<W>(sys: System<W>, p: PidPoints<W>, w0: W, armed: Skip, limit: nat, k: nat, w: W, skip: Skip)
    requires MultiRunning(sys, p, w0, armed, k, w, skip) && k < limit
    requires PidStopBefore(sys, p, w, Refresh(sys, w, skip)).None?
    ensures var after := PidStopAfter(sys, p, w);
            var next := sys.lifecycle(w).world;
            if after.Some? then FirstMultiStop(sys, p, w0, armed, limit, k + 1, after.value)
            else MultiRunning(sys, p, w0, armed, k + 1, next, Refresh(sys, next, Refresh(sys, w, skip)))
    ensures var next := sys.lifecycle(w).world;
            && next == World(sys, w0, k + 1)
            && Refresh(sys, next, Refresh(sys, w, skip)) == SkipAt(sys, w0, armed, k + 1)
            && Refresh(sys, next, SkipAt(sys, w0, armed, k + 1)) == SkipAt(sys, w0, armed, k + 1)
  {
    hide PidStopBefore, PidStopAfter, Stays, World;
    WorldStep(sys, w0, k);
    RefreshTwice(sys, sys.lifecycle(w).world, Refresh(sys, w, skip));
  }

  lemma RefreshTwice<W>(sys: System<W>, w: W, skip: Skip)
    ensures Refresh(sys, w, Refresh(sys, w, skip)) == Refresh(sys, w, skip)
  {
    hide Stays;
  }

  // What the loop reads off MultiRunning.
  lemma MultiRunningMeans<W>(sys: System<W>, p: PidPoints<W>, w0: W, armed: Skip, k: nat, w: W, skip: Skip)
    requires MultiRunning(sys, p, w0, armed, k, w, skip)
    ensures w == World(sys, w0, k) && Refresh(sys, w, skip) == SkipAt(sys, w0, armed, k)
    ensures Refresh(sys, w, Refresh(sys, w, skip)) == Refresh(sys, w, skip)
    ensures MultiRunning(sys, p, w0, armed, k, w, Refresh(sys, w, skip))
  {
    hide World, SkipAt, Refresh, Quiet;
    RefreshTwice(sys, w, skip);
  }

  lemma StopsWithoutProcess<W>(sys: System<W>, p: PidPoints<W>, w: W, skip: Skip)
    requires sys.running(w) == 0
    ensures PidStopBefore(sys, p, w, Refresh(sys, w, skip)) == Some(Terminal(sys.runtime(w)))
  {
    hide Refresh;
  }

  lemma ProceedsOnlyWithProcess<W>(sys: System<W>, p: PidPoints<W>, w: W, skip: Skip)
    requires PidStopBefore(sys, p, w, skip).None?
    ensures sys.running(w) != 0
  {
    hide PidBreakAt;
  }

  /** The loop's test for StepComplete tells exactly the steps without a verdict apart. */
  lemma VerdictIsNotStepComplete<W>(sys: System<W>, p: PidPoints<W>, w: W)
    ensures var after := PidStopAfter(sys, p, w);
            if after.Some? then after.value.reason != MStepComplete
            else sys.runtime(sys.lifecycle(w).world).RuntimeRunning?
  {
  }

  // ----- Stepping the selected process to another source line -----

  // The selected process, where it stood when the step began, its source map, and its line there.
  datatype SourceStep = SourceStep(pid: Pid, start: u64, sourceMap: seq<DebugSymbols.Location>, line: nat)

  predicate AtStart<W>(sys: System<W>, q: SourceStep, w: W) {
    !sys.terminated(w, q.pid) && sys.pc(w, q.pid) == q.start
  }

  /** The selected process stands on a mapped address of another line. */
  predicate OnOtherLine<W>(sys: System<W>, q: SourceStep, w: W) {
    !sys.terminated(w, q.pid)
    && var line := DebugSymbols.LineOfAddress(q.sourceMap, sys.pc(w, q.pid));
       line.Some? && line.value != q.line
  }

  /** The checks at the loop head: a debugger stop wins over reporting the new line. */
  function SourceStopBefore<W>(sys: System<W>, p: PidPoints<W>, q: SourceStep, w: W, skip: Skip): Option<MultiHit> {
    var here := (sys.running(w), sys.pc(w, sys.running(w)));
    if !sys.runtime(w).RuntimeRunning? || sys.running(w) == 0 then Some(Terminal(sys.runtime(w)))
    else if skip != Some(here) && !(AtStart(sys, q, w) && here == (q.pid, q.start)) && PidBreakAt(sys, p, w).Some? then
      PidBreakAt(sys, p, w)
    else if OnOtherLine(sys, q, w) then Some(Plain(MStepComplete))
    else None
  }

  lemma SourceStopsWithoutProcess<W>(sys: System<W>, p: PidPoints<W>, q: SourceStep, w: W, skip: Skip)
    requires !sys.runtime(w).RuntimeRunning? || sys.running(w) == 0
    ensures SourceStopBefore(sys, p, q, w, Refresh(sys, w, skip)) == Some(Terminal(sys.runtime(w)))
  {
    hide Refresh;
  }

  function SourceBefore<W>(sys: System<W>, p: PidPoints<W>, q: SourceStep, w: W, armed: Skip, k: nat): Option<MultiHit>
  {
    SourceStopBefore(sys, p, q, World(sys, w, k), SkipAt(sys, w, armed, k))
  }

  predicate SourceQuiet<W>(sys: System<W>, p: PidPoints<W>, q: SourceStep, w: W, armed: Skip, j: nat) {
    SourceBefore(sys, p, q, w, armed, j).None? && After(sys, p, w, j).None?
  }

  /** Where stepSelectedSourceLine stops; the head checks come before the step limit. */
  ghost predicate FirstSourceStop<W>(sys: System<W>, p: PidPoints<W>, q: SourceStep, w: W, armed: Skip, limit: nat,
                                     k: nat, hit: MultiHit)
  {
    || (k <= limit && SourceBefore(sys, p, q, w, armed, k) == Some(hit)
        && forall j: nat :: j < k ==> SourceQuiet(sys, p, q, w, armed, j))
    || (0 < k <= limit && SourceBefore(sys, p, q, w, armed, k - 1).None? && After(sys, p, w, k - 1) == Some(hit)
        && forall j: nat :: j < k - 1 ==> SourceQuiet(sys, p, q, w, armed, j))
    || (k == limit && SourceBefore(sys, p, q, w, armed, k).None? && hit == Plain(MStepLimit)
        && forall j: nat :: j < k ==> SourceQuiet(sys, p, q, w, armed, j))
  }

  /**
   * A completed source step ends in the first world in which the selected
   * process is on another mapped line, whatever else was scheduled; the only
   * other way to complete is a runtime that says Running with no process.
   */
  lemma SourceStepReachesNewLine<W>(sys: System<W>, p: PidPoints<W>, q: SourceStep, w: W, armed: Skip, limit: nat,
                                    k: nat)
    requires FirstSourceStop(sys, p, q, w, armed, limit, k, Plain(MStepComplete))
    ensures sys.running(World(sys, w, k)) != 0 ==> OnOtherLine(sys, q, World(sys, w, k))
    ensures forall j: nat :: j < k ==> !OnOtherLine(sys, q, World(sys, w, j))
  {
    hide World, SkipAt, OnOtherLine, PidBreakAt;
    if k > 0 {
      VerdictIsNotStepComplete(sys, p, World(sys, w, k - 1));
    }
    forall j: nat | j < k
      ensures !OnOtherLine(sys, q, World(sys, w, j))
    {
      assert SourceQuiet(sys, p, q, w, armed, j) || j == k - 1;
    }
    BreakIsNotStepComplete(sys, p, World(sys, w, k));
  }

  lemma BreakIsNotStepComplete<W>(sys: System<W>, p: PidPoints<W>, w: W)
    ensures PidBreakAt(sys, p, w).Some? ==> PidBreakAt(sys, p, w).value.reason != MStepComplete
  {
  }

  ghost predicate SourceRunning<W>(sys: System<W>, p: PidPoints<W>, q: SourceStep, w0: W, armed: Skip, k: nat, w: W,
                                   skip: Skip)
  {
    && w == World(sys, w0, k)
    && Refresh(sys, w, skip) == SkipAt(sys, w0, armed, k)
    && forall j: nat :: j < k ==> SourceQuiet(sys, p, q, w0, armed, j)
  }

  lemma SourceRunningStart<W>(sys: System<W>, p: PidPoints<W>, q: SourceStep, w: W, armed: Skip)
    ensures SourceRunning(sys, p, q, w, armed, 0, w, armed)
  {
  }

  lemma SourceRunningMeans<W>(sys: System<W>, p: PidPoints<W>, q: SourceStep, w0: W, armed: Skip, k: nat, w: W,
                              skip: Skip)
    requires SourceRunning(sys, p, q, w0, armed, k, w, skip)
    ensures w == World(sys, w0, k) && Refresh(sys, w, skip) == SkipAt(sys, w0, armed, k)
    ensures Refresh(sys, w, Refresh(sys, w, skip)) == Refresh(sys, w, skip)
    ensures SourceRunning(sys, p, q, w0, armed, k, w, Refresh(sys, w, skip))
  {
    hide World, SkipAt, Refresh, SourceQuiet;
    RefreshTwice(sys, w, skip);
  }

  lemma SourceRunningStops<W>(sys: System<W>, p: PidPoints<W>, q: SourceStep, w0: W, armed: Skip, limit: nat, k: nat,
                              w: W, skip: Skip)
    requires SourceRunning(sys, p, q, w0, armed, k, w, skip) && k <= limit
    ensures var before := SourceStopBefore(sys, p, q, w, Refresh(sys, w, skip));
            if before.Some? then FirstSourceStop(sys, p, q, w0, armed, limit, k, before.value)
            else k == limit ==> FirstSourceStop(sys, p, q, w0, armed, limit, k, Plain(MStepLimit))
  {
    hide SourceStopBefore, Refresh, SkipAt, World, SourceQuiet;
  }

  lemma SourceRunningStep<W>(sys: System<W>, p: PidPoints<W>, q: SourceStep, w0: W, armed: Skip, limit: nat, k: nat,
                             w: W, skip: Skip)
    requires SourceRunning(sys, p, q, w0, armed, k, w, skip) && k < limit
    requires SourceStopBefore(sys, p, q, w, Refresh(sys, w, skip)).None?
    ensures sys.running(w) != 0 && sys.runtime(w).RuntimeRunning?
    ensures var after := PidStopAfter(sys, p, w);
            var next := sys.lifecycle(w).world;
            if after.Some? then FirstSourceStop(sys, p, q, w0, armed, limit, k + 1, after.value)
            else SourceRunning(sys, p, q, w0, armed, k + 1, next, Refresh(sys, next, Refresh(sys, w, skip)))
    ensures var next := sys.lifecycle(w).world;
            && next == World(sys, w0, k + 1)
            && Refresh(sys, next, Refresh(sys, w, skip)) == SkipAt(sys, w0, armed, k + 1)
            && Refresh(sys, next, SkipAt(sys, w0, armed, k + 1)) == SkipAt(sys, w0, armed, k + 1)
  {
    hide PidStopAfter, Stays, World, PidBreakAt, OnOtherLine;
    WorldStep(sys, w0, k);
    RefreshTwice(sys, sys.lifecycle(w).world, Refresh(sys, w, skip));
  }

  // ----- Whole histories of session operations -----

  // One call on a session.  Run is continueExecution, or stepSelectedSourceLine
  // where `source` is given: it arms the skip from the last stop and makes
  // `steps` lifecycle steps.  Single is step(), which arms nothing.  Idle is any
  // of the three when the runtime is not Running: it only records a stop.
  datatype Op<!W> =
    | Run(points: PidPoints<W>, source: Option<SourceStep>, limit: nat, steps: nat, hit: MultiHit)
    | Single(points: PidPoints<W>, hit: MultiHit)
    | Idle(hit: MultiHit)

  // What a session carries from one call to the next.
  datatype Carried<!W> = Carried(world: W, skip: Skip, last: MultiHit)

  function Fresh<W>(w: W): Carried<W> {
    Carried(w, None, Plain(MReady))
  }

  function Armed<W>(d: Carried<W>): Skip {
    Arm(d.skip, d.last)
  }

  function StepsOf<W>(op: Op<W>): nat {
    match op
    case Run(_, _, _, steps, _) => steps
    case Single(_, _) => 1
    case Idle(_) => 0
  }

  function AfterOp<W>(sys: System<W>, d: Carried<W>, op: Op<W>): Carried<W> {
    var w := World(sys, d.world, StepsOf(op));
    match op
    case Run(_, _, _, steps, hit) => Carried(w, SkipAt(sys, d.world, Armed(d), steps), hit)
    case Single(_, hit) => Carried(w, Refresh(sys, w, d.skip), hit)
    case Idle(hit) => Carried(w, d.skip, hit)
  }

  function AfterOps<W>(sys: System<W>, d: Carried<W>, ops: seq<Op<W>>): Carried<W> {
    if |ops| == 0 then d else AfterOp(sys, AfterOps(sys, d, ops[..|ops| - 1]), ops[|ops| - 1])
  }

  function TotalSteps<W>(ops: seq<Op<W>>): nat {
    if |ops| == 0 then 0 else TotalSteps(ops[..|ops| - 1]) + StepsOf(ops[|ops| - 1])
  }

  function LastHit<W>(first: MultiHit, ops: seq<Op<W>>): MultiHit {
    if |ops| == 0 then first else ops[|ops| - 1].hit
  }

  /** The breakpoint stop from which a continue or source step of `ops` was last started; `held` if from none. */
  function StartedFrom<W>(held: Skip, first: MultiHit, ops: seq<Op<W>>): Skip {
    if |ops| == 0 then held
    else
      var init := ops[..|ops| - 1];
      if ops[|ops| - 1].Run? then Arm(StartedFrom(held, first, init), LastHit(first, init))
      else StartedFrom(held, first, init)
  }

  /** The same, with a continue or source step to be started next. */
  function LastResumed<W>(held: Skip, first: MultiHit, ops: seq<Op<W>>): Skip {
    Arm(StartedFrom(held, first, ops), LastHit(first, ops))
  }

  /** stepSelectedSourceLine threw: the selected process left the table after an ordinary step. */
  ghost predicate SourceThrew<W>(sys: System<W>, p: PidPoints<W>, q: SourceStep, w: W, armed: Skip, k: nat,
                                 hit: MultiHit)
  {
    && k > 0 && hit == Plain(MStepComplete) && !sys.contains(World(sys, w, k), q.pid)
    && forall j: nat :: j < k ==> SourceQuiet(sys, p, q, w, armed, j)
  }

  /** The call made at d ends as the session's method says. */
  ghost predicate OpHappened<W>(sys: System<W>, d: Carried<W>, op: Op<W>) {
    match op
    case Run(p, None, limit, k, hit) => FirstMultiStop(sys, p, d.world, Armed(d), limit, k, hit)
    case Run(p, Some(q), limit, k, hit) =>
      FirstSourceStop(sys, p, q, d.world, Armed(d), limit, k, hit) || SourceThrew(sys, p, q, d.world, Armed(d), k, hit)
    case Single(p, hit) =>
      hit == (if PidStopAfter(sys, p, d.world).Some? then PidStopAfter(sys, p, d.world).value else Plain(MStepComplete))
    case Idle(hit) => hit == Terminal(sys.runtime(d.world))
  }

  ghost predicate Happened<W>(sys: System<W>, d: Carried<W>, ops: seq<Op<W>>) {
    |ops| > 0 ==>
      var init := ops[..|ops| - 1];
      Happened(sys, d, init) && OpHappened(sys, AfterOps(sys, d, init), ops[|ops| - 1])
  }

  /** The process has stood at `at` in the first n worlds from w, ends included. */
  ghost predicate StoodFor<W>(sys: System<W>, w: W, at: (Pid, u64), n: nat) {
    forall j: nat :: j <= n ==> Stays(sys, World(sys, w, j), at)
  }

  lemma WorldCompose<W>(sys: System<W>, w: W, m: nat, n: nat)
    ensures World(sys, World(sys, w, m), n) == World(sys, w, m + n)
  {
    IterateCompose(Advance(sys), w, m, n);
  }

  lemma StoodForParts<W>(sys: System<W>, w: W, at: (Pid, u64), m: nat, n: nat)
    requires StoodFor(sys, w, at, m + n)
    ensures StoodFor(sys, w, at, m) && StoodFor(sys, World(sys, w, m), at, n)
  {
    hide Stays;
    forall j: nat | j <= n
      ensures Stays(sys, World(sys, World(sys, w, m), j), at)
    {
      WorldCompose(sys, w, m, j);
      assert Stays(sys, World(sys, w, m + j), at);
    }
  }

  lemma SkipIsOldOrNone<W>(sys: System<W>, w: W, armed: Skip, k: nat)
    ensures SkipAt(sys, w, armed, k) == armed || SkipAt(sys, w, armed, k) == None
  {
    if armed.Some? {
      SkipMeansStayed(sys, w, armed.value, k);
    } else if k > 0 {
      SkipIsOldOrNone(sys, w, armed, k - 1);
    }
  }

  /** While a process stands still, only arming from a stop makes it the resumed one or takes that from it. */
  lemma OpKeepsResumed<W>(sys: System<W>, d: Carried<W>, op: Op<W>, at: (Pid, u64))
    requires StoodFor(sys, d.world, at, StepsOf(op))
    ensures AfterOp(sys, d, op).skip == Some(at) <==> (if op.Run? then Armed(d) else d.skip) == Some(at)
  {
    hide SkipAt, World, Stays;
    match op
    case Run(_, _, _, steps, _) =>
      SkipIsOldOrNone(sys, d.world, Armed(d), steps);
      SkipMeansStayed(sys, d.world, at, steps);
    case Single(_, _) =>
      assert Stays(sys, World(sys, d.world, 1), at);
    case Idle(_) =>
  }

  lemma {:induction false} SkipIsStartedFrom<W>(sys: System<W>, d: Carried<W>, ops: seq<Op<W>>, at: (Pid, u64))
    requires StoodFor(sys, d.world, at, TotalSteps(ops))
    ensures var e := AfterOps(sys, d, ops);
            && (e.skip == Some(at) <==> StartedFrom(d.skip, d.last, ops) == Some(at))
            && e.last == LastHit(d.last, ops) && e.world == World(sys, d.world, TotalSteps(ops))
  {
    hide SkipAt, World, StoodFor, Refresh;
    if |ops| == 0 {
      WorldZero(sys, d.world);
    } else {
      var init, op := ops[..|ops| - 1], ops[|ops| - 1];
      StoodForParts(sys, d.world, at, TotalSteps(init), StepsOf(op));
      SkipIsStartedFrom(sys, d, init, at);
      OpKeepsResumed(sys, AfterOps(sys, d, init), op, at);
      WorldCompose(sys, d.world, TotalSteps(init), StepsOf(op));
    }
  }

  lemma StandsHere<W>(sys: System<W>, x: W, at: (Pid, u64), w: W, n: nat)
    requires StoodFor(sys, w, at, n) && x == World(sys, w, n)
    ensures sys.pc(x, at.0) == at.1
  {
    assert Stays(sys, World(sys, w, n), at);
  }

  /** Within a call, the skip in force is that of an unmoved process exactly when it was armed for it. */
  lemma UnmovedSkip<W>(sys: System<W>, d: Carried<W>, ops: seq<Op<W>>, at: (Pid, u64), j: nat)
    requires StoodFor(sys, d.world, at, TotalSteps(ops) + j)
    ensures var e := AfterOps(sys, d, ops);
            && (SkipAt(sys, e.world, Armed(e), j) == Some(at) <==> LastResumed(d.skip, d.last, ops) == Some(at))
            && World(sys, e.world, j) == World(sys, d.world, TotalSteps(ops) + j)
            && sys.pc(World(sys, e.world, j), at.0) == at.1
  {
    hide SkipAt, World, Stays;
    var e, n := AfterOps(sys, d, ops), TotalSteps(ops);
    StoodForParts(sys, d.world, at, n, j);
    SkipIsStartedFrom(sys, d, ops, at);
    WorldCompose(sys, d.world, n, j);
    SkipIsOldOrNone(sys, e.world, Armed(e), j);
    SkipMeansStayed(sys, e.world, at, j);
    StandsHere(sys, World(sys, d.world, n + j), at, d.world, n + j);
  }

  /**
   * Exactly when an unmoved process is reported again: after any history of
   * continues, source steps and single steps, the next continue reports a
   * process that has not moved, once it is scheduled, if and only if it was
   * not from that process's stop that a continue or source step last started.
   */
  lemma UnmovedIsReportedIff<W>(sys: System<W>, d: Carried<W>, ops: seq<Op<W>>, at: (Pid, u64),
                                p: PidPoints<W>, j: nat)
    requires StoodFor(sys, d.world, at, TotalSteps(ops) + j)
    requires var x := World(sys, d.world, TotalSteps(ops) + j);
             sys.running(x) == at.0 != 0 && PidBreakAt(sys, p, x).Some?
    ensures var e := AfterOps(sys, d, ops);
            Before(sys, p, e.world, Armed(e), j).Some? <==> LastResumed(d.skip, d.last, ops) != Some(at)
  {
    hide SkipAt, World, Stays, PidBreakAt;
    UnmovedSkip(sys, d, ops, at, j);
  }

  /** The next source step, too, except at the place where the selected process starts it. */
  lemma UnmovedIsReportedInSourceStepIff<W>(sys: System<W>, d: Carried<W>, ops: seq<Op<W>>, at: (Pid, u64),
                                            p: PidPoints<W>, q: SourceStep, j: nat)
    requires StoodFor(sys, d.world, at, TotalSteps(ops) + j)
    requires var x := World(sys, d.world, TotalSteps(ops) + j);
             sys.running(x) == at.0 != 0 && sys.runtime(x).RuntimeRunning? && PidBreakAt(sys, p, x).Some?
    ensures var e := AfterOps(sys, d, ops);
            var r := SourceBefore(sys, p, q, e.world, Armed(e), j);
            (r.Some? && IsBreak(r.value)) <==> LastResumed(d.skip, d.last, ops) != Some(at) && at != (q.pid, q.start)
  {
    hide SkipAt, World, PidBreakAt, OnOtherLine;
    UnmovedSkip(sys, d, ops, at, j);
    StoodForParts(sys, d.world, at, TotalSteps(ops) + j, 0);
    assert Stays(sys, World(sys, d.world, TotalSteps(ops) + j), at);
  }

  /** Where the most recent breakpoint stop was: `first` before the calls. */
  function LastBreak<W>(first: (Pid, u64), ops: seq<Op<W>>): (Pid, u64) {
    if |ops| == 0 then first
    else if IsBreak(ops[|ops| - 1].hit) then Place(ops[|ops| - 1].hit)
    else LastBreak(first, ops[..|ops| - 1])
  }

  lemma {:induction false} RunsResumeLastBreak<W>(held: Skip, first: MultiHit, ops: seq<Op<W>>)
    requires IsBreak(first) && forall i :: 0 <= i < |ops| ==> ops[i].Run?
    ensures LastResumed(held, first, ops) == Some(LastBreak(Place(first), ops))
  {
    if |ops| > 0 {
      RunsResumeLastBreak(held, first, ops[..|ops| - 1]);
    }
  }

  /** Without single steps in between: exactly when the most recent breakpoint stop was another one. */
  lemma UnmovedAfterRunsIff<W>(sys: System<W>, d: Carried<W>, ops: seq<Op<W>>, at: (Pid, u64), p: PidPoints<W>, j: nat)
    requires IsBreak(d.last) && Place(d.last) == at && forall i :: 0 <= i < |ops| ==> ops[i].Run?
    requires StoodFor(sys, d.world, at, TotalSteps(ops) + j)
    requires var x := World(sys, d.world, TotalSteps(ops) + j);
             sys.running(x) == at.0 != 0 && PidBreakAt(sys, p, x).Some?
    ensures var e := AfterOps(sys, d, ops);
            Before(sys, p, e.world, Armed(e), j).Some? <==> LastBreak(at, ops) != at
  {
    hide StoodFor, World, Before, PidBreakAt, AfterOps, LastResumed;
    UnmovedIsReportedIff(sys, d, ops, at, p, j);
    RunsResumeLastBreak(d.skip, d.last, ops);
  }

  /**
   * The next call after one: an unmoved process that stood at a breakpoint is
   * reported again exactly when the call between ended at a breakpoint, which
   * can then only be another one.
   */
  lemma NextCallReportsIff<W>(sys: System<W>, p: PidPoints<W>, w: W, at: (Pid, u64), limit: nat, k: nat,
                              last: MultiHit, j: nat)
    requires FirstMultiStop(sys, p, w, Some(at), limit, k, last) && StoodFor(sys, w, at, k + j)
    requires var x := World(sys, w, k + j); sys.running(x) == at.0 != 0 && PidBreakAt(sys, p, x).Some?
    ensures Before(sys, p, World(sys, w, k), Arm(SkipAt(sys, w, Some(at), k), last), j).Some? <==> IsBreak(last)
  {
    hide SkipAt, World, Before, FirstMultiStop, PidBreakAt, Stays;
    var d, op := Carried(w, None, MultiHit(MBreakpoint, at.0, at.1, 0)), Run(p, None, limit, k, last);
    assert [op][..0] == [];
    assert AfterOps(sys, d, [op]) == AfterOp(sys, AfterOps(sys, d, [op][..0]), op);
    assert TotalSteps([op]) == TotalSteps([op][..0]) + k;
    StoodForParts(sys, w, at, k, j);
    UnmovedIsReportedIff(sys, d, [op], at, p, j);
    if IsBreak(last) && Place(last) == at {
      ResumeSkipHolds(sys, p, w, at, limit, k, last);
      assert false;
    }
  }

  /** A run that reports `at` while the process stands there was not armed for it. */
  lemma ReportMeansNotArmed<W>(sys: System<W>, d: Carried<W>, op: Op<W>, at: (Pid, u64))
    requires op.Run? && OpHappened(sys, d, op) && IsBreak(op.hit) && Place(op.hit) == at
    requires StoodFor(sys, d.world, at, op.steps)
    ensures Armed(d) != Some(at)
  {
    hide Stays, World, SkipAt, After, Quiet, SourceQuiet, PidBreakAt, OnOtherLine, AtStart, FirstPidConditional;
    var k, armed := op.steps, Armed(d);
    AfterIsNotBreak(sys, op.points, d.world, k);
    SkipMeansStayed(sys, d.world, at, k);
  }

  /**
   * In any history that happened, a report of a process that has not moved
   * since d means that the continue or source step reporting it was not
   * resumed from that stop.
   */
  lemma ReportIsNotResumed<W>(sys: System<W>, d: Carried<W>, ops: seq<Op<W>>, at: (Pid, u64), op: Op<W>)
    requires Happened(sys, d, ops + [op]) && StoodFor(sys, d.world, at, TotalSteps(ops) + StepsOf(op))
    requires op.Run? && IsBreak(op.hit) && Place(op.hit) == at
    ensures LastResumed(d.skip, d.last, ops) != Some(at)
  {
    hide StoodFor, OpHappened, AfterOps, World;
    assert (ops + [op])[..|ops|] == ops;
    StoodForParts(sys, d.world, at, TotalSteps(ops), StepsOf(op));
    SkipIsStartedFrom(sys, d, ops, at);
    ReportMeansNotArmed(sys, AfterOps(sys, d, ops), op, at);
  }

  /** Between continues and source steps only: it takes a stop at another breakpoint in between. */
  lemma ReportNeedsOtherBreak<W>(sys: System<W>, d: Carried<W>, ops: seq<Op<W>>, at: (Pid, u64), op: Op<W>)
    requires Happened(sys, d, ops + [op]) && StoodFor(sys, d.world, at, TotalSteps(ops) + StepsOf(op))
    requires IsBreak(d.last) && Place(d.last) == at && forall i :: 0 <= i < |ops| ==> ops[i].Run?
    requires op.Run? && IsBreak(op.hit) && Place(op.hit) == at
    ensures exists i :: 0 <= i < |ops| && IsBreak(ops[i].hit) && Place(ops[i].hit) != at
  {
    hide StoodFor, Happened, World, LastResumed;
    ReportIsNotResumed(sys, d, ops, at, op);
    RunsResumeLastBreak(d.skip, d.last, ops);
    LastBreakIsInHistory(at, ops);
  }

  lemma {:induction false} LastBreakIsInHistory<W>(first: (Pid, u64), ops: seq<Op<W>>)
    ensures LastBreak(first, ops) == first
            || exists i :: 0 <= i < |ops| && IsBreak(ops[i].hit) && Place(ops[i].hit) == LastBreak(first, ops)
  {
    if |ops| > 0 {
      LastBreakIsInHistory(first, ops[..|ops| - 1]);
    }
  }

  lemma SourceRunningThrows<W>(sys: System<W>, p: PidPoints<W>, q: SourceStep, w0: W, armed: Skip, k: nat, w: W,
                               skip: Skip)
    requires SourceRunning(sys, p, q, w0, armed, k, w, skip) && k > 0 && !sys.contains(w, q.pid)
    ensures SourceThrew(sys, p, q, w0, armed, k, Plain(MStepComplete))
  {
  }

  // One process that jumps to itself.
  function Spinning(): System<int> {
    System((w: int) => Outcome(w + 1, false, false, false, None),
           (w: int) => 1,
           (w: int) => RuntimeRunning,
           (w: int, pid: Pid) => pid == 1,
           (w: int, pid: Pid) => false,
           (w: int, pid: Pid) => 0x200)
  }

  /**
   * A single step between two continues is enough: step() arms nothing and
   * forgets the stop, so the next continue reports the process at once, though
   * it has not moved and the last breakpoint stop was its own.
   */
  lemma SingleStepForgetsStop(skip: Skip)
    requires skip != Some((1, 0x200))
    ensures var sys, points := Spinning(), PidPoints({(1, 0x200)}, [], []);
            var first, ops := MultiHit(MBreakpoint, 1, 0x200, 0), [Single(points, Plain(MStepComplete))];
            var d := Carried(0, skip, first);
            var e := AfterOps(sys, d, ops);
            && Happened(sys, d, ops) && LastBreak(Place(first), ops) == (1, 0x200)
            && FirstMultiStop(sys, points, e.world, Armed(e), 10, 0, first)
            && forall j: nat :: j <= 1 ==> Stays(sys, World(sys, 0, j), (1, 0x200))
  {
    var sys, points := Spinning(), PidPoints({(1, 0x200)}, [], []);
    var first, op := MultiHit(MBreakpoint, 1, 0x200, 0), Single(points, Plain(MStepComplete));
    var d := Carried(0, skip, first);
    assert [op][..0] == [];
    assert World(sys, 0, 0) == 0 && World(sys, 0, 1) == 1;
    assert LastBreak(Place(first), [op]) == LastBreak(Place(first), [op][..0]);
    var e := AfterOps(sys, d, [op]);
    assert e == AfterOp(sys, AfterOps(sys, d, []), op) && AfterOps(sys, d, []) == d;
    assert Happened(sys, d, [op][..0]) && OpHappened(sys, d, op);
    assert World(sys, e.world, 0) == e.world && SkipAt(sys, e.world, Armed(e), 0) == Refresh(sys, e.world, e.skip);
    assert Before(sys, points, e.world, Armed(e), 0) == Some(first);
  }

  lemma OneLifecycleStep<W>(sys: System<W>, w: W)
    ensures World(sys, w, 1) == sys.lifecycle(w).world
  {
    WorldZero(sys, w);
    WorldStep(sys, w, 0);
  }

  // ----- What a session has recorded -----

  /** The history happened from a fresh session, and leads to the state d. */
  ghost predicate RecordedAs<W>(sys: System<W>, start: W, ops: seq<Op<W>>, d: Carried<W>) {
    var a := AfterOps(sys, Fresh(start), ops);
    && Happened(sys, Fresh(start), ops)
    && a.world == d.world && a.last == d.last && (sys.running(d.world) != 0 ==> a.skip == d.skip)
  }

  /** Without a running process nothing looks at the skip. */
  lemma SkipUnusedWithoutProcess<W>(sys: System<W>, d: Carried<W>, a: Carried<W>, op: Op<W>)
    requires sys.running(d.world) == 0 && StepsOf(op) == 0 && OpHappened(sys, d, op)
    requires a.world == d.world && a.last == d.last
    ensures OpHappened(sys, a, op)
  {
    hide PidBreakAt, OnOtherLine, AtStart, PidStopAfter;
    WorldZero(sys, d.world);
  }

  lemma OneMoreOp<W>(sys: System<W>, start: W, ops: seq<Op<W>>, d: Carried<W>, op: Op<W>, e: Carried<W>)
    requires RecordedAs(sys, start, ops, d) && OpHappened(sys, d, op)
    requires sys.running(d.world) != 0 || StepsOf(op) == 0
    requires var a := AfterOp(sys, d, op);
             e.world == a.world && e.last == a.last && (sys.running(e.world) != 0 ==> e.skip == a.skip)
    ensures RecordedAs(sys, start, ops + [op], e)
  {
    hide World, SkipAt, Refresh, OpHappened;
    assert (ops + [op])[..|ops|] == ops;
    WorldZero(sys, d.world);
    if sys.running(d.world) == 0 {
      SkipUnusedWithoutProcess(sys, d, AfterOps(sys, Fresh(start), ops), op);
    }
  }

  lemma {:induction false} OpsCompose<W>(sys: System<W>, d: Carried<W>, a: seq<Op<W>>, b: seq<Op<W>>)
    ensures AfterOps(sys, d, a + b) == AfterOps(sys, AfterOps(sys, d, a), b)
  {
    hide AfterOp;
    if |b| == 0 {
      assert a + b == a;
    } else {
      var n := |b| - 1;
      assert (a + b)[..|a + b| - 1] == a + b[..n];
      OpsCompose(sys, d, a, b[..n]);
    }
  }

  // ----- The session object -----

  class MultiSession<W> {
    const sys: System<W>
    var world: W
    var points: PidPoints<W>
    var totalSteps: nat
    var skip: Skip
    var lastStop: MultiStop
    var switches: seq<Switch>
    var selected: Pid
    var sourceMaps: map<Pid, seq<DebugSymbols.Location>>
    ghost const start: W
    ghost var history: seq<Op<W>>

    /** What every operation keeps: the session has made exactly totalSteps lifecycle steps, and logged them. */
    ghost predicate Valid()
      reads this
    {
      world == World(sys, start, totalSteps) && switches == LogOf(sys, start, totalSteps)
    }

    ghost function State(): Carried<W>
      reads this
    {
      Carried(world, skip, lastStop.hit)
    }

    /** World, skip and last stop are what the calls made so far lead to. */
    ghost predicate Recorded()
      reads this
    {
      RecordedAs(sys, start, history, State())
    }

    constructor (sys: System<W>, world: W)
      ensures Valid() && this.sys == sys && this.world == world && start == world && totalSteps == 0
      ensures Recorded() && history == []
      ensures skip == None && points == PidPoints({}, [], []) && lastStop == MultiStop(Plain(MReady), 0, 0)
    {
      this.sys, this.world, start := sys, world, world;
      points, totalSteps, skip, switches := PidPoints({}, [], []), 0, None, [];
      lastStop := MultiStop(Plain(MReady), 0, 0);
      selected, sourceMaps, history := 0, map[], [];
      new;
      WorldZero(sys, world);
    }

    method MakeStop(hit: MultiHit, executed: nat) returns (s: MultiStop)
      modifies this`lastStop
      ensures s == lastStop == MultiStop(hit, executed, totalSteps)
    {
      lastStop := MultiStop(hit, executed, totalSteps);
      return lastStop;
    }

    /** Adds to the history the call that led from d to the present state. */
    ghost method Record(before: seq<Op<W>>, d: Carried<W>, op: Op<W>)
      requires OpHappened(sys, d, op) && (sys.running(d.world) != 0 || StepsOf(op) == 0)
      requires var a := AfterOp(sys, d, op);
               world == a.world && lastStop.hit == a.last && (sys.running(world) != 0 ==> skip == a.skip)
      modifies `history
      ensures history == before + [op]
      ensures RecordedAs(sys, start, before, d) ==> Recorded()
    {
      hide AfterOp, RecordedAs, OpHappened;
      history := before + [op];
      if RecordedAs(sys, start, before, d) {
        OneMoreOp(sys, start, before, d, op, State());
      }
    }

    ghost method RecordIdle(before: seq<Op<W>>, d: Carried<W>, hit: MultiHit)
      requires State() == d.(last := hit) && hit == Terminal(sys.runtime(d.world))
      modifies `history
      ensures history == before + [Idle(hit)]
      ensures RecordedAs(sys, start, before, d) ==> Recorded()
    {
      hide RecordedAs, World;
      WorldZero(sys, d.world);
      Record(before, d, Idle(hit));
    }

    ghost method RecordSingle(before: seq<Op<W>>, d: Carried<W>, hit: MultiHit)
      requires sys.running(d.world) != 0 && world == sys.lifecycle(d.world).world
      requires skip == Refresh(sys, world, d.skip) && lastStop.hit == hit
      requires var after := PidStopAfter(sys, points, d.world);
               hit == if after.Some? then after.value else Plain(MStepComplete)
      modifies `history
      ensures history == before + [Single(points, hit)]
      ensures RecordedAs(sys, start, before, d) ==> Recorded()
    {
      hide RecordedAs, World, Refresh, PidStopAfter;
      OneLifecycleStep(sys, d.world);
      Record(before, d, Single(points, hit));
    }

    ghost method RecordRun(before: seq<Op<W>>, d: Carried<W>, armed: Skip, source: Option<SourceStep>, limit: nat,
                           steps: nat, hit: MultiHit)
      requires armed == Armed(d) && (sys.running(d.world) != 0 || steps == 0)
      requires if source.None? then FirstMultiStop(sys, points, d.world, armed, limit, steps, hit)
               else FirstSourceStop(sys, points, source.value, d.world, armed, limit, steps, hit)
                    || SourceThrew(sys, points, source.value, d.world, armed, steps, hit)
      requires world == World(sys, d.world, steps) && lastStop.hit == hit
      requires sys.running(world) != 0 ==> skip == SkipAt(sys, d.world, armed, steps)
      modifies `history
      ensures history == before + [Run(points, source, limit, steps, hit)]
      ensures RecordedAs(sys, start, before, d) ==> Recorded()
    {
      hide RecordedAs, World, SkipAt, FirstMultiStop, FirstSourceStop, SourceThrew;
      Record(before, d, Run(points, source, limit, steps, hit));
    }

    method FindConditional(pid: Pid, pc: u64) returns (r: Option<MultiHit>)
      ensures r == FirstPidConditional(points.conditional, pid, pc, world)
    {
      var i := 0;
      while i < |points.conditional|
        invariant i <= |points.conditional|
        invariant FirstPidConditional(points.conditional, pid, pc, world)
               == FirstPidConditional(points.conditional[i..], pid, pc, world)
      {
        var c := points.conditional[i];
        assert points.conditional[i..][1..] == points.conditional[i + 1..];
        if c.pid == pid && c.condition.address == pc && c.condition.holds(world) {
          return Some(MultiHit(MConditionalBreakpoint, pid, pc, c.condition.id));
        }
        i := i + 1;
      }
      return None;
    }

    method FindWatch(pid: Pid, a: Option<Access>) returns (r: Option<MultiHit>)
      ensures r == FirstPidWatch(points.watches, pid, a)
    {
      if a.None? {
        return None;
      }
      var i := 0;
      while i < |points.watches|
        invariant i <= |points.watches|
        invariant FirstPidWatch(points.watches, pid, a) == FirstPidWatch(points.watches[i..], pid, a)
      {
        var w := points.watches[i];
        assert points.watches[i..][1..] == points.watches[i + 1..];
        if w.pid == pid && WatchMatches(w.watch, a.value) {
          return Some(MultiHit(MWatchpoint, pid, a.value.address, w.watch.id));
        }
        i := i + 1;
      }
      return None;
    }

    /**
     * step(): one lifecycle step and its log record.  It needs a running
     * process when the runtime says Running, and throws without one.
     */
    method StepOnce() returns (r: Result<MultiStop>)
      requires Valid()
      modifies `world, `totalSteps, `skip, `lastStop, `switches, `history
      ensures Valid() && (old(Recorded()) ==> Recorded())
      ensures r.Err? <==> sys.runtime(old(world)).RuntimeRunning? && sys.running(old(world)) == 0
      ensures r.Err? ==> totalSteps == old(totalSteps) && State() == old(State()) && lastStop == old(lastStop)
      ensures history == if r.Err? then old(history)
                         else old(history) + [if sys.runtime(old(world)).RuntimeRunning?
                                              then Single(points, r.value.hit) else Idle(r.value.hit)]
      ensures r.Ok? ==> r.value == lastStop
      ensures r.Ok? && !sys.runtime(old(world)).RuntimeRunning? ==>
                && totalSteps == old(totalSteps) && skip == old(skip)
                && r.value == MultiStop(Terminal(sys.runtime(world)), 0, totalSteps)
      ensures r.Ok? && sys.runtime(old(world)).RuntimeRunning? ==>
                && world == sys.lifecycle(old(world)).world && totalSteps == old(totalSteps) + 1
                && skip == Refresh(sys, world, old(skip))
                && var after := PidStopAfter(sys, points, old(world));
                   r.value == MultiStop(if after.Some? then after.value else Plain(MStepComplete), 1, totalSteps)
      ensures r.Err? || !sys.runtime(old(world)).RuntimeRunning? ==> world == old(world)
    {
      hide World, LogOf, Refresh, RecordedAs, FirstPidWatch, Terminal;
      ghost var h0, d := history, State();
      if !sys.runtime(world).RuntimeRunning? {
        var s := MakeStop(Terminal(sys.runtime(world)), 0);
        RecordIdle(h0, d, s.hit);
        return Ok(s);
      }
      if sys.running(world) == 0 {
        return Err;
      }
      WorldStep(sys, start, totalSteps);
      LogStep(sys, start, totalSteps);
      var before := sys.running(world);
      var o := sys.lifecycle(world);
      world := o.world;
      totalSteps := totalSteps + 1;
      var now := sys.running(world);
      if before != now {
        switches := switches + [Switch(totalSteps, before, now, o.preempted, o.terminated)];
      }
      skip := Refresh(sys, world, skip);
      if o.terminated {
        var s := MakeStop(Plain(if o.faulted then MProcessFaulted else MProcessTerminated), 1);
        RecordSingle(h0, d, s.hit);
        return Ok(s);
      }
      var watch := FindWatch(before, o.access);
      if watch.Some? {
        var s := MakeStop(watch.value, 1);
        RecordSingle(h0, d, s.hit);
        return Ok(s);
      }
      if !sys.runtime(world).RuntimeRunning? {
        var s := MakeStop(Terminal(sys.runtime(world)), 1);
        RecordSingle(h0, d, s.hit);
        return Ok(s);
      }
      var s := MakeStop(Plain(MStepComplete), 1);
      RecordSingle(h0, d, s.hit);
      return Ok(s);
    }

    // The checks at the loop head, once the skip has been refreshed.
    method CheckBefore() returns (r: Option<MultiHit>)
      ensures r == PidStopBefore(sys, points, world, skip)
    {
      var pid := sys.running(world);
      if pid == 0 {
        return Some(Terminal(sys.runtime(world)));
      }
      var pc := sys.pc(world, pid);
      if skip == Some((pid, pc)) {
        return None;
      }
      if (pid, pc) in points.plain {
        return Some(MultiHit(MBreakpoint, pid, pc, 0));
      }
      r := FindConditional(pid, pc);
    }

    /** continueExecution: lifecycle steps to the first stop, and the skip left for the next call. */
    method ContinueExecution(maxSteps: nat) returns (r: Result<MultiStop>)
      requires Valid()
      modifies `world, `totalSteps, `skip, `lastStop, `switches, `history
      ensures Valid() && (old(Recorded()) ==> Recorded())
      ensures r.Err? ==>
                && world == old(world) && totalSteps == old(totalSteps) && skip == old(skip)
                && lastStop == old(lastStop)
      ensures r.Err? <==> maxSteps == 0
      ensures history == if r.Err? then old(history)
                         else old(history) + [if sys.runtime(old(world)).RuntimeRunning?
                                              then Run(points, None, maxSteps, r.value.executed, r.value.hit)
                                              else Idle(r.value.hit)]
      ensures r.Ok? && !sys.runtime(old(world)).RuntimeRunning? ==>
                && world == old(world) && skip == old(skip)
                && r.value == lastStop == MultiStop(Terminal(sys.runtime(world)), 0, totalSteps)
      ensures r.Ok? && sys.runtime(old(world)).RuntimeRunning? ==>
                && r.value == lastStop == MultiStop(r.value.hit, r.value.executed, totalSteps)
                && var k, armed := r.value.executed, Arm(old(skip), old(lastStop.hit));
                   && world == World(sys, old(world), k)
                   && totalSteps == old(totalSteps) + k
                   && FirstMultiStop(sys, points, old(world), armed, maxSteps, k, r.value.hit)
                   && Refresh(sys, world, skip) == SkipAt(sys, old(world), armed, k)
    {
      hide World, Refresh, FirstMultiStop, MultiRunning, PidStopBefore, PidStopAfter, SkipAt, LogOf, RecordedAs,
        Arm;
      ghost var h0, d := history, State();
      if maxSteps == 0 {
        return Err;
      }
      if !sys.runtime(world).RuntimeRunning? {
        var s := MakeStop(Terminal(sys.runtime(world)), 0);
        RecordIdle(h0, d, s.hit);
        return Ok(s);
      }
      skip := Arm(skip, lastStop.hit);
      var executed := 0;
      ghost var w0, armed, p := world, skip, points;
      MultiRunningStart(sys, p, w0, armed);
      while executed < maxSteps
        invariant Valid() && points == p && executed <= maxSteps && totalSteps == old(totalSteps) + executed
        invariant sys.runtime(world).RuntimeRunning?
        invariant MultiRunning(sys, p, w0, armed, executed, world, skip)
        invariant executed > 0 ==> skip == SkipAt(sys, w0, armed, executed) && sys.running(w0) != 0
      {
        MultiRunningStops(sys, p, w0, armed, maxSteps, executed, world, skip);
        MultiRunningMeans(sys, p, w0, armed, executed, world, skip);
        if sys.running(world) == 0 {
          StopsWithoutProcess(sys, p, world, skip);
          var s := MakeStop(Terminal(sys.runtime(world)), executed);
          RecordRun(h0, d, armed, None, maxSteps, executed, s.hit);
          return Ok(s);
        }
        skip := Refresh(sys, world, skip);
        var before := CheckBefore();
        if before.Some? {
          var s := MakeStop(before.value, executed);
          RecordRun(h0, d, armed, None, maxSteps, executed, s.hit);
          return Ok(s);
        }
        ghost var was := world;
        ProceedsOnlyWithProcess(sys, p, world, skip);
        MultiRunningStep(sys, p, w0, armed, maxSteps, executed, world, skip);
        var step := StepOnce();
        executed := executed + 1;
        VerdictIsNotStepComplete(sys, p, was);
        if step.value.hit.reason != MStepComplete {
          var s := MakeStop(step.value.hit, executed);
          RecordRun(h0, d, armed, None, maxSteps, executed, s.hit);
          return Ok(s);
        }
      }
      MultiRunningStops(sys, p, w0, armed, maxSteps, executed, world, skip);
      MultiRunningMeans(sys, p, w0, armed, executed, world, skip);
      var s := MakeStop(Plain(MStepLimit), executed);
      RecordRun(h0, d, armed, None, maxSteps, executed, s.hit);
      return Ok(s);
    }

    /** The source line of the selected process, or None where stepSelectedSourceLine throws. */
    function SelectedLine(): Option<nat>
      reads this
    {
      if selected == 0 || !sys.contains(world, selected) || sys.terminated(world, selected) || selected !in sourceMaps
      then None
      else DebugSymbols.LineOfAddress(sourceMaps[selected], sys.pc(world, selected))
    }

    /** The loop-head checks of stepSelectedSourceLine, once the skip has been refreshed. */
    method CheckSourceHead(q: SourceStep) returns (r: Option<MultiHit>)
      ensures r == SourceStopBefore(sys, points, q, world, skip)
    {
      hide OnOtherLine, AtStart, FirstPidConditional;
      var pid := sys.running(world);
      if !sys.runtime(world).RuntimeRunning? || pid == 0 {
        return Some(Terminal(sys.runtime(world)));
      }
      var pc := sys.pc(world, pid);
      if skip != Some((pid, pc)) && !(AtStart(sys, q, world) && (pid, pc) == (q.pid, q.start)) {
        if (pid, pc) in points.plain {
          return Some(MultiHit(MBreakpoint, pid, pc, 0));
        }
        var hit := FindConditional(pid, pc);
        if hit.Some? {
          return hit;
        }
      }
      return if OnOtherLine(sys, q, world) then Some(Plain(MStepComplete)) else None;
    }

    /** The loop of stepSelectedSourceLine, after the skip was armed in state d. */
    method FollowSource(q: SourceStep, maxSteps: nat, ghost h0: seq<Op<W>>, ghost d: Carried<W>)
      returns (r: Result<MultiStop>)
      requires Valid() && q.pid == selected && world == d.world && skip == Armed(d)
      requires maxSteps > 0 && sys.runtime(world).RuntimeRunning?
      modifies `world, `totalSteps, `skip, `lastStop, `switches, `history
      ensures Valid() && (RecordedAs(sys, start, h0, d) ==> Recorded())
      ensures r.Ok? ==>
                && r.value == lastStop == MultiStop(r.value.hit, r.value.executed, totalSteps)
                && var k := r.value.executed;
                   && world == World(sys, d.world, k) && totalSteps == old(totalSteps) + k
                   && FirstSourceStop(sys, points, q, d.world, Armed(d), maxSteps, k, r.value.hit)
                   && Refresh(sys, world, skip) == SkipAt(sys, d.world, Armed(d), k)
                   && history == h0 + [Run(points, Some(q), maxSteps, k, r.value.hit)]
      ensures r.Err? ==>
                && !sys.contains(world, selected) && totalSteps > old(totalSteps)
                && var k := totalSteps - old(totalSteps);
                   && SourceThrew(sys, points, q, d.world, Armed(d), k, lastStop.hit)
                   && history == h0 + [Run(points, Some(q), maxSteps, k, lastStop.hit)]
    {
      hide World, Refresh, FirstSourceStop, SourceRunning, SourceStopBefore, PidStopAfter, SkipAt, LogOf, Arm,
        SourceThrew, RecordedAs, Stays, Terminal, OnOtherLine, AtStart, PidBreakAt, FirstPidWatch, FirstPidConditional;
      var executed := 0;
      ghost var w0, armed, p := world, skip, points;
      SourceRunningStart(sys, p, q, w0, armed);
      while true
        invariant Valid() && points == p && executed <= maxSteps && totalSteps == old(totalSteps) + executed
        invariant SourceRunning(sys, p, q, w0, armed, executed, world, skip)
        invariant executed > 0 ==> skip == SkipAt(sys, w0, armed, executed) && sys.running(w0) != 0
        decreases maxSteps - executed
      {
        SourceRunningStops(sys, p, q, w0, armed, maxSteps, executed, world, skip);
        SourceRunningMeans(sys, p, q, w0, armed, executed, world, skip);
        if !sys.runtime(world).RuntimeRunning? || sys.running(world) == 0 {
          SourceStopsWithoutProcess(sys, p, q, world, skip);
          var s := MakeStop(Terminal(sys.runtime(world)), executed);
          RecordRun(h0, d, armed, Some(q), maxSteps, executed, s.hit);
          return Ok(s);
        }
        skip := Refresh(sys, world, skip);
        var before := CheckSourceHead(q);
        if before.Some? {
          var s := MakeStop(before.value, executed);
          RecordRun(h0, d, armed, Some(q), maxSteps, executed, s.hit);
          return Ok(s);
        }
        if executed >= maxSteps {
          var s := MakeStop(Plain(MStepLimit), executed);
          RecordRun(h0, d, armed, Some(q), maxSteps, executed, s.hit);
          return Ok(s);
        }
        SourceRunningStep(sys, p, q, w0, armed, maxSteps, executed, world, skip);
        VerdictIsNotStepComplete(sys, p, world);
        var step := StepOnce();
        executed := executed + 1;
        if step.value.hit.reason != MStepComplete {
          var s := MakeStop(step.value.hit, executed);
          RecordRun(h0, d, armed, Some(q), maxSteps, executed, s.hit);
          return Ok(s);
        }
        if !sys.contains(world, selected) {
          SourceRunningThrows(sys, p, q, w0, armed, executed, world, skip);
          RecordRun(h0, d, armed, Some(q), maxSteps, executed, Plain(MStepComplete));
          return Err;
        }
      }
    }

    /**
     * stepSelectedSourceLine: lifecycle steps until the selected process is on
     * another mapped line or a stop intervenes.  It throws without a mapped
     * selected process, and when that process leaves the table during the run.
     */
    method StepSelectedSourceLine(maxSteps: nat) returns (r: Result<MultiStop>)
      requires Valid()
      modifies `world, `totalSteps, `skip, `lastStop, `switches, `history
      ensures Valid() && (old(Recorded()) ==> Recorded())
      ensures maxSteps == 0 ==> r.Err?
      ensures sys.runtime(old(world)).RuntimeRunning? && old(SelectedLine()).None? ==> r.Err?
      ensures maxSteps == 0 || (sys.runtime(old(world)).RuntimeRunning? && old(SelectedLine()).None?) ==>
                && State() == old(State()) && totalSteps == old(totalSteps) && lastStop == old(lastStop)
                && history == old(history)
      ensures maxSteps > 0 && !sys.runtime(old(world)).RuntimeRunning? ==>
                && world == old(world) && skip == old(skip)
                && r == Ok(lastStop) && lastStop == MultiStop(Terminal(sys.runtime(world)), 0, totalSteps)
                && history == old(history) + [Idle(lastStop.hit)]
      ensures maxSteps > 0 && sys.runtime(old(world)).RuntimeRunning? && old(SelectedLine()).Some? && r.Err? ==>
                !sys.contains(world, selected)
      ensures maxSteps > 0 && sys.runtime(old(world)).RuntimeRunning? && old(SelectedLine()).Some? ==>
                && |history| == |old(history)| + 1 && history[..|old(history)|] == old(history)
                && var q := SourceStep(selected, sys.pc(old(world), selected), sourceMaps[selected],
                                       old(SelectedLine()).value);
                   var op := history[|old(history)|];
                   && op == Run(points, Some(q), maxSteps, StepsOf(op), lastStop.hit)
                   && if r.Ok? then StepsOf(op) == r.value.executed
                      else SourceThrew(sys, points, q, old(world), Armed(old(State())), StepsOf(op), op.hit)
      ensures r.Ok? && sys.runtime(old(world)).RuntimeRunning? ==>
                && r.value == lastStop == MultiStop(r.value.hit, r.value.executed, totalSteps)
                && var k, armed := r.value.executed, Arm(old(skip), old(lastStop.hit));
                   var q := SourceStep(selected, sys.pc(old(world), selected), sourceMaps[selected],
                                       old(SelectedLine()).value);
                   && world == World(sys, old(world), k)
                   && totalSteps == old(totalSteps) + k
                   && FirstSourceStop(sys, points, q, old(world), armed, maxSteps, k, r.value.hit)
                   && Refresh(sys, world, skip) == SkipAt(sys, old(world), armed, k)
    {
      hide World, Refresh, FirstSourceStop, SourceRunning, SourceStopBefore, PidStopAfter, SkipAt, LogOf, Arm,
        SourceThrew, RecordedAs, DebugSymbols.LineOfAddress;
      ghost var h0, d := history, State();
      if maxSteps == 0 {
        return Err;
      }
      if !sys.runtime(world).RuntimeRunning? {
        var s := MakeStop(Terminal(sys.runtime(world)), 0);
        RecordIdle(h0, d, s.hit);
        return Ok(s);
      }
      if SelectedLine().None? {
        return Err;
      }
      var q := SourceStep(selected, sys.pc(world, selected), sourceMaps[selected], SelectedLine().value);
      skip := Arm(skip, lastStop.hit);
      r := FollowSource(q, maxSteps, h0, d);
    }
  }

  /**
   * For a session after any calls: a process that has not moved during the
   * calls `ops` is reported by its next continueExecution, once scheduled, if
   * and only if none of them, and not this one, was last started from its stop.
   */
  lemma SessionReportsIff<W>(s: MultiSession<W>, before: seq<Op<W>>, ops: seq<Op<W>>, at: (Pid, u64), j: nat)
    requires s.Recorded() && s.history == before + ops && s.sys.running(s.world) != 0
    requires StoodFor(s.sys, AfterOps(s.sys, Fresh(s.start), before).world, at, TotalSteps(ops) + j)
    requires var x := World(s.sys, s.world, j); s.sys.running(x) == at.0 != 0 && PidBreakAt(s.sys, s.points, x).Some?
    ensures var d := AfterOps(s.sys, Fresh(s.start), before);
            Before(s.sys, s.points, s.world, Armed(s.State()), j).Some?
            <==> LastResumed(d.skip, d.last, ops) != Some(at)
  {
    hide StoodFor, World, PidBreakAt, Before, Happened, AfterOps, LastResumed;
    var d := AfterOps(s.sys, Fresh(s.start), before);
    OpsCompose(s.sys, Fresh(s.start), before, ops);
    UnmovedSkip(s.sys, d, ops, at, j);
    UnmovedIsReportedIff(s.sys, d, ops, at, s.points, j);
  }
}
