// The stops of both debuggers in their own terms: which access a watchpoint
// reports, in what order the reasons to stop are looked at, and what resuming
// from a breakpoint skips (src/debug/DebugSession.cpp,
// src/debug/MultiProcessDebugSession.cpp).
module DebugLaws {
  import opened Words
  import opened Debugger
  import opened MultiDebugger
  import DebugSymbols

  // ----- Watchpoints -----

  predicate Covers(begin: nat, size: nat, x: nat) {
    begin <= x < begin + size
  }

  /** Some byte of [w.address, w.address + w.size) is one of the eight bytes the access touches. */
  ghost predicate SharesByte(w: Watch, a: Access) {
    exists x: nat :: Covers(w.address, w.size, x) && Covers(a.address, 8, x)
  }

  /** The watchpoint is for this kind of access and shares a byte with it. */
  ghost predicate Observes(w: Watch, a: Access) {
    && SharesByte(w, a)
    && match w.mode
       case OnAccess => true
       case OnRead => !a.write
       case OnWrite => a.write
  }

  /** Not empty, and inside memory unless the access stays below 2^64: what addWatchpoint lets through always is. */
  predicate Sound(w: Watch, a: Access) {
    w.size > 0 && (w.address + w.size <= 0x1000 || a.address + 8 < 0x1_0000_0000_0000_0000)
  }

  lemma ObservesIsMatch(w: Watch, a: Access)
    requires Sound(w, a)
    ensures Observes(w, a) <==> WatchMatches(w, a)
  {
    var x := if w.address <= a.address then a.address else w.address;
    if Covers(w.address, w.size, x) && Covers(a.address, 8, x) {
      assert SharesByte(w, a);
    }
  }

  /** A watchpoint stop is for the earliest watchpoint that observes the access. */
  lemma WatchLaw(ws: seq<Watch>, a: Access)
    requires forall i :: 0 <= i < |ws| ==> Sound(ws[i], a)
    ensures FirstWatch(ws, None) == None
    ensures FirstWatch(ws, Some(a)).Some? <==> exists i :: 0 <= i < |ws| && Observes(ws[i], a)
    ensures forall i :: 0 <= i < |ws| && Observes(ws[i], a) && (forall j :: 0 <= j < i ==> !Observes(ws[j], a)) ==>
                          FirstWatch(ws, Some(a)) == Some(Hit(Watchpoint, ws[i].id))
  {
    forall i | 0 <= i < |ws|
      ensures Observes(ws[i], a) <==> WatchMatches(ws[i], a)
    {
      ObservesIsMatch(ws[i], a);
    }
    hide Observes, WatchMatches;
    var r := FirstWatch(ws, Some(a));
  }

  /** With several processes, the earliest watchpoint of the process that ran; the stop names it and the address. */
  lemma PidWatchLaw(ws: seq<PidWatch>, pid: Pid, a: Access)
    requires forall i :: 0 <= i < |ws| ==> Sound(ws[i].watch, a)
    ensures FirstPidWatch(ws, pid, None) == None
    ensures FirstPidWatch(ws, pid, Some(a)).Some?
       <==> exists i :: 0 <= i < |ws| && ws[i].pid == pid && Observes(ws[i].watch, a)
    ensures forall i :: 0 <= i < |ws| && ws[i].pid == pid && Observes(ws[i].watch, a)
                        && (forall j :: 0 <= j < i ==> !(ws[j].pid == pid && Observes(ws[j].watch, a))) ==>
                          FirstPidWatch(ws, pid, Some(a)) == Some(MultiHit(MWatchpoint, pid, a.address, ws[i].watch.id))
  {
    forall i | 0 <= i < |ws|
      ensures Observes(ws[i].watch, a) <==> WatchMatches(ws[i].watch, a)
    {
      ObservesIsMatch(ws[i].watch, a);
    }
    hide Observes, WatchMatches;
    var r := FirstPidWatch(ws, pid, Some(a));
  }

  // ----- The single-process debugger -----

  /** The earliest conditional breakpoint at the pc whose condition holds. */
  ghost predicate FirstHolding<M>(cs: seq<Conditional<M>>, pc: u64, m: M, i: nat) {
    && i < |cs| && cs[i].address == pc && cs[i].holds(m)
    && forall j :: 0 <= j < i ==> !(cs[j].address == pc && cs[j].holds(m))
  }

  /** The machine neither failed nor halted nor ran off its code. */
  predicate Runnable<M>(t: Target<M>, m: M) {
    !t.failed(m) && !t.halted(m) && t.pc(m) != t.codeEnd
  }

  lemma ConditionalLaw<M>(cs: seq<Conditional<M>>, pc: u64, m: M)
    ensures forall i: nat :: FirstHolding(cs, pc, m, i) ==>
                               FirstConditional(cs, pc, m) == Some(Hit(ConditionalBreakpoint, cs[i].id))
    ensures (forall i :: 0 <= i < |cs| ==> !(cs[i].address == pc && cs[i].holds(m))) ==>
              FirstConditional(cs, pc, m) == None
  {
    var r := FirstConditional(cs, pc, m);
    forall i | 0 <= i < |cs|
      ensures ConditionMet(cs[i], pc, m) <==> cs[i].address == pc && cs[i].holds(m)
    {
    }
  }

  /** Breakpoints: the plain one at the pc, else the earliest conditional one there that holds. */
  ghost predicate BreaksAs<M>(t: Target<M>, p: Points<M>, m: M, r: Option<Hit>) {
    if t.pc(m) in p.plain then r == Some(Hit(Breakpoint, 0))
    else
      && (forall i: nat :: FirstHolding(p.conditional, t.pc(m), m, i) ==>
                             r == Some(Hit(ConditionalBreakpoint, p.conditional[i].id)))
      && ((forall i :: 0 <= i < |p.conditional| ==>
                         !(p.conditional[i].address == t.pc(m) && p.conditional[i].holds(m))) ==> r == None)
  }

  lemma BreakLaw<M>(t: Target<M>, p: Points<M>, m: M)
    ensures BreaksAs(t, p, m, BreakAt(t, p, m))
    ensures BreaksAs(t, p, m, None) <==> BreakAt(t, p, m) == None
  {
    var cs, pc := p.conditional, t.pc(m);
    ConditionalLaw(cs, pc, m);
    var r := FirstConditional(cs, pc, m);
    if r.Some? {
      var i: nat :| i < |cs| && ConditionMet(cs[i], pc, m) && r.value == Hit(ConditionalBreakpoint, cs[i].id)
                    && forall j :: 0 <= j < i ==> !ConditionMet(cs[j], pc, m);
      assert FirstHolding(cs, pc, m, i);
    }
  }

  /** Before the first step: a failure, a halt, the end of the code, and last a breakpoint that is not skipped. */
  lemma StartLaw<M>(t: Target<M>, p: Points<M>, extra: M -> Option<Hit>, m: M, skipBreak: bool)
    ensures var r := HitAt(t, p, extra, m, skipBreak, 0);
            && (t.failed(m) ==> r == Some(Hit(Fault, 0)))
            && (!t.failed(m) && t.halted(m) ==> r == Some(Hit(Halted, 0)))
            && (!t.failed(m) && !t.halted(m) && t.pc(m) == t.codeEnd ==> r == Some(Hit(ProgramEnd, 0)))
            && (Runnable(t, m) && skipBreak ==> r == None)
            && (Runnable(t, m) && !skipBreak ==> BreaksAs(t, p, m, r))
  {
    hide BreaksAs;
    BreakLaw(t, p, m);
  }

  /**
   * After each step: a failure, a halt, a watched access, the end of the
   * code, a breakpoint, and last the caller's own reason.
   */
  lemma StepLaw<M>(t: Target<M>, p: Points<M>, extra: M -> Option<Hit>, m: M, skipBreak: bool, k: nat)
    ensures At(t, m, 0) == m && At(t, m, k + 1) == t.step(At(t, m, k))
    ensures var x, r := At(t, m, k + 1), HitAt(t, p, extra, m, skipBreak, k + 1);
            var watched := FirstWatch(p.watches, t.access(x));
            && (t.failed(x) ==> r == Some(Hit(Fault, 0)))
            && (!t.failed(x) && t.halted(x) ==> r == Some(Hit(Halted, 0)))
            && (!t.failed(x) && !t.halted(x) && watched.Some? ==> r == watched)
            && (!t.failed(x) && !t.halted(x) && watched.None? && t.pc(x) == t.codeEnd ==> r == Some(Hit(ProgramEnd, 0)))
            && (Runnable(t, x) && watched.None? ==>
                  if BreaksAs(t, p, x, None) then r == extra(x) else BreaksAs(t, p, x, r))
  {
    hide BreaksAs, FirstWatch, BreakAt;
    BreakLaw(t, p, At(t, m, k + 1));
  }

  /** A run stops at its first verdict, and when there is none up to the limit, at the limit. */
  lemma LimitLaw<M>(t: Target<M>, p: Points<M>, extra: M -> Option<Hit>, m: M, skipBreak: bool, limit: nat,
                    k: nat, hit: Hit)
    ensures FirstStop(t, p, extra, m, skipBreak, limit, k, hit)
       <==> if forall j: nat :: j <= limit ==> HitAt(t, p, extra, m, skipBreak, j).None?
            then k == limit && hit == Hit(StepLimit, 0)
            else k <= limit && HitAt(t, p, extra, m, skipBreak, k) == Some(hit)
                 && forall j: nat :: j < k ==> HitAt(t, p, extra, m, skipBreak, j).None?
  {
    hide HitAt;
    if FirstStop(t, p, extra, m, skipBreak, limit, k, hit) && k == limit && HitAt(t, p, extra, m, skipBreak, k).None? {
      assert forall j: nat :: j <= limit ==> HitAt(t, p, extra, m, skipBreak, j).None?;
    }
  }

  /** A run goes on past a breakpoint exactly when that is where the session last reported one. */
  lemma ResumeLaw<M>(s: Session<M>, limit: nat, k: nat, hit: Hit)
    requires limit > 0 && FirstStop(s.target, s.points, NoExtra(), s.cpu, s.ResumesFromBreak(), limit, k, hit)
    requires Runnable(s.target, s.cpu)
    requires s.target.pc(s.cpu) in s.points.plain
    ensures k == 0 <==> !((s.lastStop.hit.reason == Breakpoint || s.lastStop.hit.reason == ConditionalBreakpoint)
                          && s.lastStop.pc == s.target.pc(s.cpu))
    ensures k == 0 ==> hit == Hit(Breakpoint, 0)
  {
    StartLaw(s.target, s.points, NoExtra(), s.cpu, s.ResumesFromBreak());
    assert At(s.target, s.cpu, 0) == s.cpu;
    hide HitAt, At;
  }

  // ----- The multi-process debugger -----

  /** The stop for a system that has nothing to run. */
  predicate Finished(r: Runtime, h: MultiHit) {
    && h.pid == 0 && h.address == 0 && h.id == 0
    && match r
       case RuntimeCompleted => h.reason == MCompleted
       case RuntimeDeadlocked => h.reason == MDeadlocked
       case RuntimeReady => h.reason == MReady
       case RuntimeRunning => h.reason == MStepComplete
  }

  /** The earliest conditional breakpoint of the process at its pc whose condition holds. */
  ghost predicate FirstPidHolding<W>(cs: seq<PidConditional<W>>, pid: Pid, pc: u64, w: W, i: nat) {
    && i < |cs| && cs[i].pid == pid && cs[i].condition.address == pc && cs[i].condition.holds(w)
    && forall j :: 0 <= j < i ==>
                     !(cs[j].pid == pid && cs[j].condition.address == pc && cs[j].condition.holds(w))
  }

  /** The breakpoint of process `pid` at `pc`, plain before conditional. */
  ghost predicate PidBreaksAs<W>(p: PidPoints<W>, pid: Pid, pc: u64, w: W, r: Option<MultiHit>) {
    if (pid, pc) in p.plain then r == Some(MultiHit(MBreakpoint, pid, pc, 0))
    else
      && (forall i: nat :: FirstPidHolding(p.conditional, pid, pc, w, i) ==>
                             r == Some(MultiHit(MConditionalBreakpoint, pid, pc, p.conditional[i].condition.id)))
      && ((forall i: nat :: !FirstPidHolding(p.conditional, pid, pc, w, i)) ==> r == None)
  }

  lemma PidBreakLaw<W>(sys: System<W>, p: PidPoints<W>, w: W)
    ensures PidBreaksAs(p, sys.running(w), sys.pc(w, sys.running(w)), w, PidBreakAt(sys, p, w))
  {
    var pid := sys.running(w);
    var pc := sys.pc(w, pid);
    var cs := p.conditional;
    var r := FirstPidConditional(cs, pid, pc, w);
    forall i: nat | i < |cs|
      ensures PidConditionMet(cs[i], pid, pc, w)
         <==> cs[i].pid == pid && cs[i].condition.address == pc && cs[i].condition.holds(w)
    {
    }
    if r.Some? {
      var i: nat :| i < |cs| && PidConditionMet(cs[i], pid, pc, w)
                    && r.value == MultiHit(MConditionalBreakpoint, pid, pc, cs[i].condition.id)
                    && forall j :: 0 <= j < i ==> !PidConditionMet(cs[j], pid, pc, w);
      assert FirstPidHolding(cs, pid, pc, w, i);
    }
  }

  /** Before a step: nothing to run, or a breakpoint of the running process that is not the one being resumed. */
  lemma MultiStartLaw<W>(sys: System<W>, p: PidPoints<W>, w: W, armed: Skip, k: nat)
    ensures var x, r := World(sys, w, k), Before(sys, p, w, armed, k);
            var pid := sys.running(x);
            var pc := sys.pc(x, pid);
            && (pid == 0 ==> r.Some? && Finished(sys.runtime(x), r.value))
            && (pid != 0 && SkipAt(sys, w, armed, k) == Some((pid, pc)) ==> r == None)
            && (pid != 0 && SkipAt(sys, w, armed, k) != Some((pid, pc)) ==> PidBreaksAs(p, pid, pc, x, r))
  {
    hide PidBreaksAs, SkipAt;
    PidBreakLaw(sys, p, World(sys, w, k));
  }

  /** After a step: the end of a process, a watched access of the process that ran, or nothing left to run. */
  lemma MultiStepLaw<W>(sys: System<W>, p: PidPoints<W>, w: W, k: nat)
    ensures World(sys, w, 0) == w && World(sys, w, k + 1) == sys.lifecycle(World(sys, w, k)).world
    ensures var x, r := World(sys, w, k), After(sys, p, w, k);
            var o := sys.lifecycle(x);
            var watched := FirstPidWatch(p.watches, sys.running(x), o.access);
            && (o.terminated ==>
                  r == Some(MultiHit(if o.faulted then MProcessFaulted else MProcessTerminated, 0, 0, 0)))
            && (!o.terminated && watched.Some? ==> r == watched)
            && (!o.terminated && watched.None? && sys.runtime(o.world) == RuntimeRunning ==> r == None)
            && (!o.terminated && watched.None? && sys.runtime(o.world) != RuntimeRunning ==>
                  r.Some? && Finished(sys.runtime(o.world), r.value))
  {
    hide FirstPidWatch;
  }

  /** A run stops before the first step with a verdict before it, after the first with one after it, or at the limit. */
  lemma MultiLimitLaw<W>(sys: System<W>, p: PidPoints<W>, w: W, armed: Skip, limit: nat, k: nat, hit: MultiHit, n: nat)
    requires n <= limit
    requires forall j: nat :: j < n ==> Before(sys, p, w, armed, j).None? && After(sys, p, w, j).None?
    requires n < limit ==> Before(sys, p, w, armed, n).Some? || After(sys, p, w, n).Some?
    ensures FirstMultiStop(sys, p, w, armed, limit, k, hit)
       <==> if n == limit then k == limit && hit == MultiHit(MStepLimit, 0, 0, 0)
            else if Before(sys, p, w, armed, n).Some? then k == n && hit == Before(sys, p, w, armed, n).value
            else k == n + 1 && hit == After(sys, p, w, n).value
  {
    hide Before, After;
    forall j: nat
      ensures Quiet(sys, p, w, armed, j) <==> Before(sys, p, w, armed, j).None? && After(sys, p, w, j).None?
    {
      QuietAt(sys, p, w, armed, j);
    }
    hide Quiet;
  }

  /**
   * A breakpoint stop arms the skip for its process and address, and the skip
   * lasts for exactly as long as the process is there, alive, with its pc there.
   */
  lemma SkipLaw<W>(sys: System<W>, w: W, skip: Skip, last: MultiHit, k: nat)
    requires last.reason == MBreakpoint || last.reason == MConditionalBreakpoint
    ensures SkipAt(sys, w, Arm(skip, last), k)
         == if forall j: nat :: j <= k ==>
                 var x := World(sys, w, j);
                 sys.contains(x, last.pid) && !sys.terminated(x, last.pid) && sys.pc(x, last.pid) == last.address
            then Some((last.pid, last.address)) else None
  {
    SkipMeansStayed(sys, w, (last.pid, last.address), k);
    assert forall j: nat :: Stays(sys, World(sys, w, j), (last.pid, last.address))
                            <==> var x := World(sys, w, j);
                                 sys.contains(x, last.pid) && !sys.terminated(x, last.pid)
                                 && sys.pc(x, last.pid) == last.address;
    hide SkipAt, World, Stays;
  }

  /** Any other stop leaves the skip as it was. */
  lemma NoArmLaw(skip: Skip, last: MultiHit)
    requires last.reason != MBreakpoint && last.reason != MConditionalBreakpoint
    ensures Arm(skip, last) == skip
  {
  }

  // ----- Source steps -----

  /** The first location of the map at the address. */
  predicate FirstMapped(ls: seq<DebugSymbols.Location>, address: u64, i: nat) {
    i < |ls| && ls[i].address == address && forall j :: 0 <= j < i ==> ls[j].address != address
  }

  lemma {:induction false} MappedLaw(ls: seq<DebugSymbols.Location>, address: u64)
    ensures forall i: nat :: FirstMapped(ls, address, i) ==>
                               DebugSymbols.LineOfAddress(ls, address) == Some(ls[i].line)
    ensures (forall i: nat :: !FirstMapped(ls, address, i)) ==> DebugSymbols.LineOfAddress(ls, address) == None
  {
    if ls != [] && ls[0].address != address {
      MappedLaw(ls[1..], address);
      forall i: nat
        ensures FirstMapped(ls, address, i) <==> i > 0 && FirstMapped(ls[1..], address, i - 1)
      {
        assert i < |ls| && i > 0 ==> ls[i] == ls[1..][i - 1];
        if i > 0 && FirstMapped(ls[1..], address, i - 1) {
          forall j | 0 <= j < i
            ensures ls[j].address != address
          {
            assert j > 0 ==> ls[j] == ls[1..][j - 1];
          }
        }
        if FirstMapped(ls, address, i) {
          forall j | 0 <= j < i - 1
            ensures ls[1..][j].address != address
          {
            assert ls[1..][j] == ls[j + 1];
          }
        }
      }
      if forall i: nat :: !FirstMapped(ls, address, i) {
        forall i: nat
          ensures !FirstMapped(ls[1..], address, i)
        {
          assert !FirstMapped(ls, address, i + 1);
        }
      }
    } else if ls != [] {
      assert FirstMapped(ls, address, 0);
    }
  }

  /** The process is alive on a mapped address whose line is not `line`. */
  ghost predicate OnNewLine<W>(sys: System<W>, w: W, pid: Pid, ls: seq<DebugSymbols.Location>, line: nat) {
    !sys.terminated(w, pid) && exists i: nat :: FirstMapped(ls, sys.pc(w, pid), i) && ls[i].line != line
  }

  lemma OnNewLineIsOther<W>(sys: System<W>, w: W, q: SourceStep)
    ensures OnNewLine(sys, w, q.pid, q.sourceMap, q.line) <==> OnOtherLine(sys, q, w)
  {
    MappedLaw(q.sourceMap, sys.pc(w, q.pid));
    hide DebugSymbols.LineOfAddress;
  }

  /**
   * Before a step of a source step: nothing to run; a breakpoint, unless it is
   * the one being resumed or the start of the step itself; and last the
   * selected process on another line.
   */
  lemma SourceStartLaw<W>(sys: System<W>, p: PidPoints<W>, q: SourceStep, w: W, armed: Skip, k: nat)
    ensures var x, r := World(sys, w, k), SourceBefore(sys, p, q, w, armed, k);
            var pid := sys.running(x);
            var pc := sys.pc(x, pid);
            var resumed := SkipAt(sys, w, armed, k) == Some((pid, pc))
                           || (pid == q.pid && pc == q.start && !sys.terminated(x, pid));
            var ends := if OnNewLine(sys, x, q.pid, q.sourceMap, q.line)
                        then Some(MultiHit(MStepComplete, 0, 0, 0)) else None;
            if pid == 0 || sys.runtime(x) != RuntimeRunning then r.Some? && Finished(sys.runtime(x), r.value)
            else if resumed || PidBreaksAs(p, pid, pc, x, None) then r == ends
            else PidBreaksAs(p, pid, pc, x, r)
  {
    hide PidBreaksAs, SkipAt, OnNewLine, OnOtherLine;
    PidBreakLaw(sys, p, World(sys, w, k));
    PidBreakNoneLaw(sys, p, World(sys, w, k));
    OnNewLineIsOther(sys, World(sys, w, k), q);
  }

  /** The same for a source step, which looks at the state once more before it gives up at the limit. */
  lemma SourceLimitLaw<W>(sys: System<W>, p: PidPoints<W>, q: SourceStep, w: W, armed: Skip, limit: nat,
                          k: nat, hit: MultiHit, n: nat)
    requires n <= limit
    requires forall j: nat :: j < n ==> SourceBefore(sys, p, q, w, armed, j).None? && After(sys, p, w, j).None?
    requires n < limit ==> SourceBefore(sys, p, q, w, armed, n).Some? || After(sys, p, w, n).Some?
    ensures FirstSourceStop(sys, p, q, w, armed, limit, k, hit)
       <==> if SourceBefore(sys, p, q, w, armed, n).Some? then
              k == n && hit == SourceBefore(sys, p, q, w, armed, n).value
            else if n == limit then k == limit && hit == MultiHit(MStepLimit, 0, 0, 0)
            else k == n + 1 && hit == After(sys, p, w, n).value
  {
    hide SourceBefore, After;
    forall j: nat
      ensures SourceQuiet(sys, p, q, w, armed, j)
         <==> SourceBefore(sys, p, q, w, armed, j).None? && After(sys, p, w, j).None?
    {
    }
    hide SourceQuiet;
  }

  lemma PidBreakNoneLaw<W>(sys: System<W>, p: PidPoints<W>, w: W)
    ensures PidBreaksAs(p, sys.running(w), sys.pc(w, sys.running(w)), w, None) <==> PidBreakAt(sys, p, w) == None
  {
    PidBreakLaw(sys, p, w);
    var pid := sys.running(w);
    var pc := sys.pc(w, pid);
    var cs := p.conditional;
    if PidBreakAt(sys, p, w).Some? && (pid, pc) !in p.plain {
      var r := FirstPidConditional(cs, pid, pc, w);
      var i: nat :| i < |cs| && PidConditionMet(cs[i], pid, pc, w)
                    && r.value == MultiHit(MConditionalBreakpoint, pid, pc, cs[i].condition.id)
                    && forall j :: 0 <= j < i ==> !PidConditionMet(cs[j], pid, pc, w);
      assert FirstPidHolding(cs, pid, pc, w, i);
    }
  }

  /** The single-process source step also stops on a mapped address of another line. */
  lemma LineLaw<M>(t: Target<M>, lineAt: u64 -> Option<nat>, line: nat, m: M)
    ensures Session<M>.LineChanged(t, lineAt, line)(m)
         == if lineAt(t.pc(m)).Some? && lineAt(t.pc(m)).value != line then Some(Hit(StepComplete, 0)) else None
  {
  }

  // ----- The context-switch log -----

  /** A record of the log is about one step: the processes before and after it, and how the step ended. */
  lemma {:induction false} RecordLaw<W>(sys: System<W>, w: W, n: nat, r: Switch)
    requires r in LogOf(sys, w, n)
    ensures 1 <= r.step <= n
    ensures var o := sys.lifecycle(World(sys, w, r.step - 1));
            && r.from == sys.running(World(sys, w, r.step - 1)) && r.to == sys.running(o.world) && r.from != r.to
            && r.preempted == o.preempted && r.byTermination == o.terminated
  {
    hide World;
    if r in LogOf(sys, w, n - 1) {
      RecordLaw(sys, w, n - 1, r);
    }
  }

  /** Every step after which another process runs has its record. */
  lemma {:induction false} EverySwitchLaw<W>(sys: System<W>, w: W, n: nat, i: nat)
    requires i < n && sys.running(World(sys, w, i)) != sys.running(World(sys, w, i + 1))
    ensures exists r :: r in LogOf(sys, w, n) && r.step == i + 1
  {
    hide World;
    WorldStep(sys, w, i);
    if i < n - 1 {
      EverySwitchLaw(sys, w, n - 1, i);
      var r :| r in LogOf(sys, w, n - 1) && r.step == i + 1;
      assert r in LogOf(sys, w, n);
    } else {
      var r := RecordOf(sys, w, i);
      assert SwitchOf(sys, w, i) == [r];
      assert r in LogOf(sys, w, i) + [r];
    }
  }
}
