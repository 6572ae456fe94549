// What a host program can do to the CPU between steps, in its own terms:
// loading, the user code range, the kernel stack pointer, and saving and
// restoring a process (src/kernel/ProcessContext.cpp, src/core/CPU.cpp).
module ContextLaws {
  import opened Words
  import opened Machine
  import opened Reachable
  import Isa

  /** A code range the loaded program has: not empty, inside it, and of whole instructions. */
  predicate HasCode(image: Image, r: Range) {
    && r.begin < r.end
    && match image
       case Vector(program, _) => r.end <= |program|
       case Binary(base, size) =>
         base <= r.begin && r.end <= base + size && (r.begin - base) % 24 == 0 && (r.end - base) % 24 == 0
  }

  /** captureProcessContext of the CPU, for a process with the whole user stack. */
  function Capture(s: State): Context {
    Context(s.regs, s.flags, s.pc, s.sp, s.priv, s.range, 0x800, 0xFA0, s.ksp)
  }

  /** A context the CPU can continue: SP in its stack, a sound kernel stack pointer, and user code inside its range. */
  predicate Continuable(image: Image, ctx: Context) {
    && 0x800 <= ctx.userStackBegin < ctx.userStackEnd <= 0xFA0
    && ctx.userStackBegin % 8 == 0 && ctx.userStackEnd % 8 == 0
    && ctx.userStackBegin <= ctx.sp <= ctx.userStackEnd && (ctx.sp - ctx.userStackBegin) % 8 == 0
    && 0xFA0 <= ctx.ksp <= 0x1000 && (ctx.ksp - 0xFA0) % 8 == 0
    && (ctx.range.Some? ==> HasCode(image, ctx.range.value))
    && (ctx.priv.User? ==> ctx.range.Some? && ctx.range.value.begin <= ctx.pc < ctx.range.value.end)
  }

  /** A restore is refused whole, or puts every field of the context in place and clears halt and error. */
  lemma RestoreLaw(c: Setup, s: State, ctx: Context)
    ensures Perform(c, s, RestoreContext(ctx))
         == if s.onKernelStack || !Continuable(c.image, ctx) then s
            else s.(regs := ctx.regs, flags := ctx.flags, pc := ctx.pc, sp := ctx.sp, priv := ctx.priv,
                    range := ctx.range, ksp := ctx.ksp, halted := false, error := false)
  {
  }

  /**
   * Switching away and back: whatever ran in between, restoring a process
   * captured at s gives it back its registers, flags, pc, SP, privilege, code
   * range and kernel stack pointer; memory and devices are shared.
   */
  lemma SwitchLaw(c: Setup, s: State, between: State)
    requires !s.onKernelStack && !between.onKernelStack && Continuable(c.image, Capture(s))
    requires !s.halted && !s.error
    ensures Perform(c, between, RestoreContext(Capture(s)))
         == s.(mem := between.mem, dev := between.dev, exit := between.exit)
  {
    RestoreLaw(c, between, Capture(s));
  }

  /** Setting the range or the kernel stack pointer: what is not acceptable changes nothing. */
  lemma SettingLaw(c: Setup, s: State, begin: u64, end: u64, value: u64)
    ensures Perform(c, s, SetUserCodeRange(begin, end))
         == if HasCode(c.image, Range(begin, end)) then s.(range := Some(Range(begin, end))) else s
    ensures Perform(c, s, ClearUserCodeRange) == s.(range := None)
    ensures Perform(c, s, SetKernelStackPointer(value))
         == if !s.onKernelStack && 0xFA0 <= value <= 0x1000 && (value - 0xFA0) % 8 == 0 then s.(ksp := value) else s
  {
  }

  /** A freshly loaded CPU: zero registers and flags, kernel mode, both stacks empty. */
  lemma FreshLaw(mem: Ram, pc: u64, range: Option<Range>, dev: Devices, r: Isa.Reg)
    ensures var s := FreshCpu(mem, pc, range, dev);
            && s.regs[r] == 0 && !s.flags.zero && !s.flags.sign && !s.flags.carry && !s.flags.overflow
            && s.priv.Kernel? && s.pc == pc && s.sp == 0x800 && s.ksp == 0xFA0 && !s.onKernelStack
            && s.mem == mem && s.range == range && s.dev == dev && !s.halted && !s.error && s.exit == None
  {
  }
}
