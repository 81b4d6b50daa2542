/** Virtual flags: the guest's interrupt flag lives in bit 19 while the kernel holds the flags,
    in bit 9 while the guest runs, and is seen in bit 9 by the guest. */
module MonitorFlags {
  type Flags = bv32

  // Bit 8 TF, bit 9 IF, bits 12-13 IOPL, bit 14 NT, bit 17 VM, bit 19 VIF.
  function Vif(f: Flags): bool { f & 0x80000 != 0 }
  function If(f: Flags): bool { f & 0x200 != 0 }
  function Vm(f: Flags): bool { f & 0x20000 != 0 }
  function Iopl(f: Flags): Flags { f & 0x3000 }
  /** The arithmetic flags, and every other but TF, IF, IOPL, NT, VM, VIF and the fixed bit 1. */
  function Plain(f: Flags): Flags { f & 0xFFF58CFD }

  /** `guest_flags` */
  function GuestFlags(f: Flags): Flags {
    (f & 0xFFF7FDFF) | if Vif(f) then 0x200 else 0
  }

  /** `apply_guest_flags` */
  function ApplyGuestFlags(f: Flags, popped: Flags): Flags {
    var nf := (popped & 0xFFF5CDFF) | (f & 0x23200);
    if If(popped) then nf | 0x80000 else nf & 0xFFF7FFFF
  }

  /** `vif_to_if` and `if_to_vif` */
  function VifToIf(f: Flags): Flags {
    WithIf(NoIf(f), Vif(f))
  }

  function NoIf(f: Flags): Flags { f & 0xFFFFFDFF }
  function WithIf(f: Flags, on: bool): Flags { if on then f | 0x200 else f }

  function IfToVif(f: Flags): Flags {
    (f & 0xFFF7FFFF) | 0x200 | if If(f) then 0x80000 else 0
  }

  /** What `configure` loads for a guest in VM86 or 32-bit mode. */
  function EntryFlags(f: Flags): Flags {
    VifToIf(Loaded(f))
  }

  function Loaded(f: Flags): Flags {
    if Vm(f) then (f & 0xFFFFCFFF & 0xFFFFBFFF) | 0x20000 | 0x1000 | 2
    else (f & 0xFFFDFFFF & 0xFFFFCFFF & 0xFFFFBFFF) | 0x1000 | 2
  }

  /** What `store_regs` makes of the live flags; `f` are the flags saved at entry. */
  function ExitFlags(f: Flags, live: Flags): Flags {
    WithVm(WithIopl(IfToVif(live), f), f)
  }

  function WithVm(now: Flags, f: Flags): Flags {
    if Vm(f) then now | 0x20000 else now
  }

  function WithIopl(now: Flags, f: Flags): Flags {
    (now & 0xFFFFCFFF) | Iopl(f)
  }

  function ClearVif(f: Flags): Flags { f & 0xFFF7FFFF }
  function SetVif(f: Flags): Flags { f | 0x80000 }
  /** An INT reflected by the monitor, and one reflected on the live flags. */
  function ClearVifTf(f: Flags): Flags { f & 0xFFF7FEFF }
  function ClearIfTf(live: Flags): Flags { live & 0xFFFFFCFF }

  /** The flags of a thread: with the kernel, or live with the saved ones behind them. */
  datatype State =
    | Kernel(flags: Flags)
    | Running(saved: Flags, live: Flags)
  {
    /** The flag image that carries VM and the virtual IOPL. */
    function Image(): Flags { if Kernel? then flags else saved }
    function VirtualIf(): bool { if Kernel? then Vif(flags) else If(live) }
    /** The flags the guest computes with. */
    function Computed(): Flags { Plain(if Kernel? then flags else live) }
  }

  datatype Step =
    | Enter
    | Execute(live: Flags)
    | ReflectInline
    | Leave
    | Cli
    | Sti
    | Popf(word: Flags)
    | Iret(word: Flags)
    | ReflectInt
    | OtherInstruction

  /** A guest at CPL 3 with IOPL 1 cannot touch IF, IOPL or VM by itself. */
  predicate Unprivileged(live: Flags, live': Flags) {
    live' & 0x23200 == live & 0x23200
  }

  predicate Allowed(st: State, step: Step) {
    match step
    case Enter => st.Kernel?
    case Execute(live) => st.Running? && Unprivileged(st.live, live)
    case ReflectInline => st.Running? && Vm(st.saved)
    case Leave => st.Running?
    case _ => st.Kernel?
  }

  function Next(st: State, step: Step): State
    requires Allowed(st, step)
  {
    match step
    case Enter => Running(st.flags, EntryFlags(st.flags))
    case Execute(live) => st.(live := live)
    case ReflectInline => st.(live := ClearIfTf(st.live))
    case Leave => Kernel(ExitFlags(st.saved, st.live))
    case Cli => Kernel(ClearVif(st.flags))
    case Sti => Kernel(SetVif(st.flags))
    case Popf(word) => Kernel(ApplyGuestFlags(st.flags, word))
    case Iret(word) => Kernel(ApplyGuestFlags(st.flags, word))
    case ReflectInt => Kernel(ClearVifTf(st.flags))
    case OtherInstruction => st
  }

  /** While a guest runs, the processor's VM bit is the saved one and its IOPL is 1. */
  ghost predicate Coherent(st: State) {
    st.Running? ==> (Vm(st.live) <==> Vm(st.saved)) && Iopl(st.live) == 0x1000
  }

  /** What a step makes of the virtual interrupt flag: six kinds of step set it, no other touches it. */
  function IfAfter(v: bool, step: Step): bool {
    match step
    case Cli => false
    case Sti => true
    case Popf(word) => If(word)
    case Iret(word) => If(word)
    case ReflectInt => false
    case ReflectInline => false
    case _ => v
  }

  function IfAfterAll(v: bool, steps: seq<Step>): bool
    decreases |steps|
  {
    if steps == [] then v else IfAfterAll(IfAfter(v, steps[0]), steps[1..])
  }

  /** Only the guest's own instructions, POPF and IRET change the flags it computes with. */
  function ComputedAfter(a: Flags, step: Step): Flags {
    match step
    case Execute(live) => Plain(live)
    case Popf(word) => Plain(word)
    case Iret(word) => Plain(word)
    case _ => a
  }

  function ComputedAfterAll(a: Flags, steps: seq<Step>): Flags
    decreases |steps|
  {
    if steps == [] then a else ComputedAfterAll(ComputedAfter(a, steps[0]), steps[1..])
  }

  // ---- Single bits ----

  lemma NoIfPlain(f: Flags)
    ensures Plain(NoIf(f)) == Plain(f)
  {
  }

  lemma WithIfPlain(f: Flags, on: bool)
    ensures Plain(WithIf(f, on)) == Plain(f)
  {
  }

  lemma VifToIfPlain(f: Flags)
    ensures Plain(VifToIf(f)) == Plain(f)
  {
    hide Plain, NoIf, WithIf, Vif;
    NoIfPlain(f);
    WithIfPlain(NoIf(f), Vif(f));
  }

  lemma IfToVifPlain(f: Flags)
    ensures Plain(IfToVif(f)) == Plain(f)
  {
  }

  lemma LoadedPlain(f: Flags)
    ensures Plain(Loaded(f)) == Plain(f)
  {
  }

  lemma WithIoplPlain(now: Flags, f: Flags)
    ensures Plain(WithIopl(now, f)) == Plain(now)
  {
  }

  lemma WithVmPlain(now: Flags, f: Flags)
    ensures Plain(WithVm(now, f)) == Plain(now)
  {
  }

  lemma EntryPlain(f: Flags)
    ensures Plain(EntryFlags(f)) == Plain(f)
  {
    hide Plain, VifToIf, Loaded;
    LoadedPlain(f);
    VifToIfPlain(Loaded(f));
  }

  lemma ExitPlain(f: Flags, live: Flags)
    ensures Plain(ExitFlags(f, live)) == Plain(live)
  {
    hide Plain, IfToVif, WithIopl, WithVm;
    IfToVifPlain(live);
    WithIoplPlain(IfToVif(live), f);
    WithVmPlain(WithIopl(IfToVif(live), f), f);
  }

  lemma ApplyPlain(f: Flags, popped: Flags)
    ensures Plain(ApplyGuestFlags(f, popped)) == Plain(popped)
  {
  }

  lemma CliPlain(f: Flags)
    ensures Plain(ClearVif(f)) == Plain(f)
  {
  }

  lemma StiPlain(f: Flags)
    ensures Plain(SetVif(f)) == Plain(f)
  {
  }

  lemma ReflectPlain(f: Flags)
    ensures Plain(ClearVifTf(f)) == Plain(f)
  {
  }

  lemma InlinePlain(live: Flags)
    ensures Plain(ClearIfTf(live)) == Plain(live)
  {
  }

  lemma EntryBits(f: Flags)
    ensures If(EntryFlags(f)) == Vif(f) && Vm(EntryFlags(f)) == Vm(f) && Iopl(EntryFlags(f)) == 0x1000
  {
  }

  lemma ExitBits(f: Flags, live: Flags)
    requires Vm(live) == Vm(f)
    ensures Vif(ExitFlags(f, live)) == If(live) && Vm(ExitFlags(f, live)) == Vm(f)
    ensures Iopl(ExitFlags(f, live)) == Iopl(f) && If(ExitFlags(f, live))
  {
  }

  lemma ApplyBits(f: Flags, popped: Flags)
    ensures Vif(ApplyGuestFlags(f, popped)) == If(popped) && Vm(ApplyGuestFlags(f, popped)) == Vm(f)
    ensures Iopl(ApplyGuestFlags(f, popped)) == Iopl(f)
    ensures If(ApplyGuestFlags(f, popped)) == If(f)
  {
  }

  lemma ClearVifBits(f: Flags)
    ensures !Vif(ClearVif(f)) && Vm(ClearVif(f)) == Vm(f) && Iopl(ClearVif(f)) == Iopl(f)
  {
  }

  lemma SetVifBits(f: Flags)
    ensures Vif(SetVif(f)) && Vm(SetVif(f)) == Vm(f) && Iopl(SetVif(f)) == Iopl(f)
  {
  }

  lemma ClearVifTfBits(f: Flags)
    ensures !Vif(ClearVifTf(f)) && Vm(ClearVifTf(f)) == Vm(f) && Iopl(ClearVifTf(f)) == Iopl(f)
  {
  }

  lemma LiveBits(live: Flags, live': Flags)
    requires Unprivileged(live, live')
    ensures If(live') == If(live) && Vm(live') == Vm(live) && Iopl(live') == Iopl(live)
  {
  }

  lemma InlineBits(live: Flags)
    ensures !If(ClearIfTf(live)) && Vm(ClearIfTf(live)) == Vm(live) && Iopl(ClearIfTf(live)) == Iopl(live)
  {
  }

  // ---- Steps and runs ----

  lemma StepPlain(st: State, step: Step)
    requires Allowed(st, step)
    ensures Next(st, step).Computed() == ComputedAfter(st.Computed(), step)
  {
    hide Plain, EntryFlags, ExitFlags, ApplyGuestFlags, ClearVif, SetVif, ClearVifTf, ClearIfTf, Unprivileged, Vm;
    match step
    case Enter => EntryPlain(st.flags);
    case Execute(live) =>
    case ReflectInline => InlinePlain(st.live);
    case Leave => ExitPlain(st.saved, st.live);
    case Cli => CliPlain(st.flags);
    case Sti => StiPlain(st.flags);
    case Popf(word) => ApplyPlain(st.flags, word);
    case Iret(word) => ApplyPlain(st.flags, word);
    case ReflectInt => ReflectPlain(st.flags);
    case OtherInstruction =>
  }

  /** No step changes VM or the virtual IOPL, the virtual interrupt flag changes exactly as the
      instruction, if it is one of the six, says, and the flags a guest computes with survive every
      step that is not its own, a POPF or an IRET. */
  lemma StepKeeps(st: State, step: Step)
    requires Coherent(st) && Allowed(st, step)
    ensures var st' := Next(st, step);
      && Coherent(st') && Vm(st'.Image()) == Vm(st.Image()) && Iopl(st'.Image()) == Iopl(st.Image())
      && st'.VirtualIf() == IfAfter(st.VirtualIf(), step) && st'.Computed() == ComputedAfter(st.Computed(), step)
  {
    hide Vif, If, Vm, Iopl, Plain, EntryFlags, ExitFlags, ApplyGuestFlags, ClearVif, SetVif, ClearVifTf, ClearIfTf;
    hide Unprivileged;
    StepPlain(st, step);
    match step
    case Enter => EntryBits(st.flags);
    case Execute(live) => LiveBits(st.live, live);
    case ReflectInline => InlineBits(st.live);
    case Leave => ExitBits(st.saved, st.live);
    case Cli => ClearVifBits(st.flags);
    case Sti => SetVifBits(st.flags);
    case Popf(word) => ApplyBits(st.flags, word);
    case Iret(word) => ApplyBits(st.flags, word);
    case ReflectInt => ClearVifTfBits(st.flags);
    case OtherInstruction =>
  }

  ghost predicate Runs(st: State, steps: seq<Step>, st': State)
    decreases |steps|
  {
    if steps == [] then st' == st else Allowed(st, steps[0]) && Runs(Next(st, steps[0]), steps[1..], st')
  }

  /** Over every run VM and the virtual IOPL stand, and the virtual interrupt flag is what the
      instructions that set it, in order, made of it. */
  lemma {:induction false} RunKeeps(st: State, steps: seq<Step>, st': State)
    requires Coherent(st) && Runs(st, steps, st')
    ensures Coherent(st') && Vm(st'.Image()) == Vm(st.Image()) && Iopl(st'.Image()) == Iopl(st.Image())
    ensures st'.VirtualIf() == IfAfterAll(st.VirtualIf(), steps)
    ensures st'.Computed() == ComputedAfterAll(st.Computed(), steps)
    decreases |steps|
  {
    hide Vif, If, Vm, Iopl, Plain, Next, Allowed, IfAfter, ComputedAfter;
    if steps != [] {
      StepKeeps(st, steps[0]);
      RunKeeps(Next(st, steps[0]), steps[1..], st');
    }
  }

  /** The low 16 bits; those a guest may set freely; those it may not. */
  function Low16(f: Flags): Flags { f & 0xFFFF }
  function Status(f: Flags): Flags { f & 0xCDFF }
  function Reserved(f: Flags): Flags { f & 0x3200 }
  function Both(a: Flags, b: Flags): Flags { a | b }

  lemma MaskedStatus(f: Flags)
    ensures ((f & 0xFFF7FDFF) | 0x200) & 0xCDFF == f & 0xCDFF && ((f & 0xFFF7FDFF) | 0) & 0xCDFF == f & 0xCDFF
  {
  }

  lemma GuestStatus(f: Flags)
    ensures Status(GuestFlags(f)) == Status(f)
  {
    hide Vif;
    MaskedStatus(f);
  }

  lemma GuestIf(f: Flags)
    ensures If(GuestFlags(f)) == Vif(f)
  {
  }

  lemma ApplyLow(now: Flags, popped: Flags)
    ensures Status(ApplyGuestFlags(now, popped)) == Status(popped)
    ensures Reserved(ApplyGuestFlags(now, popped)) == Reserved(now)
  {
  }

  lemma LowParts(a: Flags)
    ensures Low16(a) == Both(Status(a), Reserved(a))
  {
  }

  lemma Narrow(a: Flags)
    ensures Status(Low16(a)) == Status(a) && If(Low16(a)) == If(a)
  {
  }

  lemma SameReserved(a: Flags, b: Flags)
    requires Unprivileged(a, b)
    ensures Reserved(a) == Reserved(b) && Vm(a) == Vm(b)
  {
  }

  /** What a guest pushes and pops back is what it had: the low word and the virtual flag. */
  lemma PushPop(f: Flags, now: Flags)
    requires Unprivileged(f, now)
    ensures var back := ApplyGuestFlags(now, Low16(GuestFlags(f)));
      Low16(back) == Low16(f) && Vif(back) == Vif(f) && Vm(back) == Vm(f)
  {
    hide GuestFlags, ApplyGuestFlags, Vif, If, Vm, Low16, Status, Reserved, Both, Unprivileged;
    var popped := Low16(GuestFlags(f));
    GuestStatus(f);
    GuestIf(f);
    Narrow(GuestFlags(f));
    SameReserved(f, now);
    ApplyLow(now, popped);
    ApplyBits(now, popped);
    LowParts(ApplyGuestFlags(now, popped));
    LowParts(f);
  }
}
