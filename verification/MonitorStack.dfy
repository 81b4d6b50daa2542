/** Reflecting an interrupt into a VM86 guest, and the guest's IRET that undoes it. */
module MonitorStack {
  import opened MonitorFlags

  type Word = bv16

  /** Linear memory, byte by byte. */
  type Memory = int -> bv8

  const LIMIT: int := 0x1_0000_0000

  /** The registers the monitor works on; `sp` has 32 bits, `ss` 16. */
  datatype Regs = Regs(ip: Word, cs: Word, sp: nat, ss: nat, flags: Flags)

  predicate Valid(r: Regs) {
    r.sp < LIMIT && r.ss < 0x10000
  }

  // ---- Modes and stacks ----

  const USER_CS64: Word := 0x33

  datatype UserMode = Mode64 | VM86 | Mode32

  /** `Regs::mode`: the code segment is looked at before the VM flag. */
  function Mode(r: Regs): UserMode {
    if r.cs == USER_CS64 then Mode64 else if Vm(r.flags) then VM86 else Mode32
  }

  /** A stack segment: its base, and whether the stack pointer has 32 bits. */
  datatype Stack = Stack(base: nat, wide: bool)

  /** `stack_view`; `d` is what the descriptor tables say of the stack selector. */
  function StackView(r: Regs, d: Stack): Stack {
    if Mode(r).VM86? then Stack(r.ss * 16, false) else d
  }

  function GetSp(r: Regs, wide: bool): nat {
    if wide then r.sp else r.sp % 0x10000
  }

  function SetSp(r: Regs, wide: bool, val: nat): Regs {
    r.(sp := if wide then val else r.sp / 0x10000 * 0x10000 + val % 0x10000)
  }

  // ---- Words in memory ----

  function LowByte(w: Word): bv8 { (w & 0xff) as bv8 }
  function HighByte(w: Word): bv8 { (w >> 8) as bv8 }
  function Join(lo: bv8, hi: bv8): Word { ((hi as Word) << 8) | (lo as Word) }

  lemma JoinSplit(w: Word)
    ensures Join(LowByte(w), HighByte(w)) == w
  {
  }

  function Read16(m: Memory, a: int): Word {
    Join(m(a), m(a + 1))
  }

  function Write16(m: Memory, a: int, w: Word): Memory {
    x => if x == a then LowByte(w) else if x == a + 1 then HighByte(w) else m(x)
  }

  lemma ReadBack(m: Memory, a: int, w: Word)
    ensures Read16(Write16(m, a, w), a) == w
  {
    hide LowByte, HighByte, Join;
    JoinSplit(w);
  }

  predicate Clear(a: int, b: int) {
    a + 2 <= b || b + 2 <= a
  }

  lemma ReadOther(m: Memory, a: int, w: Word, b: int)
    requires Clear(a, b)
    ensures Read16(Write16(m, a, w), b) == Read16(m, b)
  {
    hide LowByte, HighByte, Join;
  }

  // ---- The operations ----

  /** Where a word is pushed: the new stack pointer is added to the base before it is cut to 16
      bits, so below 2 the address leaves the segment. */
  function PushAddress(base: nat, sp: nat): int {
    (base + (sp - 2) % LIMIT) % LIMIT
  }

  function Push16(r: Regs, m: Memory, st: Stack, w: Word): (Regs, Memory) {
    var sp := GetSp(r, st.wide);
    (SetSp(r, st.wide, (sp - 2) % LIMIT), Write16(m, PushAddress(st.base, sp), w))
  }

  function Pop16(r: Regs, m: Memory, st: Stack): (Regs, Word) {
    var sp := GetSp(r, st.wide);
    (SetSp(r, st.wide, (sp + 2) % LIMIT), Read16(m, (st.base + sp) % LIMIT))
  }

  function ToWord(f: Flags): Word { (f & 0xFFFF) as Word }
  function ToFlags(w: Word): Flags { w as Flags }

  function VectorIp(m: Memory, vector: bv8): Word { Read16(m, (vector as int) * 4) }
  function VectorCs(m: Memory, vector: bv8): Word { Read16(m, (vector as int) * 4 + 2) }

  /** `sw_reflect_vm86_int` */
  function Reflect(r: Regs, m: Memory, vector: bv8): (Regs, Memory) {
    var st := Stack(r.ss * 16, false);
    var (r1, m1) := Push16(r, m, st, ToWord(GuestFlags(r.flags)));
    var (r2, m2) := Push16(r1, m1, st, r.cs);
    var (r3, m3) := Push16(r2, m2, st, r.ip);
    (r3.(flags := ClearVifTf(r.flags), cs := VectorCs(m, vector), ip := VectorIp(m, vector)), m3)
  }

  /** What the monitor makes of an instruction: resume, or a fault for the kernel. */
  datatype Outcome = Resume(regs: Regs) | Fault

  /** The monitor's 16-bit IRET. */
  function Iret16(r: Regs, m: Memory, d: Stack): Outcome {
    var st := StackView(r, d);
    var (r1, ip) := Pop16(r, m, st);
    var (r2, cs) := Pop16(r1, m, st);
    var (r3, fl) := Pop16(r2, m, st);
    if cs == 0 && !Mode(r).VM86? then Fault
    else Resume(r3.(ip := ip, cs := cs, flags := ApplyGuestFlags(r.flags, ToFlags(fl))))
  }

  /** What a guest expects back from its handler. */
  predicate Restored(r: Regs, o: Outcome) {
    && o.Resume?
    && o.regs.ip == r.ip && o.regs.cs == r.cs && o.regs.sp == r.sp && o.regs.ss == r.ss
    && Low16(o.regs.flags) == Low16(r.flags) && Vif(o.regs.flags) == Vif(r.flags) && Mode(o.regs) == Mode(r)
  }

  // ---- Where an interrupt goes ----

  /** A word by its two bytes, low one first. */
  predicate Bytes(w: Word, lo: bv8, hi: bv8) {
    w & 0xff == lo as Word && w >> 8 == hi as Word
  }

  lemma JoinBytes(lo: bv8, hi: bv8)
    ensures Bytes(Join(lo, hi), lo, hi)
  {
  }

  lemma OnlyVifTf(f: Flags)
    ensures ClearVifTf(f) & 0x80100 == 0 && ClearVifTf(f) | 0x80100 == f | 0x80100
  {
  }

  /** The guest goes on at the address in its interrupt vector, as it stood before the pushes,
      with VIF and TF clear and every other flag as it was. */
  lemma ReflectEnters(r: Regs, m: Memory, vector: bv8)
    ensures var r', a := Reflect(r, m, vector).0, 4 * vector as int;
      && Bytes(r'.ip, m(a), m(a + 1)) && Bytes(r'.cs, m(a + 2), m(a + 3))
      && r'.flags & 0x80100 == 0 && r'.flags | 0x80100 == r.flags | 0x80100
  {
    hide Bytes, Join, ClearVifTf, Push16;
    var a := 4 * vector as int;
    JoinBytes(m(a), m(a + 1));
    JoinBytes(m(a + 2), m(a + 3));
    OnlyVifTf(r.flags);
  }

  // ---- Room for the frame ----

  lemma PushedAt(ss: nat, sp: nat)
    requires ss < 0x10000 && 2 <= sp < 0x10000
    ensures PushAddress(ss * 16, sp) == ss * 16 + sp - 2
  {
  }

  /** Three words are pushed, each below the one before. */
  lemma ThreeWords(m: Memory, a: int, x: Word, y: Word, z: Word)
    ensures var m' := Write16(Write16(Write16(m, a + 4, x), a + 2, y), a, z);
      Read16(m', a) == z && Read16(m', a + 2) == y && Read16(m', a + 4) == x
  {
    hide Read16, Write16;
    var m1 := Write16(m, a + 4, x);
    var m2 := Write16(m1, a + 2, y);
    ReadBack(m2, a, z);
    ReadBack(m1, a + 2, y);
    ReadOther(m2, a, z, a + 2);
    ReadBack(m, a + 4, x);
    ReadOther(m1, a + 2, y, a + 4);
    ReadOther(m2, a, z, a + 4);
  }

  lemma SpDown(r: Regs)
    requires Valid(r) && r.sp % 0x10000 >= 2
    ensures SetSp(r, false, (GetSp(r, false) - 2) % LIMIT) == r.(sp := r.sp - 2)
    ensures GetSp(r.(sp := r.sp - 2), false) == GetSp(r, false) - 2
  {
  }

  lemma SpUp(r: Regs)
    requires Valid(r) && r.sp % 0x10000 < 0xFFFE
    ensures SetSp(r, false, (GetSp(r, false) + 2) % LIMIT) == r.(sp := r.sp + 2)
    ensures GetSp(r.(sp := r.sp + 2), false) == GetSp(r, false) + 2
  {
  }

  /** A push with room for it. */
  lemma PushDown(r: Regs, m: Memory, w: Word)
    requires Valid(r) && r.sp % 0x10000 >= 2
    ensures Push16(r, m, Stack(r.ss * 16, false), w) ==
      (r.(sp := r.sp - 2), Write16(m, r.ss * 16 + r.sp % 0x10000 - 2, w))
    ensures (r.sp - 2) % 0x10000 == r.sp % 0x10000 - 2
  {
    hide Write16, PushAddress, GetSp, SetSp;
    NarrowSp(r);
    SpDown(r);
    PushedAt(r.ss, GetSp(r, false));
  }

  /** The frame that a reflection leaves, low addresses first: IP, CS, flags. */
  lemma ReflectFrame(r: Regs, m: Memory, vector: bv8)
    requires Valid(r) && r.sp % 0x10000 >= 6
    ensures var (r', m') := Reflect(r, m, vector); var a := r.ss * 16 + r.sp % 0x10000 - 6;
      && r'.sp == r.sp - 6 && r'.ss == r.ss
      && Read16(m', a) == r.ip && Read16(m', a + 2) == r.cs && Read16(m', a + 4) == ToWord(GuestFlags(r.flags))
  {
    hide GuestFlags, ToWord, Read16, Write16, ClearVifTf, Push16, VectorCs, VectorIp;
    var st, a := Stack(r.ss * 16, false), r.ss * 16 + r.sp % 0x10000 - 6;
    var fl := ToWord(GuestFlags(r.flags));
    var m1 := Write16(m, a + 4, fl);
    PushDown(r, m, fl);
    PushDown(r.(sp := r.sp - 2), m1, r.cs);
    PushDown(r.(sp := r.sp - 4), Write16(m1, a + 2, r.cs), r.ip);
    ThreeWords(m, a, fl, r.cs, r.ip);
  }

  lemma NarrowSp(r: Regs)
    ensures GetSp(r, false) == r.sp % 0x10000
  {
  }

  /** Three pops off a VM86 stack that does not run over its end. */
  lemma ThreePops(r: Regs, m: Memory, d: Stack)
    requires Valid(r) && Mode(r).VM86? && r.sp % 0x10000 + 6 <= 0xFFFF
    ensures var a := r.ss * 16 + r.sp % 0x10000;
      Iret16(r, m, d) == Resume(r.(sp := r.sp + 6, ip := Read16(m, a), cs := Read16(m, a + 2),
                                   flags := ApplyGuestFlags(r.flags, ToFlags(Read16(m, a + 4)))))
  {
    hide Read16, ApplyGuestFlags, ToFlags, GetSp, SetSp;
    assert GetSp(r, false) == r.sp % 0x10000 by { NarrowSp(r); }
    SpUp(r);
    SpUp(r.(sp := r.sp + 2));
    SpUp(r.(sp := r.sp + 4));
  }

  /** The six bytes on top of the stack are as they were, and so is the stack pointer. */
  ghost predicate Untouched(r: Regs, m: Memory, r': Regs, m': Memory) {
    && r'.sp == r.sp && r'.ss == r.ss
    && var a := r.ss * 16 + r.sp % 0x10000;
       forall x: int {:trigger m'(x)} :: a <= x < a + 6 ==> m'(x) == m(x)
  }

  lemma WordFits(f: Flags)
    ensures ToFlags(ToWord(f)) == Low16(f)
  {
  }

  /** INT and IRET are inverse: if the handler leaves the frame and the stack pointer alone and
      cannot change what the monitor preserves, and executes its IRET in a code segment that is
      not mistaken for the 64-bit one, IRET restores CS, IP, SP, the low flag word, the virtual
      interrupt flag and the mode. */
  lemma IretUndoesInt(r: Regs, m: Memory, vector: bv8, r2: Regs, m2: Memory, d: Stack)
    requires Valid(r) && Mode(r).VM86? && r.sp % 0x10000 >= 6
    requires Untouched(Reflect(r, m, vector).0, Reflect(r, m, vector).1, r2, m2)
    requires Unprivileged(r.flags, r2.flags) && r2.cs != USER_CS64
    ensures Restored(r, Iret16(r2, m2, d))
  {
    hide GuestFlags, ToWord, ToFlags, Join, ClearVifTf, ApplyGuestFlags, Vif, Vm, Low16, Unprivileged, Reflect, Iret16;
    var (r1, m1) := Reflect(r, m, vector);
    var a := r.ss * 16 + r.sp % 0x10000 - 6;
    ReflectFrame(r, m, vector);
    assert r1.sp % 0x10000 == r.sp % 0x10000 - 6;
    SameFrame(m1, m2, a);
    WordFits(GuestFlags(r.flags));
    PushPop(r.flags, r2.flags);
    SameReserved(r.flags, r2.flags);
    ThreePops(r2, m2, d);
  }

  lemma SameFrame(m: Memory, m': Memory, a: int)
    requires forall x: int {:trigger m'(x)} :: a <= x < a + 6 ==> m'(x) == m(x)
    ensures Read16(m', a) == Read16(m, a) && Read16(m', a + 2) == Read16(m, a + 2)
    ensures Read16(m', a + 4) == Read16(m, a + 4)
  {
    hide Join;
  }

  // ---- When it does not come back ----

  /** INT followed at once by IRET, in the code segment the vector names. */
  predicate ComesBack(r: Regs, m: Memory, vector: bv8, d: Stack) {
    var (r1, m1) := Reflect(r, m, vector);
    Restored(r, Iret16(r1, m1, d))
  }

  lemma AtOnce(r: Regs, m: Memory, vector: bv8, d: Stack)
    requires Valid(r) && Mode(r).VM86? && r.sp % 0x10000 >= 6 && VectorCs(m, vector) != USER_CS64
    ensures ComesBack(r, m, vector, d)
  {
    hide GuestFlags, ToWord, ApplyGuestFlags, Vif, Vm, Low16, Iret16, Read16, Write16, Restored, PushAddress;
    var (r1, m1) := Reflect(r, m, vector);
    ReflectUnprivileged(r.flags);
    IretUndoesInt(r, m, vector, r1, m1, d);
  }

  lemma ReflectUnprivileged(f: Flags)
    ensures Unprivileged(f, ClearVifTf(f))
  {
  }

  /** Every push lands in the low 1 MiB and 64 KiB, or wraps to the very top. */
  lemma PushRange(ss: nat, sp: nat)
    requires ss < 0x10000 && sp < 0x10000
    ensures 0 <= PushAddress(ss * 16, sp) < 0x10FFF0 || LIMIT - 2 <= PushAddress(ss * 16, sp) < LIMIT
    ensures sp >= 2 ==> PushAddress(ss * 16, sp) == ss * 16 + sp - 2
    ensures sp < 2 ==> PushAddress(ss * 16, sp) == (ss * 16 + sp - 2) % LIMIT
  {
  }

  /** A word that none of the three pushes touches. */
  lemma Unwritten(r: Regs, m: Memory, vector: bv8, at: int)
    requires Valid(r)
    requires var sp := r.sp % 0x10000;
      && Clear(PushAddress(r.ss * 16, sp), at) && Clear(PushAddress(r.ss * 16, (sp - 2) % 0x10000), at)
      && Clear(PushAddress(r.ss * 16, (sp - 4) % 0x10000), at)
    ensures Read16(Reflect(r, m, vector).1, at) == Read16(m, at)
    ensures Reflect(r, m, vector).0.sp % 0x10000 == (r.sp % 0x10000 - 6) % 0x10000 && Valid(Reflect(r, m, vector).0)
  {
    hide GuestFlags, ToWord, Read16, Write16, ClearVifTf, PushAddress, GetSp, SetSp;
    var st := Stack(r.ss * 16, false);
    NarrowDown(r);
    var (r1, m1) := Push16(r, m, st, ToWord(GuestFlags(r.flags)));
    NarrowDown(r1);
    var (r2, m2) := Push16(r1, m1, st, r.cs);
    NarrowDown(r2);
    ReadOther(m, PushAddress(r.ss * 16, GetSp(r, false)), ToWord(GuestFlags(r.flags)), at);
    ReadOther(m1, PushAddress(r.ss * 16, GetSp(r1, false)), r.cs, at);
    ReadOther(m2, PushAddress(r.ss * 16, GetSp(r2, false)), r.ip, at);
  }

  lemma NarrowDown(r: Regs)
    requires Valid(r)
    ensures GetSp(r, false) == r.sp % 0x10000
    ensures var r' := SetSp(r, false, (GetSp(r, false) - 2) % LIMIT);
      Valid(r') && r'.sp % 0x10000 == (r.sp % 0x10000 - 2) % 0x10000 && r' == r.(sp := r'.sp)
  {
  }

  lemma PopStep(r: Regs, m: Memory, st: Stack)
    requires Valid(r) && !st.wide && st.base < 0x1000000
    ensures var (r', w) := Pop16(r, m, st);
      && Valid(r') && r'.sp % 0x10000 == (r.sp % 0x10000 + 2) % 0x10000 && r' == r.(sp := r'.sp)
      && w == Read16(m, st.base + r.sp % 0x10000)
  {
    hide Read16;
  }

  lemma TwoMore(sp: nat)
    ensures (sp % 0x10000 + 2) % 0x10000 == (sp + 2) % 0x10000
  {
  }

  /** Pops off a narrow stack, wherever the stack pointer is. */
  lemma Pops(r: Regs, m: Memory, d: Stack)
    requires Valid(r) && !StackView(r, d).wide && StackView(r, d).base < 0x1000000
    ensures var base, sp, o := StackView(r, d).base, r.sp % 0x10000, Iret16(r, m, d);
      var ip, cs, fl := Read16(m, base + sp), Read16(m, base + (sp + 2) % 0x10000),
        Read16(m, base + (sp + 4) % 0x10000);
      if cs == 0 && !Mode(r).VM86? then o.Fault?
      else o.Resume? && o.regs.ip == ip && o.regs.cs == cs && o.regs.flags == ApplyGuestFlags(r.flags, ToFlags(fl))
  {
    hide Read16, ApplyGuestFlags, ToFlags, Pop16, Mode, StackView;
    var st := StackView(r, d);
    PopStep(r, m, st);
    var r1 := Pop16(r, m, st).0;
    PopStep(r1, m, st);
    PopStep(Pop16(r1, m, st).0, m, st);
    TwoMore(r.sp % 0x10000 + 2);
  }

  /** Memory that is `x` everywhere, except that the vector names code segment `c`. */
  function Filled(vector: bv8, c: Word, x: bv8): Memory {
    a => if a == (vector as int) * 4 + 2 then LowByte(c) else if a == (vector as int) * 4 + 3 then HighByte(c) else x
  }

  lemma FilledWords(vector: bv8, c: Word, x: bv8, a: int)
    requires a >= 0x400
    ensures VectorCs(Filled(vector, c, x), vector) == c && Read16(Filled(vector, c, x), a) == Join(x, x)
  {
    hide LowByte, HighByte, Join;
    JoinSplit(c);
    VectorSmall(vector);
  }

  lemma VectorSmall(vector: bv8)
    ensures 0 <= vector as int < 0x100
  {
  }

  lemma ConstantWord(x: bv8)
    requires x <= 1
    ensures Join(x, x) == 0 <==> x == 0
    ensures Low16(ToFlags(Join(x, x))) & 1 == if x == 0 then 0 else 1
  {
  }

  lemma CarryFollows(now: Flags, popped: Flags)
    ensures Low16(ApplyGuestFlags(now, popped)) & 1 == Low16(popped) & 1
  {
  }

  lemma CarryBit(f: Flags)
    ensures Low16(f) & 1 == 0 || Low16(f) & 1 == 1
  {
  }

  /** None of the pushes of a frame without room writes the word at the top of the segment. */
  lemma PushesMiss(ss: nat, sp: nat)
    requires ss < 0x10000 && sp < 6
    ensures var top := ss * 16 + (0xFFFE + sp % 2);
      && Clear(PushAddress(ss * 16, sp), top) && Clear(PushAddress(ss * 16, (sp - 2) % 0x10000), top)
      && Clear(PushAddress(ss * 16, (sp - 4) % 0x10000), top)
  {
    hide PushAddress, Clear;
    WrappedSp(sp, 2);
    WrappedSp(sp, 4);
    PushMisses(ss, sp, sp);
    PushMisses(ss, sp, (sp - 2) % 0x10000);
    PushMisses(ss, sp, (sp - 4) % 0x10000);
  }

  lemma WrappedSp(sp: nat, k: nat)
    requires sp < 6 && (k == 2 || k == 4)
    ensures var at := (sp - k) % 0x10000; (at < 6 || 0xFFFC <= at < 0x10000) && at % 2 == sp % 2
  {
  }

  lemma PushMisses(ss: nat, sp: nat, at: nat)
    requires ss < 0x10000 && sp < 6 && (at < 6 || 0xFFFC <= at < 0x10000) && at % 2 == sp % 2
    ensures Clear(PushAddress(ss * 16, at), ss * 16 + 0xFFFE + sp % 2)
  {
    PushRange(ss, at);
  }

  lemma LostSlot(sp: nat)
    requires sp < 6
    ensures var low := (sp - 6) % 0x10000; var top := 0xFFFE + sp % 2;
      (if sp < 2 then (low + 4) % 0x10000 else if sp < 4 then (low + 2) % 0x10000 else low) == top
  {
  }

  /** Without room for the frame, one push crosses the bottom of the segment and lands below it; its
      word is read back from the top of the segment, where nothing was written. */
  lemma WrappedWord(r: Regs, m: Memory, vector: bv8, d: Stack)
    requires Valid(r) && Mode(r).VM86? && r.sp % 0x10000 < 6 && VectorCs(m, vector) != USER_CS64
    ensures var sp := r.sp % 0x10000; var (r1, m1) := Reflect(r, m, vector); var o := Iret16(r1, m1, d);
      var lost := Read16(m, r.ss * 16 + (0xFFFE + sp % 2));
      o.Resume? && if sp < 2 then o.regs.flags == ApplyGuestFlags(r1.flags, ToFlags(lost))
        else if sp < 4 then o.regs.cs == lost else o.regs.ip == lost
  {
    hide ToFlags, Read16, ApplyGuestFlags, Vm, Reflect, Iret16, PushAddress;
    var sp := r.sp % 0x10000;
    PushesMiss(r.ss, sp);
    Unwritten(r, m, vector, r.ss * 16 + (0xFFFE + sp % 2));
    ReflectMode(r, m, vector);
    var (r1, m1) := Reflect(r, m, vector);
    Pops(r1, m1, d);
    LostSlot(sp);
  }

  lemma NoRoom(r: Regs, vector: bv8, c: Word, d: Stack) returns (m: Memory)
    requires Valid(r) && Mode(r).VM86? && r.sp % 0x10000 < 6 && c != USER_CS64
    ensures VectorCs(m, vector) == c && !ComesBack(r, m, vector, d)
  {
    hide ToFlags, Join, Read16, VectorCs, ApplyGuestFlags, Low16, Vif, Vm, Reflect, Iret16, Filled, Mode;
    var sp := r.sp % 0x10000;
    var zero := if sp < 2 then Low16(r.flags) & 1 == 1 else if sp < 4 then r.cs != 0 else r.ip != 0;
    var x: bv8 := if zero then 0 else 1;
    m := Filled(vector, c, x);
    FilledWords(vector, c, x, r.ss * 16 + (0xFFFE + sp % 2));
    ConstantWord(x);
    CarryBit(r.flags);
    WrappedWord(r, m, vector, d);
    CarryFollows(Reflect(r, m, vector).0.flags, ToFlags(Join(x, x)));
  }

  /** The reflected guest is in the code segment of the vector, with its own VM flag. */
  lemma ReflectMode(r: Regs, m: Memory, vector: bv8)
    ensures var r' := Reflect(r, m, vector).0;
      r'.ss == r.ss && r'.cs == VectorCs(m, vector) && Vm(r'.flags) == Vm(r.flags)
  {
    hide GuestFlags, ToWord, Read16, Write16, ClearVifTf, Vm;
    ClearVifTfBits(r.flags);
  }

  /** A handler in code segment 0x33 is taken for 64-bit code: its IRET pops off the stack that the
      descriptor tables name, not the one the frame was pushed on. */
  lemma MistakenMode(r: Regs, vector: bv8) returns (m: Memory, d: Stack)
    requires Valid(r) && Mode(r).VM86?
    ensures VectorCs(m, vector) == USER_CS64 && !ComesBack(r, m, vector, d)
  {
    hide GuestFlags, ToWord, ToFlags, Join, LowByte, HighByte, Read16, Write16, ClearVifTf, ApplyGuestFlags, Low16, Vif;
    hide Vm, Reflect, Iret16, PushAddress;
    var x: bv8 := if r.ip != 0 then 0 else 1;
    m, d := Filled(vector, USER_CS64, x), Stack(0x200000, false);
    var sp := r.sp % 0x10000;
    var at := 0x200000 + (sp - 6) % 0x10000;
    FilledWords(vector, USER_CS64, x, at);
    ConstantWord(x);
    PushRange(r.ss, sp);
    PushRange(r.ss, (sp - 2) % 0x10000);
    PushRange(r.ss, (sp - 4) % 0x10000);
    Unwritten(r, m, vector, at);
    var (r1, m1) := Reflect(r, m, vector);
    ReflectMode(r, m, vector);
    Pops(r1, m1, d);
  }

  /** For a vector that names code segment `c`, the round trip works whatever memory and descriptor
      tables hold, exactly when the stack has room for the frame and `c` is not 0x33. */
  lemma ComesBackIff(r: Regs, vector: bv8, c: Word)
    requires Valid(r) && Mode(r).VM86?
    ensures (forall m: Memory, d: Stack :: VectorCs(m, vector) == c ==> ComesBack(r, m, vector, d)) <==>
      r.sp % 0x10000 >= 6 && c != USER_CS64
  {
    hide ComesBack, VectorCs, Mode;
    if r.sp % 0x10000 >= 6 && c != USER_CS64 {
      forall m: Memory, d: Stack | VectorCs(m, vector) == c
        ensures ComesBack(r, m, vector, d)
      {
        AtOnce(r, m, vector, d);
      }
    } else if c == USER_CS64 {
      var m, d := MistakenMode(r, vector);
    } else {
      var m := NoRoom(r, vector, c, Stack(0, false));
    }
  }

  /** The register file and memory the monitor works on. */
  class Vcpu {
    var regs: Regs
    var mem: Memory

    constructor (r: Regs, m: Memory)
      ensures regs == r && mem == m
    {
      regs, mem := r, m;
    }

    method Push(st: Stack, w: Word)
      modifies this
      ensures (regs, mem) == Push16(old(regs), old(mem), st, w)
    {
      var sp := (GetSp(regs, st.wide) - 2) % LIMIT;
      regs := SetSp(regs, st.wide, sp);
      mem := Write16(mem, (st.base + sp) % LIMIT, w);
    }

    method Pop(st: Stack) returns (w: Word)
      modifies `regs
      ensures (regs, w) == Pop16(old(regs), mem, st)
    {
      var sp := GetSp(regs, st.wide);
      w := Read16(mem, (st.base + sp) % LIMIT);
      regs := SetSp(regs, st.wide, (sp + 2) % LIMIT);
    }

    /** `sw_reflect_vm86_int` */
    method ReflectInt(vector: bv8)
      modifies this
      ensures (regs, mem) == Reflect(old(regs), old(mem), vector)
      ensures var m, a := old(mem), 4 * vector as int;
        Bytes(regs.ip, m(a), m(a + 1)) && Bytes(regs.cs, m(a + 2), m(a + 3))
      ensures regs.flags & 0x80100 == 0 && regs.flags | 0x80100 == old(regs.flags) | 0x80100
    {
      hide Bytes;
      ReflectEnters(regs, mem, vector);
      hide Read16, Write16, PushAddress, GuestFlags, ToWord, ClearVifTf, GetSp, SetSp;
      var newIp, newCs := VectorIp(mem, vector), VectorCs(mem, vector);
      var st := Stack(regs.ss * 16, false);
      var flags, oldCs, oldIp := ToWord(GuestFlags(regs.flags)), regs.cs, regs.ip;
      Push(st, flags);
      PushKeeps(old(regs), old(mem), st, flags);
      ghost var r1, m1 := regs, mem;
      Push(st, oldCs);
      PushKeeps(r1, m1, st, oldCs);
      ghost var r2, m2 := regs, mem;
      Push(st, oldIp);
      PushKeeps(r2, m2, st, oldIp);
      regs := regs.(flags := ClearVifTf(regs.flags), cs := newCs, ip := newIp);
    }

    /** The 16-bit IRET of the monitor; `d` describes the stack selector. */
    method Iret(d: Stack) returns (o: Outcome)
      modifies `regs
      ensures o == Iret16(old(regs), mem, d) && (o.Resume? ==> regs == o.regs)
    {
      hide Read16, ApplyGuestFlags, ToFlags, GetSp, SetSp;
      var st, vm86 := StackView(regs, d), Mode(regs).VM86?;
      var flags := regs.flags;
      var ip := Pop(st);
      var cs := Pop(st);
      var fl := Pop(st);
      if cs == 0 && !vm86 { return Fault; }
      regs := regs.(ip := ip, cs := cs, flags := ApplyGuestFlags(flags, ToFlags(fl)));
      return Resume(regs);
    }
  }

  lemma PushKeeps(r: Regs, m: Memory, st: Stack, w: Word)
    ensures var r' := Push16(r, m, st, w).0; r'.flags == r.flags && r'.cs == r.cs && r'.ip == r.ip && r'.ss == r.ss
  {
  }
}
