/** Runs of the interpreter from boot. */
module InterpHistory {
  import opened Outcomes
  import opened ArchContract
  import opened InterpPhys
  import opened InterpMemory
  import opened InterpOps
  import opened InterpBooks
  import opened InterpSteps
  import opened InterpEdits
  import opened InterpFork
  import opened InterpRuns
  import opened InterpTheorems

  /** The interpreter gets from `g` to `g'` by `ops` without running out of frames. */
  ghost predicate Runs(g: Guest, ops: seq<Op>, g': Guest)
    requires Framed(g)
    decreases |ops|
  {
    if ops == [] then g' == g
    else ValidOp(g, ops[0]) && Step(g, ops[0]).Ok? && Runs(Step(g, ops[0]).value, ops[1..], g')
  }

  /** No page is copied onto itself on the way while nothing else maps its frame. */
  ghost predicate SaneRun(g: Guest, ops: seq<Op>, g': Guest)
    requires Framed(g) && Runs(g, ops, g')
    decreases |ops|
  {
    ops != [] ==> SaneOp(g, ops[0]) && SaneRun(Step(g, ops[0]).value, ops[1..], g')
  }

  ghost predicate FaithfulRun(g: Guest, ops: seq<Op>, g': Guest)
    requires Framed(g) && Runs(g, ops, g')
    decreases |ops|
  {
    ops != [] ==> Faithful(g, ops[0]) && FaithfulRun(Step(g, ops[0]).value, ops[1..], g')
  }

  ghost function HeldRun(g: Guest, held: map<nat, nat>, ops: seq<Op>, g': Guest): map<nat, nat>
    requires Framed(g) && Runs(g, ops, g')
    decreases |ops|
  {
    if ops == [] then held else HeldRun(Step(g, ops[0]).value, HeldAfter(g, held, ops[0]), ops[1..], g')
  }

  /** Everything that holds in every reachable state. */
  ghost predicate Sound(g: Guest, held: map<nat, nat>) {
    Books(g, held) && Windowed(g) && Apart(g)
  }

  lemma StepSound(g: Guest, held: map<nat, nat>, op: Op, g': Guest)
    requires Sound(g, held) && ValidOp(g, op) && SaneOp(g, op) && Step(g, op) == Ok(g')
    ensures Sound(g', HeldAfter(g, held, op))
  {
    hide Sized, Trees, Counted, Pooled, Leaves, Windowed, Apart, Step, HeldAfter, SaneOp;
    StepBooksIff(g, held, op, g');
    StepWindowed(g, held, op, g');
    StepApart(g, held, op, g');
  }

  /** Over every sane run: counts exact up to what was leaked, free frames free, spaces apart. */
  lemma {:induction false} RunSound(g: Guest, held: map<nat, nat>, ops: seq<Op>, g': Guest)
    requires Sound(g, held) && Runs(g, ops, g') && SaneRun(g, ops, g')
    ensures Sound(g', HeldRun(g, held, ops, g'))
    decreases |ops|
  {
    hide Trees, Counted, Pooled, Leaves, Windowed, Apart, Step, ValidOp, SaneOp, HeldAfter;
    if ops != [] {
      var g1 := Step(g, ops[0]).value;
      StepSound(g, held, ops[0], g1);
      RunSound(g1, HeldAfter(g, held, ops[0]), ops[1..], g');
    }
  }

  /** What soundness says of the allocator: a frame on the free list is mapped by no page of any
      space, and the frame handed out next is one such and reads as zeros. */
  lemma FreshFrames(g: Guest, held: map<nat, nat>, f: nat, s: nat, v: nat)
    requires Sound(g, held) && f < FRAMES && s < |g.dirs| && v < USER_PAGES
    ensures f in g.pool.free ==> g.bytes[f] == Zeros() && !(g.PteAt(s, v).present && g.PteAt(s, v).frame == f)
    ensures Alloc(g, Data).Ok? ==>
      var n := Alloc(g, Data).value.1;
      n < FRAMES && g.bytes[n] == Zeros() && !(g.PteAt(s, v).present && g.PteAt(s, v).frame == n)
  {
    if Alloc(g, Data).Ok? { AllocExact(g, Data); }
    assert g.kind[f].Unused? <==> !InUse(g.pool, f);
  }

  /** The operation changes what space `s` itself sees. */
  predicate Edits(op: Op, s: nat) {
    !op.NewOp? && !op.ForkOp? && !op.LoadOp? && op.s == s
  }

  /** What one space does, no other space sees: no alias, device window or teardown excepted. */
  lemma StepPrivate(g: Guest, held: map<nat, nat>, op: Op, g': Guest, s: nat, v: nat)
    requires Sound(g, held) && ValidOp(g, op) && SaneOp(g, op) && Step(g, op) == Ok(g') && s < |g.dirs|
    requires v < USER_PAGES && !Edits(op, s)
    ensures s < |g'.dirs| && View(g', s, v) == View(g, s, v)
  {
    hide Trees, Counted, Pooled, Leaves, Windowed, Apart, View, ForkSpace, Store, Load, MapFresh, Unmap, MapTrap;
    hide CopyPage, SwapPage, ClearPages, NewSpace;
    match op
    case ForkOp(t) =>
      ForkBooks(g, held, t, g');
      ForkViews(g, g', t, s, v);
    case StoreOp(t, w, off, b) =>
      var _ := StoreStep(g, held, t, w, off, b, g');
      StoreViews(g, held, t, w, off, b, g', s, v);
    case LoadOp(t, w) => LoadEdit(g, held, t, w, g');
    case FreshOp(t, w) => var _ := MapFreshEdit(g, held, t, w, g');
    case UnmapOp(t, w) => UnmapEdit(g, held, t, w, g');
    case TrapOp(t, w) => MapTrapEdit(g, held, t, w, g');
    case CopyOp(t, src, dst) => CopyEdit(g, held, t, src, dst, g');
    case SwapOp(t, a, b) =>
      SwapEdit(g, held, t, a, b, g');
      SwappedViews(g, g', t, a, b, s, v);
    case ClearOp(t) => ClearEdit(g, held, t, USER_PAGES, g');
    case NewOp =>
      NewSpaceBooks(g, held, g');
      OpenedView(g, g', s, v);
  }

  lemma OpenedView(g: Guest, g': Guest, s: nat, v: nat)
    requires Opened(g, g') && s < |g.dirs| && v < USER_PAGES
    ensures View(g', s, v) == View(g, s, v)
  {
    assert g'.PteAt(s, v) == g.PteAt(s, v);
  }

  /** A space that does not edit its own memory keeps seeing it, whatever all the others do. */
  lemma {:induction false} RunPrivate(g: Guest, held: map<nat, nat>, ops: seq<Op>, g': Guest, s: nat, v: nat)
    requires Sound(g, held) && Runs(g, ops, g') && SaneRun(g, ops, g') && s < |g.dirs| && v < USER_PAGES
    requires forall i :: 0 <= i < |ops| ==> !Edits(ops[i], s)
    ensures View(g', s, v) == View(g, s, v)
    decreases |ops|
  {
    hide Trees, Counted, Pooled, Leaves, Windowed, Apart, Step, ValidOp, SaneOp, HeldAfter, View, Edits;
    if ops != [] {
      var g1 := Step(g, ops[0]).value;
      StepSound(g, held, ops[0], g1);
      StepPrivate(g, held, ops[0], g1, s, v);
      RunPrivate(g1, HeldAfter(g, held, ops[0]), ops[1..], g', s, v);
    }
  }

  /** Copy-on-write cannot be told from copying over any faithful run. */
  lemma {:induction false} RunRefines(g: Guest, held: map<nat, nat>, ops: seq<Op>, g': Guest, v: seq<Image<int>>)
    requires Sound(g, held) && Runs(g, ops, g') && SaneRun(g, ops, g') && FaithfulRun(g, ops, g') && Shows(g, v)
    ensures Shows(g', AfterActs(v, Pages(), ActsOf(ops)))
    decreases |ops|
  {
    hide Trees, Counted, Pooled, Leaves, Windowed, Apart, Step, ValidOp, SaneOp, HeldAfter, Faithful, Shows, NextImages;
    hide ActValid, Pages, ActOf;
    if ops != [] {
      var g1 := Step(g, ops[0]).value;
      StepSound(g, held, ops[0], g1);
      StepRefines(g, held, ops[0], g1, v);
      RunRefines(g1, HeldAfter(g, held, ops[0]), ops[1..], g', NextImages(v, Pages(), ActOf(ops[0])));
      assert ActsOf(ops)[1..] == ActsOf(ops[1..]);
    }
  }

  // ---- From boot ----

  /** Before the first space: some frames are the kernel's own, the rest were never handed out. */
  ghost predicate Booted(g: Guest) {
    && Sized(g) && Pooled(g) && g.dirs == [] && g.pool.shared == map[]
    && (forall f: nat {:trigger g.kind[f]} :: f < FRAMES ==> g.kind[f] == Fixed || g.kind[f] == Unused)
    && (forall w {:trigger g.windows[w]} :: 0 <= w < |g.windows| ==>
          USER_PAGES <= g.windows[w].page < ALL_PAGES && g.windows[w].frame < FRAMES &&
            g.kind[g.windows[w].frame] == Fixed)
  }

  lemma BootSound(g: Guest)
    requires Booted(g)
    ensures Sound(g, map[]) && Shows(g, [])
  {
  }

  /** No device windows, and no frame mapped twice in a space. */
  ghost predicate Plain(g: Guest) {
    && (forall s: nat, v: nat {:trigger g.PteAt(s, v)} :: s < |g.dirs| && v < USER_PAGES ==>
         g.PteAt(s, v).present || !g.PteAt(s, v).pcd)
    && (forall s: nat, v: nat, v': nat {:trigger Aliased(g, s, v, v')} ::
         s < |g.dirs| && v < USER_PAGES && v' < USER_PAGES && v != v' ==> !Aliased(g, s, v, v'))
  }

  /** Everything but aliasing, device windows, and stores into the null guard. */
  predicate Ordinary(op: Op) {
    !op.CopyOp? && !op.TrapOp? && (op.StoreOp? ==> op.v >= NULL_GUARD)
  }

  lemma PlainSet(g: Guest, g': Guest, s: nat, v: nat, e: Pte)
    requires Plain(g) && LeafSet(g, g', s, v, e) && s < |g.dirs| && v < USER_PAGES
    requires if e.present then Private(g, s, v, e.frame) || (g.PteAt(s, v).present && g.PteAt(s, v).frame == e.frame)
      else !e.pcd
    ensures Plain(g')
  {
    forall s': nat, v': nat | s' < |g'.dirs| && v' < USER_PAGES
      ensures g'.PteAt(s', v').present || !g'.PteAt(s', v').pcd
    {
      assert g'.PteAt(s', v') == if s' == s && v' == v then e else g.PteAt(s', v');
    }
    forall s': nat, v': nat, w: nat | s' < |g'.dirs| && v' < USER_PAGES && w < USER_PAGES && v' != w
      ensures !Aliased(g', s', v', w)
    {
      assert g'.PteAt(s', v') == if s' == s && v' == v then e else g.PteAt(s', v');
      assert g'.PteAt(s', w) == if s' == s && w == v then e else g.PteAt(s', w);
      assert !Aliased(g, s', v', w);
    }
  }

  lemma SwapPlain(g: Guest, g': Guest, s: nat, a: nat, b: nat)
    requires Plain(g) && Swapped(g, g', s, a, b) && s < |g.dirs| && a < USER_PAGES && b < USER_PAGES
    ensures Plain(g')
  {
    forall s': nat, v: nat | s' < |g'.dirs| && v < USER_PAGES ensures g'.PteAt(s', v).present || !g'.PteAt(s', v).pcd {
      assert g'.PteAt(s', v) == g.PteAt(s', if s' == s then Partner(v, a, b) else v);
    }
    forall s': nat, v: nat, w: nat | s' < |g'.dirs| && v < USER_PAGES && w < USER_PAGES && v != w
      ensures !Aliased(g', s', v, w)
    {
      var v0, w0 := if s' == s then Partner(v, a, b) else v, if s' == s then Partner(w, a, b) else w;
      assert g'.PteAt(s', v) == g.PteAt(s', v0) && g'.PteAt(s', w) == g.PteAt(s', w0) && !Aliased(g, s', v0, w0);
    }
  }

  lemma ClearPlain(g: Guest, g': Guest, s: nat)
    requires Plain(g) && Cleared(g, g', s, USER_PAGES)
    ensures Plain(g')
  {
    forall s': nat, v: nat | s' < |g'.dirs| && v < USER_PAGES
      ensures g'.PteAt(s', v) == NONE || g'.PteAt(s', v) == g.PteAt(s', v)
    {
    }
    forall s': nat, v: nat, w: nat | s' < |g'.dirs| && v < USER_PAGES && w < USER_PAGES && v != w
      ensures !Aliased(g', s', v, w)
    {
      assert !Aliased(g, s', v, w);
    }
  }

  lemma ForkPlain(g: Guest, g': Guest, s: nat)
    requires Plain(g) && Forked(g, g', s) && s < |g.dirs|
    ensures Plain(g')
  {
    forall s': nat, v: nat, w: nat | s' < |g'.dirs| && v < USER_PAGES && w < USER_PAGES && v != w
      ensures !Aliased(g', s', v, w) && (g'.PteAt(s', v).present || !g'.PteAt(s', v).pcd)
    {
      var s0 := if s' == |g.dirs| then s else s';
      assert !Aliased(g, s0, v, w);
      assert g'.PteAt(s', v).present <==> g.PteAt(s0, v).present;
    }
    forall s': nat, v: nat | s' < |g'.dirs| && v < USER_PAGES ensures g'.PteAt(s', v).present || !g'.PteAt(s', v).pcd {
      assert g.PteAt(if s' == |g.dirs| then s else s', v).present || !g.PteAt(if s' == |g.dirs| then s else s', v).pcd;
    }
  }

  lemma NewPlain(g: Guest, g': Guest)
    requires Plain(g) && Opened(g, g')
    ensures Plain(g')
  {
    forall s': nat, v: nat | s' < |g'.dirs| && v < USER_PAGES
      ensures g'.PteAt(s', v) == if s' == |g.dirs| then NONE else g.PteAt(s', v)
    {
    }
    forall s': nat, v: nat, w: nat | s' < |g'.dirs| && v < USER_PAGES && w < USER_PAGES && v != w
      ensures !Aliased(g', s', v, w)
    {
      if s' < |g.dirs| { assert !Aliased(g, s', v, w); }
    }
  }

  lemma StorePlain(g: Guest, held: map<nat, nat>, s: nat, v: nat, off: nat, b: bv8, g': Guest)
    requires Books(g, held) && Plain(g) && s < |g.dirs| && v < USER_PAGES && off < PAGE_SIZE
    requires Store(g, s, v, off, b) == Ok(g')
    ensures Plain(g')
  {
    hide Trees, Counted, Pooled, Leaves, Store, Plain;
    var g1 := StoreStep(g, held, s, v, off, b, g');
    if Takes(g, s, v) {
      PlainSet(g, g1, s, v, g1.PteAt(s, v));
      FillPlain(g1, g1.PteAt(s, v).frame, g1.bytes[g1.PteAt(s, v).frame][off := b]);
    }
  }

  lemma FillPlain(g: Guest, f: nat, b: Bytes)
    requires Plain(g) && f < |g.bytes|
    ensures Plain(Fill(g, f, b))
  {
    var g' := Fill(g, f, b);
    assert forall s: nat, v: nat {:trigger g'.PteAt(s, v)} :: g'.PteAt(s, v) == g.PteAt(s, v);
    assert forall s: nat, v: nat, w: nat {:trigger Aliased(g', s, v, w)} :: Aliased(g', s, v, w) == Aliased(g, s, v, w);
  }

  lemma StepPlain(g: Guest, held: map<nat, nat>, op: Op, g': Guest)
    requires Sound(g, held) && Plain(g) && ValidOp(g, op) && Ordinary(op) && Step(g, op) == Ok(g')
    ensures Plain(g')
  {
    hide Trees, Counted, Pooled, Leaves, Windowed, Apart, Plain, ForkSpace, Store, Load, MapFresh, Unmap, SwapPage;
    hide ClearPages, NewSpace;
    match op
    case ForkOp(s) =>
      ForkBooks(g, held, s, g');
      ForkPlain(g, g', s);
    case StoreOp(s, v, off, b) => StorePlain(g, held, s, v, off, b, g');
    case LoadOp(s, v) =>
      LoadEdit(g, held, s, v, g');
      if SameLeaves(g, g') {
        assert LeafSet(g, g', s, v, g.PteAt(s, v));
        PlainSame(g, g');
      } else {
        var f :| LeafSet(g, g', s, v, Mapping(f, true)) && Unmapped(g, f);
        PlainSet(g, g', s, v, Mapping(f, true));
      }
    case FreshOp(s, v) =>
      var f := MapFreshEdit(g, held, s, v, g');
      PlainSet(g, g', s, v, Mapping(f, true));
    case UnmapOp(s, v) =>
      UnmapEdit(g, held, s, v, g');
      PlainSet(g, g', s, v, NONE);
    case SwapOp(s, a, b) =>
      SwapEdit(g, held, s, a, b, g');
      SwapPlain(g, g', s, a, b);
    case ClearOp(s) =>
      ClearEdit(g, held, s, USER_PAGES, g');
      ClearPlain(g, g', s);
    case NewOp =>
      NewSpaceBooks(g, held, g');
      NewPlain(g, g');
  }

  lemma PlainSame(g: Guest, g': Guest)
    requires Plain(g) && SameLeaves(g, g')
    ensures Plain(g')
  {
    forall s: nat, v: nat | s < |g.dirs| && v < USER_PAGES ensures g'.PteAt(s, v) == g.PteAt(s, v) { }
    forall s: nat, v: nat, w: nat | s < |g'.dirs| && v < USER_PAGES && w < USER_PAGES && v != w
      ensures !Aliased(g', s, v, w)
    {
      assert !Aliased(g, s, v, w);
    }
  }

  lemma OrdinaryFaithful(g: Guest, op: Op)
    requires ValidOp(g, op) && Ordinary(op) && Plain(g)
    ensures SaneOp(g, op) && Faithful(g, op)
  {
    if op.ForkOp? || op.ClearOp? {
      forall v: nat | v < USER_PAGES ensures !View(g, op.s, v).cell.Trap? {
        assert g.PteAt(op.s, v).present || !g.PteAt(op.s, v).pcd;
      }
    }
  }

  lemma {:induction false} OrdinaryRun(g: Guest, held: map<nat, nat>, ops: seq<Op>, g': Guest)
    requires Sound(g, held) && Plain(g) && Runs(g, ops, g') && forall i :: 0 <= i < |ops| ==> Ordinary(ops[i])
    ensures SaneRun(g, ops, g') && FaithfulRun(g, ops, g')
    decreases |ops|
  {
    hide Trees, Counted, Pooled, Leaves, Windowed, Apart, Plain, Step, ValidOp, SaneOp, HeldAfter, Faithful;
    if ops != [] {
      var g1 := Step(g, ops[0]).value;
      OrdinaryFaithful(g, ops[0]);
      StepSound(g, held, ops[0], g1);
      StepPlain(g, held, ops[0], g1);
      OrdinaryRun(g1, HeldAfter(g, held, ops[0]), ops[1..], g');
    }
  }

  /** From boot, any interleaving of ordinary operations shows every space exactly what eager
      copying would. */
  lemma LazyForkIsEager(g: Guest, ops: seq<Op>, g': Guest)
    requires Booted(g) && Runs(g, ops, g') && forall i :: 0 <= i < |ops| ==> Ordinary(ops[i])
    ensures Shows(g', AfterActs([], Pages(), ActsOf(ops)))
  {
    hide Trees, Counted, Pooled, Leaves, Windowed, Apart, Step, ValidOp, SaneOp, Faithful, SaneRun, FaithfulRun;
    hide AfterActs, Runs, Ordinary;
    BootSound(g);
    OrdinaryRun(g, map[], ops, g');
    RunRefines(g, map[], ops, g', []);
  }
}
