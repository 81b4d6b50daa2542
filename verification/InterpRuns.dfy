/** Whole runs of the interpreter backend. */
module InterpRuns {
  import opened Outcomes
  import opened ArchContract
  import opened InterpMemory
  import opened InterpOps
  import opened InterpBooks
  import opened InterpSteps
  import opened InterpEdits
  import opened InterpFork

  datatype Op =
    | ForkOp(s: nat)
    | StoreOp(s: nat, v: nat, off: nat, byte: bv8)
    | LoadOp(s: nat, v: nat)
    | FreshOp(s: nat, v: nat)
    | UnmapOp(s: nat, v: nat)
    | TrapOp(s: nat, v: nat)
    | CopyOp(s: nat, src: nat, dst: nat)
    | SwapOp(s: nat, src: nat, dst: nat)
    | ClearOp(s: nat)
    | NewOp

  predicate ValidOp(g: Guest, op: Op) {
    && (!op.NewOp? ==> op.s < |g.dirs|)
    && (op.StoreOp? || op.LoadOp? || op.FreshOp? || op.UnmapOp? || op.TrapOp? ==> op.v < USER_PAGES)
    && (op.StoreOp? ==> op.off < PAGE_SIZE)
    && (op.CopyOp? || op.SwapOp? ==> op.src < USER_PAGES && op.dst < USER_PAGES)
  }

  function Step(g: Guest, op: Op): (r: Halting<Guest>)
    requires Framed(g) && ValidOp(g, op)
    ensures r.Ok? ==> Framed(r.value)
  {
    match op
    case ForkOp(s) => ForkSpace(g, s)
    case StoreOp(s, v, off, b) => Store(g, s, v, off, b)
    case LoadOp(s, v) => Load(g, s, v)
    case FreshOp(s, v) => MapFresh(g, s, v)
    case UnmapOp(s, v) => Unmap(g, s, v)
    case TrapOp(s, v) => MapTrap(g, s, v)
    case CopyOp(s, src, dst) => CopyPage(g, s, src, dst)
    case SwapOp(s, a, b) => SwapPage(g, s, a, b)
    case ClearOp(s) => ClearSpace(g, s)
    case NewOp => NewSpace(g)
  }

  /** References in the kernel's hands after a step: committing or unmapping a page that is
      mapped leaks the reference of the frame that was there. */
  function HeldAfter(g: Guest, held: map<nat, nat>, op: Op): map<nat, nat> {
    if op.FreshOp? || op.UnmapOp? then Carry(held, g.PteAt(op.s, op.v)) else held
  }

  ghost predicate SaneOp(g: Guest, op: Op) {
    op.CopyOp? ==> !SelfCopy(g, op.s, op.src, op.dst)
  }

  // ---- Counts ----

  lemma LoadEdit(g: Guest, held: map<nat, nat>, s: nat, v: nat, g': Guest)
    requires Books(g, held) && s < |g.dirs| && v < USER_PAGES && Load(g, s, v) == Ok(g')
    ensures Books(g', held) && SameViews(g, g')
    ensures SameLeaves(g, g') || exists f :: LeafSet(g, g', s, v, Mapping(f, true)) && Unmapped(g, f)
  {
    hide Trees, Counted, Pooled, MapFresh;
    if !g.PteAt(s, v).present && !Refuses(g, s, v) { var f := MapFreshEdit(g, held, s, v, g'); }
  }

  /** Every count stays exact, step by step, unless a page is copied onto itself. */
  lemma StepBooksIff(g: Guest, held: map<nat, nat>, op: Op, g': Guest)
    requires Books(g, held) && Windowed(g) && ValidOp(g, op) && Step(g, op) == Ok(g')
    ensures Books(g', HeldAfter(g, held, op)) <==> SaneOp(g, op)
  {
    hide Sized, Trees, Counted, Pooled, Leaves, Windowed, ForkSpace, Store, Load, MapFresh, Unmap, MapTrap, CopyPage;
    hide SwapPage, ClearPages, NewSpace, Carry;
    hide Swapped, Cleared, Forked, Opened, Edited, SelfCopy;
    match op
    case ForkOp(s) => ForkBooks(g, held, s, g');
    case StoreOp(s, v, off, b) => var _ := StoreStep(g, held, s, v, off, b, g');
    case LoadOp(s, v) => LoadEdit(g, held, s, v, g');
    case FreshOp(s, v) => var _ := MapFreshEdit(g, held, s, v, g');
    case UnmapOp(s, v) => UnmapEdit(g, held, s, v, g');
    case TrapOp(s, v) => MapTrapEdit(g, held, s, v, g');
    case CopyOp(s, src, dst) => CopyBooksIff(g, held, s, src, dst, g');
    case SwapOp(s, a, b) => SwapEdit(g, held, s, a, b, g');
    case ClearOp(s) => ClearEdit(g, held, s, USER_PAGES, g');
    case NewOp => NewSpaceBooks(g, held, g');
  }

  lemma StoreWindowed(g: Guest, held: map<nat, nat>, s: nat, v: nat, off: nat, b: bv8, g': Guest)
    requires Books(g, held) && Windowed(g) && s < |g.dirs| && v < USER_PAGES && off < PAGE_SIZE
    requires Store(g, s, v, off, b) == Ok(g')
    ensures Windowed(g')
  {
    hide Trees, Counted, Pooled, Leaves, Windowed, Store;
    var g1 := StoreStep(g, held, s, v, off, b, g');
    if Takes(g, s, v) {
      WindowedSet(g, g1, s, v, g1.PteAt(s, v));
      FillLeaves(g1, g1.PteAt(s, v).frame, g1.bytes[g1.PteAt(s, v).frame][off := b]);
      WindowedSame(g1, g');
    }
  }

  lemma FillLeaves(g: Guest, f: nat, b: Bytes)
    requires f < |g.bytes|
    ensures SameLeaves(g, Fill(g, f, b))
  {
    assert forall s: nat, v: nat {:trigger Fill(g, f, b).PteAt(s, v)} :: Fill(g, f, b).PteAt(s, v) == g.PteAt(s, v);
  }

  lemma StepWindowed(g: Guest, held: map<nat, nat>, op: Op, g': Guest)
    requires Books(g, held) && Windowed(g) && ValidOp(g, op) && SaneOp(g, op) && Step(g, op) == Ok(g')
    ensures Windowed(g')
  {
    hide Trees, Counted, Pooled, Leaves, Windowed, ForkSpace, Store, Load, MapFresh, Unmap, MapTrap, CopyPage, SwapPage;
    hide ClearPages, NewSpace;
    match op
    case ForkOp(s) => ForkBooks(g, held, s, g');
    case StoreOp(s, v, off, b) => StoreWindowed(g, held, s, v, off, b, g');
    case LoadOp(s, v) =>
      LoadEdit(g, held, s, v, g');
      if SameLeaves(g, g') { WindowedSame(g, g'); } else {
        var f :| LeafSet(g, g', s, v, Mapping(f, true)) && Unmapped(g, f);
        WindowedSet(g, g', s, v, Mapping(f, true));
      }
    case FreshOp(s, v) =>
      var f := MapFreshEdit(g, held, s, v, g');
      WindowedSet(g, g', s, v, Mapping(f, true));
    case UnmapOp(s, v) =>
      UnmapEdit(g, held, s, v, g');
      WindowedSet(g, g', s, v, NONE);
    case TrapOp(s, v) =>
      MapTrapEdit(g, held, s, v, g');
      WindowedSet(g, g', s, v, TRAP);
    case CopyOp(s, src, dst) =>
      CopyEdit(g, held, s, src, dst, g');
      WindowedSet(g, g', s, dst, Copied(g.PteAt(s, src)));
    case SwapOp(s, a, b) =>
      SwapEdit(g, held, s, a, b, g');
      SwapWindowed(g, g', s, a, b);
    case ClearOp(s) =>
      ClearEdit(g, held, s, USER_PAGES, g');
      ClearWindowed(g, g', s);
    case NewOp => NewSpaceBooks(g, held, g');
  }

  lemma SwapWindowed(g: Guest, g': Guest, s: nat, a: nat, b: nat)
    requires Windowed(g) && Swapped(g, g', s, a, b) && a < USER_PAGES && b < USER_PAGES
    ensures Windowed(g')
  {
    forall s': nat, v: nat | s' < |g'.dirs| && USER_PAGES <= v < ALL_PAGES
      ensures g'.PteAt(s', v).present <==> IsWindow(g', v)
    {
      assert g'.PteAt(s', v) == g.PteAt(s', v) && IsWindow(g', v) == IsWindow(g, v);
    }
  }

  lemma ClearWindowed(g: Guest, g': Guest, s: nat)
    requires Windowed(g) && Cleared(g, g', s, USER_PAGES)
    ensures Windowed(g')
  {
    forall s': nat, v: nat | s' < |g'.dirs| && USER_PAGES <= v < ALL_PAGES
      ensures g'.PteAt(s', v).present <==> IsWindow(g', v)
    {
      assert g'.PteAt(s', v) == g.PteAt(s', v) && IsWindow(g', v) == IsWindow(g, v);
    }
  }

  // ---- Isolation ----

  lemma CopyFits(g: Guest, s: nat, src: nat, dst: nat)
    requires Apart(g) && s < |g.dirs| && src < USER_PAGES && dst < USER_PAGES
    ensures Fitting(g, s, dst, Copied(g.PteAt(s, src)))
  {
  }

  lemma SwapApart(g: Guest, g': Guest, s: nat, a: nat, b: nat)
    requires Apart(g) && Swapped(g, g', s, a, b) && s < |g.dirs| && a < USER_PAGES && b < USER_PAGES
    ensures Apart(g')
  {
    forall s1: nat, v1: nat, s2: nat, v2: nat | s1 < |g.dirs| && v1 < USER_PAGES && s2 < |g.dirs| && v2 < USER_PAGES
      && g'.PteAt(s1, v1).present && g'.PteAt(s1, v1).writable && g'.PteAt(s2, v2).present
      && g'.PteAt(s2, v2).frame == g'.PteAt(s1, v1).frame
      ensures s2 == s1
    {
      assert g'.PteAt(s1, v1) == g.PteAt(s1, if s1 == s then Partner(v1, a, b) else v1);
      assert g'.PteAt(s2, v2) == g.PteAt(s2, if s2 == s then Partner(v2, a, b) else v2);
    }
  }

  lemma ClearApart(g: Guest, g': Guest, s: nat)
    requires Apart(g) && Cleared(g, g', s, USER_PAGES)
    ensures Apart(g')
  {
    forall s1: nat, v1: nat, s2: nat, v2: nat | s1 < |g.dirs| && v1 < USER_PAGES && s2 < |g.dirs| && v2 < USER_PAGES
      && g'.PteAt(s1, v1).present && g'.PteAt(s1, v1).writable && g'.PteAt(s2, v2).present
      && g'.PteAt(s2, v2).frame == g'.PteAt(s1, v1).frame
      ensures s2 == s1
    {
      assert g'.PteAt(s1, v1) == g.PteAt(s1, v1) && g'.PteAt(s2, v2) == g.PteAt(s2, v2);
    }
  }

  lemma NewApart(g: Guest, g': Guest)
    requires Apart(g) && Opened(g, g')
    ensures Apart(g')
  {
    forall s1: nat, v1: nat, s2: nat, v2: nat | s1 < |g'.dirs| && v1 < USER_PAGES && s2 < |g'.dirs| && v2 < USER_PAGES
      && g'.PteAt(s1, v1).present && g'.PteAt(s1, v1).writable && g'.PteAt(s2, v2).present
      && g'.PteAt(s2, v2).frame == g'.PteAt(s1, v1).frame
      ensures s2 == s1
    {
      assert g'.PteAt(s1, v1) == g.PteAt(s1, v1) && g'.PteAt(s2, v2) == g.PteAt(s2, v2);
    }
  }

  lemma ApartSameLeaves(g: Guest, g': Guest)
    requires Apart(g) && SameLeaves(g, g')
    ensures Apart(g')
  {
    forall s: nat, v: nat | s < |g.dirs| && v < USER_PAGES ensures g'.PteAt(s, v) == g.PteAt(s, v) { }
  }

  /** No step lets a space write a frame that another space maps. */
  lemma StepApart(g: Guest, held: map<nat, nat>, op: Op, g': Guest)
    requires Books(g, held) && Windowed(g) && Apart(g) && ValidOp(g, op) && SaneOp(g, op) && Step(g, op) == Ok(g')
    ensures Apart(g')
  {
    hide Trees, Counted, Pooled, Leaves, Windowed, Apart, ForkSpace, Store, Load, MapFresh, Unmap, MapTrap, CopyPage;
    hide SwapPage, ClearPages, NewSpace;
    match op
    case ForkOp(s) =>
      ForkBooks(g, held, s, g');
      ForkApart(g, g', s);
    case StoreOp(s, v, off, b) => StoreApart(g, held, s, v, off, b, g');
    case LoadOp(s, v) =>
      LoadEdit(g, held, s, v, g');
      if SameLeaves(g, g') { ApartSameLeaves(g, g'); } else {
        var f :| LeafSet(g, g', s, v, Mapping(f, true)) && Unmapped(g, f);
        ApartSet(g, g', s, v, Mapping(f, true));
      }
    case FreshOp(s, v) =>
      var f := MapFreshEdit(g, held, s, v, g');
      ApartSet(g, g', s, v, Mapping(f, true));
    case UnmapOp(s, v) =>
      UnmapEdit(g, held, s, v, g');
      ApartSet(g, g', s, v, NONE);
    case TrapOp(s, v) =>
      MapTrapEdit(g, held, s, v, g');
      ApartSet(g, g', s, v, TRAP);
    case CopyOp(s, src, dst) =>
      CopyEdit(g, held, s, src, dst, g');
      CopyFits(g, s, src, dst);
      ApartSet(g, g', s, dst, Copied(g.PteAt(s, src)));
    case SwapOp(s, a, b) =>
      SwapEdit(g, held, s, a, b, g');
      SwapApart(g, g', s, a, b);
    case ClearOp(s) =>
      ClearEdit(g, held, s, USER_PAGES, g');
      ClearApart(g, g', s);
    case NewOp =>
      NewSpaceBooks(g, held, g');
      NewApart(g, g');
  }
}
