/** What no operation on the two-level tables disturbs: the four-level tables, and, as long as
    the generation stands still, the two-level tables themselves. */
module InterpSteady {
  import opened Outcomes
  import opened ArchContract
  import opened InterpPhys
  import opened InterpMemory
  import opened InterpOps
  import opened InterpBooks
  import opened InterpSteps
  import opened InterpEdits
  import opened InterpFork
  import opened InterpRuns

  predicate IsTwin(k: Kind) {
    k.Pml4? || k.Pdpt? || k.Pd64? || k.Pt64?
  }

  predicate IsTable(k: Kind) {
    k.Dir? || k.Table?
  }

  ghost predicate Steady(g: Guest, g': Guest) {
    && |g'.kind| == |g.kind| == |g.tab| == |g'.tab| && g.dirs <= g'.dirs && g'.gen >= g.gen
    && forall f: nat {:trigger g'.kind[f]} {:trigger g'.tab[f]} :: f < |g.kind| ==>
         && (IsTwin(g.kind[f]) ==> g'.kind[f] == g.kind[f] && g'.tab[f] == g.tab[f])
         && (g'.gen == g.gen && IsTable(g.kind[f]) ==> g'.tab[f] == g.tab[f])
  }

  lemma SteadyTrans(g: Guest, g1: Guest, g': Guest)
    requires Steady(g, g1) && Steady(g1, g')
    requires forall f: nat {:trigger g1.kind[f]} :: f < |g.kind| && IsTable(g.kind[f]) ==> IsTable(g1.kind[f])
    ensures Steady(g, g')
  {
    forall f: nat | f < |g.kind|
      ensures (IsTwin(g.kind[f]) ==> g'.kind[f] == g.kind[f] && g'.tab[f] == g.tab[f])
      ensures (g'.gen == g.gen && IsTable(g.kind[f]) ==> g'.tab[f] == g.tab[f])
    {
      assert IsTwin(g.kind[f]) ==> g1.kind[f] == g.kind[f] && g1.tab[f] == g.tab[f];
    }
  }

  /** An unchanged generation means an unchanged translation. */
  lemma SteadyPtes(g: Guest, g': Guest, s: nat, v: nat)
    requires Wooded(g) && Steady(g, g') && g'.gen == g.gen && s < |g.dirs| && v < ALL_PAGES
    ensures g'.PteAt(s, v) == g.PteAt(s, v)
  {
    assert g.kind[g.dirs[s]] == Dir(s) && g'.dirs[s] == g.dirs[s];
    assert g'.tab[g.dirs[s]] == g.tab[g.dirs[s]];
    var d := g.PdeAt(s, v / SLOTS);
    if d.present { assert g.kind[d.frame] == Table(s, v / SLOTS) && g'.tab[d.frame] == g.tab[d.frame]; }
  }

  /** Steady, and tables stay tables. */
  ghost predicate Calm(g: Guest, g': Guest) {
    Steady(g, g') && forall f: nat {:trigger g'.kind[f]} :: f < |g.kind| && IsTable(g.kind[f]) ==>
      g'.kind[f] == g.kind[f]
  }

  lemma CalmTrans(g: Guest, g1: Guest, g': Guest)
    requires Calm(g, g1) && Calm(g1, g')
    ensures Calm(g, g')
  {
    SteadyTrans(g, g1, g');
    forall f: nat | f < |g.kind| && IsTable(g.kind[f])
      ensures g'.kind[f] == g.kind[f]
    {
      assert g1.kind[f] == g.kind[f];
    }
  }

  lemma SetPteCalm(g: Guest, s: nat, v: nat, e: Pte)
    requires Wooded(g) && s < |g.dirs| && v < ALL_PAGES && HasTable(g, s, v)
    ensures Calm(g, SetPte(g, s, v, e))
  {
    assert g.kind[g.PdeAt(s, v / SLOTS).frame] == Table(s, v / SLOTS);
  }

  lemma AllocCalm(g: Guest, k: Kind, n: nat)
    requires Sized(g) && Pooled(g) && !k.Unused?
    ensures Alloc(g, k).Ok? ==> Calm(g, Alloc(g, k).value.0)
    ensures AllocTable(g, k, n).Ok? ==> Calm(g, AllocTable(g, k, n).value.0)
  {
    if Alloc(g, k).Ok? { AllocExact(g, k); }
  }

  lemma AddTableCalm(g: Guest, held: map<nat, nat>, s: nat, v: nat, g': Guest)
    requires Books(g, held) && s < |g.dirs| && v < ALL_PAGES && AddTable(g, s, v) == Ok(g')
    ensures Calm(g, g')
  {
    hide Leaves, Counted;
    AllocCalm(g, Table(s, v / SLOTS), SLOTS);
    assert g.kind[g.dirs[s]] == Dir(s);
  }

  lemma EnsureTableCalm(g: Guest, held: map<nat, nat>, s: nat, v: nat, g': Guest)
    requires Books(g, held) && s < |g.dirs| && v < ALL_PAGES && EnsureTable(g, s, v) == Ok(g')
    ensures Calm(g, g')
  {
    hide Trees, Pooled, Leaves, Counted, AddTable;
    if !g.PdeAt(s, v / SLOTS).present { AddTableCalm(g, held, s, v, g'); }
  }

  lemma MapPteCalm(g: Guest, held: map<nat, nat>, s: nat, v: nat, e: Pte, g': Guest)
    requires Books(g, held) && s < |g.dirs| && v < ALL_PAGES && MapPte(g, s, v, e) == Ok(g')
    ensures Calm(g, g')
  {
    hide Trees, Pooled, Leaves, Counted, EnsureTable, SetPte, Calm;
    var g1 := EnsureTable(g, s, v).value;
    EnsureTableCalm(g, held, s, v, g1);
    EnsureTableBooks(g, held, s, v, g1);
    SetPteCalm(g1, s, v, e);
    CalmTrans(g, g1, g');
  }

  lemma ReleaseCalm(g: Guest, f: nat)
    requires Framed(g) && f < FRAMES && g.kind[f].Data?
    ensures Calm(g, Release(g, f))
  {
  }

  lemma IncRefCalm(g: Guest, f: nat)
    requires Framed(g)
    ensures Calm(g, IncRef(g, f))
  {
  }

  lemma FillCalm(g: Guest, f: nat, b: Bytes)
    requires Framed(g) && f < FRAMES
    ensures Calm(g, Fill(g, f, b))
  {
  }

  // ---- The operations ----

  lemma MapFreshCalm(g: Guest, held: map<nat, nat>, s: nat, v: nat, g': Guest)
    requires Books(g, held) && s < |g.dirs| && v < USER_PAGES && MapFresh(g, s, v) == Ok(g')
    ensures Calm(g, g')
  {
    hide Trees, Leaves, Counted, MapPte, Calm;
    AllocCalm(g, Data, 0);
    AllocBooks(g, held);
    var a := Alloc(g, Data).value;
    MapPteCalm(a.0, Hold(held, a.1), s, v, Mapping(a.1, true), g');
    CalmTrans(g, a.0, g');
  }

  lemma CowFaultCalm(g: Guest, held: map<nat, nat>, s: nat, v: nat, g': Guest)
    requires Books(g, held) && s < |g.dirs| && v < USER_PAGES && HasTable(g, s, v) && g.PteAt(s, v).present
    requires CowFault(g, s, v) == Ok(g')
    ensures Calm(g, g')
  {
    hide Leaves, Counted, SetPte, Calm, Release;
    var f := g.PteAt(s, v).frame;
    PresentHasTable(g, held, s, v);
    if f in g.pool.shared {
      AllocCalm(g, Data, 0);
      AllocBooks(g, held);
      var a := Alloc(g, Data).value;
      var g1 := Fill(a.0, a.1, g.bytes[f]);
      FillCalm(a.0, a.1, g.bytes[f]);
      CalmTrans(g, a.0, g1);
      SamePtes(a.0, g1);
      SetPteCalm(g1, s, v, Mapping(a.1, true));
      var g2 := SetPte(g1, s, v, Mapping(a.1, true));
      SetPteKinds(g1, s, v, Mapping(a.1, true));
      CalmTrans(g, g1, g2);
      ReleaseCalm(g2, f);
      CalmTrans(g, g2, g');
    } else {
      SetPteCalm(g, s, v, Mapping(f, true));
    }
  }

  lemma StoreCalm(g: Guest, held: map<nat, nat>, s: nat, v: nat, off: nat, b: bv8, g': Guest)
    requires Books(g, held) && s < |g.dirs| && v < USER_PAGES && Store(g, s, v, off, b) == Ok(g')
    ensures Calm(g, g')
  {
    hide Trees, Pooled, Leaves, Counted, MapFresh, CowFault;
    var e := g.PteAt(s, v);
    if Takes(g, s, v) {
      var g1 := (if !e.present then MapFresh(g, s, v) else if e.writable then Ok(g)
        else if HasTable(g, s, v) then CowFault(g, s, v) else Panic).value;
      if !e.present { MapFreshCalm(g, held, s, v, g1); } else if !e.writable { CowFaultCalm(g, held, s, v, g1); }
      FillCalm(g1, g1.PteAt(s, v).frame, g1.bytes[g1.PteAt(s, v).frame][off := b]);
      CalmTrans(g, g1, g');
    }
  }

  lemma MapTrapCalm(g: Guest, held: map<nat, nat>, s: nat, v: nat, g': Guest)
    requires Books(g, held) && s < |g.dirs| && v < USER_PAGES && MapTrap(g, s, v) == Ok(g')
    ensures Calm(g, g')
  {
    hide Pooled, Counted, EnsureTable, SetPte, Calm, Release;
    var g1 := EnsureTable(g, s, v).value;
    EnsureTableCalm(g, held, s, v, g1);
    EnsureTableBooks(g, held, s, v, g1);
    DropThenSet(g1, held, s, v, TRAP, g');
    CalmTrans(g, g1, g');
  }

  /** A mapped frame is given up, if there is one, and the entry is rewritten. */
  lemma DropThenSet(g: Guest, held: map<nat, nat>, s: nat, v: nat, e: Pte, g': Guest)
    requires Books(g, held) && s < |g.dirs| && v < USER_PAGES
    requires var was := g.PteAt(s, v);
      var g1 := if was.present then Release(g, was.frame) else g;
      HasTable(g1, s, v) && g' == SetPte(g1, s, v, e)
    ensures Calm(g, g')
  {
    hide Counted, SetPte, Calm;
    var was := g.PteAt(s, v);
    var g1 := if was.present then Release(g, was.frame) else g;
    if was.present {
      ReleaseCalm(g, was.frame);
      SamePtes(g, g1);
      SetPteCalm(g1, s, v, e);
      CalmTrans(g, g1, g');
    } else {
      SetPteCalm(g, s, v, e);
    }
  }

  lemma CopyCalm(g: Guest, held: map<nat, nat>, s: nat, src: nat, dst: nat, g': Guest)
    requires Books(g, held) && s < |g.dirs| && src < USER_PAGES && dst < USER_PAGES
    requires CopyPage(g, s, src, dst) == Ok(g')
    ensures Calm(g, g')
  {
    hide Trees, Pooled, Leaves, Counted, SetPte, Calm, Release;
    var was := g.PteAt(s, dst);
    if was.present {
      CopyOverCalm(g, held, s, src, dst, g');
    } else {
      var e := g.PteAt(s, src);
      if e.present {
        var g2 := MapPte(g, s, dst, Mapping(e.frame, e.writable)).value;
        MapPteCalm(g, held, s, dst, Mapping(e.frame, e.writable), g2);
        IncRefCalm(g2, e.frame);
        CalmTrans(g, g2, g');
      } else {
        UnmapCalm(g, held, s, dst, g');
      }
    }
  }

  lemma CopyOverCalm(g: Guest, held: map<nat, nat>, s: nat, src: nat, dst: nat, g': Guest)
    requires Books(g, held) && s < |g.dirs| && src < USER_PAGES && dst < USER_PAGES
    requires CopyPage(g, s, src, dst) == Ok(g') && g.PteAt(s, dst).present
    ensures Calm(g, g')
  {
    hide Trees, Pooled, Leaves, Counted, Calm, Release;
    var was, e := g.PteAt(s, dst), g.PteAt(s, src);
    PresentHasTable(g, held, s, dst);
    ReleaseTabs(g, was.frame);
    var g1 := Release(g, was.frame);
    assert g1.PteAt(s, src) == e && HasTable(g1, s, dst);
    DropThenSet(g, held, s, dst, Copied(e), SetPte(g1, s, dst, Copied(e)));
    if e.present {
      IncRefCalm(SetPte(g1, s, dst, Copied(e)), e.frame);
      CalmTrans(g, SetPte(g1, s, dst, Copied(e)), g');
    }
  }

  lemma UnmapCalm(g: Guest, held: map<nat, nat>, s: nat, v: nat, g': Guest)
    requires Books(g, held) && s < |g.dirs| && v < USER_PAGES && Unmap(g, s, v) == Ok(g')
    ensures Calm(g, g')
  {
    hide Trees, Pooled, Leaves, Counted, SetPte;
    if HasTable(g, s, v) { SetPteCalm(g, s, v, NONE); }
  }

  lemma SwapCalm(g: Guest, held: map<nat, nat>, s: nat, a: nat, b: nat, g': Guest)
    requires Books(g, held) && s < |g.dirs| && a < USER_PAGES && b < USER_PAGES && SwapPage(g, s, a, b) == Ok(g')
    ensures Calm(g, g')
  {
    hide Trees, Pooled, Leaves, Counted, AddTable, SetPte;
    var g1 := (if g.PdeAt(s, a / SLOTS).present then Ok(g) else AddTable(g, s, a)).value;
    var g2 := (if g.PdeAt(s, b / SLOTS).present then Ok(g1) else AddTable(g1, s, b)).value;
    if !g.PdeAt(s, a / SLOTS).present {
      AddTableCalm(g, held, s, a, g1);
      StillEmpty(g, g, s, a);
      AddTableBooks(g, held, s, a, g1);
    }
    if !g.PdeAt(s, b / SLOTS).present { AddTableCalm(g1, held, s, b, g2); }
    CalmTrans(g, g1, g2);
    SwapTables(g, held, s, a, b, g1, g2);
    var ea, eb := g2.PteAt(s, a), g2.PteAt(s, b);
    SetPteCalm(g2, s, a, eb);
    SetPteLeaf(g2, s, a, eb);
    SetPteCalm(SetPte(g2, s, a, eb), s, b, ea);
    CalmTrans(g, g2, SetPte(g2, s, a, eb));
    CalmTrans(g, SetPte(g2, s, a, eb), g');
  }

  lemma {:induction false} ClearCalm(g: Guest, held: map<nat, nat>, s: nat, k: nat, g': Guest)
    requires Books(g, held) && s < |g.dirs| && k <= USER_PAGES && ClearPages(g, s, k) == Ok(g')
    ensures Calm(g, g')
  {
    hide Trees, Pooled, Leaves, Counted, SetPte, Release, Cleared;
    if k > 0 {
      var g1 := ClearPages(g, s, k - 1).value;
      ClearCalm(g, held, s, k - 1, g1);
      ClearEdit(g, held, s, k - 1, g1);
      if g1.PteAt(s, k - 1).present { DropThenSet(g1, held, s, k - 1, NONE, g'); }
      CalmTrans(g, g1, g');
    }
  }

  lemma {:induction false} WindowsCalm(g: Guest, held: map<nat, nat>, c: nat, k: nat, g': Guest)
    requires Books(g, held) && c < |g.dirs| && k <= |g.windows| && MapWindows(g, c, k) == Ok(g')
    ensures Calm(g, g')
  {
    hide Trees, Pooled, Counted, MapPte, Windowing;
    if k > 0 {
      var g1 := MapWindows(g, c, k - 1).value;
      WindowsCalm(g, held, c, k - 1, g1);
      MapWindowsBooks(g, held, c, k - 1, g1);
      MapPteCalm(g1, held, c, g.windows[k - 1].page, Mapping(g.windows[k - 1].frame, true), g');
      CalmTrans(g, g1, g');
    }
  }

  lemma NewCalm(g: Guest, held: map<nat, nat>, g': Guest)
    requires Books(g, held) && NewSpace(g) == Ok(g')
    ensures Calm(g, g')
  {
    hide Trees, Leaves, Counted, MapWindows;
    AllocCalm(g, Dir(|g.dirs|), SLOTS);
    AllocExact(g, Dir(|g.dirs|));
    var a := AllocTable(g, Dir(|g.dirs|), SLOTS).value;
    var g1 := a.0.(dirs := g.dirs + [a.1]);
    AddDirBooks(g, held, a.0, a.1, g1);
    WindowsCalm(g1, held, |g.dirs|, |g.windows|, g');
    assert Calm(g, g1);
    CalmTrans(g, g1, g');
  }

  lemma ForkPageCalm(g: Guest, held: map<nat, nat>, s: nat, c: nat, v: nat, g': Guest)
    requires Books(g, held) && s < |g.dirs| && c < |g.dirs| && v < USER_PAGES && ForkPage(g, s, c, v) == Ok(g')
    ensures Calm(g, g')
  {
    hide Trees, Pooled, Leaves, Counted, MapPte, SetPte;
    var e := g.PteAt(s, v);
    if e.present && !g.PteAt(c, v).present {
      var to := ChildAfter(e);
      var g1 := if e.writable || e.cow then SetPte(g, s, v, to) else g;
      if e.writable || e.cow {
        SetPteCalm(g, s, v, to);
        SetFlagsBooks(g, held, s, v, to);
      }
      var g2 := MapPte(g1, c, v, to).value;
      MapPteCalm(g1, held, c, v, to, g2);
      CalmTrans(g, g1, g2);
      IncRefCalm(g2, e.frame);
      CalmTrans(g, g2, g');
    }
  }

  lemma {:induction false} ForkPagesCalm(g: Guest, held: map<nat, nat>, s: nat, c: nat, k: nat, g': Guest)
    requires Books(g, held) && Windowed(g) && s < |g.dirs| && c < |g.dirs| && s != c && Vacant(g, c) && k <= ALL_PAGES
    requires ForkPages(g, s, c, k) == Ok(g')
    ensures Calm(g, g')
  {
    hide Trees, Pooled, Leaves, Counted, ForkPage, Windowed, Calm;
    if k > 0 {
      var g1 := ForkPages(g, s, c, k - 1).value;
      ForkPagesCalm(g, held, s, c, k - 1, g1);
      ForkPagesBooks(g, held, s, c, k - 1, g1);
      if k <= USER_PAGES {
        ForkPageCalm(g1, held, s, c, k - 1, g');
        CalmTrans(g, g1, g');
      } else {
        ForkHigh(g1, s, c, k - 1);
      }
    } else {
      CalmRefl(g);
    }
  }

  lemma CalmRefl(g: Guest)
    requires Framed(g)
    ensures Calm(g, g)
  {
  }

  lemma ForkCalm(g: Guest, held: map<nat, nat>, s: nat, g': Guest)
    requires Books(g, held) && Windowed(g) && s < |g.dirs| && ForkSpace(g, s) == Ok(g')
    ensures Calm(g, g')
  {
    hide Trees, Pooled, Leaves, Counted, NewSpace, ForkPages, Windowed, Calm;
    var g1 := NewSpace(g).value;
    NewCalm(g, held, g1);
    NewSpaceBooks(g, held, g1);
    ForkPagesCalm(g1, held, s, |g.dirs|, ALL_PAGES, g');
    CalmTrans(g, g1, g');
  }

  /** Every operation keeps the four-level tables; one that leaves the generation alone keeps
      every translation too. */
  lemma StepCalm(g: Guest, held: map<nat, nat>, op: Op, g': Guest)
    requires Books(g, held) && Windowed(g) && ValidOp(g, op) && Step(g, op) == Ok(g')
    ensures Calm(g, g')
  {
    hide Trees, Pooled, Leaves, Counted, Windowed, Calm, ForkSpace, Store, MapFresh, Unmap, MapTrap, CopyPage, SwapPage;
    hide ClearPages, NewSpace;
    match op
    case ForkOp(s) => ForkCalm(g, held, s, g');
    case StoreOp(s, v, off, b) => StoreCalm(g, held, s, v, off, b, g');
    case LoadOp(s, v) =>
      if g.PteAt(s, v).present || Refuses(g, s, v) { CalmRefl(g); } else { MapFreshCalm(g, held, s, v, g'); }
    case FreshOp(s, v) => MapFreshCalm(g, held, s, v, g');
    case UnmapOp(s, v) => UnmapCalm(g, held, s, v, g');
    case TrapOp(s, v) => MapTrapCalm(g, held, s, v, g');
    case CopyOp(s, src, dst) => CopyCalm(g, held, s, src, dst, g');
    case SwapOp(s, a, b) => SwapCalm(g, held, s, a, b, g');
    case ClearOp(s) => ClearCalm(g, held, s, USER_PAGES, g');
    case NewOp => NewCalm(g, held, g');
  }
}
