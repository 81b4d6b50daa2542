/** When the interpreter's machine halts: exactly when a step needs more frames than are left. */
module InterpHalts {
  import opened Outcomes
  import opened ArchContract
  import opened InterpPhys
  import opened InterpMemory
  import opened InterpOps
  import opened InterpBooks
  import opened InterpSteps
  import opened InterpEdits
  import opened InterpFork
  import opened InterpRuns

  /** Frames the allocator can still hand out. */
  function Left(p: Pool): int {
    |p.free| + FRAMES - p.next
  }

  lemma TakeGoes(p: Pool)
    requires PoolOk(p)
    ensures Take(p).Ok? <==> Left(p) >= 1
    ensures Take(p).Ok? ==> Left(Take(p).value.0) == Left(p) - 1
  {
  }

  // ---- Tables ----

  /** The directory slots of space `s` that have a table. */
  ghost function Slots(g: Guest, s: nat): set<nat> {
    set i: nat | i < SLOTS && g.PdeAt(s, i).present
  }

  function MissingTable(g: Guest, s: nat, v: nat): nat {
    if g.PdeAt(s, v / SLOTS).present then 0 else 1
  }

  lemma AddTableGoes(g: Guest, held: map<nat, nat>, s: nat, v: nat)
    requires Books(g, held) && s < |g.dirs| && v < ALL_PAGES
    ensures AddTable(g, s, v).Ok? <==> Left(g.pool) >= 1
    ensures AddTable(g, s, v).Ok? ==> Left(AddTable(g, s, v).value.pool) == Left(g.pool) - 1
    ensures AddTable(g, s, v).Ok? ==> Slots(AddTable(g, s, v).value, s) == Slots(g, s) + {v / SLOTS}
  {
    hide Counted, Leaves;
    TakeGoes(g.pool);
    var k := Table(s, v / SLOTS);
    if Alloc(g, k).Ok? {
      AllocExact(g, k);
      var d := g.dirs[s];
      assert g.kind[d] == Dir(s);
      var a := AllocTable(g, k, SLOTS).value;
      assert d < |a.0.tab| && v / SLOTS < |a.0.tab[d]|;
      var g' := AddTable(g, s, v).value;
      forall i: nat | i < SLOTS ensures g'.PdeAt(s, i).present <==> g.PdeAt(s, i).present || i == v / SLOTS {
        assert g'.At(d, i) == if i == v / SLOTS then Mapping(a.1, true) else g.At(d, i);
      }
    }
  }

  lemma SetPteSlots(g: Guest, s: nat, v: nat, e: Pte, s': nat)
    requires Wooded(g) && HasTable(g, s, v) && v < ALL_PAGES && s' < |g.dirs|
    ensures Slots(SetPte(g, s, v, e), s') == Slots(g, s')
  {
    var t := g.PdeAt(s, v / SLOTS).frame;
    assert g.kind[t] == Table(s, v / SLOTS) && g.kind[g.dirs[s']] == Dir(s');
    assert forall i: nat :: i < SLOTS ==> SetPte(g, s, v, e).PdeAt(s', i) == g.PdeAt(s', i);
  }

  lemma MapPteGoes(g: Guest, held: map<nat, nat>, s: nat, v: nat, e: Pte)
    requires Books(g, held) && s < |g.dirs| && v < ALL_PAGES
    ensures MapPte(g, s, v, e).Ok? <==> Left(g.pool) >= MissingTable(g, s, v)
    ensures MapPte(g, s, v, e).Ok? ==>
      var g' := MapPte(g, s, v, e).value;
      Left(g'.pool) == Left(g.pool) - MissingTable(g, s, v) && Slots(g', s) == Slots(g, s) + {v / SLOTS}
  {
    hide Counted, Leaves, AddTable;
    assert v / SLOTS < SLOTS;
    assert Left(g.pool) >= 0;
    AddTableGoes(g, held, s, v);
    if EnsureTable(g, s, v).Ok? {
      var g1 := EnsureTable(g, s, v).value;
      EnsureTableBooks(g, held, s, v, g1);
      SetPteSlots(g1, s, v, e, s);
    }
  }

  // ---- One page ----

  lemma MapFreshGoes(g: Guest, held: map<nat, nat>, s: nat, v: nat)
    requires Books(g, held) && s < |g.dirs| && v < USER_PAGES
    ensures MapFresh(g, s, v).Ok? <==> Left(g.pool) >= 1 + MissingTable(g, s, v)
  {
    hide Counted, Leaves, Trees, Pooled, MapPte;
    assert PoolOk(g.pool) by { BooksPool(g, held); }
    TakeGoes(g.pool);
    if Alloc(g, Data).Ok? {
      AllocBooks(g, held);
      var a := Alloc(g, Data).value;
      MapPteGoes(a.0, Hold(held, a.1), s, v, Mapping(a.1, true));
    }
  }

  lemma BooksPool(g: Guest, held: map<nat, nat>)
    requires Books(g, held)
    ensures PoolOk(g.pool) && Left(g.pool) >= 0
  {
    hide Counted, Leaves, Trees;
  }

  lemma CowFaultGoes(g: Guest, held: map<nat, nat>, s: nat, v: nat)
    requires Books(g, held) && s < |g.dirs| && v < USER_PAGES && HasTable(g, s, v) && g.PteAt(s, v).present
    ensures CowFault(g, s, v).Ok? <==> Left(g.pool) >= if g.PteAt(s, v).frame in g.pool.shared then 1 else 0
  {
    hide Counted, Trees, Pooled;
    BooksPool(g, held);
    TakeGoes(g.pool);
    if Alloc(g, Data).Ok? { AllocExact(g, Data); }
  }

  lemma StoreGoes(g: Guest, held: map<nat, nat>, s: nat, v: nat, off: nat, b: bv8)
    requires Books(g, held) && s < |g.dirs| && v < USER_PAGES && off < PAGE_SIZE
    ensures Store(g, s, v, off, b).Ok? <==> Left(g.pool) >= StoreTakes(g, s, v)
  {
    hide Counted, Trees, Pooled, Leaves, MapFresh, CowFault;
    BooksPool(g, held);
    MapFreshGoes(g, held, s, v);
    if g.PteAt(s, v).present {
      PresentHasTable(g, held, s, v);
      CowFaultGoes(g, held, s, v);
    }
    if Takes(g, s, v) && Left(g.pool) >= StoreTakes(g, s, v) {
      var e := g.PteAt(s, v);
      var g1 := (if !e.present then MapFresh(g, s, v) else if e.writable then Ok(g) else CowFault(g, s, v)).value;
      StoreReady(g, held, s, v, g1);
      assert |g1.bytes[g1.PteAt(s, v).frame]| == PAGE_SIZE;
    }
  }

  /** The frames a store takes: a page to commit and perhaps its table, or a copy. */
  function StoreTakes(g: Guest, s: nat, v: nat): nat {
    var e := g.PteAt(s, v);
    if !e.present then if Refuses(g, s, v) then 0 else 1 + MissingTable(g, s, v)
    else if !e.writable && e.cow && e.frame in g.pool.shared then 1 else 0
  }

  lemma MapTrapGoes(g: Guest, held: map<nat, nat>, s: nat, v: nat)
    requires Books(g, held) && s < |g.dirs| && v < USER_PAGES
    ensures MapTrap(g, s, v).Ok? <==> Left(g.pool) >= MissingTable(g, s, v)
  {
    hide Counted, Trees, Pooled, Leaves, AddTable;
    BooksPool(g, held);
    AddTableGoes(g, held, s, v);
    if EnsureTable(g, s, v).Ok? { EnsureTableBooks(g, held, s, v, EnsureTable(g, s, v).value); }
  }

  lemma CopyGoes(g: Guest, held: map<nat, nat>, s: nat, src: nat, dst: nat)
    requires Books(g, held) && s < |g.dirs| && src < USER_PAGES && dst < USER_PAGES
    ensures CopyPage(g, s, src, dst).Ok? <==>
      (g.PteAt(s, src).present ==> Left(g.pool) >= MissingTable(g, s, dst))
  {
    hide Counted, Trees, Pooled, Leaves, AddTable;
    BooksPool(g, held);
    var e := g.PteAt(s, src);
    MapPteGoes(g, held, s, dst, Mapping(e.frame, e.writable));
    if g.PteAt(s, dst).present { PresentHasTable(g, held, s, dst); }
  }

  lemma SwapGoes(g: Guest, held: map<nat, nat>, s: nat, a: nat, b: nat)
    requires Books(g, held) && s < |g.dirs| && a < USER_PAGES && b < USER_PAGES
    ensures SwapPage(g, s, a, b).Ok? <==> Left(g.pool) >= MissingTable(g, s, a) + MissingTable(g, s, b)
  {
    hide Counted, Trees, Pooled, Leaves, AddTable, SetPte;
    BooksPool(g, held);
    AddTableGoes(g, held, s, a);
    if g.PdeAt(s, a / SLOTS).present || AddTable(g, s, a).Ok? {
      var g1 := if g.PdeAt(s, a / SLOTS).present then g else AddTable(g, s, a).value;
      if !g.PdeAt(s, a / SLOTS).present {
        StillEmpty(g, g, s, a);
        AddTableBooks(g, held, s, a, g1);
      }
      assert a / SLOTS in Slots(g1, s);
      AddTableGoes(g1, held, s, b);
      if g.PdeAt(s, b / SLOTS).present || AddTable(g1, s, b).Ok? {
        var g2 := if g.PdeAt(s, b / SLOTS).present then g1 else AddTable(g1, s, b).value;
        SwapTables(g, held, s, a, b, g1, g2);
        assert b / SLOTS in Slots(g, s) ==> b / SLOTS in Slots(g1, s);
        assert a / SLOTS in Slots(g2, s) && b / SLOTS in Slots(g2, s);
        HasTableInTree(g2, s, a);
        HasTableInTree(g2, s, b);
        SetPteAt(g2, s, a, g2.PteAt(s, b), s, b);
        SetPteLeaf(g2, s, a, g2.PteAt(s, b));
        HasTableInTree(SetPte(g2, s, a, g2.PteAt(s, b)), s, b);
      }
    }
  }

  lemma ClearPageGoes(g: Guest, held: map<nat, nat>, s: nat, v: nat)
    requires Books(g, held) && s < |g.dirs| && v < USER_PAGES
    ensures ClearPage(g, s, v).Ok?
  {
    hide Counted, Trees, Pooled, Leaves;
    if g.PteAt(s, v).present { PresentHasTable(g, held, s, v); }
  }

  lemma {:induction false} ClearGoes(g: Guest, held: map<nat, nat>, s: nat, k: nat)
    requires Books(g, held) && s < |g.dirs| && k <= USER_PAGES
    ensures ClearPages(g, s, k).Ok?
  {
    hide Sized, Counted, Trees, Pooled, Leaves, ClearPage, Cleared;
    if k > 0 {
      assert Framed(g) by { BooksFramed(g, held); }
      ClearGoes(g, held, s, k - 1);
      var g1 := ClearPages(g, s, k - 1).value;
      ClearEdit(g, held, s, k - 1, g1);
      ClearPageGoes(g1, held, s, k - 1);
    }
  }

  // ---- A new space ----

  lemma Subset(a: set<nat>, b: set<nat>)
    requires a <= b
    ensures |a| <= |b|
  {
    assert b == a + (b - a);
  }

  /** The directory slots of the first `k` windows. */
  function FirstWindowSlots(g: Guest, k: nat): set<nat>
    requires k <= |g.windows|
  {
    set w | 0 <= w < k :: g.windows[w].page / SLOTS
  }

  function WindowSlots(g: Guest): set<nat> {
    FirstWindowSlots(g, |g.windows|)
  }

  /** An operation leaves space `c` with tables in the slots `more`, takes a frame for each new one,
      and goes through exactly if there are as many. */
  ghost predicate Fills(g: Guest, c: nat, more: set<nat>, r: Halting<Guest>) {
    && (r.Ok? <==> Left(g.pool) + |Slots(g, c)| >= |more|)
    && (r.Ok? ==> Slots(r.value, c) == more && Left(r.value.pool) + |more| == Left(g.pool) + |Slots(g, c)|)
  }

  /** Mapping into space `c` takes a frame exactly for each slot that gets its first table. */
  lemma SlotTaken(g: Guest, held: map<nat, nat>, c: nat, v: nat, e: Pte)
    requires Books(g, held) && c < |g.dirs| && v < ALL_PAGES
    ensures Fills(g, c, Slots(g, c) + {v / SLOTS}, MapPte(g, c, v, e))
  {
    hide Counted, Trees, Pooled, Leaves, MapPte, Books;
    BooksPool(g, held);
    MapPteGoes(g, held, c, v, e);
    assert v / SLOTS < SLOTS;
    if g.PdeAt(c, v / SLOTS).present {
      assert v / SLOTS in Slots(g, c) && Slots(g, c) + {v / SLOTS} == Slots(g, c);
    } else {
      assert v / SLOTS !in Slots(g, c);
    }
  }

  lemma NoWindows(g: Guest)
    ensures FirstWindowSlots(g, 0) == {}
  {
  }

  lemma WindowSlotsNext(g: Guest, k: nat)
    requires k < |g.windows|
    ensures FirstWindowSlots(g, k + 1) == FirstWindowSlots(g, k) + {g.windows[k].page / SLOTS}
  {
    assert g.windows[k].page / SLOTS in FirstWindowSlots(g, k + 1);
    forall i | i in FirstWindowSlots(g, k) ensures i in FirstWindowSlots(g, k + 1) {
      var w :| 0 <= w < k && g.windows[w].page / SLOTS == i;
    }
  }

  lemma Regroup(a: set<nat>, b: set<nat>, c: set<nat>)
    ensures a + (b + c) == a + b + c
  {
  }

  lemma {:induction false} MapWindowsGoes(g: Guest, held: map<nat, nat>, c: nat, k: nat)
    requires Books(g, held) && c < |g.dirs| && k <= |g.windows|
    ensures Fills(g, c, Slots(g, c) + FirstWindowSlots(g, k), MapWindows(g, c, k))
  {
    hide Counted, Trees, Pooled, MapPte, Slots, FirstWindowSlots;
    BooksPool(g, held);
    if k == 0 {
      NoWindows(g);
      assert Slots(g, c) + {} == Slots(g, c);
    } else {
      var v := g.windows[k - 1].page;
      MapWindowsGoes(g, held, c, k - 1);
      WindowSlotsNext(g, k - 1);
      Regroup(Slots(g, c), FirstWindowSlots(g, k - 1), {v / SLOTS});
      if MapWindows(g, c, k - 1).Ok? {
        var g1 := MapWindows(g, c, k - 1).value;
        MapWindowsBooks(g, held, c, k - 1, g1);
        SlotTaken(g1, held, c, v, Mapping(g.windows[k - 1].frame, true));
      } else {
        Subset(Slots(g, c) + FirstWindowSlots(g, k - 1), Slots(g, c) + FirstWindowSlots(g, k));
      }
    }
  }

  lemma NewSpaceGoes(g: Guest, held: map<nat, nat>)
    requires Books(g, held)
    ensures NewSpace(g).Ok? <==> Left(g.pool) >= 1 + |WindowSlots(g)|
    ensures NewSpace(g).Ok? ==>
      var g' := NewSpace(g).value;
      Slots(g', |g.dirs|) == WindowSlots(g) && Left(g'.pool) == Left(g.pool) - 1 - |WindowSlots(g)|
  {
    hide Counted, Trees, MapWindows, FirstWindowSlots;
    BooksPool(g, held);
    TakeGoes(g.pool);
    var k := Dir(|g.dirs|);
    if Alloc(g, k).Ok? {
      AllocExact(g, k);
      var a := AllocTable(g, k, SLOTS).value;
      var g1 := a.0.(dirs := g.dirs + [a.1]);
      AddDirBooks(g, held, a.0, a.1, g1);
      MapWindowsGoes(g1, held, |g.dirs|, |g.windows|);
      assert Slots(g1, |g.dirs|) == {};
      SameWindowSlots(g, g1);
      assert {} + WindowSlots(g) == WindowSlots(g);
    }
  }

  lemma SameWindowSlots(g: Guest, g': Guest)
    requires g'.windows == g.windows
    ensures WindowSlots(g') == WindowSlots(g)
  {
  }

  // ---- Fork ----

  /** The directory slots of the pages below `k` that space `s` maps. */
  function PageSlots(g: Guest, s: nat, k: nat): set<nat> {
    set v: nat | v < k && g.PteAt(s, v).present :: v / SLOTS
  }

  lemma PageSlotsNext(g: Guest, s: nat, k: nat)
    ensures PageSlots(g, s, k + 1) == PageSlots(g, s, k) + if g.PteAt(s, k).present then {k / SLOTS} else {}
  {
    if g.PteAt(s, k).present { assert k / SLOTS in PageSlots(g, s, k + 1); }
    forall i | i in PageSlots(g, s, k) ensures i in PageSlots(g, s, k + 1) {
      var v: nat :| v < k && g.PteAt(s, v).present && v / SLOTS == i;
    }
  }

  /** Counting a reference afterwards takes no frame. */
  lemma FillsShared(g: Guest, g1: Guest, c: nat, more: set<nat>, r: Halting<Guest>, f: nat, r': Halting<Guest>)
    requires Fills(g1, c, more, r) && g1.pool == g.pool && Slots(g1, c) == Slots(g, c)
    requires r' == if r.Ok? then Ok(IncRef(r.value, f)) else Panic
    ensures Fills(g, c, more, r')
  {
    if r.Ok? { assert forall i: nat :: IncRef(r.value, f).PdeAt(c, i) == r.value.PdeAt(c, i); }
  }

  /** One page of a fork. */
  lemma ForkPageGoes(g: Guest, held: map<nat, nat>, s: nat, c: nat, v: nat)
    requires Books(g, held) && s < |g.dirs| && c < |g.dirs| && s != c && v < USER_PAGES && !g.PteAt(c, v).present
    ensures Fills(g, c, Slots(g, c) + if g.PteAt(s, v).present then {v / SLOTS} else {}, ForkPage(g, s, c, v))
  {
    hide Counted, Trees, Pooled, MapPte, SetPte, Slots, Fills, IncRef;
    var e := g.PteAt(s, v);
    var more := Slots(g, c) + {v / SLOTS};
    if !e.present {
      NothingFills(g, held, c);
    } else {
      PresentHasTable(g, held, s, v);
      if e.writable || e.cow {
        var g1, e' := SetPte(g, s, v, CowMapping(e.frame)), CowMapping(e.frame);
        SetFlagsBooks(g, held, s, v, e');
        SetPteSlots(g, s, v, e', c);
        SetPtePool(g, s, v, e');
        SlotTaken(g1, held, c, v, e');
        FillsShared(g, g1, c, more, MapPte(g1, c, v, e'), e.frame, ForkPage(g, s, c, v));
      } else {
        var e' := Mapping(e.frame, false);
        SlotTaken(g, held, c, v, e');
        FillsShared(g, g, c, more, MapPte(g, c, v, e'), e.frame, ForkPage(g, s, c, v));
      }
    }
  }

  lemma SetPtePool(g: Guest, s: nat, v: nat, e: Pte)
    requires HasTable(g, s, v)
    ensures SetPte(g, s, v, e).pool == g.pool
  {
  }

  /** Steps one after the other. */
  lemma FillsOn(g: Guest, c: nat, more: set<nat>, r: Halting<Guest>, more': set<nat>, r': Halting<Guest>)
    requires Fills(g, c, more, r) && more <= more' && if r.Ok? then Fills(r.value, c, more', r') else r'.Panic?
    ensures Fills(g, c, more', r')
  {
    hide Slots;
    Subset(more, more');
  }

  lemma {:induction false} ForkPagesGoes(g: Guest, held: map<nat, nat>, s: nat, c: nat, k: nat)
    requires Books(g, held) && Windowed(g) && s < |g.dirs| && c < |g.dirs| && s != c && Vacant(g, c) && k <= ALL_PAGES
    ensures Fills(g, c, Slots(g, c) + PageSlots(g, s, if k <= USER_PAGES then k else USER_PAGES), ForkPages(g, s, c, k))
  {
    hide Counted, Trees, Pooled, Leaves, ForkPage, Windowed, Slots, PageSlots, Fills;
    if k == 0 {
      NoPages(g, s);
      NothingFills(g, held, c);
    } else {
      ForkPagesGoes(g, held, s, c, k - 1);
      var r := ForkPages(g, s, c, k - 1);
      if r.Ok? { ForkPagesBooks(g, held, s, c, k - 1, r.value); }
      if k <= USER_PAGES {
        ForkPagesTurn(g, held, s, c, k - 1, r, ForkPages(g, s, c, k));
      } else if r.Ok? {
        ForkHigh(r.value, s, c, k - 1);
      }
    }
  }

  lemma ForkPagesTurn(g: Guest, held: map<nat, nat>, s: nat, c: nat, k: nat, r: Halting<Guest>, r': Halting<Guest>)
    requires Books(g, held) && s < |g.dirs| && c < |g.dirs| && s != c && k < USER_PAGES && Vacant(g, c)
    requires Fills(g, c, Slots(g, c) + PageSlots(g, s, k), r)
    requires r.Ok? ==> Books(r.value, held) && Forking(g, r.value, s, c, k)
    requires r' == if r.Ok? then ForkPage(r.value, s, c, k) else Panic
    ensures Fills(g, c, Slots(g, c) + PageSlots(g, s, k + 1), r')
  {
    hide Counted, Trees, Pooled, Leaves, ForkPage, Windowed, Slots, PageSlots, Left;
    var next := if g.PteAt(s, k).present then {k / SLOTS} else {};
    PageSlotsNext(g, s, k);
    Regroup(Slots(g, c), PageSlots(g, s, k), next);
    if r.Ok? {
      assert r.value.PteAt(s, k) == g.PteAt(s, k) && r.value.PteAt(c, k) == g.PteAt(c, k);
      ForkPageGoes(r.value, held, s, c, k);
    }
    FillsOn(g, c, Slots(g, c) + PageSlots(g, s, k), r, Slots(g, c) + PageSlots(g, s, k + 1), r');
  }

  lemma NothingFills(g: Guest, held: map<nat, nat>, c: nat)
    requires Books(g, held)
    ensures Fills(g, c, Slots(g, c) + {}, Ok(g))
  {
    hide Books, Slots;
    BooksPool(g, held);
    assert Slots(g, c) + {} == Slots(g, c);
  }

  lemma NoPages(g: Guest, s: nat)
    ensures PageSlots(g, s, 0) == {}
  {
  }

  lemma ForkGoes(g: Guest, held: map<nat, nat>, s: nat)
    requires Books(g, held) && Windowed(g) && s < |g.dirs|
    ensures ForkSpace(g, s).Ok? <==> Left(g.pool) >= 1 + |WindowSlots(g) + PageSlots(g, s, USER_PAGES)|
  {
    hide Counted, Trees, Pooled, Leaves, NewSpace, ForkPages, Windowed, Slots, WindowSlots;
    NewSpaceGoes(g, held);
    if NewSpace(g).Ok? {
      var g1 := NewSpace(g).value;
      NewSpaceBooks(g, held, g1);
      ForkPagesGoes(g1, held, s, |g.dirs|, ALL_PAGES);
      SamePageSlots(g, g1, s);
    } else {
      Subset(WindowSlots(g), WindowSlots(g) + PageSlots(g, s, USER_PAGES));
    }
  }

  lemma SamePageSlots(g: Guest, g': Guest, s: nat)
    requires Opened(g, g') && s < |g.dirs|
    ensures PageSlots(g', s, USER_PAGES) == PageSlots(g, s, USER_PAGES)
  {
    assert forall v: nat :: v < USER_PAGES ==> g'.PteAt(s, v) == g.PteAt(s, v);
  }

  // ---- Every operation ----

  /** The frames a step takes before it gives any back. */
  function FramesTaken(g: Guest, op: Op): nat {
    match op
    case ForkOp(s) => 1 + |WindowSlots(g) + PageSlots(g, s, USER_PAGES)|
    case StoreOp(s, v, _, _) => StoreTakes(g, s, v)
    case LoadOp(s, v) => if g.PteAt(s, v).present || Refuses(g, s, v) then 0 else 1 + MissingTable(g, s, v)
    case FreshOp(s, v) => 1 + MissingTable(g, s, v)
    case UnmapOp(_, _) => 0
    case TrapOp(s, v) => MissingTable(g, s, v)
    case CopyOp(s, src, dst) => if g.PteAt(s, src).present then MissingTable(g, s, dst) else 0
    case SwapOp(s, a, b) => MissingTable(g, s, a) + MissingTable(g, s, b)
    case ClearOp(_) => 0
    case NewOp => 1 + |WindowSlots(g)|
  }

  /** A step halts the machine exactly if it takes more frames than are left. */
  lemma StepHalts(g: Guest, held: map<nat, nat>, op: Op)
    requires Books(g, held) && Windowed(g) && ValidOp(g, op)
    ensures Step(g, op).Panic? <==> Left(g.pool) < FramesTaken(g, op)
  {
    hide Sized, Trees, Counted, Pooled, Leaves, Windowed, ForkSpace, Store, MapFresh, MapTrap, CopyPage;
    hide SwapPage, ClearPages, NewSpace, WindowSlots, PageSlots, StoreTakes, MissingTable;
    BooksPool(g, held);
    match op
    case ForkOp(s) => ForkGoes(g, held, s);
    case StoreOp(s, v, off, b) => StoreGoes(g, held, s, v, off, b);
    case LoadOp(s, v) => MapFreshGoes(g, held, s, v);
    case FreshOp(s, v) => MapFreshGoes(g, held, s, v);
    case UnmapOp(s, v) =>
    case TrapOp(s, v) => MapTrapGoes(g, held, s, v);
    case CopyOp(s, src, dst) => CopyGoes(g, held, s, src, dst);
    case SwapOp(s, a, b) => SwapGoes(g, held, s, a, b);
    case ClearOp(s) => ClearGoes(g, held, s, USER_PAGES);
    case NewOp => NewSpaceGoes(g, held);
  }
}
