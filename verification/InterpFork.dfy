/** New spaces and copy-on-write forks of the interpreter. */
module InterpFork {
  import opened Outcomes
  import opened ArchContract
  import opened InterpPhys
  import opened InterpMemory
  import opened InterpOps
  import opened InterpBooks
  import opened InterpSteps
  import opened InterpEdits

  // ---- New spaces ----

  lemma SetHighBooks(g: Guest, held: map<nat, nat>, s: nat, v: nat, e: Pte)
    requires Books(g, held) && s < |g.dirs| && USER_PAGES <= v < ALL_PAGES && HasTable(g, s, v)
    ensures Books(SetPte(g, s, v, e), held) && LeafSet(g, SetPte(g, s, v, e), s, v, e)
  {
    hide Trees;
    var g' := SetPte(g, s, v, e);
    SetPteLeaf(g, s, v, e);
    forall f: nat | f < FRAMES && g'.kind[f].Data? ensures Refs(g'.pool, f) == Mapped(g', f) + Held(held, f) {
      MapsSame(g, g', f, |g.dirs|);
      assert Refs(g.pool, f) == Mapped(g, f) + Held(held, f);
    }
    forall s': nat, v': nat | s' < |g'.dirs| && v' < USER_PAGES && g'.PteAt(s', v').present
      ensures g'.PteAt(s', v').frame < FRAMES && g'.kind[g'.PteAt(s', v').frame].Data?
    {
      assert g'.PteAt(s', v') == g.PteAt(s', v');
    }
  }

  predicate AmongFirst(windows: seq<Window>, k: nat, v: nat)
    requires k <= |windows|
  {
    exists w :: 0 <= w < k && windows[w].page == v
  }

  /** Space `c` has the first `k` windows; everything else is as in `g`. */
  ghost predicate Windowing(g: Guest, g': Guest, c: nat, k: nat)
    requires k <= |g.windows|
  {
    && |g'.dirs| == |g.dirs| && g'.windows == g.windows && g'.bytes == g.bytes
    && forall s: nat, v: nat {:trigger g'.PteAt(s, v)} :: s < |g.dirs| && v < ALL_PAGES ==>
         if s == c && AmongFirst(g.windows, k, v) then g'.PteAt(s, v).present else g'.PteAt(s, v) == g.PteAt(s, v)
  }

  lemma WindowingNext(g: Guest, g1: Guest, g2: Guest, g': Guest, c: nat, k: nat)
    requires k < |g.windows| && Windowing(g, g1, c, k) && SameLeaves(g1, g2) && g2.bytes == g1.bytes
    requires g'.bytes == g2.bytes
    requires LeafSet(g2, g', c, g.windows[k].page, Mapping(g.windows[k].frame, true))
    ensures Windowing(g, g', c, k + 1)
  {
    forall s: nat, v: nat | s < |g.dirs| && v < ALL_PAGES
      ensures if s == c && AmongFirst(g.windows, k + 1, v) then g'.PteAt(s, v).present
        else g'.PteAt(s, v) == g.PteAt(s, v)
    {
      assert g2.PteAt(s, v) == g1.PteAt(s, v);
      assert AmongFirst(g.windows, k + 1, v) <==> AmongFirst(g.windows, k, v) || g.windows[k].page == v;
    }
  }

  lemma {:induction false} MapWindowsBooks(g: Guest, held: map<nat, nat>, c: nat, k: nat, g': Guest)
    requires Books(g, held) && c < |g.dirs| && k <= |g.windows| && MapWindows(g, c, k) == Ok(g')
    ensures Books(g', held) && Windowing(g, g', c, k)
  {
    hide Trees, Counted, Pooled, EnsureTable, SetPte, AmongFirst;
    if k > 0 {
      var g1 := MapWindows(g, c, k - 1).value;
      MapWindowsBooks(g, held, c, k - 1, g1);
      var w := g.windows[k - 1];
      var g2 := EnsureTable(g1, c, w.page).value;
      EnsureTableBooks(g1, held, c, w.page, g2);
      SetHighBooks(g2, held, c, w.page, Mapping(w.frame, true));
      SetPteBytes(g2, c, w.page, Mapping(w.frame, true));
      WindowingNext(g, g1, g2, g', c, k - 1);
    } else {
      NoneFirst(g.windows);
    }
  }

  lemma NoneFirst(windows: seq<Window>)
    ensures forall v: nat :: !AmongFirst(windows, 0, v)
  {
  }

  lemma SetPteBytes(g: Guest, s: nat, v: nat, e: Pte)
    requires HasTable(g, s, v)
    ensures SetPte(g, s, v, e).bytes == g.bytes
  {
  }

  /** A directory frame with nothing in it is one more space. */
  lemma AddDirBooks(g: Guest, held: map<nat, nat>, g1: Guest, f: nat, g': Guest)
    requires Books(g, held) && Allocated(g, g1, f, Dir(|g.dirs|)) && g1.tab == g.tab[f := Blanks(SLOTS)]
    requires g1.gen == g.gen
    requires g' == g1.(dirs := g.dirs + [f])
    ensures Books(g', held)
    ensures forall s: nat, v: nat {:trigger g'.PteAt(s, v)} :: s <= |g.dirs| && v < ALL_PAGES ==>
      g'.PteAt(s, v) == if s == |g.dirs| then NONE else g.PteAt(s, v)
  {
    AddDirTrees(g, g1, f, g');
    hide Trees, Pooled;
    forall h: nat | h < FRAMES && g'.kind[h].Data? ensures Refs(g'.pool, h) == Mapped(g', h) + Held(held, h) {
      MapsSame(g, g', h, |g.dirs|);
      SpaceMapsNone(g', |g.dirs|, h, USER_PAGES);
      assert Refs(g.pool, h) == Mapped(g, h) + Held(held, h);
    }
    forall s: nat, v: nat | s < |g'.dirs| && v < USER_PAGES && g'.PteAt(s, v).present
      ensures g'.PteAt(s, v).frame < FRAMES && g'.kind[g'.PteAt(s, v).frame].Data?
    {
      assert g'.PteAt(s, v) == g.PteAt(s, v);
    }
  }

  lemma AddDirTrees(g: Guest, g1: Guest, f: nat, g': Guest)
    requires Sized(g) && Trees(g) && Allocated(g, g1, f, Dir(|g.dirs|)) && g1.tab == g.tab[f := Blanks(SLOTS)]
    requires g' == g1.(dirs := g.dirs + [f])
    ensures Sized(g') && Trees(g') && Pooled(g')
    ensures forall s: nat, v: nat {:trigger g'.PteAt(s, v)} :: s <= |g.dirs| && v < ALL_PAGES ==>
      g'.PteAt(s, v) == if s == |g.dirs| then NONE else g.PteAt(s, v)
  {
    forall s: nat | s < |g'.dirs|
      ensures g'.dirs[s] < FRAMES && g'.kind[g'.dirs[s]] == Dir(s) && |g'.tab[g'.dirs[s]]| == SLOTS
    {
      if s < |g.dirs| { assert g.kind[g.dirs[s]] == Dir(s); }
    }
    forall s: nat, i: nat | s < |g'.dirs| && i < SLOTS
      ensures g'.PdeAt(s, i) == if s == |g.dirs| then NONE else g.PdeAt(s, i)
    {
      if s < |g.dirs| { assert g.kind[g.dirs[s]] == Dir(s); }
    }
    forall s: nat, i: nat | s < |g'.dirs| && i < SLOTS && g'.PdeAt(s, i).present
      ensures g'.PdeAt(s, i).frame < FRAMES && g'.kind[g'.PdeAt(s, i).frame] == Table(s, i)
      ensures |g'.tab[g'.PdeAt(s, i).frame]| == SLOTS
    {
      assert g.kind[g.PdeAt(s, i).frame] == Table(s, i);
    }
    forall s: nat, v: nat | s <= |g.dirs| && v < ALL_PAGES
      ensures g'.PteAt(s, v) == if s == |g.dirs| then NONE else g.PteAt(s, v)
    {
      assert g'.PdeAt(s, v / SLOTS) == if s == |g.dirs| then NONE else g.PdeAt(s, v / SLOTS);
      if s < |g.dirs| && g.PdeAt(s, v / SLOTS).present {
        assert g.kind[g.PdeAt(s, v / SLOTS).frame] == Table(s, v / SLOTS);
      }
    }
  }

  /** The new space sees nothing; the others see what they saw. */
  ghost predicate Opened(g: Guest, g': Guest) {
    && |g'.dirs| == |g.dirs| + 1 && g'.windows == g.windows && g'.bytes == g.bytes
    && forall s: nat, v: nat {:trigger g'.PteAt(s, v)} :: s <= |g.dirs| && v < USER_PAGES ==>
         g'.PteAt(s, v) == if s == |g.dirs| then NONE else g.PteAt(s, v)
  }

  lemma NewSpaceBooks(g: Guest, held: map<nat, nat>, g': Guest)
    requires Books(g, held) && Windowed(g) && NewSpace(g) == Ok(g')
    ensures Books(g', held) && Opened(g, g') && Windowed(g')
  {
    hide Trees, Counted, MapWindows;
    AllocExact(g, Dir(|g.dirs|));
    var a := AllocTable(g, Dir(|g.dirs|), SLOTS).value;
    var g1 := a.0.(dirs := g.dirs + [a.1]);
    AddDirBooks(g, held, a.0, a.1, g1);
    MapWindowsBooks(g1, held, |g.dirs|, |g.windows|, g');
    NewWindows(g, g1, g');
  }

  lemma NewWindows(g: Guest, g1: Guest, g': Guest)
    requires Sized(g) && Leaves(g) && Windowed(g) && |g1.dirs| == |g.dirs| + 1 && g1.windows == g.windows
    requires g1.bytes == g.bytes && Windowing(g1, g', |g.dirs|, |g.windows|)
    requires forall s: nat, v: nat {:trigger g1.PteAt(s, v)} :: s <= |g.dirs| && v < ALL_PAGES ==>
      g1.PteAt(s, v) == if s == |g.dirs| then NONE else g.PteAt(s, v)
    ensures Opened(g, g') && Windowed(g')
  {
    forall s: nat, v: nat | s <= |g.dirs| && v < USER_PAGES
      ensures g'.PteAt(s, v) == if s == |g.dirs| then NONE else g.PteAt(s, v)
    {
      assert g1.PteAt(s, v) == if s == |g.dirs| then NONE else g.PteAt(s, v);
    }
    forall s: nat, v: nat | s < |g'.dirs| && USER_PAGES <= v < ALL_PAGES
      ensures g'.PteAt(s, v).present <==> IsWindow(g', v)
    {
      assert g1.PteAt(s, v) == if s == |g.dirs| then NONE else g.PteAt(s, v);
      assert IsWindow(g', v) == IsWindow(g, v);
    }
  }

  // ---- Fork ----

  /** What a fork leaves of a parent's entry, and what the child gets. */
  function ParentAfter(e: Pte): Pte {
    if e.present && (e.writable || e.cow) then CowMapping(e.frame) else e
  }

  function ChildAfter(e: Pte): Pte {
    if !e.present then NONE else if e.writable || e.cow then CowMapping(e.frame) else Mapping(e.frame, false)
  }

  function ForkedPte(g: Guest, s: nat, c: nat, k: nat, s': nat, v: nat): Pte {
    if v >= k then g.PteAt(s', v)
    else if s' == s then ParentAfter(g.PteAt(s, v))
    else if s' == c then ChildAfter(g.PteAt(s, v))
    else g.PteAt(s', v)
  }

  /** The first `k` pages of `s` are shared with the new space `c`. */
  ghost predicate Forking(g: Guest, g': Guest, s: nat, c: nat, k: nat) {
    && |g'.dirs| == |g.dirs| && g'.windows == g.windows && g'.bytes == g.bytes && Windowed(g')
    && forall s': nat, v: nat {:trigger g'.PteAt(s', v)} :: s' < |g.dirs| && v < USER_PAGES ==>
         g'.PteAt(s', v) == ForkedPte(g, s, c, k, s', v)
  }

  /** Space `c` has nothing below the windows. */
  ghost predicate Vacant(g: Guest, c: nat) {
    forall v: nat {:trigger g.PteAt(c, v)} :: v < USER_PAGES ==> g.PteAt(c, v) == NONE
  }

  lemma WindowedSet(g: Guest, g': Guest, s: nat, v: nat, e: Pte)
    requires Windowed(g) && LeafSet(g, g', s, v, e) && v < USER_PAGES
    ensures Windowed(g')
  {
    forall s': nat, v': nat | s' < |g'.dirs| && USER_PAGES <= v' < ALL_PAGES
      ensures g'.PteAt(s', v').present <==> IsWindow(g', v')
    {
      assert g'.PteAt(s', v') == g.PteAt(s', v') && IsWindow(g', v') == IsWindow(g, v');
    }
  }

  lemma WindowedSame(g: Guest, g': Guest)
    requires Windowed(g) && SameLeaves(g, g')
    ensures Windowed(g')
  {
    forall s': nat, v': nat | s' < |g'.dirs| && USER_PAGES <= v' < ALL_PAGES
      ensures g'.PteAt(s', v').present <==> IsWindow(g', v')
    {
      assert g'.PteAt(s', v') == g.PteAt(s', v') && IsWindow(g', v') == IsWindow(g, v');
    }
  }

  /** The child's entry is stored and its reference counted. */
  lemma ChildMapped(g: Guest, held: map<nat, nat>, c: nat, v: nat, e: Pte, g': Guest)
    requires Books(g, held) && Windowed(g) && c < |g.dirs| && v < USER_PAGES && !g.PteAt(c, v).present
    requires e.present && e.frame < FRAMES && g.kind[e.frame].Data? && MapPte(g, c, v, e) == Ok(g')
    ensures Books(IncRef(g', e.frame), held) && Windowed(IncRef(g', e.frame))
    ensures LeafSet(g, IncRef(g', e.frame), c, v, e) && g'.bytes == g.bytes
  {
    hide Trees, Counted, Pooled, Leaves, MapPte;
    MapIncCommute(g, c, v, e, e.frame, g');
    IncRefBooks(g, held, e.frame);
    var g1, g2 := IncRef(g, e.frame), IncRef(g', e.frame);
    WindowedSame(g, g1);
    MapPteBooks(g1, held, c, v, e, g2);
    WindowedSet(g1, g2, c, v, e);
    assert g1.PteAt(c, v) == g.PteAt(c, v);
    forall s': nat, v': nat | s' < |g.dirs| && v' < ALL_PAGES
      ensures g2.PteAt(s', v') == if s' == c && v' == v then e else g.PteAt(s', v')
    {
      assert g1.PteAt(s', v') == g.PteAt(s', v');
    }
  }

  /** One shared page. */
  ghost predicate PageForked(g: Guest, g': Guest, s: nat, c: nat, v: nat) {
    && |g'.dirs| == |g.dirs| && g'.windows == g.windows && g'.bytes == g.bytes
    && forall s': nat, v': nat {:trigger g'.PteAt(s', v')} :: s' < |g.dirs| && v' < ALL_PAGES ==>
         g'.PteAt(s', v') == if v' != v then g.PteAt(s', v') else if s' == s then ParentAfter(g.PteAt(s, v))
           else if s' == c then ChildAfter(g.PteAt(s, v)) else g.PteAt(s', v')
  }

  lemma ForkPageBooks(g: Guest, held: map<nat, nat>, s: nat, c: nat, v: nat, g': Guest)
    requires Books(g, held) && Windowed(g) && s < |g.dirs| && c < |g.dirs| && s != c && v < USER_PAGES
    requires g.PteAt(c, v) == NONE
    requires ForkPage(g, s, c, v) == Ok(g')
    ensures Books(g', held) && Windowed(g') && PageForked(g, g', s, c, v)
  {
    hide Trees, Counted, Pooled, MapPte, SetPte;
    var e := g.PteAt(s, v);
    if e.present {
      PresentHasTable(g, held, s, v);
      if e.writable || e.cow {
        SetFlagsBooks(g, held, s, v, CowMapping(e.frame));
        SetPteBytes(g, s, v, CowMapping(e.frame));
        SetPteKinds(g, s, v, CowMapping(e.frame));
        var g1 := SetPte(g, s, v, CowMapping(e.frame));
        WindowedSet(g, g1, s, v, CowMapping(e.frame));
        assert g1.PteAt(c, v) == g.PteAt(c, v);
        ChildMapped(g1, held, c, v, CowMapping(e.frame), MapPte(g1, c, v, CowMapping(e.frame)).value);
      } else {
        ChildMapped(g, held, c, v, Mapping(e.frame, false), MapPte(g, c, v, Mapping(e.frame, false)).value);
      }
    }
  }

  lemma SetPteKinds(g: Guest, s: nat, v: nat, e: Pte)
    requires HasTable(g, s, v)
    ensures var g' := SetPte(g, s, v, e);
      g'.kind == g.kind && g'.windows == g.windows && |g'.tab| == |g.tab| && g'.bytes == g.bytes
  {
  }

  lemma ForkingNext(g: Guest, g1: Guest, g': Guest, s: nat, c: nat, k: nat)
    requires s < |g.dirs| && c < |g.dirs| && s != c && Forking(g, g1, s, c, k) && PageForked(g1, g', s, c, k)
    requires Windowed(g') && k < USER_PAGES
    ensures Forking(g, g', s, c, k + 1)
  {
    assert g1.PteAt(s, k) == g.PteAt(s, k);
    forall s': nat, v: nat | s' < |g.dirs| && v < USER_PAGES
      ensures g'.PteAt(s', v) == ForkedPte(g, s, c, k + 1, s', v)
    {
      assert g1.PteAt(s', v) == ForkedPte(g, s, c, k, s', v);
    }
  }

  /** Above the program's half the child already has what the parent has. */
  lemma ForkHigh(g: Guest, s: nat, c: nat, v: nat)
    requires Framed(g) && Windowed(g) && s < |g.dirs| && c < |g.dirs| && USER_PAGES <= v < ALL_PAGES
    ensures ForkPage(g, s, c, v) == Ok(g)
  {
    assert g.PteAt(s, v).present <==> IsWindow(g, v);
    assert g.PteAt(c, v).present <==> IsWindow(g, v);
  }

  lemma {:induction false} ForkPagesBooks(g: Guest, held: map<nat, nat>, s: nat, c: nat, k: nat, g': Guest)
    requires Books(g, held) && Windowed(g) && s < |g.dirs| && c < |g.dirs| && s != c && Vacant(g, c) && k <= ALL_PAGES
    requires ForkPages(g, s, c, k) == Ok(g')
    ensures Books(g', held) && Forking(g, g', s, c, k)
  {
    hide Trees, Counted, Pooled, Leaves, ForkPage, Windowed;
    if k > 0 {
      var g1 := ForkPages(g, s, c, k - 1).value;
      ForkPagesBooks(g, held, s, c, k - 1, g1);
      if k <= USER_PAGES {
        assert g1.PteAt(c, k - 1) == g.PteAt(c, k - 1);
        ForkPageBooks(g1, held, s, c, k - 1, g');
        ForkingNext(g, g1, g', s, c, k - 1);
      } else {
        ForkHigh(g1, s, c, k - 1);
      }
    }
  }

  /** What a fork leaves: the parent's entries, the child's, and everyone else's as they were. */
  ghost predicate Forked(g: Guest, g': Guest, s: nat) {
    && |g'.dirs| == |g.dirs| + 1 && g'.bytes == g.bytes && g'.windows == g.windows
    && forall s': nat, v: nat {:trigger g'.PteAt(s', v)} :: s' <= |g.dirs| && v < USER_PAGES ==>
         g'.PteAt(s', v) == if s' == s then ParentAfter(g.PteAt(s, v))
           else if s' == |g.dirs| then ChildAfter(g.PteAt(s, v)) else g.PteAt(s', v)
  }

  lemma ForkBooks(g: Guest, held: map<nat, nat>, s: nat, g': Guest)
    requires Books(g, held) && Windowed(g) && s < |g.dirs| && ForkSpace(g, s) == Ok(g')
    ensures Books(g', held) && Windowed(g') && Forked(g, g', s)
  {
    hide Trees, Counted, Pooled, Leaves, NewSpace, ForkPages, Windowed;
    var g1 := NewSpace(g).value;
    var c := |g.dirs|;
    NewSpaceBooks(g, held, g1);
    ForkPagesBooks(g1, held, s, c, ALL_PAGES, g');
    forall s': nat, v: nat | s' <= |g.dirs| && v < USER_PAGES
      ensures g'.PteAt(s', v) == if s' == s then ParentAfter(g.PteAt(s, v))
        else if s' == c then ChildAfter(g.PteAt(s, v)) else g.PteAt(s', v)
    {
      assert g'.PteAt(s', v) == ForkedPte(g1, s, c, ALL_PAGES, s', v);
      assert g1.PteAt(s, v) == g.PteAt(s, v);
      assert s' < c ==> g1.PteAt(s', v) == g.PteAt(s', v);
    }
  }

  /** No page of the parent or the child is writable afterwards, so nothing is shared writably. */
  lemma ForkApart(g: Guest, g': Guest, s: nat)
    requires Apart(g) && s < |g.dirs| && Forked(g, g', s)
    ensures Apart(g')
  {
    forall s1: nat, v1: nat, s2: nat, v2: nat | s1 < |g'.dirs| && v1 < USER_PAGES && s2 < |g'.dirs| && v2 < USER_PAGES
      && g'.PteAt(s1, v1).present && g'.PteAt(s1, v1).writable && g'.PteAt(s2, v2).present
      && g'.PteAt(s2, v2).frame == g'.PteAt(s1, v1).frame
      ensures s2 == s1
    {
      var t2 := if s2 == |g.dirs| then s else s2;
      assert g'.PteAt(s1, v1) == g.PteAt(s1, v1);
      assert g.PteAt(t2, v2).present && g.PteAt(t2, v2).frame == g'.PteAt(s2, v2).frame;
    }
  }

  /** Parent and bystanders see what they saw, and the child sees what the parent sees, except
      that a device window of the parent is plain empty memory to the child. */
  lemma ForkViews(g: Guest, g': Guest, s: nat, s': nat, v: nat)
    requires Forked(g, g', s) && s < |g.dirs| && s' <= |g.dirs| && v < USER_PAGES
    ensures s' < |g.dirs| ==> View(g', s', v) == View(g, s', v)
    ensures View(g', |g.dirs|, v) == if View(g, s, v).cell.Trap? then BLANK else View(g, s, v)
  {
    assert g'.PteAt(|g.dirs|, v) == ChildAfter(g.PteAt(s, v));
    assert g'.PteAt(s, v) == ParentAfter(g.PteAt(s, v));
    assert s' != s && s' < |g.dirs| ==> g'.PteAt(s', v) == g.PteAt(s', v);
  }
}
