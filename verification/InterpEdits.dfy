/** Edits of a space's own mappings: commit, unmap, device windows, aliasing, swapping, teardown. */
module InterpEdits {
  import opened Outcomes
  import opened ArchContract
  import opened InterpPhys
  import opened InterpMemory
  import opened InterpOps
  import opened InterpBooks
  import opened InterpSteps

  /** One leaf is edited; every other page looks as before. */
  ghost predicate Edited(g: Guest, g': Guest, s: nat, v: nat, e: Pte) {
    LeafSet(g, g', s, v, e) && OtherViews(g, g', s, v)
  }

  lemma EditedBytes(g: Guest, g': Guest, s: nat, v: nat, e: Pte)
    requires LeafSet(g, g', s, v, e) && g'.bytes == g.bytes
    ensures Edited(g, g', s, v, e)
  {
    forall s': nat, v': nat | s' < |g.dirs| && v' < USER_PAGES && (s' != s || v' != v)
      ensures View(g', s', v') == View(g, s', v')
    {
      assert g'.PteAt(s', v') == g.PteAt(s', v');
    }
  }

  lemma MapFreshEdit(g: Guest, held: map<nat, nat>, s: nat, v: nat, g': Guest) returns (f: nat)
    requires Books(g, held) && s < |g.dirs| && v < USER_PAGES && MapFresh(g, s, v) == Ok(g')
    ensures Books(g', Carry(held, g.PteAt(s, v))) && Edited(g, g', s, v, Mapping(f, true)) && Unmapped(g, f)
    ensures View(g', s, v) == BLANK
  {
    hide Trees, Counted, Pooled, MapFresh;
    f := MapFreshStep(g, held, s, v, g');
    EditedBytes(g, g', s, v, Mapping(f, true));
    assert g'.PteAt(s, v) == Mapping(f, true);
  }

  /** The missing table makes no difference to what an unmapping leaves. */
  lemma UnmapEdit(g: Guest, held: map<nat, nat>, s: nat, v: nat, g': Guest)
    requires Books(g, held) && s < |g.dirs| && v < USER_PAGES && Unmap(g, s, v) == Ok(g')
    ensures Books(g', Carry(held, g.PteAt(s, v))) && Edited(g, g', s, v, NONE)
  {
    hide Counted, Pooled;
    if HasTable(g, s, v) {
      SetPteBooks(g, held, s, v, NONE);
    } else {
      assert g.PteAt(s, v) == NONE;
    }
    EditedBytes(g, g', s, v, NONE);
  }

  lemma SetReleaseCommute(g: Guest, s: nat, v: nat, e: Pte, f: nat)
    requires Framed(g) && HasTable(g, s, v)
    ensures HasTable(Release(g, f), s, v) && SetPte(Release(g, f), s, v, e) == Release(SetPte(g, s, v, e), f)
  {
  }

  /** Giving up the frame first and rewriting the entry afterwards is as good as the other way round. */
  lemma SetRelease(g: Guest, held: map<nat, nat>, s: nat, v: nat, e: Pte)
    requires Books(g, Carry(held, e)) && s < |g.dirs| && v < USER_PAGES && HasTable(g, s, v) && g.PteAt(s, v).present
    ensures var f := g.PteAt(s, v).frame;
      HasTable(Release(g, f), s, v) && Books(SetPte(Release(g, f), s, v, e), held) &&
        Edited(g, SetPte(Release(g, f), s, v, e), s, v, e)
  {
    hide Trees, Pooled;
    var f := g.PteAt(s, v).frame;
    SetReleaseCommute(g, s, v, e, f);
    var g1 := SetPte(g, s, v, e);
    SetPteBooks(g, held, s, v, e);
    ReleaseBooks(g1, held, f);
    var g' := Release(g1, f);
    forall s': nat, v': nat | s' < |g.dirs| && v' < ALL_PAGES
      ensures g'.PteAt(s', v') == if s' == s && v' == v then e else g.PteAt(s', v')
    {
      assert g'.PteAt(s', v') == g1.PteAt(s', v');
    }
    forall s': nat, v': nat | s' < |g.dirs| && v' < USER_PAGES && (s' != s || v' != v)
      ensures View(g', s', v') == View(g, s', v')
    {
      assert g'.PteAt(s', v') == g1.PteAt(s', v') == g.PteAt(s', v');
      if g.PteAt(s', v').present {
        MappedHere(g1, s', v');
        assert g'.bytes[g.PteAt(s', v').frame] == g1.bytes[g.PteAt(s', v').frame];
      }
    }
  }

  lemma SameEdited(g: Guest, g1: Guest, g': Guest, s: nat, v: nat, e: Pte)
    requires SameLeaves(g, g1) && g1.bytes == g.bytes && Edited(g1, g', s, v, e)
    ensures Edited(g, g', s, v, e)
  {
    forall s': nat, v': nat | s' < |g.dirs| && v' < ALL_PAGES
      ensures g'.PteAt(s', v') == if s' == s && v' == v then e else g.PteAt(s', v')
    {
      assert g1.PteAt(s', v') == g.PteAt(s', v');
    }
    forall s': nat, v': nat | s' < |g.dirs| && v' < USER_PAGES && (s' != s || v' != v)
      ensures View(g', s', v') == View(g, s', v')
    {
      assert View(g', s', v') == View(g1, s', v') && g1.PteAt(s', v') == g.PteAt(s', v');
    }
  }

  lemma MapTrapEdit(g: Guest, held: map<nat, nat>, s: nat, v: nat, g': Guest)
    requires Books(g, held) && s < |g.dirs| && v < USER_PAGES && MapTrap(g, s, v) == Ok(g')
    ensures Books(g', held) && Edited(g, g', s, v, TRAP)
  {
    hide Trees, Counted, Pooled, EnsureTable;
    var g1 := EnsureTable(g, s, v).value;
    EnsureTableBooks(g, held, s, v, g1);
    if g1.PteAt(s, v).present {
      SetRelease(g1, held, s, v, TRAP);
    } else {
      SetPteBooks(g1, held, s, v, TRAP);
      EditedBytes(g1, g', s, v, TRAP);
    }
    SameEdited(g, g1, g', s, v, TRAP);
  }

  // ---- Aliasing ----

  lemma EnsureIncCommute(g: Guest, s: nat, v: nat, f: nat, g': Guest)
    requires Framed(g) && s < |g.dirs| && EnsureTable(g, s, v) == Ok(g')
    ensures EnsureTable(IncRef(g, f), s, v) == Ok(IncRef(g', f))
  {
    assert Take(Share(g.pool, f)) == if Take(g.pool).Panic? then Panic
      else Ok((Share(Take(g.pool).value.0, f), Take(g.pool).value.1));
  }

  lemma MapIncCommute(g: Guest, s: nat, v: nat, e: Pte, f: nat, g': Guest)
    requires Framed(g) && s < |g.dirs| && MapPte(g, s, v, e) == Ok(g')
    ensures MapPte(IncRef(g, f), s, v, e) == Ok(IncRef(g', f))
  {
    hide EnsureTable;
    EnsureIncCommute(g, s, v, f, EnsureTable(g, s, v).value);
  }

  lemma IncReleaseCommute(g: Guest, f: nat, w: nat)
    requires Framed(g) && f != 0 && w != 0 && (f == w ==> w in g.pool.shared && g.pool.shared[w] >= 2)
    ensures IncRef(Release(g, w), f) == Release(IncRef(g, f), w)
  {
    var p := g.pool;
    assert Share(Drop(p, w), f).shared == Drop(Share(p, f), w).shared;
  }

  /** Copying a page onto itself when nothing else maps its frame: the frame is given back to
      the allocator and mapped again. */
  predicate SelfCopy(g: Guest, s: nat, src: nat, dst: nat) {
    src == dst && g.PteAt(s, src).present && g.PteAt(s, src).frame !in g.pool.shared
  }

  /** The reference on the source may as well be taken first. */
  lemma CopyReordered(g: Guest, s: nat, src: nat, dst: nat, g': Guest)
    requires Framed(g) && s < |g.dirs| && CopyPage(g, s, src, dst) == Ok(g')
    requires var e, was := g.PteAt(s, src), g.PteAt(s, dst);
      && e.present && was.present && HasTable(g, s, dst) && e.frame != 0 && was.frame != 0
      && (e.frame == was.frame ==> was.frame in g.pool.shared && g.pool.shared[was.frame] >= 2)
    ensures var e, was := g.PteAt(s, src), g.PteAt(s, dst);
      var g1 := Release(IncRef(g, e.frame), was.frame);
      HasTable(g1, s, dst) && g' == SetPte(g1, s, dst, Mapping(e.frame, e.writable))
  {
    hide Release, IncRef;
    var e, was := g.PteAt(s, src), g.PteAt(s, dst);
    IncReleaseCommute(g, e.frame, was.frame);
    ReleaseTabs(g, was.frame);
    IncRefTabs(Release(g, was.frame), e.frame);
    IncRefSet(Release(g, was.frame), e.frame, s, dst, Mapping(e.frame, e.writable));
  }

  lemma ReleaseTabs(g: Guest, f: nat)
    requires Framed(g)
    ensures Release(g, f).tab == g.tab && Release(g, f).dirs == g.dirs
  {
  }

  lemma IncRefTabs(g: Guest, f: nat)
    ensures IncRef(g, f).tab == g.tab && IncRef(g, f).dirs == g.dirs
  {
  }

  lemma IncRefSet(g: Guest, f: nat, s: nat, v: nat, e: Pte)
    requires HasTable(g, s, v)
    ensures HasTable(IncRef(g, f), s, v) && SetPte(IncRef(g, f), s, v, e) == IncRef(SetPte(g, s, v, e), f)
  {
  }

  lemma CopyOver(g: Guest, held: map<nat, nat>, s: nat, src: nat, dst: nat, g': Guest)
    requires Books(g, held) && s < |g.dirs| && src < USER_PAGES && dst < USER_PAGES
    requires CopyPage(g, s, src, dst) == Ok(g')
    requires !SelfCopy(g, s, src, dst) && g.PteAt(s, src).present && g.PteAt(s, dst).present
    ensures Books(g', held) && Edited(g, g', s, dst, Mapping(g.PteAt(s, src).frame, g.PteAt(s, src).writable))
  {
    hide Trees, Counted, CopyPage, Release, SetPte, Edited;
    var e, was := g.PteAt(s, src), g.PteAt(s, dst);
    var to := Mapping(e.frame, e.writable);
    PresentHasTable(g, held, s, src);
    PresentHasTable(g, held, s, dst);
    if e.frame == was.frame && e.frame !in g.pool.shared { SoleMapping(g, held, s, src); }
    CopyReordered(g, s, src, dst, g');
    IncRefBooks(g, held, e.frame);
    var g1 := IncRef(g, e.frame);
    assert g1.PteAt(s, dst) == was;
    SetRelease(g1, held, s, dst, to);
    SameEdited(g, g1, g', s, dst, to);
  }

  lemma CopyInto(g: Guest, held: map<nat, nat>, s: nat, src: nat, dst: nat, g': Guest)
    requires Books(g, held) && s < |g.dirs| && src < USER_PAGES && dst < USER_PAGES
    requires CopyPage(g, s, src, dst) == Ok(g')
    requires g.PteAt(s, src).present && !g.PteAt(s, dst).present
    ensures Books(g', held) && Edited(g, g', s, dst, Mapping(g.PteAt(s, src).frame, g.PteAt(s, src).writable))
  {
    hide Trees, Counted, Pooled, MapPte;
    var e := g.PteAt(s, src);
    var to := Mapping(e.frame, e.writable);
    PresentHasTable(g, held, s, src);
    IncRefBooks(g, held, e.frame);
    var g1 := IncRef(g, e.frame);
    MapIncCommute(g, s, dst, to, e.frame, MapPte(g, s, dst, to).value);
    MapPteBooks(g1, held, s, dst, to, g');
    assert g1.PteAt(s, dst) == g.PteAt(s, dst);
    EditedBytes(g1, g', s, dst, to);
    SameEdited(g, g1, g', s, dst, to);
  }

  /** What a copy leaves at its destination: the frame and the write bit, no other flag. */
  function Copied(e: Pte): Pte {
    if e.present then Mapping(e.frame, e.writable) else NONE
  }

  lemma CopyEdit(g: Guest, held: map<nat, nat>, s: nat, src: nat, dst: nat, g': Guest)
    requires Books(g, held) && s < |g.dirs| && src < USER_PAGES && dst < USER_PAGES
    requires CopyPage(g, s, src, dst) == Ok(g')
    requires !SelfCopy(g, s, src, dst)
    ensures Books(g', held) && Edited(g, g', s, dst, Copied(g.PteAt(s, src)))
  {
    hide Trees, Counted, Pooled;
    var e, was := g.PteAt(s, src), g.PteAt(s, dst);
    if e.present && was.present {
      CopyOver(g, held, s, src, dst, g');
    } else if e.present {
      CopyInto(g, held, s, src, dst, g');
    } else if was.present {
      PresentHasTable(g, held, s, dst);
      SetRelease(g, held, s, dst, NONE);
    } else {
      UnmapEdit(g, held, s, dst, g');
    }
  }

  /** The counts survive a copy exactly when it is not a self-copy of an unshared page. */
  lemma CopyBooksIff(g: Guest, held: map<nat, nat>, s: nat, src: nat, dst: nat, g': Guest)
    requires Books(g, held) && s < |g.dirs| && src < USER_PAGES && dst < USER_PAGES
    requires CopyPage(g, s, src, dst) == Ok(g')
    ensures Books(g', held) <==> !SelfCopy(g, s, src, dst)
  {
    if SelfCopy(g, s, src, dst) {
      var e := g.PteAt(s, src);
      PresentHasTable(g, held, s, src);
      SetReleaseCommute(g, s, dst, Mapping(e.frame, e.writable), e.frame);
      SetPteAt(g, s, dst, Mapping(e.frame, e.writable), s, dst);
      var g1 := SetPte(g, s, dst, Mapping(e.frame, e.writable));
      assert g' == IncRef(Release(g1, e.frame), e.frame);
      assert g'.tab == g1.tab && g'.dirs == g1.dirs;
      assert g'.PteAt(s, dst) == g1.PteAt(s, dst) && g'.kind[e.frame].Unused?;
    } else {
      CopyEdit(g, held, s, src, dst, g');
    }
  }

  // ---- Swapping ----

  function Partner(v: nat, a: nat, b: nat): nat {
    if v == a then b else if v == b then a else v
  }

  /** Space `s` finds at `a` what it had at `b` and the other way round; nothing else moves. */
  ghost predicate Swapped(g: Guest, g': Guest, s: nat, a: nat, b: nat) {
    && |g'.dirs| == |g.dirs| && g'.windows == g.windows && g'.bytes == g.bytes
    && forall s': nat, v: nat {:trigger g'.PteAt(s', v)} :: s' < |g.dirs| && v < ALL_PAGES ==>
         g'.PteAt(s', v) == g.PteAt(s', if s' == s then Partner(v, a, b) else v)
  }

  lemma TradeBooks(g: Guest, held: map<nat, nat>, s: nat, a: nat, b: nat)
    requires Books(g, held) && s < |g.dirs| && a < USER_PAGES && b < USER_PAGES && HasTable(g, s, a)
    requires HasTable(g, s, b)
    ensures var ea, eb := g.PteAt(s, a), g.PteAt(s, b);
      && HasTable(SetPte(g, s, a, eb), s, b)
      && Books(SetPte(SetPte(g, s, a, eb), s, b, ea), held)
      && Swapped(g, SetPte(SetPte(g, s, a, eb), s, b, ea), s, a, b)
  {
    hide Trees;
    var ea, eb := g.PteAt(s, a), g.PteAt(s, b);
    var g1 := SetPte(g, s, a, eb);
    SetPteLeaf(g, s, a, eb);
    SetPteAt(g, s, a, eb, s, b);
    HasTableInTree(g1, s, b);
    var g' := SetPte(g1, s, b, ea);
    SetPteLeaf(g1, s, b, ea);
    forall s': nat, v: nat | s' < |g.dirs| && v < ALL_PAGES
      ensures g'.PteAt(s', v) == g.PteAt(s', if s' == s then Partner(v, a, b) else v)
    {
      assert g'.PteAt(s', v) == if s' == s && v == b then ea else g1.PteAt(s', v);
      assert g1.PteAt(s', v) == if s' == s && v == a then eb else g.PteAt(s', v);
    }
    TradeCounted(g, held, s, a, b, g1, g');
  }

  lemma TradeCounted(g: Guest, held: map<nat, nat>, s: nat, a: nat, b: nat, g1: Guest, g': Guest)
    requires Books(g, held) && s < |g.dirs| && a < USER_PAGES && b < USER_PAGES
    requires LeafSet(g, g1, s, a, g.PteAt(s, b)) && LeafSet(g1, g', s, b, g.PteAt(s, a)) && Swapped(g, g', s, a, b)
    requires Sized(g') && g'.kind == g.kind && g'.pool == g.pool
    ensures Counted(g', held) && Leaves(g')
  {
    hide Trees, Pooled;
    forall f: nat | f < FRAMES && g'.kind[f].Data? ensures Refs(g'.pool, f) == Mapped(g', f) + Held(held, f) {
      MapsSet(g, g1, s, a, g.PteAt(s, b), f, |g.dirs|);
      MapsSet(g1, g', s, b, g.PteAt(s, a), f, |g.dirs|);
      assert g1.PteAt(s, b) == g.PteAt(s, b);
      assert Refs(g.pool, f) == Mapped(g, f) + Held(held, f);
    }
    forall s': nat, v: nat | s' < |g'.dirs| && v < USER_PAGES && g'.PteAt(s', v).present
      ensures g'.PteAt(s', v).frame < FRAMES && g'.kind[g'.PteAt(s', v).frame].Data?
    {
      assert g'.PteAt(s', v) == g.PteAt(s', if s' == s then Partner(v, a, b) else v);
    }
  }

  lemma StillEmpty(g: Guest, g': Guest, s: nat, v: nat)
    requires SameLeaves(g, g') && s < |g.dirs| && v < ALL_PAGES && !g.PdeAt(s, v / SLOTS).present
    ensures EmptyRegion(g', s, v)
  {
    forall v': nat | v' / SLOTS == v / SLOTS ensures g'.PteAt(s, v') == NONE {
      assert v' < ALL_PAGES;
      assert g.PteAt(s, v') == NONE;
    }
  }

  lemma SwapTables(g: Guest, held: map<nat, nat>, s: nat, a: nat, b: nat, g1: Guest, g2: Guest)
    requires Books(g, held) && s < |g.dirs| && a < USER_PAGES && b < USER_PAGES
    requires (if g.PdeAt(s, a / SLOTS).present then Ok(g) else AddTable(g, s, a)) == Ok(g1)
    requires Framed(g1) && s < |g1.dirs|
    requires (if g.PdeAt(s, b / SLOTS).present then Ok(g1) else AddTable(g1, s, b)) == Ok(g2)
    ensures Books(g2, held) && SameLeaves(g, g2) && g2.bytes == g.bytes && g2.windows == g.windows
  {
    hide Trees, Counted, Pooled, AddTable;
    if !g.PdeAt(s, a / SLOTS).present { AddTableBooks(g, held, s, a, g1); }
    if !g.PdeAt(s, b / SLOTS).present {
      StillEmpty(g, g1, s, b);
      AddTableBooks(g1, held, s, b, g2);
      assert forall s': nat, v: nat {:trigger g2.PteAt(s', v)} :: s' < |g.dirs| && v < ALL_PAGES ==>
        g2.PteAt(s', v) == g1.PteAt(s', v);
    }
  }

  lemma SwapEdit(g: Guest, held: map<nat, nat>, s: nat, a: nat, b: nat, g': Guest)
    requires Books(g, held) && s < |g.dirs| && a < USER_PAGES && b < USER_PAGES && SwapPage(g, s, a, b) == Ok(g')
    ensures Books(g', held) && Swapped(g, g', s, a, b)
  {
    hide Trees, Counted, Pooled, AddTable, SetPte;
    var g1 := (if g.PdeAt(s, a / SLOTS).present then Ok(g) else AddTable(g, s, a)).value;
    var g2 := (if g.PdeAt(s, b / SLOTS).present then Ok(g1) else AddTable(g1, s, b)).value;
    SwapTables(g, held, s, a, b, g1, g2);
    SwapHasTable(g2, held, s, a, b);
    TradeBooks(g2, held, s, a, b);
    forall s': nat, v: nat | s' < |g.dirs| && v < ALL_PAGES
      ensures g'.PteAt(s', v) == g.PteAt(s', if s' == s then Partner(v, a, b) else v)
    {
      assert g2.PteAt(s', if s' == s then Partner(v, a, b) else v) ==
        g.PteAt(s', if s' == s then Partner(v, a, b) else v);
    }
  }

  lemma SwapHasTable(g: Guest, held: map<nat, nat>, s: nat, a: nat, b: nat)
    requires Books(g, held) && s < |g.dirs| && a < USER_PAGES && b < USER_PAGES && HasTable(g, s, a)
    requires HasTable(SetPte(g, s, a, g.PteAt(s, b)), s, b)
    ensures HasTable(g, s, b)
  {
    SetPteAt(g, s, a, g.PteAt(s, b), s, b);
    HasTableInTree(g, s, b);
  }

  lemma SwappedViews(g: Guest, g': Guest, s: nat, a: nat, b: nat, s': nat, v: nat)
    requires Swapped(g, g', s, a, b) && s' < |g.dirs| && v < USER_PAGES && a < USER_PAGES && b < USER_PAGES
    ensures View(g', s', v) == View(g, s', if s' == s then Partner(v, a, b) else v)
  {
    assert g'.PteAt(s', v) == g.PteAt(s', if s' == s then Partner(v, a, b) else v);
  }

  // ---- Teardown ----

  /** The first `k` pages of `s` are unmapped; device windows among them stay, and nothing else changes. */
  ghost predicate Cleared(g: Guest, g': Guest, s: nat, k: nat) {
    && |g'.dirs| == |g.dirs| && g'.windows == g.windows
    && (forall s': nat, v: nat {:trigger g'.PteAt(s', v)} :: s' < |g.dirs| && v < ALL_PAGES ==>
          g'.PteAt(s', v) == if s' == s && v < k && g.PteAt(s, v).present then NONE else g.PteAt(s', v))
    && (forall s': nat, v: nat {:trigger View(g', s', v)} :: s' < |g.dirs| && v < USER_PAGES ==>
          View(g', s', v) == if s' == s && v < k && g.PteAt(s, v).present then BLANK else View(g, s', v))
  }

  lemma ClearPageStep(g: Guest, held: map<nat, nat>, s: nat, k: nat, g1: Guest, g': Guest)
    requires s < |g.dirs| && k < USER_PAGES && Cleared(g, g1, s, k) && Books(g1, held) && ClearPage(g1, s, k) == Ok(g')
    ensures Books(g', held) && Cleared(g, g', s, k + 1)
  {
    hide Trees, Counted, Pooled, Leaves, Release, SetPte;
    assert g1.PteAt(s, k) == g.PteAt(s, k);
    if g1.PteAt(s, k).present {
      PresentHasTable(g1, held, s, k);
      SetRelease(g1, held, s, k, NONE);
    }
    forall s': nat, v: nat | s' < |g.dirs| && v < ALL_PAGES
      ensures g'.PteAt(s', v) == if s' == s && v < k + 1 && g.PteAt(s, v).present then NONE else g.PteAt(s', v)
    {
      assert g1.PteAt(s', v) == if s' == s && v < k && g.PteAt(s, v).present then NONE else g.PteAt(s', v);
    }
    forall s': nat, v: nat | s' < |g.dirs| && v < USER_PAGES
      ensures View(g', s', v) == if s' == s && v < k + 1 && g.PteAt(s, v).present then BLANK else View(g, s', v)
    {
      assert View(g1, s', v) == if s' == s && v < k && g.PteAt(s, v).present then BLANK else View(g, s', v);
      if s' == s && v == k { assert g'.PteAt(s', v) == if g.PteAt(s, v).present then NONE else g.PteAt(s, v); }
    }
  }

  lemma {:induction false} ClearEdit(g: Guest, held: map<nat, nat>, s: nat, k: nat, g': Guest)
    requires Books(g, held) && s < |g.dirs| && k <= USER_PAGES && ClearPages(g, s, k) == Ok(g')
    ensures Books(g', held) && Cleared(g, g', s, k)
  {
    hide Trees, Counted, Pooled, Leaves, ClearPage;
    if k > 0 {
      var g1 := ClearPages(g, s, k - 1).value;
      ClearEdit(g, held, s, k - 1, g1);
      ClearPageStep(g, held, s, k - 1, g1, g');
    }
  }
}
