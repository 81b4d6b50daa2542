/** Faults, stores and mapping edits of one space. */
module InterpSteps {
  import opened Outcomes
  import opened ArchContract
  import opened InterpPhys
  import opened InterpMemory
  import opened InterpOps
  import opened InterpBooks

  ghost predicate OtherViews(g: Guest, g': Guest, s: nat, v: nat) {
    && |g'.dirs| == |g.dirs|
    && forall s': nat, v': nat {:trigger View(g', s', v')} ::
         s' < |g.dirs| && v' < USER_PAGES && (s' != s || v' != v) ==> View(g', s', v') == View(g, s', v')
  }

  ghost predicate SameViews(g: Guest, g': Guest) {
    && |g'.dirs| == |g.dirs|
    && forall s: nat, v: nat {:trigger View(g', s, v)} :: s < |g.dirs| && v < USER_PAGES ==>
         View(g', s, v) == View(g, s, v)
  }

  lemma MapPteBooks(g: Guest, held: map<nat, nat>, s: nat, v: nat, e: Pte, g': Guest)
    requires Books(g, Carry(held, e)) && s < |g.dirs| && v < USER_PAGES && MapPte(g, s, v, e) == Ok(g')
    ensures Books(g', Carry(held, g.PteAt(s, v))) && LeafSet(g, g', s, v, e) && Undisturbed(g, g') && g'.gen > g.gen
  {
    hide Books, EnsureTable;
    assert Framed(g) by { BooksFramed(g, Carry(held, e)); }
    var g1 := EnsureTable(g, s, v).value;
    EnsureTableBooks(g, Carry(held, e), s, v, g1);
    SetPteBooks(g1, held, s, v, e);
    assert g1.PteAt(s, v) == g.PteAt(s, v);
  }

  lemma BooksFramed(g: Guest, held: map<nat, nat>)
    requires Books(g, held)
    ensures Framed(g)
  {
  }

  /** Rewriting an entry over the same frame moves no reference. */
  lemma SetFlagsBooks(g: Guest, held: map<nat, nat>, s: nat, v: nat, e: Pte)
    requires Books(g, held) && s < |g.dirs| && v < USER_PAGES && HasTable(g, s, v)
    requires g.PteAt(s, v).present && e.present && e.frame == g.PteAt(s, v).frame
    ensures Books(SetPte(g, s, v, e), held) && LeafSet(g, SetPte(g, s, v, e), s, v, e)
  {
    hide Trees;
    var g' := SetPte(g, s, v, e);
    SetPteLeaf(g, s, v, e);
    forall f: nat | f < FRAMES && g'.kind[f].Data? ensures Refs(g'.pool, f) == Mapped(g', f) + Held(held, f) {
      MapsSet(g, g', s, v, e, f, |g.dirs|);
      assert Refs(g.pool, f) == Mapped(g, f) + Held(held, f);
    }
    forall s': nat, v': nat | s' < |g'.dirs| && v' < USER_PAGES && g'.PteAt(s', v').present
      ensures g'.PteAt(s', v').frame < FRAMES && g'.kind[g'.PteAt(s', v').frame].Data?
    {
      assert (s' == s && v' == v) || g'.PteAt(s', v') == g.PteAt(s', v');
    }
  }

  /** A page with a leaf entry has a table. */
  lemma PresentHasTable(g: Guest, held: map<nat, nat>, s: nat, v: nat)
    requires Books(g, held) && s < |g.dirs| && v < ALL_PAGES && g.PteAt(s, v).present
    ensures HasTable(g, s, v) && (v < USER_PAGES ==> g.PteAt(s, v).frame < FRAMES && g.kind[g.PteAt(s, v).frame].Data?)
  {
    HasTableInTree(g, s, v);
  }

  /** No page maps frame `f`. */
  ghost predicate Unmapped(g: Guest, f: nat) {
    forall s: nat, v: nat {:trigger g.PteAt(s, v)} :: s < |g.dirs| && v < USER_PAGES && g.PteAt(s, v).present ==>
      g.PteAt(s, v).frame != f
  }

  /** A page gets a fresh, zeroed frame; the frame it had is leaked, not freed. */
  lemma MapFreshStep(g: Guest, held: map<nat, nat>, s: nat, v: nat, g': Guest) returns (f: nat)
    requires Books(g, held) && s < |g.dirs| && v < USER_PAGES && MapFresh(g, s, v) == Ok(g')
    ensures Books(g', Carry(held, g.PteAt(s, v))) && LeafSet(g, g', s, v, Mapping(f, true)) && g'.bytes == g.bytes
    ensures f < FRAMES && Unmapped(g, f) && g.bytes[f] == Zeros()
  {
    hide Counted, Trees, MapPte;
    AllocBooks(g, held);
    var a := Alloc(g, Data).value;
    f := a.1;
    MapPteBooks(a.0, held, s, v, Mapping(f, true), g');
    assert a.0.PteAt(s, v) == g.PteAt(s, v);
    forall s': nat, v': nat | s' < |g.dirs| && v' < ALL_PAGES
      ensures g'.PteAt(s', v') == if s' == s && v' == v then Mapping(f, true) else g.PteAt(s', v')
    {
      assert a.0.PteAt(s', v') == g.PteAt(s', v');
    }
  }

  /** `f` is the frame the page had, shared with no other page, or a frame no page had. */
  ghost predicate Private(g: Guest, s: nat, v: nat, f: nat) {
    forall s': nat, v': nat {:trigger g.PteAt(s', v')} ::
      s' < |g.dirs| && v' < USER_PAGES && g.PteAt(s', v').present && g.PteAt(s', v').frame == f ==> s' == s && v' == v
  }

  lemma SoleMapping(g: Guest, held: map<nat, nat>, s: nat, v: nat)
    requires Books(g, held) && s < |g.dirs| && v < USER_PAGES && g.PteAt(s, v).present
    requires g.PteAt(s, v).frame !in g.pool.shared
    ensures Private(g, s, v, g.PteAt(s, v).frame)
  {
    var f := g.PteAt(s, v).frame;
    assert Refs(g.pool, f) == Mapped(g, f) + Held(held, f);
    forall s': nat, v': nat | s' < |g.dirs| && v' < USER_PAGES && g.PteAt(s', v').present && g.PteAt(s', v').frame == f
      ensures s' == s && v' == v
    {
      if s' != s || v' != v { MappedTwice(g, s, v, s', v'); }
    }
  }

  /** A resolved COW fault: the page is writable, on a frame only it maps, with what it had. */
  lemma CowFaultStep(g: Guest, held: map<nat, nat>, s: nat, v: nat, g': Guest) returns (f: nat)
    requires Books(g, held) && s < |g.dirs| && v < USER_PAGES && HasTable(g, s, v) && g.PteAt(s, v).present
    requires CowFault(g, s, v) == Ok(g')
    ensures Books(g', held) && LeafSet(g, g', s, v, Mapping(f, true))
    ensures f < FRAMES && Private(g, s, v, f) && g.PteAt(s, v).frame < FRAMES
    ensures g'.bytes == g.bytes[f := g.bytes[g.PteAt(s, v).frame]]
  {
    hide Trees, Counted;
    f := g.PteAt(s, v).frame;
    if f in g.pool.shared {
      f := CowCopyStep(g, held, s, v, g');
    } else {
      SetFlagsBooks(g, held, s, v, Mapping(f, true));
      SoleMapping(g, held, s, v);
      assert g.bytes == g.bytes[f := g.bytes[f]];
    }
  }

  lemma CowCopyStep(g: Guest, held: map<nat, nat>, s: nat, v: nat, g': Guest) returns (f: nat)
    requires Books(g, held) && s < |g.dirs| && v < USER_PAGES && HasTable(g, s, v) && g.PteAt(s, v).present
    requires CowFault(g, s, v) == Ok(g')
    requires g.PteAt(s, v).frame in g.pool.shared
    ensures Books(g', held) && LeafSet(g, g', s, v, Mapping(f, true))
    ensures f < FRAMES && Private(g, s, v, f) && g.PteAt(s, v).frame < FRAMES
    ensures g'.bytes == g.bytes[f := g.bytes[g.PteAt(s, v).frame]]
  {
    hide Trees, Counted, Pooled;
    var was := g.PteAt(s, v);
    AllocBooks(g, held);
    var a := Alloc(g, Data).value;
    f := a.1;
    var g1 := Fill(a.0, f, g.bytes[was.frame]);
    FillBooks(a.0, Hold(held, f), f, g.bytes[was.frame]);
    var g2 := SetPte(g1, s, v, Mapping(f, true));
    SetPteBooks(g1, held, s, v, Mapping(f, true));
    assert a.0.PteAt(s, v) == was && g1.PteAt(s, v) == was;
    ReleaseBooks(g2, held, was.frame);
    forall s': nat, v': nat | s' < |g.dirs| && v' < ALL_PAGES
      ensures g'.PteAt(s', v') == if s' == s && v' == v then Mapping(f, true) else g.PteAt(s', v')
    {
      assert a.0.PteAt(s', v') == g.PteAt(s', v') && g1.PteAt(s', v') == a.0.PteAt(s', v');
      assert g'.PteAt(s', v') == g2.PteAt(s', v');
    }
  }

  // ---- Stores ----

  /** The store goes through: the page may be written, or is missing and may be committed. */
  predicate Takes(g: Guest, s: nat, v: nat) {
    var e := g.PteAt(s, v);
    if e.present then e.writable || e.cow else !Refuses(g, s, v)
  }

  /** All faults of a store are served. */
  ghost predicate Ready(g: Guest, g': Guest, s: nat, v: nat, f: nat) {
    && |g.bytes| == |g'.bytes| == FRAMES && f < FRAMES
    && LeafSet(g, g', s, v, g'.PteAt(s, v))
    && g'.PteAt(s, v).present && g'.PteAt(s, v).writable && g'.PteAt(s, v).frame == f
    && (if g.PteAt(s, v).present && g.PteAt(s, v).writable then g' == g else Private(g, s, v, f))
    && View(g, s, v).cell.Ram? && !View(g, s, v).sealed && g'.bytes == g.bytes[f := View(g, s, v).cell.bytes]
  }

  lemma StoreReady(g: Guest, held: map<nat, nat>, s: nat, v: nat, g': Guest)
    requires Books(g, held) && s < |g.dirs| && v < USER_PAGES && Takes(g, s, v)
    requires var e := g.PteAt(s, v);
      (if !e.present then MapFresh(g, s, v) else if e.writable then Ok(g)
        else if HasTable(g, s, v) then CowFault(g, s, v) else Panic) == Ok(g')
    ensures Books(g', held) && Ready(g, g', s, v, g'.PteAt(s, v).frame)
  {
    hide Trees, Counted, Pooled, MapFresh, CowFault;
    var e := g.PteAt(s, v);
    if !e.present {
      var f := MapFreshStep(g, held, s, v, g');
      assert g.bytes == g.bytes[f := Zeros()];
    } else if e.writable {
      PresentHasTable(g, held, s, v);
      assert g.bytes == g.bytes[e.frame := g.bytes[e.frame]];
    } else {
      var f := CowFaultStep(g, held, s, v, g');
    }
  }

  /** A store changes one frame, which no other space maps. */
  lemma StoreStep(g: Guest, held: map<nat, nat>, s: nat, v: nat, off: nat, b: bv8, g': Guest) returns (g1: Guest)
    requires Books(g, held) && s < |g.dirs| && v < USER_PAGES && off < PAGE_SIZE && Store(g, s, v, off, b) == Ok(g')
    ensures Books(g', held)
    ensures if Takes(g, s, v) then
              var f := g1.PteAt(s, v).frame;
              && Ready(g, g1, s, v, f) && |g1.bytes[f]| == PAGE_SIZE && g' == Fill(g1, f, g1.bytes[f][off := b])
            else g' == g
  {
    hide Trees, Counted, Pooled, MapFresh, CowFault;
    var e := g.PteAt(s, v);
    g1 := g;
    if Takes(g, s, v) {
      g1 := (if !e.present then MapFresh(g, s, v) else if e.writable then Ok(g)
        else if HasTable(g, s, v) then CowFault(g, s, v) else Panic).value;
      StoreReady(g, held, s, v, g1);
      var f := g1.PteAt(s, v).frame;
      assert g1.kind[f].Data?;
      FillBooks(g1, held, f, g1.bytes[f][off := b]);
    }
  }

  /** Two pages of a space are the same storage. */
  predicate Aliased(g: Guest, s: nat, v: nat, v': nat) {
    g.PteAt(s, v).present && g.PteAt(s, v').present && g.PteAt(s, v).frame == g.PteAt(s, v').frame
  }

  function Overwritten(p: Page, off: nat, b: bv8): Page {
    if p.cell.Ram? && off < |p.cell.bytes| then p.(cell := Ram(p.cell.bytes[off := b])) else p
  }

  /** Where a store shows: at its own page, and at an alias of it exactly when its entry was
      writable before the store. A store that first resolves a COW fault parts from its aliases. */
  predicate StoreReaches(g: Guest, s: nat, v: nat, s': nat, v': nat) {
    s' == s && Takes(g, s, v) && (v' == v || (Aliased(g, s, v, v') && g.PteAt(s, v).writable))
  }

  /** A store never shows in another space, and in its own exactly where it reaches. */
  lemma StoreViews(g: Guest, held: map<nat, nat>, s: nat, v: nat, off: nat, b: bv8, g': Guest, s': nat, v': nat)
    requires Books(g, held) && Apart(g) && s < |g.dirs| && v < USER_PAGES && off < PAGE_SIZE
    requires Store(g, s, v, off, b) == Ok(g') && s' < |g.dirs| && v' < USER_PAGES
    ensures View(g', s', v') == if StoreReaches(g, s, v, s', v') then Overwritten(View(g, s', v'), off, b)
      else View(g, s', v')
    ensures s' == s && v' == v && Takes(g, s, v) ==> !View(g, s, v).sealed && View(g, s, v).cell.Ram?
    ensures StoreReaches(g, s, v, s', v') ==> View(g, s', v').cell.Ram? && |View(g, s', v').cell.bytes| == PAGE_SIZE
  {
    hide Trees, Counted, Pooled, Store;
    var g1 := StoreStep(g, held, s, v, off, b, g');
    if Takes(g, s, v) {
      var f := g1.PteAt(s, v).frame;
      assert g'.PteAt(s', v') == g1.PteAt(s', v');
      if s' != s || v' != v {
        var e := g.PteAt(s', v');
        assert g'.PteAt(s', v') == e;
        if e.present && e.frame == f { assert Aliased(g, s, v, v') && g.PteAt(s, v).writable; }
      }
    }
  }

  /** What an edit of one leaf needs to keep the spaces apart. */
  ghost predicate Fitting(g: Guest, s: nat, v: nat, e: Pte) {
    e.present ==>
      forall s': nat, v': nat {:trigger g.PteAt(s', v')} ::
        && s' < |g.dirs| && v' < USER_PAGES && (s' != s || v' != v) && g.PteAt(s', v').present
        && g.PteAt(s', v').frame == e.frame && (e.writable || g.PteAt(s', v').writable)
        ==> s' == s
  }

  lemma ApartSet(g: Guest, g': Guest, s: nat, v: nat, e: Pte)
    requires Apart(g) && LeafSet(g, g', s, v, e) && s < |g.dirs| && v < USER_PAGES && Fitting(g, s, v, e)
    ensures Apart(g')
  {
    forall s1: nat, v1: nat, s2: nat, v2: nat | s1 < |g.dirs| && v1 < USER_PAGES && s2 < |g.dirs| && v2 < USER_PAGES
      && g'.PteAt(s1, v1).present && g'.PteAt(s1, v1).writable && g'.PteAt(s2, v2).present
      && g'.PteAt(s2, v2).frame == g'.PteAt(s1, v1).frame
      ensures s2 == s1
    {
      assert (s1 == s && v1 == v) || g'.PteAt(s1, v1) == g.PteAt(s1, v1);
      assert (s2 == s && v2 == v) || g'.PteAt(s2, v2) == g.PteAt(s2, v2);
    }
  }

  lemma StoreApart(g: Guest, held: map<nat, nat>, s: nat, v: nat, off: nat, b: bv8, g': Guest)
    requires Books(g, held) && Apart(g) && s < |g.dirs| && v < USER_PAGES && off < PAGE_SIZE
    requires Store(g, s, v, off, b) == Ok(g')
    ensures Apart(g')
  {
    hide Trees, Counted, Pooled, Store, Apart;
    var g1 := StoreStep(g, held, s, v, off, b, g');
    if Takes(g, s, v) {
      StoreFits(g, g1, s, v);
      ApartSet(g, g1, s, v, g1.PteAt(s, v));
      ApartSame(g1, g');
    }
  }

  lemma StoreFits(g: Guest, g1: Guest, s: nat, v: nat)
    requires Apart(g) && s < |g.dirs| && v < USER_PAGES && Ready(g, g1, s, v, g1.PteAt(s, v).frame)
    ensures Fitting(g, s, v, g1.PteAt(s, v))
  {
  }

  lemma ApartSame(g: Guest, g': Guest)
    requires Apart(g) && g'.tab == g.tab && g'.dirs == g.dirs
    ensures Apart(g')
  {
    assert forall s: nat, v: nat {:trigger g'.PteAt(s, v)} :: g'.PteAt(s, v) == g.PteAt(s, v);
  }
}
