/** What the building blocks of the interpreter's paging code do to the leaves and the counts. */
module InterpBooks {
  import opened Outcomes
  import opened ArchContract
  import opened InterpPhys
  import opened InterpMemory
  import opened InterpOps

  /** Every leaf entry of every space is the same. */
  ghost predicate SameLeaves(g: Guest, g': Guest) {
    && |g'.dirs| == |g.dirs| && g'.windows == g.windows
    && forall s: nat, v: nat {:trigger g'.PteAt(s, v)} :: s < |g.dirs| && v < ALL_PAGES ==>
         g'.PteAt(s, v) == g.PteAt(s, v)
  }

  /** Every leaf but one is the same. */
  ghost predicate LeafSet(g: Guest, g': Guest, s: nat, v: nat, e: Pte) {
    && |g'.dirs| == |g.dirs| && g'.windows == g.windows
    && forall s': nat, v': nat {:trigger g'.PteAt(s', v')} :: s' < |g.dirs| && v' < ALL_PAGES ==>
         g'.PteAt(s', v') == if s' == s && v' == v then e else g.PteAt(s', v')
  }

  // ---- Counting ----

  lemma {:induction false} SpaceMapsSame(g: Guest, g': Guest, s: nat, f: nat, k: nat)
    requires k <= USER_PAGES && forall v: nat {:trigger g'.PteAt(s, v)} :: v < k ==> g'.PteAt(s, v) == g.PteAt(s, v)
    ensures SpaceMaps(g', s, f, k) == SpaceMaps(g, s, f, k)
  {
    if k > 0 { SpaceMapsSame(g, g', s, f, k - 1); }
  }

  lemma {:induction false} SpaceMapsSet(g: Guest, g': Guest, s: nat, v: nat, e: Pte, f: nat, k: nat)
    requires k <= USER_PAGES && v < k
    requires forall v': nat {:trigger g'.PteAt(s, v')} :: v' < k ==>
      g'.PteAt(s, v') == if v' == v then e else g.PteAt(s, v')
    ensures SpaceMaps(g', s, f, k) == SpaceMaps(g, s, f, k) - Maps(g.PteAt(s, v), f) + Maps(e, f)
  {
    if v == k - 1 { SpaceMapsSame(g, g', s, f, k - 1); } else { SpaceMapsSet(g, g', s, v, e, f, k - 1); }
  }

  lemma {:induction false} MapsSame(g: Guest, g': Guest, f: nat, n: nat)
    requires forall s: nat, v: nat {:trigger g'.PteAt(s, v)} :: s < n && v < USER_PAGES ==>
      g'.PteAt(s, v) == g.PteAt(s, v)
    ensures MapsUpTo(g', f, n) == MapsUpTo(g, f, n)
  {
    if n > 0 {
      MapsSame(g, g', f, n - 1);
      SpaceMapsSame(g, g', n - 1, f, USER_PAGES);
    }
  }

  lemma {:induction false} MapsSet(g: Guest, g': Guest, s: nat, v: nat, e: Pte, f: nat, n: nat)
    requires s < n && v < USER_PAGES
    requires forall s': nat, v': nat {:trigger g'.PteAt(s', v')} :: s' < n && v' < USER_PAGES ==>
      g'.PteAt(s', v') == if s' == s && v' == v then e else g.PteAt(s', v')
    ensures MapsUpTo(g', f, n) == MapsUpTo(g, f, n) - Maps(g.PteAt(s, v), f) + Maps(e, f)
  {
    if s == n - 1 {
      MapsSame(g, g', f, n - 1);
      SpaceMapsSet(g, g', s, v, e, f, USER_PAGES);
    } else {
      MapsSet(g, g', s, v, e, f, n - 1);
      SpaceMapsSame(g, g', n - 1, f, USER_PAGES);
    }
  }

  lemma {:induction false} SpaceMapsAtLeast(g: Guest, s: nat, v: nat, f: nat, k: nat)
    requires v < k && g.PteAt(s, v).present && g.PteAt(s, v).frame == f
    ensures SpaceMaps(g, s, f, k) >= 1
  {
    if v < k - 1 { SpaceMapsAtLeast(g, s, v, f, k - 1); }
  }

  lemma {:induction false} SpaceMapsTwo(g: Guest, s: nat, v: nat, w: nat, f: nat, k: nat)
    requires v < w < k && g.PteAt(s, v).present && g.PteAt(s, v).frame == f && g.PteAt(s, w).present
    requires g.PteAt(s, w).frame == f
    ensures SpaceMaps(g, s, f, k) >= 2
  {
    if w < k - 1 { SpaceMapsTwo(g, s, v, w, f, k - 1); } else { SpaceMapsAtLeast(g, s, v, f, k - 1); }
  }

  lemma {:induction false} MapsAtLeast(g: Guest, s: nat, f: nat, n: nat)
    requires s < n
    ensures MapsUpTo(g, f, n) >= SpaceMaps(g, s, f, USER_PAGES)
  {
    if s < n - 1 { MapsAtLeast(g, s, f, n - 1); }
  }

  lemma {:induction false} MapsTwoSpaces(g: Guest, s: nat, t: nat, f: nat, n: nat)
    requires s < t < n
    ensures MapsUpTo(g, f, n) >= SpaceMaps(g, s, f, USER_PAGES) + SpaceMaps(g, t, f, USER_PAGES)
  {
    if t < n - 1 { MapsTwoSpaces(g, s, t, f, n - 1); } else { MapsAtLeast(g, s, f, n - 1); }
  }

  lemma MappedHere(g: Guest, s: nat, v: nat)
    requires s < |g.dirs| && v < USER_PAGES && g.PteAt(s, v).present
    ensures Mapped(g, g.PteAt(s, v).frame) >= 1
  {
    SpaceMapsAtLeast(g, s, v, g.PteAt(s, v).frame, USER_PAGES);
    MapsAtLeast(g, s, g.PteAt(s, v).frame, |g.dirs|);
  }

  /** Two pages on one frame are two mappings. */
  lemma MappedTwice(g: Guest, s: nat, v: nat, s': nat, v': nat)
    requires s < |g.dirs| && v < USER_PAGES && s' < |g.dirs| && v' < USER_PAGES && (s != s' || v != v')
    requires g.PteAt(s, v).present && g.PteAt(s', v').present && g.PteAt(s', v').frame == g.PteAt(s, v).frame
    ensures Mapped(g, g.PteAt(s, v).frame) >= 2
  {
    var f := g.PteAt(s, v).frame;
    if s == s' {
      SpaceMapsTwo(g, s, if v < v' then v else v', if v < v' then v' else v, f, USER_PAGES);
      MapsAtLeast(g, s, f, |g.dirs|);
    } else {
      SpaceMapsAtLeast(g, s, v, f, USER_PAGES);
      SpaceMapsAtLeast(g, s', v', f, USER_PAGES);
      MapsTwoSpaces(g, if s < s' then s else s', if s < s' then s' else s, f, |g.dirs|);
    }
  }

  lemma {:induction false} SpaceMapsNone(g: Guest, s: nat, f: nat, k: nat)
    requires k <= USER_PAGES && forall v: nat {:trigger g.PteAt(s, v)} :: v < USER_PAGES && g.PteAt(s, v).present ==>
      g.PteAt(s, v).frame != f
    ensures SpaceMaps(g, s, f, k) == 0
  {
    if k > 0 { SpaceMapsNone(g, s, f, k - 1); }
  }

  lemma {:induction false} MapsNone(g: Guest, f: nat, n: nat)
    requires forall s: nat, v: nat {:trigger g.PteAt(s, v)} :: s < n && v < USER_PAGES && g.PteAt(s, v).present ==>
      g.PteAt(s, v).frame != f
    ensures MapsUpTo(g, f, n) == 0
  {
    if n > 0 {
      MapsNone(g, f, n - 1);
      SpaceMapsNone(g, n - 1, f, USER_PAGES);
    }
  }

  /** No page maps a frame that is not a data frame. */
  lemma UnmappedFrame(g: Guest, f: nat)
    requires Sized(g) && Leaves(g) && f < FRAMES && !g.kind[f].Data?
    ensures Mapped(g, f) == 0
  {
    MapsNone(g, f, |g.dirs|);
  }

  // ---- Table edits ----

  lemma HasTableInTree(g: Guest, s: nat, v: nat)
    requires Sized(g) && Trees(g) && s < |g.dirs| && v < ALL_PAGES && g.PdeAt(s, v / SLOTS).present
    ensures HasTable(g, s, v)
  {
  }

  lemma SetPteAt(g: Guest, s: nat, v: nat, e: Pte, s': nat, v': nat)
    requires Sized(g) && Trees(g) && s < |g.dirs| && v < ALL_PAGES && HasTable(g, s, v) && s' < |g.dirs|
    requires v' < ALL_PAGES
    ensures SetPte(g, s, v, e).PteAt(s', v') == if s' == s && v' == v then e else g.PteAt(s', v')
    ensures SetPte(g, s, v, e).PdeAt(s', v' / SLOTS) == g.PdeAt(s', v' / SLOTS)
  {
    var pt := g.PdeAt(s, v / SLOTS).frame;
    assert g.kind[pt] == Table(s, v / SLOTS);
    assert g.kind[g.dirs[s']] == Dir(s');
    var d := g.PdeAt(s', v' / SLOTS);
    if d.present && d.frame == pt {
      assert g.kind[d.frame] == Table(s', v' / SLOTS);
      assert v == v / SLOTS * SLOTS + v % SLOTS && v' == v' / SLOTS * SLOTS + v' % SLOTS;
    }
  }

  lemma SetPteLeaf(g: Guest, s: nat, v: nat, e: Pte)
    requires Sized(g) && Trees(g) && s < |g.dirs| && v < ALL_PAGES && HasTable(g, s, v)
    ensures Sized(SetPte(g, s, v, e)) && Trees(SetPte(g, s, v, e)) && LeafSet(g, SetPte(g, s, v, e), s, v, e)
  {
    var g' := SetPte(g, s, v, e);
    var pt := g.PdeAt(s, v / SLOTS).frame;
    assert g.kind[pt] == Table(s, v / SLOTS);
    forall s': nat, v': nat | s' < |g.dirs| && v' < ALL_PAGES
      ensures g'.PteAt(s', v') == if s' == s && v' == v then e else g.PteAt(s', v')
    {
      SetPteAt(g, s, v, e, s', v');
    }
    forall s': nat | s' < |g.dirs|
      ensures g'.dirs[s'] < FRAMES && g'.kind[g'.dirs[s']] == Dir(s') && |g'.tab[g'.dirs[s']]| == SLOTS
    {
      assert g.kind[g.dirs[s']] == Dir(s');
    }
    forall s': nat, i: nat | s' < |g'.dirs| && i < SLOTS && g'.PdeAt(s', i).present
      ensures g'.PdeAt(s', i).frame < FRAMES && g'.kind[g'.PdeAt(s', i).frame] == Table(s', i)
      ensures |g'.tab[g'.PdeAt(s', i).frame]| == SLOTS
    {
      SetPteAt(g, s, v, e, s', i * SLOTS);
      assert i * SLOTS / SLOTS == i;
      assert g.kind[g.PdeAt(s', i).frame] == Table(s', i);
    }
  }

  /** What an allocation of a frame for `k` leaves. */
  ghost predicate Allocated(g: Guest, g': Guest, f: nat, k: Kind) {
    && Sized(g) && Pooled(g) && !k.Unused?
    && 0 < f < FRAMES && g.kind[f].Unused? && g.bytes[f] == Zeros()
    && g'.kind == g.kind[f := k] && g'.bytes == g.bytes && g'.dirs == g.dirs && g'.windows == g.windows
    && Sized(g') && Pooled(g') && Refs(g'.pool, f) == 1 && g'.pool.shared == g.pool.shared
  }

  lemma AllocExact(g: Guest, k: Kind)
    requires Sized(g) && Pooled(g) && !k.Unused? && Alloc(g, k).Ok?
    ensures var (g', f) := Alloc(g, k).value; Allocated(g, g', f, k) && g'.tab == g.tab && g'.gen == g.gen
  {
    TakeExact(g.pool);
  }

  /** Nothing is mapped under the directory slot of page `v`. */
  ghost predicate EmptyRegion(g: Guest, s: nat, v: nat) {
    forall v': nat {:trigger g.PteAt(s, v')} :: v' / SLOTS == v / SLOTS ==> g.PteAt(s, v') == NONE
  }

  /** A missing table appears, empty: no leaf changes. */
  lemma EnsureTableStep(g: Guest, s: nat, v: nat, g1: Guest, f: nat, g': Guest)
    requires Sized(g) && Trees(g) && s < |g.dirs| && v < ALL_PAGES && EmptyRegion(g, s, v)
    requires Allocated(g, g1, f, Table(s, v / SLOTS)) && g1.tab == g.tab[f := Blanks(SLOTS)] && g1.gen == g.gen
    requires g.dirs[s] < |g1.tab| && v / SLOTS < |g1.tab[g.dirs[s]]|
    requires g' == WriteEntry(g1, g.dirs[s], v / SLOTS, Mapping(f, true))
    ensures Sized(g') && Trees(g') && SameLeaves(g, g') && HasTable(g', s, v)
  {
    var d := g.dirs[s];
    assert g.kind[d] == Dir(s);
    forall s': nat, i: nat | s' < |g.dirs| && i < SLOTS
      ensures g'.PdeAt(s', i) == if s' == s && i == v / SLOTS then Mapping(f, true) else g.PdeAt(s', i)
    {
      assert g.kind[g.dirs[s']] == Dir(s');
    }
    forall s': nat | s' < |g'.dirs|
      ensures g'.dirs[s'] < FRAMES && g'.kind[g'.dirs[s']] == Dir(s') && |g'.tab[g'.dirs[s']]| == SLOTS
    {
      assert g.kind[g.dirs[s']] == Dir(s');
    }
    forall s': nat, i: nat | s' < |g'.dirs| && i < SLOTS && g'.PdeAt(s', i).present
      ensures g'.PdeAt(s', i).frame < FRAMES && g'.kind[g'.PdeAt(s', i).frame] == Table(s', i)
      ensures |g'.tab[g'.PdeAt(s', i).frame]| == SLOTS
    {
      if s' != s || i != v / SLOTS { assert g.kind[g.PdeAt(s', i).frame] == Table(s', i); }
    }
    forall s': nat, v': nat | s' < |g.dirs| && v' < ALL_PAGES ensures g'.PteAt(s', v') == g.PteAt(s', v') {
      var i := v' / SLOTS;
      assert g'.PdeAt(s', i) == if s' == s && i == v / SLOTS then Mapping(f, true) else g.PdeAt(s', i);
      if g.PdeAt(s', i).present { assert g.kind[g.PdeAt(s', i).frame] == Table(s', i); }
    }
  }

  /** Frames in use keep their use; only the generation may move. */
  ghost predicate Undisturbed(g: Guest, g': Guest) {
    && |g'.kind| == |g.kind| && g'.bytes == g.bytes && g'.pool.shared == g.pool.shared && g'.gen >= g.gen
    && forall f: nat {:trigger g'.kind[f]} :: f < |g.kind| ==>
         if g.kind[f].Unused? then !g'.kind[f].Data? else g'.kind[f] == g.kind[f]
  }

  lemma SameLeavesBooks(g: Guest, held: map<nat, nat>, g': Guest)
    requires Books(g, held) && SameLeaves(g, g') && Undisturbed(g, g') && Sized(g') && Trees(g') && Pooled(g')
    ensures Books(g', held)
  {
    hide Trees, Pooled;
    forall f: nat | f < FRAMES && g'.kind[f].Data? ensures Refs(g'.pool, f) == Mapped(g', f) + Held(held, f) {
      MapsSame(g, g', f, |g.dirs|);
      assert g.kind[f].Data? && Refs(g.pool, f) == Mapped(g, f) + Held(held, f);
    }
    forall s: nat, v: nat | s < |g'.dirs| && v < USER_PAGES && g'.PteAt(s, v).present
      ensures g'.PteAt(s, v).frame < FRAMES && g'.kind[g'.PteAt(s, v).frame].Data?
    {
      assert g.PteAt(s, v) == g'.PteAt(s, v);
    }
    forall w | 0 <= w < |g'.windows|
      ensures USER_PAGES <= g'.windows[w].page < ALL_PAGES && g'.windows[w].frame < FRAMES
      ensures g'.kind[g'.windows[w].frame] == Fixed
    {
      assert g.kind[g.windows[w].frame] == Fixed;
    }
  }

  lemma AddTableBooks(g: Guest, held: map<nat, nat>, s: nat, v: nat, g': Guest)
    requires Books(g, held) && s < |g.dirs| && v < ALL_PAGES && EmptyRegion(g, s, v) && AddTable(g, s, v) == Ok(g')
    ensures Books(g', held) && SameLeaves(g, g') && HasTable(g', s, v) && Undisturbed(g, g')
  {
    hide Leaves, Counted, EmptyRegion;
    var k := Table(s, v / SLOTS);
    AllocExact(g, k);
    var a := AllocTable(g, k, SLOTS).value;
    EnsureTableStep(g, s, v, a.0, a.1, g');
    SameLeavesBooks(g, held, g');
  }

  lemma EnsureTableBooks(g: Guest, held: map<nat, nat>, s: nat, v: nat, g': Guest)
    requires Books(g, held) && s < |g.dirs| && v < ALL_PAGES && EnsureTable(g, s, v) == Ok(g')
    ensures Books(g', held) && SameLeaves(g, g') && HasTable(g', s, v) && Undisturbed(g, g')
  {
    hide Leaves, Counted, AddTable;
    if g.PdeAt(s, v / SLOTS).present { HasTableInTree(g, s, v); } else { AddTableBooks(g, held, s, v, g'); }
  }

  // ---- Counts ----

  /** `held` plus the mapping of `e`. */
  function Carry(held: map<nat, nat>, e: Pte): map<nat, nat> {
    if e.present then Hold(held, e.frame) else held
  }

  /** Storing a leaf entry turns the reference it brought into a mapping; the displaced
      entry's reference is left in the kernel's hands. */
  lemma SetPteBooks(g: Guest, held: map<nat, nat>, s: nat, v: nat, e: Pte)
    requires Books(g, Carry(held, e)) && s < |g.dirs| && v < USER_PAGES && HasTable(g, s, v)
    ensures Books(SetPte(g, s, v, e), Carry(held, g.PteAt(s, v))) && LeafSet(g, SetPte(g, s, v, e), s, v, e)
  {
    hide Trees;
    var g' := SetPte(g, s, v, e);
    SetPteLeaf(g, s, v, e);
    if e.present { assert e.frame in Carry(held, e); }
    SetPteCounted(g, held, s, v, e, g');
    forall s': nat, v': nat | s' < |g'.dirs| && v' < USER_PAGES && g'.PteAt(s', v').present
      ensures g'.PteAt(s', v').frame < FRAMES && g'.kind[g'.PteAt(s', v').frame].Data?
    {
      assert (s' == s && v' == v) || g'.PteAt(s', v') == g.PteAt(s', v');
    }
  }

  lemma SetPteCounted(g: Guest, held: map<nat, nat>, s: nat, v: nat, e: Pte, g': Guest)
    requires |g.kind| == FRAMES && Counted(g, Carry(held, e)) && s < |g.dirs| && v < USER_PAGES
    requires LeafSet(g, g', s, v, e) && g'.kind == g.kind && g'.pool == g.pool
    requires g.PteAt(s, v).present ==> g.PteAt(s, v).frame < FRAMES && g.kind[g.PteAt(s, v).frame].Data?
    ensures Counted(g', Carry(held, g.PteAt(s, v)))
  {
    var was := g.PteAt(s, v);
    forall f: nat | f < FRAMES && g'.kind[f].Data?
      ensures Refs(g'.pool, f) == Mapped(g', f) + Held(Carry(held, was), f)
    {
      MapsSet(g, g', s, v, e, f, |g.dirs|);
      assert Refs(g.pool, f) == Mapped(g, f) + Held(Carry(held, e), f);
    }
    forall f: nat | f in Carry(held, was) && Carry(held, was)[f] > 0 ensures f < FRAMES && g'.kind[f].Data? {
      if !(was.present && f == was.frame) { assert f in Carry(held, e) && Carry(held, e)[f] > 0; }
    }
  }

  lemma AllocBooks(g: Guest, held: map<nat, nat>)
    requires Books(g, held) && Alloc(g, Data).Ok?
    ensures var (g', f) := Alloc(g, Data).value;
      Allocated(g, g', f, Data) && g'.tab == g.tab && g'.gen == g.gen && Books(g', Hold(held, f)) && SameLeaves(g, g')
  {
    AllocExact(g, Data);
    var (g', f) := Alloc(g, Data).value;
    AllocTrees(g, g', f);
    UnmappedFrame(g, f);
    forall h: nat | h < FRAMES && g'.kind[h].Data? ensures Refs(g'.pool, h) == Mapped(g', h) + Held(Hold(held, f), h) {
      MapsSame(g, g', h, |g.dirs|);
      if h != f { assert Refs(g.pool, h) == Mapped(g, h) + Held(held, h); }
    }
  }

  lemma AllocTrees(g: Guest, g': Guest, f: nat)
    requires Wooded(g) && Allocated(g, g', f, Data) && g'.tab == g.tab
    ensures Trees(g') && SameLeaves(g, g')
  {
    forall s: nat | s < |g.dirs|
      ensures g'.dirs[s] < FRAMES && g'.kind[g'.dirs[s]] == Dir(s) && |g'.tab[g'.dirs[s]]| == SLOTS
    {
      assert g.kind[g.dirs[s]] == Dir(s);
    }
    forall s: nat, i: nat | s < |g.dirs| && i < SLOTS && g'.PdeAt(s, i).present
      ensures g'.PdeAt(s, i).frame < FRAMES && g'.kind[g'.PdeAt(s, i).frame] == Table(s, i)
      ensures |g'.tab[g'.PdeAt(s, i).frame]| == SLOTS
    {
      assert g'.PdeAt(s, i) == g.PdeAt(s, i);
    }
  }

  ghost predicate Wooded(g: Guest) {
    Sized(g) && Trees(g)
  }

  lemma IncRefBooks(g: Guest, held: map<nat, nat>, f: nat)
    requires Books(g, held) && f < FRAMES && g.kind[f].Data?
    ensures Books(IncRef(g, f), Hold(held, f)) && SameLeaves(g, IncRef(g, f))
  {
    var g' := IncRef(g, f);
    ShareExact(g.pool, f);
    SamePtes(g, g');
    forall h: nat | h < FRAMES && g'.kind[h].Data? ensures Refs(g'.pool, h) == Mapped(g', h) + Held(Hold(held, f), h) {
      MapsSame(g, g', h, |g.dirs|);
      assert Refs(g.pool, h) == Mapped(g, h) + Held(held, h);
    }
  }

  /** Tables that did not change hold the same tree. */
  lemma SamePtes(g: Guest, g': Guest)
    requires Wooded(g) && Sized(g') && g'.tab == g.tab && g'.dirs == g.dirs && g'.windows == g.windows
    requires forall f: nat {:trigger g'.kind[f]} :: f < FRAMES && !g.kind[f].Data? && !g.kind[f].Unused? ==>
      g'.kind[f] == g.kind[f]
    ensures Trees(g') && SameLeaves(g, g')
  {
    forall s: nat | s < |g.dirs|
      ensures g'.dirs[s] < FRAMES && g'.kind[g'.dirs[s]] == Dir(s) && |g'.tab[g'.dirs[s]]| == SLOTS
    {
      assert g.kind[g.dirs[s]] == Dir(s);
    }
    forall s: nat, i: nat | s < |g.dirs| && i < SLOTS && g'.PdeAt(s, i).present
      ensures g'.PdeAt(s, i).frame < FRAMES && g'.kind[g'.PdeAt(s, i).frame] == Table(s, i)
      ensures |g'.tab[g'.PdeAt(s, i).frame]| == SLOTS
    {
      assert g'.PdeAt(s, i) == g.PdeAt(s, i);
    }
  }

  /** Giving up a held reference; the last one means that no page maps the frame any more. */
  lemma ReleaseBooks(g: Guest, held: map<nat, nat>, f: nat)
    requires Books(g, Hold(held, f))
    ensures Books(Release(g, f), held) && SameLeaves(g, Release(g, f))
    ensures forall h: nat {:trigger Release(g, f).bytes[h]} :: h < FRAMES && Mapped(g, h) > 0 ==>
      Release(g, f).bytes[h] == g.bytes[h]
  {
    assert f in Hold(held, f);
    var g' := Release(g, f);
    ReleasePooled(g, held, f);
    SamePtes(g, g');
    ReleaseCounted(g, held, f);
    hide Trees, Pooled, Counted;
    forall s: nat, v: nat | s < |g'.dirs| && v < USER_PAGES && g'.PteAt(s, v).present
      ensures g'.PteAt(s, v).frame < FRAMES && g'.kind[g'.PteAt(s, v).frame].Data?
    {
      assert g'.PteAt(s, v) == g.PteAt(s, v);
      MappedHere(g, s, v);
    }
  }

  /** The frame is reclaimed only if no page maps it. */
  lemma ReleasePooled(g: Guest, held: map<nat, nat>, f: nat)
    requires Books(g, Hold(held, f))
    ensures f < FRAMES && g.kind[f].Data? && Sized(Release(g, f)) && Pooled(Release(g, f))
    ensures LastRef(g.pool, f) ==> Mapped(g, f) == 0
  {
    hide Trees, Leaves;
    assert f in Hold(held, f);
    DropExact(g.pool, f);
    assert Refs(g.pool, f) == Mapped(g, f) + Held(Hold(held, f), f);
  }

  lemma ReleaseCounted(g: Guest, held: map<nat, nat>, f: nat)
    requires Books(g, Hold(held, f))
    ensures |Release(g, f).kind| == FRAMES && Counted(Release(g, f), held)
  {
    assert f in Hold(held, f);
    var g' := Release(g, f);
    DropExact(g.pool, f);
    SamePtes(g, g');
    assert Refs(g.pool, f) == Mapped(g, f) + Held(Hold(held, f), f);
    forall h: nat | h < FRAMES && g'.kind[h].Data? ensures Refs(g'.pool, h) == Mapped(g', h) + Held(held, h) {
      MapsSame(g, g', h, |g.dirs|);
      assert Refs(g.pool, h) == Mapped(g, h) + Held(Hold(held, f), h);
    }
    forall h: nat | h in held && held[h] > 0 ensures h < FRAMES && g'.kind[h].Data? {
      assert h in Hold(held, f);
    }
  }

  lemma FillBooks(g: Guest, held: map<nat, nat>, f: nat, b: Bytes)
    requires Books(g, held) && f < FRAMES && g.kind[f].Data? && |b| == PAGE_SIZE
    ensures Books(Fill(g, f, b), held) && SameLeaves(g, Fill(g, f, b))
  {
    var g' := Fill(g, f, b);
    SamePtes(g, g');
    forall h: nat | h < FRAMES && g'.kind[h].Data? ensures Refs(g'.pool, h) == Mapped(g', h) + Held(held, h) {
      MapsSame(g, g', h, |g.dirs|);
      assert Refs(g.pool, h) == Mapped(g, h) + Held(held, h);
    }
  }
}
