/** The interpreter's address-space operations, as functions on guest memory. A `Panic` is the
    allocator running out of frames. */
module InterpOps {
  import opened Outcomes
  import opened ArchContract
  import opened InterpPhys
  import opened InterpMemory

  function Blanks(n: nat): (row: seq<Pte>)
    ensures |row| == n && forall i :: 0 <= i < n ==> row[i] == NONE
  {
    seq(n, _ => NONE)
  }

  predicate Framed(g: Guest) {
    |g.kind| == |g.tab| == |g.bytes| == FRAMES
  }

  /** The operation keeps the number of frames and spaces. */
  predicate Keeps(g: Guest, r: Halting<Guest>) {
    r.Ok? ==> Framed(r.value) && |r.value.dirs| == |g.dirs| && r.value.windows == g.windows
  }

  /** A fresh frame for some use. */
  function Alloc(g: Guest, k: Kind): (r: Halting<(Guest, nat)>)
    requires Framed(g)
    ensures r.Ok? ==> Keeps(g, Ok(r.value.0))
  {
    var t :- Take(g.pool);
    Ok((g.(pool := t.0, kind := if t.1 < FRAMES then g.kind[t.1 := k] else g.kind), t.1))
  }

  /** `alloc_table`: a fresh frame, cleared. */
  function AllocTable(g: Guest, k: Kind, slots: nat): (r: Halting<(Guest, nat)>)
    requires Framed(g)
    ensures r.Ok? ==> Keeps(g, Ok(r.value.0))
  {
    var a :- Alloc(g, k);
    Ok((if a.1 < FRAMES then a.0.(tab := g.tab[a.1 := Blanks(slots)]) else a.0, a.1))
  }

  /** `write_entry`, which also moves the generation on. */
  function WriteEntry(g: Guest, f: nat, i: nat, e: Pte): Guest
    requires f < |g.tab| && i < |g.tab[f]|
  {
    g.(tab := g.tab[f := g.tab[f][i := e]], gen := g.gen + 1)
  }

  predicate HasTable(g: Guest, s: nat, v: nat) {
    && s < |g.dirs|
    && g.PdeAt(s, v / SLOTS).present && g.PdeAt(s, v / SLOTS).frame < |g.tab|
    && v % SLOTS < |g.tab[g.PdeAt(s, v / SLOTS).frame]|
  }

  function SetPte(g: Guest, s: nat, v: nat, e: Pte): Guest
    requires HasTable(g, s, v)
  {
    WriteEntry(g, g.PdeAt(s, v / SLOTS).frame, v % SLOTS, e)
  }

  /** A new, empty table for page `v`. (The test of the directory's size never fails.) */
  function AddTable(g: Guest, s: nat, v: nat): (r: Halting<Guest>)
    requires Framed(g) && s < |g.dirs|
    ensures Keeps(g, r)
  {
    var a :- AllocTable(g, Table(s, v / SLOTS), SLOTS);
    var d := g.dirs[s];
    if d < |a.0.tab| && v / SLOTS < |a.0.tab[d]| then Ok(WriteEntry(a.0, d, v / SLOTS, Mapping(a.1, true))) else Panic
  }

  /** The table for page `v`, allocated on first use. */
  function EnsureTable(g: Guest, s: nat, v: nat): (r: Halting<Guest>)
    requires Framed(g) && s < |g.dirs|
    ensures Keeps(g, r)
  {
    if g.PdeAt(s, v / SLOTS).present then Ok(g) else AddTable(g, s, v)
  }

  /** `map_page` and its relatives. */
  function MapPte(g: Guest, s: nat, v: nat, e: Pte): (r: Halting<Guest>)
    requires Framed(g) && s < |g.dirs|
    ensures Keeps(g, r)
  {
    var g1 :- EnsureTable(g, s, v);
    if HasTable(g1, s, v) then Ok(SetPte(g1, s, v, e)) else Panic
  }

  function IncRef(g: Guest, f: nat): Guest {
    g.(pool := Share(g.pool, f))
  }

  /** `free_frames(f, 1)`: the last reference gives the frame back, wiped. */
  function Release(g: Guest, f: nat): (r: Guest)
    requires Framed(g)
    ensures Keeps(g, Ok(r))
  {
    var g1 := g.(pool := Drop(g.pool, f));
    if LastRef(g.pool, f) && f < FRAMES then g1.(kind := g.kind[f := Unused], bytes := g.bytes[f := Zeros()]) else g1
  }

  function Fill(g: Guest, f: nat, b: Bytes): Guest
    requires f < |g.bytes|
  {
    g.(bytes := g.bytes[f := b])
  }

  // ---- Spaces ----

  /** `map_kernel_windows`, the first `k` of them. */
  function MapWindows(g: Guest, s: nat, k: nat): (r: Halting<Guest>)
    requires Framed(g) && s < |g.dirs| && k <= |g.windows|
    ensures Keeps(g, r)
  {
    if k == 0 then Ok(g)
    else
      var g1 :- MapWindows(g, s, k - 1);
      MapPte(g1, s, g.windows[k - 1].page, Mapping(g.windows[k - 1].frame, true))
  }

  /** `space_new`: the new space gets the next number. */
  function NewSpace(g: Guest): (r: Halting<Guest>)
    requires Framed(g)
    ensures r.Ok? ==> Framed(r.value) && |r.value.dirs| == |g.dirs| + 1 && r.value.windows == g.windows
  {
    var a :- AllocTable(g, Dir(|g.dirs|), SLOTS);
    var g1 := a.0.(dirs := g.dirs + [a.1]);
    MapWindows(g1, |g.dirs|, |g.windows|)
  }

  /** One page of `space_fork`: writable and COW pages become COW on both sides, read-only ones
      are shared as they are, and what the child already has stays. */
  function ForkPage(g: Guest, s: nat, c: nat, v: nat): (r: Halting<Guest>)
    requires Framed(g) && s < |g.dirs| && c < |g.dirs|
    ensures Keeps(g, r)
  {
    var e := g.PteAt(s, v);
    if !e.present || g.PteAt(c, v).present then Ok(g)
    else if e.writable || e.cow then
      if !HasTable(g, s, v) then Panic
      else
        var g1 :- MapPte(SetPte(g, s, v, CowMapping(e.frame)), c, v, CowMapping(e.frame));
        Ok(IncRef(g1, e.frame))
    else
      var g1 :- MapPte(g, c, v, Mapping(e.frame, false));
      Ok(IncRef(g1, e.frame))
  }

  function ForkPages(g: Guest, s: nat, c: nat, k: nat): (r: Halting<Guest>)
    requires Framed(g) && s < |g.dirs| && c < |g.dirs|
    ensures Keeps(g, r)
  {
    if k == 0 then Ok(g)
    else
      var g1 :- ForkPages(g, s, c, k - 1);
      ForkPage(g1, s, c, k - 1)
  }

  /** `space_fork` */
  function ForkSpace(g: Guest, s: nat): (r: Halting<Guest>)
    requires Framed(g) && s < |g.dirs|
    ensures r.Ok? ==> Framed(r.value) && |r.value.dirs| == |g.dirs| + 1 && r.value.windows == g.windows
  {
    var g1 :- NewSpace(g);
    ForkPages(g1, s, |g.dirs|, ALL_PAGES)
  }

  /** `space_cow_fault` on a COW page: copy a shared frame, keep one that is not. */
  function CowFault(g: Guest, s: nat, v: nat): (r: Halting<Guest>)
    requires Framed(g) && HasTable(g, s, v)
    ensures Keeps(g, r)
  {
    var f := g.PteAt(s, v).frame;
    if f in g.pool.shared then
      var a :- Alloc(g, Data);
      if f >= FRAMES || a.1 >= FRAMES then Panic
      else Ok(Release(SetPte(Fill(a.0, a.1, g.bytes[f]), s, v, Mapping(a.1, true)), f))
    else Ok(SetPte(g, s, v, Mapping(f, true)))
  }

  const NULL_GUARD: nat := 16

  /** `space_demand` refuses: a device window, the null guard or the kernel's half. */
  predicate Refuses(g: Guest, s: nat, v: nat) {
    g.PteAt(s, v).pcd || v < NULL_GUARD || v >= USER_PAGES
  }

  /** `space_map_fresh` for one page; also how a missing page is committed. */
  function MapFresh(g: Guest, s: nat, v: nat): (r: Halting<Guest>)
    requires Framed(g) && s < |g.dirs|
    ensures Keeps(g, r)
  {
    var a :- Alloc(g, Data);
    MapPte(a.0, s, v, Mapping(a.1, true))
  }

  /** A guest load. */
  function Load(g: Guest, s: nat, v: nat): (r: Halting<Guest>)
    requires Framed(g) && s < |g.dirs|
    ensures Keeps(g, r)
  {
    if g.PteAt(s, v).present || Refuses(g, s, v) then Ok(g) else MapFresh(g, s, v)
  }

  function Poke(g: Guest, f: nat, off: nat, b: bv8): (r: Halting<Guest>)
    requires Framed(g)
    ensures Keeps(g, r)
  {
    if f < FRAMES && off < |g.bytes[f]| then Ok(Fill(g, f, g.bytes[f][off := b])) else Panic
  }

  /** A guest store: commits a missing page, resolves a COW fault, and is refused on a
      read-only page, a device window and outside the program's half. */
  function Store(g: Guest, s: nat, v: nat, off: nat, b: bv8): (r: Halting<Guest>)
    requires Framed(g) && s < |g.dirs|
    ensures Keeps(g, r)
  {
    var e := g.PteAt(s, v);
    if (if e.present then !e.writable && !e.cow else Refuses(g, s, v)) then Ok(g)
    else
      var g1 :- if !e.present then MapFresh(g, s, v) else if e.writable then Ok(g)
        else if HasTable(g, s, v) then CowFault(g, s, v) else Panic;
      Poke(g1, g1.PteAt(s, v).frame, off, b)
  }

  /** `unmap_page`: the entry goes, the frame's reference does not. */
  function Unmap(g: Guest, s: nat, v: nat): (r: Halting<Guest>)
    requires Framed(g) && s < |g.dirs|
    ensures Keeps(g, r)
  {
    Ok(if HasTable(g, s, v) then SetPte(g, s, v, NONE) else g)
  }

  /** One page of `space_map_mmio`. */
  function MapTrap(g: Guest, s: nat, v: nat): (r: Halting<Guest>)
    requires Framed(g) && s < |g.dirs|
    ensures Keeps(g, r)
  {
    var g1 :- EnsureTable(g, s, v);
    var e := g1.PteAt(s, v);
    var g2 := if e.present then Release(g1, e.frame) else g1;
    if HasTable(g2, s, v) then Ok(SetPte(g2, s, v, TRAP)) else Panic
  }

  /** One page of `space_copy_entries`: what `dst` held is given up first, then `dst` maps the
      frame of `src`, writable if that is. */
  function CopyPage(g: Guest, s: nat, src: nat, dst: nat): (r: Halting<Guest>)
    requires Framed(g) && s < |g.dirs|
    ensures Keeps(g, r)
  {
    var was := g.PteAt(s, dst);
    var g1 := if was.present then Release(g, was.frame) else g;
    var e := g1.PteAt(s, src);
    if e.present then
      var g2 :- MapPte(g1, s, dst, Mapping(e.frame, e.writable));
      Ok(IncRef(g2, e.frame))
    else Unmap(g1, s, dst)
  }

  /** One page of `space_swap_entries`. Both directory slots are looked at before either table
      is made, so two pages under one missing slot get two tables and keep the second. */
  function SwapPage(g: Guest, s: nat, a: nat, b: nat): (r: Halting<Guest>)
    requires Framed(g) && s < |g.dirs|
    ensures Keeps(g, r)
  {
    var g1 :- if g.PdeAt(s, a / SLOTS).present then Ok(g) else AddTable(g, s, a);
    var g2 :- if g.PdeAt(s, b / SLOTS).present then Ok(g1) else AddTable(g1, s, b);
    var ea, eb := g2.PteAt(s, a), g2.PteAt(s, b);
    if HasTable(g2, s, a) && HasTable(SetPte(g2, s, a, eb), s, b) then Ok(SetPte(SetPte(g2, s, a, eb), s, b, ea))
    else Panic
  }

  /** One page of `free_user_frames`. */
  function ClearPage(g: Guest, s: nat, v: nat): (r: Halting<Guest>)
    requires Framed(g) && s < |g.dirs|
    ensures Keeps(g, r)
  {
    var e := g.PteAt(s, v);
    if !e.present then Ok(g)
    else
      var g1 := Release(g, e.frame);
      if HasTable(g1, s, v) then Ok(SetPte(g1, s, v, NONE)) else Panic
  }

  function ClearPages(g: Guest, s: nat, k: nat): (r: Halting<Guest>)
    requires Framed(g) && s < |g.dirs|
    ensures Keeps(g, r)
  {
    if k == 0 then Ok(g)
    else
      var g1 :- ClearPages(g, s, k - 1);
      ClearPage(g1, s, k - 1)
  }

  /** `space_clean`, and what `space_destroy` does to memory. */
  function ClearSpace(g: Guest, s: nat): (r: Halting<Guest>)
    requires Framed(g) && s < |g.dirs|
    ensures Keeps(g, r)
  {
    ClearPages(g, s, USER_PAGES)
  }
}
