/** The operations of the metal paging code, as functions from memory to memory.
    A `Panic` is the machine stopping: out of frames, count overflow or a bad free. */
module MetalOps {
  import opened Outcomes
  import opened PhysMm
  import opened MetalMemory

  /** The two memories have the same frames, spaces and paging mode. */
  ghost predicate SameShape(m: Memory, m': Memory) {
    && Shape(m')
    && |m'.tab| == |m.tab| && |m'.refs| == |m.refs|
    && m'.zero == m.zero && m'.depth == m.depth && m'.fan == m.fan && m'.rootFan == m.rootFan && m'.pae == m.pae
    && SameReserved(m, m')
  }

  ghost predicate SameReserved(m: Memory, m': Memory)
    requires |m'.refs| == |m.refs|
  {
    forall p: nat {:trigger m'.refs[p]} :: p < |m.refs| ==> (m'.refs[p] == RESERVED <==> m.refs[p] == RESERVED)
  }

  predicate Slot(m: Memory, n: nat, i: nat) {
    n < |m.tab| && i < |m.tab[n]|
  }

  function SetEntry(m: Memory, n: nat, i: nat, e: Entry): (r: Memory)
    requires Shape(m) && Slot(m, n, i)
    ensures SameShape(m, r)
  {
    m.(tab := m.tab[n := m.tab[n][i := e]])
  }

  /** `alloc_phys_page().expect(..)` */
  function Alloc(m: Memory): (r: Halting<(Memory, nat)>)
    requires Shape(m)
    ensures r.Ok? ==> SameShape(m, r.value.0) && r.value.1 < |m.refs| && m.refs[r.value.1] == 0
    ensures r.Ok? ==> r.value.0 == m.(refs := m.refs[r.value.1 := 1], next := r.value.1 + 1)
  {
    var p := NextFit(m.refs, m.next);
    if p.None? then Panic else Ok((m.(refs := m.refs[p.value := 1], next := p.value + 1), p.value))
  }

  /** `inc_shared_count` */
  function Retain(m: Memory, p: nat): (r: Halting<Memory>)
    requires Shape(m)
    ensures r.Ok? ==> SameShape(m, r.value)
  {
    var refs :- IncRef(m.refs, m.zero, p);
    Ok(m.(refs := refs))
  }

  /** `free_phys_page`; a table frame whose last reference goes is no longer a table. */
  function Release(m: Memory, p: nat): (r: Halting<Memory>)
    requires Shape(m)
    ensures r.Ok? ==> SameShape(m, r.value) && p < |m.refs|
  {
    var refs :- DecRef(m.refs, m.zero, p);
    Ok(m.(refs := refs, level := if refs[p] == 0 then m.level[p := 0] else m.level))
  }

  /** `replace_mapping`: store first, then drop the reference of the displaced entry. */
  function Replace(m: Memory, n: nat, i: nat, e: Entry): (r: Halting<Memory>)
    requires Shape(m) && Slot(m, n, i)
    ensures r.Ok? ==> SameShape(m, r.value)
  {
    var was := m.tab[n][i];
    var m' := SetEntry(m, n, i, e);
    if Owns(was) then Release(m', was.page) else Ok(m')
  }

  /** The count changes of `share_and_copy` over the first `k` entries of a row. */
  function ShareRow(refs: seq<nat>, zero: nat, row: seq<Entry>, k: nat): (r: Halting<seq<nat>>)
    requires k <= |row|
    ensures r.Ok? ==> |r.value| == |refs|
    ensures r.Ok? && (forall p :: 0 <= p < |refs| ==> refs[p] <= RESERVED) ==>
      forall p :: 0 <= p < |refs| ==> r.value[p] <= RESERVED && (r.value[p] == RESERVED <==> refs[p] == RESERVED)
  {
    if k == 0 then Ok(refs)
    else
      var up :- ShareRow(refs, zero, row, k - 1);
      if Owns(row[k - 1]) then IncRef(up, zero, row[k - 1].page) else Ok(up)
  }

  /** `share_and_copy` of table `x` into the unused frame `p`, which becomes a level-`l` table. */
  function ShareInto(m: Memory, x: nat, p: nat, l: nat, refs: seq<nat>): (r: Memory)
    requires Shape(m) && x < |m.refs| && p < |m.refs| && l < m.depth
    requires |refs| == |m.refs| && forall f :: 0 <= f < |refs| ==>
      refs[f] <= RESERVED && (refs[f] == RESERVED <==> m.refs[f] == RESERVED)
    ensures SameShape(m, r)
  {
    var row := ReadOnlyRow(m.tab[x]);
    m.(refs := refs, level := m.level[p := l], tab := m.tab[x := row][p := row])
  }

  /** Copies the table that slot `i` of node `n` points at into frame `p` and points the slot there. */
  function CopyTable(m: Memory, n: nat, i: nat, p: nat): (r: Halting<Memory>)
    requires Shape(m) && Slot(m, n, i) && m.level[n] >= 2 && m.tab[n][i].page < |m.refs| && p < |m.refs|
    ensures r.Ok? ==> SameShape(m, r.value)
  {
    var e := m.tab[n][i];
    var refs :- ShareRow(m.refs, m.zero, m.tab[e.page], |m.tab[e.page]|);
    var m1 := ShareInto(m, e.page, p, m.level[n] - 1, refs);
    Release(SetEntry(m1, n, i, NewEntry(p, true, e.user)), e.page)
  }

  /** `cow_entry` on a table: a fresh frame takes a read-only copy of the shared row. */
  function CowTable(m: Memory, n: nat, i: nat): (r: Halting<Memory>)
    requires Shape(m) && Slot(m, n, i) && m.level[n] >= 2
    ensures r.Ok? ==> SameShape(m, r.value)
  {
    if m.tab[n][i].page >= |m.refs| then Panic
    else
      var a :- Alloc(m);
      CopyTable(a.0, n, i, a.1)
  }

  /** `cow_entry` on a leaf: a fresh frame takes a copy of the data. */
  function CowLeaf(m: Memory, n: nat, i: nat): (r: Halting<Memory>)
    requires Shape(m) && Slot(m, n, i)
    ensures r.Ok? ==> SameShape(m, r.value)
  {
    var e := m.tab[n][i];
    if e.page >= |m.refs| then Panic
    else
      var a :- Alloc(m);
      Replace(a.0.(dat := m.dat[a.1 := m.dat[e.page]]), n, i, NewEntry(a.1, true, e.user))
  }

  /** `cow_entry`: a sole owner just regains the write bit. */
  function CowEntry(m: Memory, n: nat, i: nat): (r: Halting<Memory>)
    requires Shape(m) && Slot(m, n, i)
    ensures r.Ok? ==> SameShape(m, r.value)
  {
    var e := m.tab[n][i];
    if RefCount(m.refs, m.zero, e.page) == 1 then Ok(SetEntry(m, n, i, e.(hw := true)))
    else if m.level[n] >= 2 then CowTable(m, n, i)
    else CowLeaf(m, n, i)
  }

  /** `demand_page`: an absent slot gets the zero page, read-only; nothing is displaced. */
  function Demand(m: Memory, n: nat, i: nat): (r: Memory)
    requires Shape(m) && Slot(m, n, i)
    ensures SameShape(m, r)
  {
    SetEntry(m, n, i, NewEntry(m.zero, false, true))
  }

  /** What the faults of one write access do to one slot: page it in, then COW it. */
  function PrepSlot(m: Memory, n: nat, i: nat): (r: Halting<Memory>)
    requires Shape(m) && Slot(m, n, i)
    ensures r.Ok? ==> SameShape(m, r.value)
  {
    var m1 := if m.tab[n][i].present then m else Demand(m, n, i);
    if m1.tab[n][i].hw then Ok(m1) else CowEntry(m1, n, i)
  }

  /** All the faults of a write access through the first `k` entries of `q`, outermost first. */
  function Prep(m: Memory, s: nat, q: seq<nat>, k: nat): (r: Halting<Memory>)
    requires Shape(m) && k <= |q|
    ensures r.Ok? ==> SameShape(m, r.value)
  {
    if k == 0 then Ok(m)
    else
      var m1 :- Prep(m, s, q, k - 1);
      var n := m1.Walk(s, q, k - 1);
      if n.None? || !Slot(m1, n.value, q[k - 1]) then Panic else PrepSlot(m1, n.value, q[k - 1])
  }

  /** `share_and_copy` on the user entries of root `s`; the copy is the root of a new space. */
  function ShareRoot(m: Memory, s: nat): (r: Halting<Memory>)
    requires Shape(m) && s < m.Spaces()
    ensures r.Ok? ==> Shape(r.value) && r.value.Spaces() == m.Spaces() + 1 && |r.value.refs| == |m.refs|
  {
    var row := m.tab[m.Root(s)];
    var refs :- ShareRow(m.refs, m.zero, row, |row|);
    Ok(m.(refs := refs, tab := m.tab[m.Root(s) := ReadOnlyRow(row)] + [ReadOnlyRow(row)], level := m.level + [m.depth]))
  }

  /** The PAE loop of `fork_generic`: `cow_entry` on each read-only entry among the first `k` of node `n`. */
  function Deshare(m: Memory, n: nat, k: nat): (r: Halting<Memory>)
    requires Shape(m) && n < |m.tab| && k <= |m.tab[n]|
    ensures r.Ok? ==> SameShape(m, r.value)
  {
    if k == 0 then Ok(m)
    else
      var m1 :- Deshare(m, n, k - 1);
      if m1.tab[n][k - 1].present && !m1.tab[n][k - 1].hw then CowEntry(m1, n, k - 1) else Ok(m1)
  }

  /** `fork_current`: the number of the child space is the old number of spaces. */
  function Fork(m: Memory, s: nat): (r: Halting<Memory>)
    requires Shape(m) && s < m.Spaces()
    ensures r.Ok? ==> Shape(r.value) && r.value.Spaces() == m.Spaces() + 1 && |r.value.refs| == |m.refs|
  {
    var m1 :- ShareRoot(m, s);
    if m.pae then Deshare(m1, m.Root(s), m.rootFan) else Ok(m1)
  }

  /** The faults of a read through the first `k` entries of `q`: a missing entry is paged in,
      which is a write through the entries above it. */
  function Touch(m: Memory, s: nat, q: seq<nat>, k: nat): (r: Halting<Memory>)
    requires Shape(m) && k <= |q|
    ensures r.Ok? ==> SameShape(m, r.value)
  {
    if k == 0 then Ok(m)
    else
      var m1 :- Touch(m, s, q, k - 1);
      var n := m1.Walk(s, q, k - 1);
      if n.None? || !Slot(m1, n.value, q[k - 1]) then Panic
      else if m1.tab[n.value][q[k - 1]].present then Ok(m1)
      else PageIn(m1, s, q, k)
  }

  /** Pages in entry `k` of `q`, found missing. */
  function PageIn(m: Memory, s: nat, q: seq<nat>, k: nat): (r: Halting<Memory>)
    requires Shape(m) && 0 < k <= |q|
    ensures r.Ok? ==> SameShape(m, r.value)
  {
    var m1 :- Prep(m, s, q, k - 1);
    var n := m1.Walk(s, q, k - 1);
    if n.None? || !Slot(m1, n.value, q[k - 1]) then Panic
    else if m1.tab[n.value][q[k - 1]].present then Ok(m1)
    else Ok(Demand(m1, n.value, q[k - 1]))
  }

  /** A guest load: pages in what is missing, except behind a device trap. */
  function Load(m: Memory, s: nat, q: seq<nat>): (r: Halting<Memory>)
    requires Shape(m) && |q| == m.depth
    ensures r.Ok? ==> SameShape(m, r.value)
  {
    var e := m.Leaf(s, q);
    Touch(m, s, q, if !e.present && e.cacheDisable then m.depth - 1 else m.depth)
  }

  /** Stores entry `e` for page `q`, serving the faults of that store, and drops what was there. */
  function Install(m: Memory, s: nat, q: seq<nat>, e: Entry): (r: Halting<Memory>)
    requires Shape(m) && |q| == m.depth
    ensures r.Ok? ==> SameShape(m, r.value)
  {
    var m1 :- Prep(m, s, q, m.depth - 1);
    var t := m1.Walk(s, q, m.depth - 1);
    if t.None? || !Slot(m1, t.value, q[m.depth - 1]) then Panic else Replace(m1, t.value, q[m.depth - 1], e)
  }

  /** `copy_page_entries` for one page: the source entry is read, and its frame retained, before
      the store into the destination takes its faults. */
  function CopyPage(m: Memory, s: nat, src: seq<nat>, dst: seq<nat>): (r: Halting<Memory>)
    requires Shape(m) && |src| == |dst| == m.depth
    ensures r.Ok? ==> SameShape(m, r.value)
  {
    var m1 :- Touch(m, s, src, m.depth - 1);
    var e := m1.Leaf(s, src);
    var m2 :- if Owns(e) then Retain(m1, e.page) else Ok(m1);
    Install(m2, s, dst, e)
  }

  /** `free_subtree` on slot `i` of a level-`l` node: a sole-owned table is emptied first, a
      shared one loses one reference. (The stores into a sole-owned table may first give its
      ancestors their write bits back; those entries are cleared before the call ends.) */
  function FreeSlot(m: Memory, n: nat, i: nat, l: nat): (r: Halting<Memory>)
    requires Shape(m) && Slot(m, n, i)
    ensures r.Ok? ==> SameShape(m, r.value)
    decreases l, i
  {
    var e := m.tab[n][i];
    if !e.present then Ok(m)
    else
      var m1 :- if l >= 2 && RefCount(m.refs, m.zero, e.page) == 1 then FreeRow(m, e.page, m.fan, l - 1) else Ok(m);
      Replace(m1, n, i, ABSENT)
  }

  /** The first `k` slots of a level-`l` node. */
  function FreeRow(m: Memory, n: nat, k: nat, l: nat): (r: Halting<Memory>)
    requires Shape(m) && n < |m.tab| && k <= |m.tab[n]|
    ensures r.Ok? ==> SameShape(m, r.value)
    decreases l, k
  {
    if k == 0 then Ok(m)
    else
      var m1 :- FreeRow(m, n, k - 1, l);
      FreeSlot(m1, n, k - 1, l)
  }

  /** `free_user_pages` in space `s`. */
  function FreeSpace(m: Memory, s: nat): (r: Halting<Memory>)
    requires Shape(m) && s < m.Spaces()
    ensures r.Ok? ==> SameShape(m, r.value)
  {
    FreeRow(m, m.Root(s), m.rootFan, m.depth)
  }

  /** `RootPageTable::empty()`: a new space with nothing mapped. */
  function NewSpace(m: Memory): (r: Memory)
    requires Shape(m)
    ensures Shape(r) && r.Spaces() == m.Spaces() + 1 && |r.refs| == |m.refs|
  {
    m.(tab := m.tab + [seq(m.rootFan, _ => ABSENT)], level := m.level + [m.depth])
  }

  /** A store of `e` into the entry of page `q` that drops nothing (half of a swap). */
  function Poke(m: Memory, s: nat, q: seq<nat>, e: Entry): (r: Halting<Memory>)
    requires Shape(m) && |q| == m.depth
    ensures r.Ok? ==> SameShape(m, r.value)
  {
    var m1 :- Prep(m, s, q, m.depth - 1);
    var t := m1.Walk(s, q, m.depth - 1);
    if t.None? || !Slot(m1, t.value, q[m.depth - 1]) then Panic else Ok(SetEntry(m1, t.value, q[m.depth - 1], e))
  }

  /** `swap_page_entries` for one page: both entries are read, then both are written. */
  function SwapPage(m: Memory, s: nat, a: seq<nat>, b: seq<nat>): (r: Halting<Memory>)
    requires Shape(m) && |a| == |b| == m.depth
    ensures r.Ok? ==> SameShape(m, r.value)
  {
    var m1 :- Touch(m, s, a, m.depth - 1);
    var m2 :- Touch(m1, s, b, m.depth - 1);
    var m3 :- Poke(m2, s, a, m2.Leaf(s, b));
    Poke(m3, s, b, m1.Leaf(s, a))
  }
}
