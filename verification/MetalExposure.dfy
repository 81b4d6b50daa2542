/** Stores on aliased pages: exactly when the other page sees the new byte. */
module MetalExposure {
  import opened Outcomes
  import opened PhysMm
  import opened ArchContract
  import opened MetalMemory
  import opened MetalOps
  import opened MetalCounts
  import opened MetalCow
  import opened MetalWalks
  import opened MetalViews
  import opened MetalFaults
  import opened MetalStore

  /** Page `q` is written where it is: its entry is writable and no table on the way is shared. */
  ghost predicate Exposed(m: Memory, s: nat, q: seq<nat>)
    requires |q| == m.depth && m.depth >= 1
  {
    Chain(m, s, q, m.depth - 1) && Owns(m.Leaf(s, q)) && m.Leaf(s, q).hw
  }

  /** No entry of node `n` can be written, nor regain its write bit, without a copy. */
  ghost predicate Fenced(m: Memory, n: nat) {
    forall i: nat {:trigger m.At(n, i)} ::
      Owns(m.At(n, i)) ==> !m.At(n, i).hw && RefCount(m.refs, m.zero, m.At(n, i).page) != 1
  }

  /** The faults so far have copied nothing: the walk is the same, and so is every row it has yet to read. */
  ghost predicate Straight(m: Memory, m': Memory, s: nat, q: seq<nat>, k: nat)
    requires k <= |q| && k <= m.depth && |m.tab| == |m.level|
  {
    && m'.refs == m.refs && m'.level == m.level && |m'.tab| == |m.tab| && m'.zero == m.zero
    && m'.Walk(s, q, k) == m.Walk(s, q, k)
    && forall a: nat {:trigger m'.tab[a]} :: a < |m.tab| && m.level[a] + k <= m.depth ==> m'.tab[a] == m.tab[a]
  }

  /** What the faults of a store have left at step `k`: a private path untouched, or a fresh copy. */
  ghost predicate Progress(m: Memory, m': Memory, s: nat, q: seq<nat>, k: nat)
    requires k <= |q| && k <= m.depth && |m.tab| == |m.level|
  {
    if Chain(m, s, q, k) then Straight(m, m', s, q, k)
    else m'.Walk(s, q, k).Some? && Fenced(m', m'.Walk(s, q, k).value)
  }

  /** Writing the node a walk has reached does not move the walk. */
  lemma {:induction false} WalkOn(m: Memory, m': Memory, s: nat, q: seq<nat>, k: nat, n: nat)
    requires Shape(m) && ZeroOk(m) && Typed(m) && SameShape(m, m') && s < m.Spaces() && m.Path(q) && k < m.depth
    requires n < |m.tab| && n != m.zero && m.level[n] <= m.depth - k
    requires forall a: nat {:trigger m'.tab[a]} :: a < |m.tab| && a != n ==> m'.tab[a] == m.tab[a]
    ensures m'.Walk(s, q, k) == m.Walk(s, q, k)
  {
    hide Typed, ZeroOk, RowsOk, SameReserved;
    if k > 0 {
      WalkOn(m, m', s, q, k - 1, n);
      if m.Walk(s, q, k - 1).Some? { WalkTyped(m, s, q, k - 1); }
    }
  }

  /** The copy of a shared table is fenced: each of its frames is now in two tables. */
  lemma CowTableFences(m: Memory, held: seq<nat>, n: nat, i: nat)
    requires Accounted(m, held) && Slot(m, n, i) && m.level[n] >= 2 && Owns(m.tab[n][i])
    requires RefCount(m.refs, m.zero, m.tab[n][i].page) != 1 && CowTable(m, n, i).Ok?
    ensures var m' := CowTable(m, n, i).value; Slot(m', n, i) && m'.tab[n][i].present && Fenced(m', m'.tab[n][i].page)
  {
    hide CowTable, Exact, TablesPrivate, Typed, RowsOk, SameReserved;
    CowTableAccounted(m, held, n, i);
    CowTableCopies(m, held, n, i);
    var m', x, p := CowTable(m, n, i).value, m.tab[n][i].page, Alloc(m).value.1;
    var row := m.tab[x];
    forall j: nat | Owns(m'.At(p, j)) ensures !m'.At(p, j).hw && RefCount(m'.refs, m'.zero, m'.At(p, j).page) != 1 {
      CopiedEntryShared(m, m', held, n, i, x, p, j);
    }
  }

  lemma CopiedEntryShared(m: Memory, m': Memory, held: seq<nat>, n: nat, i: nat, x: nat, p: nat, j: nat)
    requires Shape(m) && ZeroOk(m) && Slot(m, n, i) && TableCopied(m, m', n, i, x, p) && Accounted(m', held)
    requires Owns(m'.At(p, j))
    ensures !m'.At(p, j).hw && RefCount(m'.refs, m'.zero, m'.At(p, j).page) != 1
  {
    hide Exact, TablesPrivate, Typed, SameReserved;
    var f := m'.tab[p][j].page;
    if Counted(m', f) && m'.refs[f] == 1 {
      assert OwnedAt(m', p, j, f) && OwnedAt(m', x, j, f);
      SoleOwner(m', held, p, j, x, j, f);
      assert false;
    }
  }

  /** One table slot of a store's faults that is shared, or missing, is replaced by a fenced copy. */
  lemma PrepSlotFences(m: Memory, held: seq<nat>, n: nat, i: nat, m': Memory)
    requires Accounted(m, held) && Slot(m, n, i) && m.level[n] >= 2 && PrepSlot(m, n, i) == Ok(m')
    requires var e := m.tab[n][i]; e.present ==> RefCount(m.refs, m.zero, e.page) != 1
    ensures Slot(m', n, i) && m'.tab[n][i].present && Fenced(m', m'.tab[n][i].page)
  {
    assert EntryOk(m, m.level[n], m.tab[n][i]) && PrivateOk(m, n, m.tab[n][i]);
    hide Exact, TablesPrivate, Typed, CowTable, Fenced, RowsOk, SameReserved;
    if m.tab[n][i].present {
      CowTableFences(m, held, n, i);
    } else {
      DemandAccounted(m, held, n, i);
      CowTableFences(Demand(m, n, i), held, n, i);
    }
  }

  /** One that is not shared at most regains its write bit. */
  lemma PrepSlotStraight(m: Memory, n: nat, i: nat, m': Memory)
    requires Shape(m) && Slot(m, n, i) && PrepSlot(m, n, i) == Ok(m')
    requires var e := m.tab[n][i]; e.present && RefCount(m.refs, m.zero, e.page) == 1
    ensures m'.refs == m.refs && m'.level == m.level && m'.tab == m.tab[n := m.tab[n][i := m.tab[n][i].(hw := true)]]
  {
    if m.tab[n][i].hw {
      assert m.tab[n][i := m.tab[n][i]] == m.tab[n];
      assert m.tab[n := m.tab[n]] == m.tab;
    }
  }

  lemma StraightOn(m: Memory, held: seq<nat>, s: nat, q: seq<nat>, k: nat, m1: Memory, m': Memory)
    requires Accounted(m, held) && Accounted(m1, held) && SameShape(m, m1) && s < m.Spaces() && m.Path(q)
    requires k + 1 < m.depth
    requires Chain(m, s, q, k + 1) && Straight(m, m1, s, q, k) && m1.Walk(s, q, k).Some?
    requires Slot(m1, m1.Walk(s, q, k).value, q[k]) && PrepSlot(m1, m1.Walk(s, q, k).value, q[k]) == Ok(m')
    ensures Straight(m, m', s, q, k + 1)
  {
    ChainWalk(m, s, q, k);
    hide Exact, TablesPrivate, Typed, ZeroOk, PrepSlot, RowsOk, SameReserved;
    var n := m.Walk(s, q, k).value;
    assert m1.tab[n] == m.tab[n];
    PrepSlotStraight(m1, n, q[k], m');
    WalkOn(m1, m', s, q, k, n);
  }

  lemma FencedOn(m: Memory, held: seq<nat>, s: nat, q: seq<nat>, k: nat, m1: Memory, m': Memory)
    requires Accounted(m, held) && Accounted(m1, held) && SameShape(m, m1) && s < m.Spaces() && m.Path(q)
    requires k + 1 < m.depth
    requires !Chain(m, s, q, k + 1) && Progress(m, m1, s, q, k) && m1.Walk(s, q, k).Some? && Open(m1, s, q, k)
    requires Slot(m1, m1.Walk(s, q, k).value, q[k]) && PrepSlot(m1, m1.Walk(s, q, k).value, q[k]) == Ok(m')
    ensures m'.Walk(s, q, k + 1).Some? && Fenced(m', m'.Walk(s, q, k + 1).value)
  {
    OpenWalk(m1, s, q, k);
    var n := m1.Walk(s, q, k).value;
    var e := m1.tab[n][q[k]];
    assert EntryOk(m1, m1.level[n], e);
    if Chain(m, s, q, k) {
      ChainWalk(m, s, q, k);
      assert m1.tab[n] == m.tab[n];
    } else {
      assert m1.At(n, q[k]) == e;
    }
    hide Exact, TablesPrivate, Typed, ZeroOk, PrepSlot, RowsOk, SameReserved, Fenced;
    PrepSlotFences(m1, held, n, q[k], m');
    PrepUpperKept(m1, held, n, q[k]);
    OpenAbove(m1, m', s, q, k, m1.level[n]);
  }

  /** The tables of a store's faults: a private path is left as it is, any other ends in a fenced copy. */
  lemma {:induction false} PrepProgress(m: Memory, held: seq<nat>, s: nat, q: seq<nat>, k: nat, m': Memory)
    requires Accounted(m, held) && s < m.Spaces() && m.Path(q) && k < m.depth && Prep(m, s, q, k) == Ok(m')
    ensures Progress(m, m', s, q, k)
  {
    hide PrepSlot, RowsOk, SameReserved, Exact, TablesPrivate, Typed, ZeroOk, Fenced, Straight;
    if k > 0 {
      var m1 := PrepUnfold(m, s, q, k, m');
      PrepTables(m, held, s, q, k - 1, m1);
      PrepProgress(m, held, s, q, k - 1, m1);
      if Chain(m, s, q, k) {
        StraightOn(m, held, s, q, k - 1, m1, m');
      } else {
        FencedOn(m, held, s, q, k - 1, m1, m');
      }
    } else {
      StraightStart(m, s, q);
    }
  }

  lemma StraightStart(m: Memory, s: nat, q: seq<nat>)
    requires |m.tab| == |m.level|
    ensures Straight(m, m, s, q, 0)
  {
  }

  /** An exposed page keeps its frame through the faults of a store. */
  lemma ExposedStays(m: Memory, held: seq<nat>, s: nat, q: seq<nat>, m': Memory)
    requires Accounted(m, held) && s < m.Spaces() && m.Path(q) && Exposed(m, s, q) && Prep(m, s, q, m.depth) == Ok(m')
    ensures m'.Leaf(s, q) == m.Leaf(s, q)
  {
    hide Exact, TablesPrivate, Typed, ZeroOk, RowsOk, SameReserved, PrepSlot, Prep, CowEntry;
    var k := m.depth - 1;
    ChainWalk(m, s, q, k);
    var m1 := PrepUnfold(m, s, q, m.depth, m');
    PrepProgress(m, held, s, q, k, m1);
    var t := m.Walk(s, q, k).value;
    assert m1.tab[t] == m.tab[t];
    OpenSlotStays(m1, t, q[k]);
  }

  /** A writable entry takes no fault. */
  lemma OpenSlotStays(m: Memory, n: nat, i: nat)
    requires Shape(m) && Slot(m, n, i) && m.tab[n][i].present && m.tab[n][i].hw
    ensures PrepSlot(m, n, i) == Ok(m)
  {
  }

  /** A page that still has an alias once the faults of a store are served was exposed. */
  lemma AliasExposed(m: Memory, held: seq<nat>, s: nat, q: seq<nat>, q': seq<nat>, m': Memory)
    requires Accounted(m, held) && s < m.Spaces() && m.Path(q) && m.Path(q') && q' != q && Grantable(m.Leaf(s, q))
    requires Prep(m, s, q, m.depth) == Ok(m') && Aliased(m', s, q, q')
    ensures Exposed(m, s, q)
  {
    hide PrepSlot, Exact, TablesPrivate, LeavesPrivate, Typed, ZeroOk, RowsOk, SameReserved, Progress;
    var k := m.depth - 1;
    var m1 := PrepUnfold(m, s, q, m.depth, m');
    PrepTables(m, held, s, q, k, m1);
    PrepProgress(m, held, s, q, k, m1);
    AliasSameEntry(m, m1, held, s, q, q', m');
    ProgressExposed(m, m1, held, s, q);
  }

  /** The entry that was faulted in for a page which keeps an alias is the entry that was there. */
  lemma AliasSameEntry(m: Memory, m1: Memory, held: seq<nat>, s: nat, q: seq<nat>, q': seq<nat>, m': Memory)
    requires Shape(m) && s < m.Spaces() && m.Path(q) && m.Path(q') && q' != q && Grantable(m.Leaf(s, q))
    requires Accounted(m1, held) && SameLeaves(m, m1) && Open(m1, s, q, m.depth - 1)
    requires m1.Walk(s, q, m.depth - 1).Some? && Slot(m1, m1.Walk(s, q, m.depth - 1).value, q[m.depth - 1])
    requires PrepSlot(m1, m1.Walk(s, q, m.depth - 1).value, q[m.depth - 1]) == Ok(m') && Aliased(m', s, q, q')
    ensures Owns(m1.Leaf(s, q)) && m1.Leaf(s, q).hw
  {
    hide PrepSlot, Exact, TablesPrivate, LeavesPrivate, Typed, RowsOk, SameReserved;
    var k := m.depth - 1;
    var t := m1.Walk(s, q, k).value;
    assert HwEq(m.Leaf(s, q), m1.Leaf(s, q));
    OpenWalk(m1, s, q, k);
    OpenChain(m1, held, s, q, k);
    LeafFault(m1, held, t, q[k], m');
    WalkUpper(m1, m', s, q, k);
    WalkUpper(m1, m', s, q', k);
    DistinctSlots(m1, held, s, q, s, q');
    WalkTyped(m1, s, q', k);
    assert OwnedAt(m', m1.Walk(s, q', k).value, q'[k], m'.tab[t][q[k]].page);
  }

  lemma ProgressExposed(m: Memory, m1: Memory, held: seq<nat>, s: nat, q: seq<nat>)
    requires Accounted(m, held) && s < m.Spaces() && m.Path(q) && SameShape(m, m1) && Progress(m, m1, s, q, m.depth - 1)
    requires Owns(m1.Leaf(s, q)) && m1.Leaf(s, q).hw
    ensures Exposed(m, s, q)
  {
    var k := m.depth - 1;
    if Chain(m, s, q, k) {
      ChainWalk(m, s, q, k);
      var t := m.Walk(s, q, k).value;
      assert m1.tab[t] == m.tab[t];
    }
  }

  // ---- The exact effect of a store ----

  /** A store at `q` shows at `q'` too: it is allowed, and `q'` is `q` or an alias of it while `q` is exposed. */
  ghost predicate StoreReaches(m: Memory, s: nat, q: seq<nat>, q': seq<nat>)
    requires |q| == |q'| == m.depth && m.depth >= 1
  {
    Writable(m, s, q) && (q' == q || (Aliased(m, s, q, q') && Exposed(m, s, q)))
  }

  function Overwritten(c: Cell, off: nat, b: bv8): Cell {
    if c.Ram? && off < |c.bytes| then Ram(c.bytes[off := b]) else c
  }

  /** The whole effect of a store on every page of its space. */
  lemma StoreExact(m: Memory, held: seq<nat>, s: nat, q: seq<nat>, off: nat, b: bv8, m': Memory, q': seq<nat>)
    requires Isolated(m, held) && s < m.Spaces() && m.Path(q) && off < PAGE_SIZE && Store(m, s, q, off, b) == Ok(m')
    requires m.Path(q')
    ensures m'.depth == m.depth
    ensures View(m', s, q') == if StoreReaches(m, s, q, q') then Overwritten(View(m, s, q'), off, b) else View(m, s, q')
  {
    hide Exact, TablesPrivate, LeavesPrivate, Typed, ZeroOk, Prep, RowsOk, SameReserved;
    StoreCorrect(m, held, s, q, off, b, m');
    if q' != q && Grantable(m.Leaf(s, q)) && Aliased(m, s, q, q') {
      var m1 := if HwOpen(m, s, q, m.depth) then m else Prep(m, s, q, m.depth).value;
      if HwOpen(m, s, q, m.depth) {
        AlreadyOpen(m, held, s, q);
      } else {
        ServeFaults(m, held, s, q, m1);
        if Exposed(m, s, q) { ExposedStays(m, held, s, q, m1); }
        else if Aliased(m1, s, q, q') { AliasExposed(m, held, s, q, q', m1); }
      }
      AliasWrite(m, m1, held, s, q, off, b, q');
    }
  }

  /** The write itself: it shows at `q'` if both pages still share the frame. */
  lemma AliasWrite(m: Memory, m1: Memory, held: seq<nat>, s: nat, q: seq<nat>, off: nat, b: bv8, q': seq<nat>)
    requires Isolated(m, held) && s < m.Spaces() && m.Path(q) && off < PAGE_SIZE && m.Path(q') && q' != q
    requires Aliased(m, s, q, q') && Served(m, m1, held, s, q)
    ensures Owns(m1.Leaf(s, q)) && m1.Leaf(s, q).page < |m1.refs|
    ensures View(Write(m1, m1.Leaf(s, q).page, off, b), s, q') ==
      if m1.Leaf(s, q).page == m.Leaf(s, q).page then Overwritten(View(m, s, q'), off, b) else View(m, s, q')
  {
    hide Exact, TablesPrivate, LeavesPrivate, Typed, ZeroOk, Chain, SameReserved;
    WriteThrough(m1, held, s, q, off, b);
    assert View(m1, s, q') == View(m, s, q');
    assert HwEq(m.Leaf(s, q'), m1.Leaf(s, q'));
  }
}
