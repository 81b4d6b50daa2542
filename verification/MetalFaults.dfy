/** The fault path of one write access: outermost first, every table on the way made private. */
module MetalFaults {
  import opened Outcomes
  import opened PhysMm
  import opened MetalMemory
  import opened MetalOps
  import opened MetalCow
  import opened MetalWalks
  import opened MetalViews

  /** Every entry taken by the first `k` steps is an owning, hardware-writable one. */
  ghost predicate Open(m: Memory, s: nat, q: seq<nat>, k: nat)
    requires k <= |q|
  {
    k > 0 ==>
      && Open(m, s, q, k - 1)
      && m.Walk(s, q, k - 1).Some?
      && var e := m.At(m.Walk(s, q, k - 1).value, q[k - 1]);
         Owns(e) && e.hw
  }

  lemma {:induction false} OpenWalk(m: Memory, s: nat, q: seq<nat>, k: nat)
    requires Shape(m) && ZeroOk(m) && Typed(m) && s < m.Spaces() && m.Path(q) && k < m.depth && Open(m, s, q, k)
    ensures m.Walk(s, q, k).Some? && m.Walk(s, q, k).value != m.zero
    ensures Slot(m, m.Walk(s, q, k).value, q[k]) && m.level[m.Walk(s, q, k).value] == m.depth - k
  {
    WalkTyped(m, s, q, k);
    if k > 0 {
      WalkTyped(m, s, q, k - 1);
      var n := m.Walk(s, q, k - 1).value;
      assert EntryOk(m, m.level[n], m.tab[n][q[k - 1]]);
    }
  }

  /** An open path through the tables is private to its space. */
  lemma {:induction false} OpenChain(m: Memory, held: seq<nat>, s: nat, q: seq<nat>, k: nat)
    requires Accounted(m, held) && s < m.Spaces() && m.Path(q) && k < m.depth && Open(m, s, q, k)
    ensures Chain(m, s, q, k)
  {
    if k > 0 {
      OpenChain(m, held, s, q, k - 1);
      OpenWalk(m, s, q, k - 1);
      var n := m.Walk(s, q, k - 1).value;
      assert EntryOk(m, m.level[n], m.tab[n][q[k - 1]]) && PrivateOk(m, n, m.tab[n][q[k - 1]]);
    }
  }

  /** Changes below level `l` leave the part of an open path above `l` as it is. */
  lemma {:induction false} OpenAbove(m: Memory, m': Memory, s: nat, q: seq<nat>, k: nat, l: nat)
    requires Shape(m) && ZeroOk(m) && Typed(m) && SameShape(m, m') && s < m.Spaces() && m.Path(q) && k < m.depth
    requires Open(m, s, q, k)
    requires k + l <= m.depth && forall a: nat {:trigger m'.tab[a]} :: a < |m.tab| && m.level[a] > l ==>
      m'.tab[a] == m.tab[a]
    ensures Open(m', s, q, k) && m'.Walk(s, q, k) == m.Walk(s, q, k)
  {
    if k > 0 {
      OpenAbove(m, m', s, q, k - 1, l);
      OpenWalk(m, s, q, k - 1);
    }
  }

  /** The space may write here once its faults are served: not a trap, not sealed. */
  predicate Grantable(e: Entry) {
    if e.present then !e.softRo else !e.cacheDisable
  }

  /** `cow_entry` on a table entry. */
  lemma CowUpperKept(m: Memory, held: seq<nat>, n: nat, i: nat)
    requires Accounted(m, held) && Slot(m, n, i) && m.level[n] >= 2 && Owns(m.tab[n][i])
    requires CowEntry(m, n, i).Ok?
    ensures var m' := CowEntry(m, n, i).value;
      && Kept(m, m', held) && SameLeaves(m, m') && m'.dat == m.dat
      && Owns(m'.tab[n][i]) && m'.tab[n][i].hw
      && forall a: nat {:trigger m'.tab[a]} :: a < |m.tab| && m.level[a] > m.level[n] ==> m'.tab[a] == m.tab[a]
  {
    hide RowsOk, SameReserved;
    assert EntryOk(m, m.level[n], m.tab[n][i]);
    CowEntryAccounted(m, held, n, i);
    if RefCount(m.refs, m.zero, m.tab[n][i].page) == 1 {
      SetWritableKept(m, held, n, i);
    } else {
      CowTableCopies(m, held, n, i);
      var m', x, p := CowTable(m, n, i).value, m.tab[n][i].page, Alloc(m).value.1;
      CopiedSimilar(m, m', n, i, x, p);
      CopiedKept(m, m', n, i, x, p);
      SimilarLeaves(m, m', x, p);
    }
  }

  /** One table slot of a write access: nobody notices, and afterwards the slot is open. */
  lemma PrepUpperKept(m: Memory, held: seq<nat>, n: nat, i: nat)
    requires Accounted(m, held) && Slot(m, n, i) && m.level[n] >= 2
    requires PrepSlot(m, n, i).Ok?
    ensures var m' := PrepSlot(m, n, i).value;
      && Kept(m, m', held) && SameLeaves(m, m') && m'.dat == m.dat
      && Owns(m'.tab[n][i]) && m'.tab[n][i].hw
      && forall a: nat {:trigger m'.tab[a]} :: a < |m.tab| && m.level[a] > m.level[n] ==> m'.tab[a] == m.tab[a]
  {
    assert EntryOk(m, m.level[n], m.tab[n][i]);
    hide CowEntry, Exact, TablesPrivate, LeavesPrivate, Typed, ZeroOk, SameLeaves;
    if m.tab[n][i].present {
      if !m.tab[n][i].hw { CowUpperKept(m, held, n, i); }
    } else {
      DemandAccounted(m, held, n, i);
      DemandTableKept(m, held, n, i);
      CowUpperKept(Demand(m, n, i), held, n, i);
      SameLeavesTrans(m, Demand(m, n, i), PrepSlot(m, n, i).value);
    }
  }

  lemma PrepTableStep(m: Memory, held: seq<nat>, s: nat, q: seq<nat>, k: nat, n: nat, m': Memory)
    requires Accounted(m, held) && s < m.Spaces() && m.Path(q) && k + 1 < m.depth && Open(m, s, q, k)
    requires m.Walk(s, q, k) == Some(n) && Slot(m, n, q[k]) && m.level[n] == m.depth - k
    requires PrepSlot(m, n, q[k]) == Ok(m')
    ensures Kept(m, m', held) && SameLeaves(m, m') && m'.dat == m.dat && Open(m', s, q, k + 1)
  {
    PrepUpperKept(m, held, n, q[k]);
    OpenAbove(m, m', s, q, k, m.level[n]);
  }

  lemma SameLeavesTrans(m: Memory, m1: Memory, m': Memory)
    requires SameLeaves(m, m1) && SameLeaves(m1, m')
    ensures SameLeaves(m, m')
  {
    forall s: nat, q: seq<nat> | s < m.Spaces() && m.Path(q) ensures HwEq(m.Leaf(s, q), m'.Leaf(s, q)) {
      assert HwEq(m.Leaf(s, q), m1.Leaf(s, q)) && HwEq(m1.Leaf(s, q), m'.Leaf(s, q));
    }
  }

  lemma PrepUnfold(m: Memory, s: nat, q: seq<nat>, k: nat, m': Memory) returns (m1: Memory)
    requires Shape(m) && 0 < k <= |q| && Prep(m, s, q, k) == Ok(m')
    ensures Prep(m, s, q, k - 1) == Ok(m1) && SameShape(m, m1)
    ensures m1.Walk(s, q, k - 1).Some? && Slot(m1, m1.Walk(s, q, k - 1).value, q[k - 1])
    ensures PrepSlot(m1, m1.Walk(s, q, k - 1).value, q[k - 1]) == Ok(m')
  {
    m1 := Prep(m, s, q, k - 1).value;
  }

  lemma PrepTablesGlue(m: Memory, held: seq<nat>, s: nat, q: seq<nat>, k: nat, m1: Memory, m': Memory)
    requires s < m.Spaces() && m.Path(q) && 0 < k < m.depth
    requires Shape(m) && Kept(m, m1, held) && SameLeaves(m, m1) && m1.dat == m.dat && Open(m1, s, q, k - 1)
    requires m1.Walk(s, q, k - 1).Some? && Slot(m1, m1.Walk(s, q, k - 1).value, q[k - 1])
    requires PrepSlot(m1, m1.Walk(s, q, k - 1).value, q[k - 1]) == Ok(m')
    ensures Kept(m, m', held) && SameLeaves(m, m') && m'.dat == m.dat && Open(m', s, q, k)
  {
    OpenWalk(m1, s, q, k - 1);
    PrepTableStep(m1, held, s, q, k - 1, m1.Walk(s, q, k - 1).value, m');
    SameLeavesTrans(m, m1, m');
  }

  /** The tables of a write access: every leaf of every space stays, and the path is open. */
  lemma {:induction false} PrepTables(m: Memory, held: seq<nat>, s: nat, q: seq<nat>, k: nat, m': Memory)
    requires Accounted(m, held) && s < m.Spaces() && m.Path(q) && k < m.depth
    requires Prep(m, s, q, k) == Ok(m')
    ensures Kept(m, m', held) && SameLeaves(m, m') && m'.dat == m.dat && Open(m', s, q, k)
  {
    hide PrepSlot, RowsOk, SameReserved;
    if k > 0 {
      var m1 := PrepUnfold(m, s, q, k, m');
      PrepTables(m, held, s, q, k - 1, m1);
      PrepTablesGlue(m, held, s, q, k, m1, m');
    }
  }
}
