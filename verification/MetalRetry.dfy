/** The retry of a faulting store: each protection fault serves the outermost read-only entry,
    so the next one is strictly deeper, and what is left at the end is what `Prep` says. */
module MetalRetry {
  import opened Outcomes
  import opened MetalMemory
  import opened MetalOps
  import opened MetalCow
  import opened MetalWalks
  import opened MetalViews
  import opened MetalFaults
  import opened MetalStore

  /** The outermost of the first `k` steps of `q` whose entry is not hardware-writable. */
  function Blocked(m: Memory, s: nat, q: seq<nat>, k: nat): (r: Option<nat>)
    requires k <= |q| && m.Walk(s, q, k).Some?
    ensures r.Some? ==> r.value < k && m.Walk(s, q, r.value).Some? && !m.At(m.Walk(s, q, r.value).value, q[r.value]).hw
    ensures r.Some? ==> Blocked(m, s, q, r.value).None?
  {
    if k == 0 then None
    else
      var up := Blocked(m, s, q, k - 1);
      if up.Some? then up
      else if !m.At(m.Walk(s, q, k - 1).value, q[k - 1]).hw then Some(k - 1)
      else None
  }

  /** A present path that may be written once its faults are served. */
  predicate Servable(m: Memory, s: nat, q: seq<nat>)
    requires |q| == m.depth && m.depth >= 1
  {
    m.Walk(s, q, m.depth).Some? && Grantable(m.Leaf(s, q))
  }

  /** Nothing blocks, so there is nothing to prepare. */
  lemma {:induction false} PrepIdle(m: Memory, s: nat, q: seq<nat>, k: nat)
    requires Shape(m) && ZeroOk(m) && Typed(m) && s < m.Spaces() && m.Path(q) && k <= m.depth
    requires m.Walk(s, q, k).Some? && Blocked(m, s, q, k).None?
    ensures Prep(m, s, q, k) == Ok(m)
  {
    hide RowsOk, Typed, ZeroOk;
    if k > 0 {
      PrepIdle(m, s, q, k - 1);
      WalkTyped(m, s, q, k - 1);
    }
  }

  lemma {:induction false} ClearIsOpen(m: Memory, s: nat, q: seq<nat>, k: nat)
    requires Shape(m) && ZeroOk(m) && Typed(m) && s < m.Spaces() && m.Path(q) && k < m.depth
    requires m.Walk(s, q, k).Some? && Blocked(m, s, q, k).None?
    ensures Open(m, s, q, k)
  {
    if k > 0 {
      ClearIsOpen(m, s, q, k - 1);
      WalkTyped(m, s, q, k - 1);
      var n := m.Walk(s, q, k - 1).value;
      assert EntryOk(m, m.level[n], m.tab[n][q[k - 1]]);
    }
  }

  lemma {:induction false} OpenIsClear(m: Memory, s: nat, q: seq<nat>, k: nat)
    requires k <= |q| && Open(m, s, q, k)
    ensures m.Walk(s, q, k).Some? && Blocked(m, s, q, k).None?
  {
    if k > 0 { OpenIsClear(m, s, q, k - 1); }
  }

  /** Preparing from a later state of the same preparation ends in the same place. */
  lemma {:induction false} PrepResumes(m: Memory, m': Memory, s: nat, q: seq<nat>, j: nat, k: nat)
    requires Shape(m) && Shape(m') && j <= k <= |q| && Prep(m, s, q, j) == Prep(m', s, q, j)
    ensures Prep(m, s, q, k) == Prep(m', s, q, k)
    decreases k
  {
    hide PrepSlot, RowsOk, SameReserved, Shape;
    if j < k { PrepResumes(m, m', s, q, j, k - 1); }
  }

  lemma LeafPresent(m: Memory, s: nat, q: seq<nat>)
    requires |q| == m.depth && m.depth >= 1
    ensures m.Leaf(s, q).present <==> m.Walk(s, q, m.depth).Some?
  {
  }

  /** What one protection fault leaves behind. */
  ghost predicate Progress(m: Memory, m': Memory, held: seq<nat>, s: nat, q: seq<nat>, j: nat)
    requires Shape(m) && m.Path(q)
  {
    && Kept(m, m', held) && SameViews(m, m') && SameShape(m, m') && Servable(m', s, q)
    && (Blocked(m', s, q, m.depth).Some? ==> Blocked(m', s, q, m.depth).value > j)
    && Prep(m', s, q, m.depth) == Prep(m, s, q, m.depth)
  }

  lemma {:induction false} BlockedDeeper(m: Memory, s: nat, q: seq<nat>, j: nat, k: nat)
    requires j <= k <= |q| && m.Walk(s, q, j).Some? && m.Walk(s, q, k).Some? && Blocked(m, s, q, j).None?
    ensures Blocked(m, s, q, k).Some? ==> Blocked(m, s, q, k).value >= j
    decreases k
  {
    if j < k {
      BlockedDeeper(m, s, q, j, k - 1);
    }
  }

  /** The fault is in a table entry: it is the next step of the preparation. */
  lemma TableFaultStep(m: Memory, held: seq<nat>, s: nat, q: seq<nat>, j: nat, m': Memory)
    requires Accounted(m, held) && s < m.Spaces() && m.Path(q) && j + 1 < m.depth && m.Walk(s, q, j + 1).Some?
    requires Blocked(m, s, q, j + 1) == Some(j)
    requires Slot(m, m.Walk(s, q, j).value, q[j]) && CowEntry(m, m.Walk(s, q, j).value, q[j]) == Ok(m')
    ensures Kept(m, m', held) && SameLeaves(m, m') && m'.dat == m.dat && Open(m', s, q, j + 1)
    ensures Prep(m, s, q, j + 1) == Ok(m')
  {
    hide Exact, LeavesPrivate, Typed, ZeroOk, TablesPrivate, RowsOk, SameReserved, CowEntry, SameLeaves, Kept;
    PrepIdle(m, s, q, j);
    ClearIsOpen(m, s, q, j);
    OpenWalk(m, s, q, j);
    PrepTableStep(m, held, s, q, j, m.Walk(s, q, j).value, m');
  }

  lemma {:induction false} BlockedAt(m: Memory, s: nat, q: seq<nat>, j: nat, k: nat)
    requires j < k <= |q| && m.Walk(s, q, k).Some? && Blocked(m, s, q, k) == Some(j)
    ensures m.Walk(s, q, j + 1).Some? && Blocked(m, s, q, j + 1) == Some(j)
    decreases k
  {
    if j + 1 < k { BlockedAt(m, s, q, j, k - 1); }
  }

  lemma TableFault(m: Memory, held: seq<nat>, s: nat, q: seq<nat>, j: nat, m': Memory)
    requires Accounted(m, held) && s < m.Spaces() && m.Path(q) && Servable(m, s, q)
    requires Blocked(m, s, q, m.depth) == Some(j) && j + 1 < m.depth
    requires Slot(m, m.Walk(s, q, j).value, q[j]) && CowEntry(m, m.Walk(s, q, j).value, q[j]) == Ok(m')
    ensures Progress(m, m', held, s, q, j)
  {
    hide Exact, LeavesPrivate, Typed, ZeroOk, TablesPrivate, RowsOk, SameReserved, CowEntry, SameViews, Open, Prep;
    hide Blocked;
    BlockedAt(m, s, q, j, m.depth);
    TableFaultStep(m, held, s, q, j, m');
    SameLeavesViews(m, m');
    assert HwEq(m.Leaf(s, q), m'.Leaf(s, q));
    LeafPresent(m, s, q);
    LeafPresent(m', s, q);
    OpenIsClear(m', s, q, j + 1);
    BlockedDeeper(m', s, q, j + 1, m.depth);
    PrepIdle(m', s, q, j + 1);
    PrepResumes(m, m', s, q, j + 1, m.depth);
  }

  lemma {:induction false} WalkBack(m: Memory, s: nat, q: seq<nat>, j: nat, k: nat)
    requires j <= k <= |q| && m.Walk(s, q, k).Some?
    ensures m.Walk(s, q, j).Some?
    decreases k
  {
    if j < k { WalkBack(m, s, q, j, k - 1); }
  }

  /** The fault is in the leaf entry: the last one. */
  lemma LastFault(m: Memory, held: seq<nat>, s: nat, q: seq<nat>, m': Memory)
    requires Accounted(m, held) && s < m.Spaces() && m.Path(q) && Servable(m, s, q)
    requires Blocked(m, s, q, m.depth) == Some(m.depth - 1)
    requires Slot(m, m.Walk(s, q, m.depth - 1).value, q[m.depth - 1])
    requires CowEntry(m, m.Walk(s, q, m.depth - 1).value, q[m.depth - 1]) == Ok(m')
    ensures Progress(m, m', held, s, q, m.depth - 1)
  {
    hide Exact, LeavesPrivate, Typed, ZeroOk, TablesPrivate, RowsOk, SameReserved, CowEntry, SameViews;
    LastFaultStep(m, held, s, q, m.Walk(s, q, m.depth - 1).value, m');
    PrepIdle(m', s, q, m.depth);
  }

  lemma LastFaultStep(m: Memory, held: seq<nat>, s: nat, q: seq<nat>, n: nat, m': Memory)
    requires Accounted(m, held) && s < m.Spaces() && m.Path(q) && Servable(m, s, q)
    requires Blocked(m, s, q, m.depth) == Some(m.depth - 1)
    requires m.Walk(s, q, m.depth - 1) == Some(n) && Slot(m, n, q[m.depth - 1])
    requires CowEntry(m, n, q[m.depth - 1]) == Ok(m')
    ensures Kept(m, m', held) && SameViews(m, m') && m'.Walk(s, q, m.depth).Some? && Blocked(m', s, q, m.depth).None?
    ensures Grantable(m'.Leaf(s, q))
    ensures Prep(m, s, q, m.depth) == Ok(m')
  {
    hide Exact, LeavesPrivate, Typed, ZeroOk, TablesPrivate, RowsOk, SameReserved, CowEntry, SameViews;
    hide SoleOrSame, Prep;
    var k := m.depth - 1;
    LastFaultPrep(m, held, s, q, n, m');
    LeafFault(m, held, n, q[k], m');
    ClearIsOpen(m, s, q, k);
    OpenAbove(m, m', s, q, k, 1);
    OpenIsClear(m', s, q, k);
    LastEntry(m', held, n, q[k]);
  }

  lemma LastEntry(m: Memory, held: seq<nat>, n: nat, i: nat)
    requires Accounted(m, held) && Slot(m, n, i) && m.level[n] == 1 && m.tab[n][i].present && m.tab[n][i].hw
    ensures Grantable(m.tab[n][i])
  {
    assert EntryOk(m, m.level[n], m.tab[n][i]);
  }

  lemma LastFaultPrep(m: Memory, held: seq<nat>, s: nat, q: seq<nat>, n: nat, m': Memory)
    requires Accounted(m, held) && s < m.Spaces() && m.Path(q) && Servable(m, s, q)
    requires Blocked(m, s, q, m.depth) == Some(m.depth - 1)
    requires m.Walk(s, q, m.depth - 1) == Some(n) && Slot(m, n, q[m.depth - 1])
    requires CowEntry(m, n, q[m.depth - 1]) == Ok(m')
    ensures n < |m.level| && m.level[n] == 1 && Slot(m, n, q[m.depth - 1]) && Grantable(m.tab[n][q[m.depth - 1]])
    ensures Blocked(m, s, q, m.depth - 1).None?
    ensures PrepSlot(m, n, q[m.depth - 1]) == Ok(m')
    ensures Prep(m, s, q, m.depth) == Ok(m')
  {
    hide Exact, LeavesPrivate, Typed, ZeroOk, TablesPrivate, RowsOk, SameReserved, CowEntry;
    var k := m.depth - 1;
    PrepIdle(m, s, q, k);
    ClearIsOpen(m, s, q, k);
    OpenWalk(m, s, q, k);
  }

  /** Every protection fault of a servable store serves the outermost read-only entry, is
      noticed by nobody, and moves the next fault strictly deeper. */
  lemma FaultProgress(m: Memory, held: seq<nat>, s: nat, q: seq<nat>, j: nat, m': Memory)
    requires Accounted(m, held) && s < m.Spaces() && m.Path(q) && Servable(m, s, q)
    requires Blocked(m, s, q, m.depth) == Some(j)
    requires Slot(m, m.Walk(s, q, j).value, q[j]) && CowEntry(m, m.Walk(s, q, j).value, q[j]) == Ok(m')
    ensures Progress(m, m', held, s, q, j)
  {
    hide Accounted, CowEntry, Progress;
    if j + 1 < m.depth { TableFault(m, held, s, q, j, m'); } else { LastFault(m, held, s, q, m'); }
  }

  /** Paging in a missing page is the beginning of the same preparation. */
  lemma PageInProgress(m: Memory, held: seq<nat>, s: nat, q: seq<nat>, m': Memory)
    requires Accounted(m, held) && s < m.Spaces() && m.Path(q) && m.Walk(s, q, m.depth).None? && Grantable(m.Leaf(s, q))
    requires PageIn(m, s, q, m.depth) == Ok(m')
    ensures Accounted(m', held) && SameShape(m, m') && Servable(m', s, q)
    ensures Blocked(m', s, q, m.depth) == Some(m.depth - 1)
    ensures Prep(m', s, q, m.depth) == Prep(m, s, q, m.depth)
  {
    hide Exact, LeavesPrivate, Typed, ZeroOk, TablesPrivate, RowsOk, SameReserved, SameLeaves, SetEntry;
    var k := m.depth - 1;
    var m1 := Prep(m, s, q, k).value;
    PrepTables(m, held, s, q, k, m1);
    OpenWalk(m1, s, q, k);
    var t := m1.Walk(s, q, k).value;
    PageInLeafAbsent(m, m1, s, q);
    DemandAccounted(m1, held, t, q[k]);
    DemandedLeaf(m1, held, s, q, t, m');
  }

  lemma PageInLeafAbsent(m: Memory, m1: Memory, s: nat, q: seq<nat>)
    requires s < m.Spaces() && m.Path(q) && SameLeaves(m, m1) && m.Walk(s, q, m.depth).None? && Grantable(m.Leaf(s, q))
    ensures m1.Walk(s, q, m.depth).None? && Grantable(m1.Leaf(s, q))
  {
    assert HwEq(m.Leaf(s, q), m1.Leaf(s, q));
    LeafPresent(m, s, q);
    LeafPresent(m1, s, q);
  }

  lemma DemandedLeaf(m: Memory, held: seq<nat>, s: nat, q: seq<nat>, t: nat, m': Memory)
    requires Accounted(m, held) && s < m.Spaces() && m.Path(q) && Open(m, s, q, m.depth - 1)
    requires m.Walk(s, q, m.depth - 1) == Some(t)
    requires Slot(m, t, q[m.depth - 1]) && m.level[t] == 1 && !m.tab[t][q[m.depth - 1]].present
    requires m' == Demand(m, t, q[m.depth - 1]) && Accounted(m', held)
    ensures Servable(m', s, q) && Blocked(m', s, q, m.depth) == Some(m.depth - 1)
    ensures Prep(m', s, q, m.depth - 1) == Ok(m') && m'.Walk(s, q, m.depth - 1) == Some(t)
    ensures Slot(m', t, q[m.depth - 1]) && PrepSlot(m', t, q[m.depth - 1]) == PrepSlot(m, t, q[m.depth - 1])
  {
    hide Exact, LeavesPrivate, Typed, ZeroOk, TablesPrivate, RowsOk, SameReserved, CowEntry, Prep, Blocked;
    var k := m.depth - 1;
    OpenAbove(m, m', s, q, k, 1);
    OpenIsClear(m', s, q, k);
    PrepIdle(m', s, q, k);
    DemandedEntry(m', s, q, t);
  }

  lemma DemandedEntry(m: Memory, s: nat, q: seq<nat>, t: nat)
    requires m.Path(q) && m.depth >= 1 && m.Walk(s, q, m.depth - 1) == Some(t) && Blocked(m, s, q, m.depth - 1).None?
    requires m.At(t, q[m.depth - 1]) == NewEntry(m.zero, false, true)
    ensures Servable(m, s, q) && Blocked(m, s, q, m.depth) == Some(m.depth - 1)
  {
  }
}
