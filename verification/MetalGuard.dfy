/** Fork without any assumption on aliases: once a space has been forked, stores in it and in its
    children part every alias before they show, until somebody frees, copies or swaps. */
module MetalGuard {
  import opened Outcomes
  import opened PhysMm
  import opened ArchContract
  import opened MetalMemory
  import opened MetalOps
  import opened MetalCounts
  import opened MetalCow
  import opened MetalWalks
  import opened MetalViews
  import opened MetalFaults
  import opened MetalStore
  import opened MetalExposure
  import opened MetalFork
  import opened MetalMaps
  import opened MetalRuns
  import opened MetalImages
  import opened MetalTheorems

  /** Page `q` of space `u` has a writable entry and an alias. */
  ghost predicate Loose(m: Memory, u: nat, q: seq<nat>)
    requires |q| == m.depth && m.depth >= 1
  {
    Owns(m.Leaf(u, q)) && m.Leaf(u, q).hw && !Solo(m, u, q)
  }

  /** Spaces `u` and `v` read page `q` in the same table. */
  predicate Meet(m: Memory, u: nat, v: nat, q: seq<nat>)
    requires |q| == m.depth && m.depth >= 1
  {
    m.Walk(u, q, m.depth - 1) == m.Walk(v, q, m.depth - 1)
  }

  /** Some other space reads page `q` of `u` in the same table. */
  ghost predicate Common(m: Memory, u: nat, q: seq<nat>)
    requires |q| == m.depth && m.depth >= 1
  {
    exists v: nat :: v < m.Spaces() && v != u && Meet(m, u, v, q)
  }

  /** Every loose page of these spaces lies in a table that another space reads at the same page. */
  ghost predicate Guarded(m: Memory, us: set<nat>)
    requires m.depth >= 1
  {
    forall u: nat, q: seq<nat> {:trigger Loose(m, u, q)} ::
      u in us && u < m.Spaces() && m.Path(q) && Loose(m, u, q) ==> Common(m, u, q)
  }

  /** No page has become loose, and what was read in one table at a loose page still is. */
  ghost predicate Steadies(m: Memory, m': Memory) {
    && SameShape(m, m') && m.depth >= 1
    && forall u: nat, q: seq<nat> {:trigger Loose(m', u, q)} :: u < m.Spaces() && m.Path(q) && Loose(m', u, q) ==>
         Loose(m, u, q) && forall v: nat {:trigger Meet(m', u, v, q)} :: v < m.Spaces() && Meet(m, u, v, q) ==>
           Meet(m', u, v, q)
  }

  lemma SteadyTrans(m: Memory, m1: Memory, m': Memory)
    requires Steadies(m, m1) && Steadies(m1, m')
    ensures Steadies(m, m')
  {
    hide Loose, Meet, RowsOk;
    forall u: nat, q: seq<nat> | u < m.Spaces() && m.Path(q) && Loose(m', u, q)
      ensures Loose(m, u, q) && forall v: nat :: v < m.Spaces() && Meet(m, u, v, q) ==> Meet(m', u, v, q)
    {
      assert m1.Path(q) && Loose(m1, u, q);
      forall v: nat | v < m.Spaces() && Meet(m, u, v, q) ensures Meet(m', u, v, q) { assert Meet(m1, u, v, q); }
    }
  }

  lemma SteadyGuarded(m: Memory, m': Memory, us: set<nat>)
    requires Steadies(m, m') && Guarded(m, us)
    ensures Guarded(m', us)
  {
    hide Loose, Meet, RowsOk;
    forall u: nat, q: seq<nat> | u in us && u < m'.Spaces() && m'.Path(q) && Loose(m', u, q) ensures Common(m', u, q) {
      assert m.Path(q) && Loose(m, u, q);
      var v: nat :| v < m.Spaces() && v != u && Meet(m, u, v, q);
      assert Meet(m', u, v, q);
    }
  }

  // ---- The tables on the way ----

  /** Aliases are the same while leaves are. */
  lemma SoloSame(m: Memory, m': Memory, u: nat, q: seq<nat>)
    requires SameLeaves(m, m') && u < m.Spaces() && m.Path(q) && Solo(m, u, q)
    ensures Solo(m', u, q)
  {
    hide RowsOk, SameReserved;
    forall q': seq<nat> | m'.Path(q') && q' != q ensures !Aliased(m', u, q, q') {
      assert m.Path(q') && !Aliased(m, u, q, q') && HwEq(m.Leaf(u, q), m'.Leaf(u, q));
      assert HwEq(m.Leaf(u, q'), m'.Leaf(u, q'));
    }
  }

  /** A step that moves no leaf, makes none writable, and no walk to a writable leaf. */
  lemma SteadyPages(m: Memory, m': Memory)
    requires SameLeaves(m, m')
    requires forall u: nat, q: seq<nat> {:trigger m'.Leaf(u, q)} ::
      u < m.Spaces() && m.Path(q) && Owns(m'.Leaf(u, q)) && m'.Leaf(u, q).hw ==>
        m.Leaf(u, q).hw && forall v: nat {:trigger Meet(m', u, v, q)} :: v < m.Spaces() && Meet(m, u, v, q) ==>
          Meet(m', u, v, q)
    ensures Steadies(m, m')
  {
    hide Meet, RowsOk, SameReserved, Solo;
    forall u: nat, q: seq<nat> | u < m.Spaces() && m.Path(q) && Loose(m', u, q)
      ensures Loose(m, u, q) && forall v: nat :: v < m.Spaces() && Meet(m, u, v, q) ==> Meet(m', u, v, q)
    {
      assert HwEq(m.Leaf(u, q), m'.Leaf(u, q));
      if Solo(m, u, q) { SoloSame(m, m', u, q); }
    }
  }

  /** The rows after a table was copied: its own and the copy's are read-only. */
  lemma CopiedRow(m: Memory, m': Memory, n: nat, i: nat, x: nat, p: nat, t: nat, j: nat)
    requires Shape(m) && Slot(m, n, i) && TableCopied(m, m', n, i, x, p) && t != n
    ensures t == x || t == p ==> !(Owns(m'.At(t, j)) && m'.At(t, j).hw)
    ensures t != x && t != p ==> m'.At(t, j) == m.At(t, j)
  {
    hide RowsOk, SameReserved;
  }

  /** A writable leaf is in neither the copied table nor its copy. */
  lemma CopiedWalks(m: Memory, m': Memory, n: nat, i: nat, x: nat, p: nat, u: nat, q: seq<nat>)
    requires Shape(m) && ZeroOk(m) && Typed(m) && Slot(m, n, i) && m.level[n] >= 2 && TableCopied(m, m', n, i, x, p)
    requires Similar(m, m', x, p)
    requires u < m.Spaces() && m.Path(q) && Owns(m'.Leaf(u, q)) && m'.Leaf(u, q).hw
    ensures m'.Walk(u, q, m.depth - 1) == m.Walk(u, q, m.depth - 1) != Some(x) && m.Walk(u, q, m.depth - 1).Some?
    ensures m.Leaf(u, q) == m'.Leaf(u, q)
  {
    hide Typed, Similar, TableCopied, RowsOk, SameReserved, ReadOnlyRow;
    var k := m.depth - 1;
    CopiedShape(m, m', n, i, x, p);
    WalkSimilar(m, m', x, p, u, q, k);
    WalkTyped(m, u, q, k);
    CopiedRow(m, m', n, i, x, p, m'.Walk(u, q, k).value, q[k]);
    CopiedRow(m, m', n, i, x, p, m.Walk(u, q, k).value, q[k]);
  }

  lemma CopiedShape(m: Memory, m': Memory, n: nat, i: nat, x: nat, p: nat)
    requires Shape(m) && Slot(m, n, i) && TableCopied(m, m', n, i, x, p)
    ensures SameShape(m, m') && p != n && x != n && p != m.zero && p < |m.refs| && m.level[p] == 0 && m.level[n] >= 2
  {
    hide RowsOk;
  }

  lemma CopiedMeet(m: Memory, m': Memory, n: nat, i: nat, x: nat, p: nat, u: nat, v: nat, q: seq<nat>)
    requires Shape(m) && ZeroOk(m) && Typed(m) && Slot(m, n, i) && m.level[n] >= 2 && TableCopied(m, m', n, i, x, p)
    requires Similar(m, m', x, p) && m'.depth == m.depth
    requires u < m.Spaces() && v < m.Spaces() && m.Path(q) && Owns(m'.Leaf(u, q)) && m'.Leaf(u, q).hw
    ensures Meet(m, u, v, q) ==> Meet(m', u, v, q)
  {
    hide Typed, Similar, TableCopied, RowsOk, SameReserved, ZeroOk;
    CopiedWalks(m, m', n, i, x, p, u, q);
    if Meet(m, u, v, q) { WalkSimilar(m, m', x, p, v, q, m.depth - 1); }
  }

  lemma CopiedSteady(m: Memory, m': Memory, n: nat, i: nat, x: nat, p: nat)
    requires Shape(m) && ZeroOk(m) && Typed(m) && Slot(m, n, i) && TableCopied(m, m', n, i, x, p)
    ensures Steadies(m, m')
  {
    hide Typed, Similar, TableCopied, RowsOk, SameReserved, ZeroOk, Steadies, Meet;
    CopiedShape(m, m', n, i, x, p);
    CopiedSimilar(m, m', n, i, x, p);
    SimilarLeaves(m, m', x, p);
    forall u: nat, q: seq<nat> | u < m.Spaces() && m.Path(q) && Owns(m'.Leaf(u, q)) && m'.Leaf(u, q).hw
      ensures m.Leaf(u, q).hw && forall v: nat {:trigger Meet(m', u, v, q)} :: v < m.Spaces() && Meet(m, u, v, q) ==>
        Meet(m', u, v, q)
    {
      CopiedWalks(m, m', n, i, x, p, u, q);
      forall v: nat | v < m.Spaces() ensures Meet(m, u, v, q) ==> Meet(m', u, v, q) {
        CopiedMeet(m, m', n, i, x, p, u, v, q);
      }
    }
    SteadyPages(m, m');
  }

  /** A table entry regains its write bit, or a missing one is paged in: no walk to a leaf moves. */
  lemma SetWritableSteady(m: Memory, held: seq<nat>, n: nat, i: nat)
    requires Accounted(m, held) && Slot(m, n, i) && m.level[n] >= 2 && Owns(m.tab[n][i])
    requires RefCount(m.refs, m.zero, m.tab[n][i].page) == 1
    ensures Steadies(m, SetEntry(m, n, i, m.tab[n][i].(hw := true)))
  {
    hide Exact, TablesPrivate, LeavesPrivate, RowsOk, SameReserved, Steadies;
    var m' := SetEntry(m, n, i, m.tab[n][i].(hw := true));
    SetWritableKept(m, held, n, i);
    forall u: nat, q: seq<nat> | u < m.Spaces() && m.Path(q) && Owns(m'.Leaf(u, q)) && m'.Leaf(u, q).hw
      ensures m.Leaf(u, q).hw && forall v: nat :: v < m.Spaces() && Meet(m, u, v, q) ==> Meet(m', u, v, q)
    {
      WalkBits(m, m', n, u, q, m.depth - 1);
      WalkTyped(m, u, q, m.depth - 1);
      forall v: nat | v < m.Spaces() && Meet(m, u, v, q) ensures Meet(m', u, v, q) {
        WalkBits(m, m', n, v, q, m.depth - 1);
      }
    }
    SteadyPages(m, m');
  }

  lemma {:induction false} WalkBits(m: Memory, m': Memory, n: nat, s: nat, q: seq<nat>, k: nat)
    requires Shape(m) && SameShape(m, m') && n < |m.tab| && k <= |q|
    requires forall a: nat {:trigger m'.tab[a]} :: a < |m.tab| && a != n ==> m'.tab[a] == m.tab[a]
    requires |m'.tab[n]| == |m.tab[n]| && forall i: nat {:trigger m'.tab[n][i]} :: i < |m.tab[n]| ==>
      HwEq(m.tab[n][i], m'.tab[n][i])
    ensures m'.Walk(s, q, k) == m.Walk(s, q, k)
  {
    hide RowsOk, SameReserved;
    if k > 0 { WalkBits(m, m', n, s, q, k - 1); }
  }

  lemma DemandSteady(m: Memory, held: seq<nat>, n: nat, i: nat)
    requires Accounted(m, held) && Slot(m, n, i) && m.level[n] >= 2 && !m.tab[n][i].present
    ensures Steadies(m, Demand(m, n, i))
  {
    hide Exact, TablesPrivate, LeavesPrivate, Typed, RowsOk, SameReserved, Steadies;
    var m' := Demand(m, n, i);
    var k := m.depth - 1;
    DemandTableKept(m, held, n, i);
    forall u: nat, q: seq<nat> | u < m.Spaces() && m.Path(q) && Owns(m'.Leaf(u, q)) && m'.Leaf(u, q).hw
      ensures m.Leaf(u, q).hw && forall v: nat :: v < m.Spaces() && Meet(m, u, v, q) ==> Meet(m', u, v, q)
    {
      WalkDemand(m, n, i, u, q, k);
      assert m.Walk(u, q, k).Some?;
      WalkTyped(m, u, q, k);
      forall v: nat | v < m.Spaces() && Meet(m, u, v, q) ensures Meet(m', u, v, q) { WalkDemand(m, n, i, v, q, k); }
    }
    SteadyPages(m, m');
  }

  lemma CowUpperSteady(m: Memory, held: seq<nat>, n: nat, i: nat, m': Memory)
    requires Accounted(m, held) && Slot(m, n, i) && m.level[n] >= 2 && Owns(m.tab[n][i]) && CowEntry(m, n, i) == Ok(m')
    ensures Steadies(m, m')
  {
    hide Exact, TablesPrivate, LeavesPrivate, Typed, ZeroOk, RowsOk, SameReserved, Steadies, CowTable, TableCopied;
    if RefCount(m.refs, m.zero, m.tab[n][i].page) == 1 {
      SetWritableSteady(m, held, n, i);
    } else {
      CowTableCopies(m, held, n, i);
      CopiedSteady(m, m', n, i, m.tab[n][i].page, Alloc(m).value.1);
    }
  }

  lemma SteadyRefl(m: Memory)
    requires Shape(m)
    ensures Steadies(m, m)
  {
  }

  lemma PrepUpperSteady(m: Memory, held: seq<nat>, n: nat, i: nat, m': Memory)
    requires Accounted(m, held) && Slot(m, n, i) && m.level[n] >= 2 && PrepSlot(m, n, i) == Ok(m')
    ensures Steadies(m, m')
  {
    assert EntryOk(m, m.level[n], m.tab[n][i]);
    hide CowEntry, Exact, TablesPrivate, LeavesPrivate, Typed, ZeroOk, Steadies, RowsOk, SameReserved;
    if !m.tab[n][i].present {
      DemandAccounted(m, held, n, i);
      DemandSteady(m, held, n, i);
      CowUpperSteady(Demand(m, n, i), held, n, i, m');
      SteadyTrans(m, Demand(m, n, i), m');
    } else if m.tab[n][i].hw {
      SteadyRefl(m);
    } else {
      CowUpperSteady(m, held, n, i, m');
    }
  }

  lemma {:induction false} PrepSteady(m: Memory, held: seq<nat>, s: nat, q: seq<nat>, k: nat, m': Memory)
    requires Accounted(m, held) && s < m.Spaces() && m.Path(q) && k < m.depth && Prep(m, s, q, k) == Ok(m')
    ensures Steadies(m, m')
  {
    hide PrepSlot, RowsOk, SameReserved, Exact, TablesPrivate, LeavesPrivate, Typed, ZeroOk, Steadies, SameLeaves;
    if k > 0 {
      var m1 := PrepUnfold(m, s, q, k, m');
      PrepTables(m, held, s, q, k - 1, m1);
      PrepSteady(m, held, s, q, k - 1, m1);
      OpenWalk(m1, s, q, k - 1);
      PrepUpperSteady(m1, held, m1.Walk(s, q, k - 1).value, q[k - 1], m');
      SteadyTrans(m, m1, m');
    } else {
      SteadyRefl(m);
    }
  }

  // ---- The leaf ----

  /** Writing the leaf of a private path: nothing becomes loose if the entry stays or its frame is nobody else's. */
  lemma LeafSteady(m: Memory, held: seq<nat>, s: nat, q: seq<nat>, t: nat, e: Entry, m': Memory)
    requires Accounted(m, held) && s < m.Spaces() && m.Path(q) && Chain(m, s, q, m.depth - 1)
    requires m.Walk(s, q, m.depth - 1) == Some(t) && LeafWritten(m, m', t, q[m.depth - 1], e)
    requires m'.level == m.level && (Owns(e) && e.page != m.zero ==> SoleOrSame(m, m', t, q[m.depth - 1]))
    ensures Steadies(m, m')
  {
    hide Exact, TablesPrivate, LeavesPrivate, Typed, ZeroOk, RowsOk, SameReserved, Chain, SoleOrSame, Loose, Meet;
    forall u: nat, r: seq<nat> | u < m.Spaces() && m.Path(r) && Loose(m', u, r)
      ensures Loose(m, u, r) && forall v: nat :: v < m.Spaces() && Meet(m, u, v, r) ==> Meet(m', u, v, r)
    {
      LeafLoose(m, held, s, q, t, e, m', u, r);
      forall v: nat | v < m.Spaces() && Meet(m, u, v, r) ensures Meet(m', u, v, r) {
        LeafMeet(m, m', t, q[m.depth - 1], e, u, v, r);
      }
    }
  }

  lemma LeafMeet(m: Memory, m': Memory, n: nat, i: nat, e: Entry, u: nat, v: nat, q: seq<nat>)
    requires Shape(m) && ZeroOk(m) && Typed(m) && LeafWritten(m, m', n, i, e)
    requires u < m.Spaces() && v < m.Spaces() && m.Path(q)
    ensures Meet(m', u, v, q) == Meet(m, u, v, q)
  {
    hide Typed, ZeroOk, RowsOk, SameReserved;
    LeafAfter(m, m', n, i, e, u, q);
    LeafAfter(m, m', n, i, e, v, q);
  }

  lemma LeafLoose(m: Memory, held: seq<nat>, s: nat, q: seq<nat>, t: nat, e: Entry, m': Memory, u: nat, r: seq<nat>)
    requires Accounted(m, held) && s < m.Spaces() && m.Path(q) && Chain(m, s, q, m.depth - 1)
    requires m.Walk(s, q, m.depth - 1) == Some(t) && LeafWritten(m, m', t, q[m.depth - 1], e)
    requires m'.level == m.level && (Owns(e) && e.page != m.zero ==> SoleOrSame(m, m', t, q[m.depth - 1]))
    requires u < m.Spaces() && m.Path(r) && Loose(m', u, r)
    ensures Loose(m, u, r)
  {
    hide Exact, TablesPrivate, LeavesPrivate, Typed, RowsOk, SameReserved, Chain, SoleOrSame;
    var r': seq<nat> :| m'.Path(r') && r' != r && Aliased(m', u, r, r');
    assert m.Path(r');
    LeafStays(m, held, s, q, t, e, m', u, r, r');
    LeafStays(m, held, s, q, t, e, m', u, r', r);
    assert Aliased(m, u, r, r');
  }

  /** A page with an alias afterwards has the entry it had. */
  lemma LeafStays(m: Memory, held: seq<nat>, s: nat, q: seq<nat>, t: nat, e: Entry, m': Memory, u: nat, r: seq<nat>,
                  r': seq<nat>)
    requires Accounted(m, held) && s < m.Spaces() && m.Path(q) && Chain(m, s, q, m.depth - 1)
    requires m.Walk(s, q, m.depth - 1) == Some(t) && LeafWritten(m, m', t, q[m.depth - 1], e)
    requires m'.level == m.level && (Owns(e) && e.page != m.zero ==> SoleOrSame(m, m', t, q[m.depth - 1]))
    requires u < m.Spaces() && m.Path(r) && m.Path(r') && r' != r && Aliased(m', u, r, r')
    ensures m'.Leaf(u, r) == m.Leaf(u, r)
  {
    hide Exact, TablesPrivate, LeavesPrivate, Typed, RowsOk, SameReserved, Chain;
    var k := m.depth - 1;
    LeafAfter(m, m', t, q[k], e, u, r);
    LeafAfter(m, m', t, q[k], e, u, r');
    if m.Walk(u, r, k) == Some(t) && r[k] == q[k] {
      if u != s || r != q { DistinctSlots(m, held, s, q, u, r); }
      DistinctSlots(m, held, s, q, u, r');
      WalkTyped(m, u, r', k);
      assert OwnedAt(m', m.Walk(u, r', k).value, r'[k], m'.tab[t][q[k]].page);
    }
  }

  // ---- Operations ----

  lemma LeafFaultSteady(m: Memory, held: seq<nat>, s: nat, q: seq<nat>, t: nat, m': Memory)
    requires Accounted(m, held) && s < m.Spaces() && m.Path(q) && Open(m, s, q, m.depth - 1)
    requires m.Walk(s, q, m.depth - 1) == Some(t) && Slot(m, t, q[m.depth - 1]) && Grantable(m.tab[t][q[m.depth - 1]])
    requires PrepSlot(m, t, q[m.depth - 1]) == Ok(m')
    ensures Steadies(m, m')
  {
    hide PrepSlot, Exact, TablesPrivate, LeavesPrivate, Typed, ZeroOk, RowsOk, SameReserved, Steadies, SameViews;
    var k := m.depth - 1;
    OpenWalk(m, s, q, k);
    OpenChain(m, held, s, q, k);
    LeafFault(m, held, t, q[k], m');
    LeafSteady(m, held, s, q, t, m'.tab[t][q[k]], m');
  }

  lemma ServedSteady(m: Memory, held: seq<nat>, s: nat, q: seq<nat>, m': Memory)
    requires Accounted(m, held) && s < m.Spaces() && m.Path(q) && Grantable(m.Leaf(s, q))
    requires Prep(m, s, q, m.depth) == Ok(m')
    ensures Steadies(m, m')
  {
    hide PrepSlot, Exact, TablesPrivate, LeavesPrivate, Typed, ZeroOk, RowsOk, SameReserved, Steadies;
    var k := m.depth - 1;
    var m1 := PrepUnfold(m, s, q, m.depth, m');
    PrepTables(m, held, s, q, k, m1);
    PrepSteady(m, held, s, q, k, m1);
    assert HwEq(m.Leaf(s, q), m1.Leaf(s, q));
    LeafFaultSteady(m1, held, s, q, m1.Walk(s, q, k).value, m');
    SteadyTrans(m, m1, m');
  }

  lemma DataPage(m: Memory, m': Memory, u: nat, q: seq<nat>)
    requires Shape(m) && ZeroOk(m) && Typed(m) && SameShape(m, m') && m'.tab == m.tab && u < m.Spaces() && m.Path(q)
    ensures m'.Walk(u, q, m.depth - 1) == m.Walk(u, q, m.depth - 1) && m'.Leaf(u, q) == m.Leaf(u, q)
  {
    hide Typed, ZeroOk, RowsOk, SameReserved;
    WalkUpper(m, m', u, q, m.depth - 1);
  }

  lemma DataSteady(m: Memory, m': Memory)
    requires Shape(m) && ZeroOk(m) && Typed(m) && SameShape(m, m') && m'.tab == m.tab
    ensures Steadies(m, m')
  {
    hide Typed, ZeroOk, RowsOk, SameReserved, Steadies;
    forall u: nat, q: seq<nat> | u < m.Spaces() && m.Path(q) ensures HwEq(m.Leaf(u, q), m'.Leaf(u, q)) {
      DataPage(m, m', u, q);
    }
    forall u: nat, q: seq<nat> | u < m.Spaces() && m.Path(q) && Owns(m'.Leaf(u, q)) && m'.Leaf(u, q).hw
      ensures m.Leaf(u, q).hw && forall v: nat :: v < m.Spaces() && Meet(m, u, v, q) ==> Meet(m', u, v, q)
    {
      DataPage(m, m', u, q);
      forall v: nat | v < m.Spaces() && Meet(m, u, v, q) ensures Meet(m', u, v, q) { DataPage(m, m', v, q); }
    }
    SteadyPages(m, m');
  }

  lemma StoreSteady(m: Memory, held: seq<nat>, s: nat, q: seq<nat>, off: nat, b: bv8, m': Memory)
    requires Accounted(m, held) && s < m.Spaces() && m.Path(q) && off < PAGE_SIZE && Store(m, s, q, off, b) == Ok(m')
    ensures Steadies(m, m')
  {
    hide Exact, TablesPrivate, LeavesPrivate, Typed, ZeroOk, Prep, RowsOk, Steadies, HwOpen, SameViews;
    SteadyRefl(m);
    if Grantable(m.Leaf(s, q)) && !HwOpen(m, s, q, m.depth) {
      var m1 := Prep(m, s, q, m.depth).value;
      ServedSteady(m, held, s, q, m1);
      ServeFaults(m, held, s, q, m1);
      DataSteady(m1, m');
      SteadyTrans(m, m1, m');
    } else if Grantable(m.Leaf(s, q)) {
      DataSteady(m, m');
    }
  }

  lemma PageInTableSteady(m: Memory, held: seq<nat>, s: nat, q: seq<nat>, k: nat, m': Memory)
    requires Accounted(m, held) && s < m.Spaces() && m.Path(q) && 0 < k < m.depth && PageIn(m, s, q, k) == Ok(m')
    ensures Steadies(m, m')
  {
    hide Exact, LeavesPrivate, Typed, ZeroOk, TablesPrivate, RowsOk, SameReserved, SameLeaves, Prep, Steadies;
    var m1 := Prep(m, s, q, k - 1).value;
    PrepTables(m, held, s, q, k - 1, m1);
    PrepSteady(m, held, s, q, k - 1, m1);
    OpenWalk(m1, s, q, k - 1);
    var n := m1.Walk(s, q, k - 1).value;
    if !m1.tab[n][q[k - 1]].present {
      DemandSteady(m1, held, n, q[k - 1]);
      SteadyTrans(m, m1, m');
    }
  }

  lemma PageInLeafSteady(m: Memory, held: seq<nat>, s: nat, q: seq<nat>, m': Memory)
    requires Accounted(m, held) && s < m.Spaces() && m.Path(q) && PageIn(m, s, q, m.depth) == Ok(m')
    ensures Steadies(m, m')
  {
    hide Exact, LeavesPrivate, Typed, ZeroOk, TablesPrivate, RowsOk, SameReserved, SameLeaves, Prep, Steadies;
    var k := m.depth - 1;
    var m1 := Prep(m, s, q, k).value;
    PrepTables(m, held, s, q, k, m1);
    PrepSteady(m, held, s, q, k, m1);
    OpenWalk(m1, s, q, k);
    OpenChain(m1, held, s, q, k);
    var t := m1.Walk(s, q, k).value;
    if !m1.tab[t][q[k]].present {
      LeafSteady(m1, held, s, q, t, NewEntry(m.zero, false, true), m');
      SteadyTrans(m, m1, m');
    }
  }

  lemma {:induction false} TouchSteady(m: Memory, held: seq<nat>, s: nat, q: seq<nat>, k: nat, m': Memory)
    requires Accounted(m, held) && s < m.Spaces() && m.Path(q) && k <= m.depth && Touch(m, s, q, k) == Ok(m')
    ensures Steadies(m, m')
  {
    hide Exact, LeavesPrivate, Typed, ZeroOk, TablesPrivate, PageIn, RowsOk, SameReserved, Steadies, SameLeaves;
    SteadyRefl(m);
    if k > 0 {
      var m1 := Touch(m, s, q, k - 1).value;
      TouchTables(m, held, s, q, k - 1, m1);
      TouchSteady(m, held, s, q, k - 1, m1);
      var n := m1.Walk(s, q, k - 1).value;
      if !m1.tab[n][q[k - 1]].present {
        if k < m.depth { PageInTableSteady(m1, held, s, q, k, m'); } else { PageInLeafSteady(m1, held, s, q, m'); }
        SteadyTrans(m, m1, m');
      }
    }
  }

  lemma PutSteady(m: Memory, held: seq<nat>, s: nat, q: seq<nat>, e: Entry, m': Memory)
    requires Accounted(m, held) && s < m.Spaces() && m.Path(q) && !Owns(e) && Install(m, s, q, e) == Ok(m')
    ensures Steadies(m, m')
  {
    hide Exact, LeavesPrivate, Typed, ZeroOk, TablesPrivate, Prep, Replace, RowsOk, SameReserved, Steadies, SameLeaves;
    var k := m.depth - 1;
    var m1 := Prep(m, s, q, k).value;
    PrepTables(m, held, s, q, k, m1);
    PrepSteady(m, held, s, q, k, m1);
    OpenWalk(m1, s, q, k);
    OpenChain(m1, held, s, q, k);
    var t := m1.Walk(s, q, k).value;
    ReplaceLeafTabs(m1, held, t, q[k], e, m');
    LeafSteady(m1, held, s, q, t, e, m');
    SteadyTrans(m, m1, m');
  }

  // ---- New spaces and forks ----

  /** Each page of `u` in `m'` is the page of `u0` in `m`, table and all. */
  ghost predicate Same(m: Memory, u0: nat, m': Memory, u: nat) {
    && m'.depth == m.depth >= 1 && m'.zero == m.zero
    && (forall q: seq<nat> {:trigger m'.Path(q)} :: m'.Path(q) <==> m.Path(q))
    && forall q: seq<nat> {:trigger m'.Leaf(u, q)} :: m.Path(q) ==>
         m'.Leaf(u, q) == m.Leaf(u0, q) && m'.Walk(u, q, m.depth - 1) == m.Walk(u0, q, m.depth - 1)
  }

  lemma SameLoose(m: Memory, u0: nat, m': Memory, u: nat, q: seq<nat>)
    requires Same(m, u0, m', u) && m.Path(q) && Loose(m', u, q)
    ensures Loose(m, u0, q)
  {
    var q': seq<nat> :| m'.Path(q') && q' != q && Aliased(m', u, q, q');
    assert m.Path(q') && m'.Leaf(u, q') == m.Leaf(u0, q') && m'.Leaf(u, q) == m.Leaf(u0, q);
    assert Aliased(m, u0, q, q');
  }

  lemma SameCommon(m: Memory, m': Memory, u: nat, q: seq<nat>)
    requires m.depth >= 1 && m.Path(q) && m.Spaces() <= m'.Spaces() && Common(m, u, q) && u < m.Spaces()
    requires forall v: nat {:trigger Same(m, v, m', v)} :: v < m.Spaces() ==> Same(m, v, m', v)
    ensures m'.Path(q) && Common(m', u, q)
  {
    var v: nat :| v < m.Spaces() && v != u && Meet(m, u, v, q);
    assert Same(m, u, m', u) && Same(m, v, m', v);
    assert m'.Path(q) && m'.Leaf(u, q) == m.Leaf(u, q) && m'.Leaf(v, q) == m.Leaf(v, q);
    assert Meet(m', u, v, q);
  }

  lemma NewGuarded(m: Memory, held: seq<nat>, us: set<nat>)
    requires Accounted(m, held) && Guarded(m, us)
    ensures Guarded(NewSpace(m), us + {m.Spaces()})
  {
    hide Exact, Typed, TablesPrivate, ZeroOk, RowsOk, Common, Loose;
    var m', n := NewSpace(m), m.Spaces();
    forall v: nat | v < n ensures Same(m, v, m', v) { NewSame(m, held, v); }
    forall u: nat, q: seq<nat> | u in us + {n} && u < m'.Spaces() && m'.Path(q) && Loose(m', u, q)
      ensures Common(m', u, q)
    {
      assert m.Path(q);
      if u == n {
        NewBare(m, held, q);
      } else {
        SameLoose(m, u, m', u, q);
        SameCommon(m, m', u, q);
      }
    }
  }

  lemma NewSame(m: Memory, held: seq<nat>, v: nat)
    requires Accounted(m, held) && v < m.Spaces()
    ensures Same(m, v, NewSpace(m), v)
  {
    hide Exact, Typed, TablesPrivate, ZeroOk, RowsOk;
    NewCorrect(m, held);
    forall q: seq<nat> | m.Path(q)
      ensures NewSpace(m).Leaf(v, q) == m.Leaf(v, q) && NewSpace(m).Walk(v, q, m.depth - 1) == m.Walk(v, q, m.depth - 1)
    {
      NewWalk(m, v, q, m.depth - 1);
    }
  }

  lemma NewBare(m: Memory, held: seq<nat>, q: seq<nat>)
    requires Accounted(m, held) && m.Path(q)
    ensures !Loose(NewSpace(m), m.Spaces(), q)
  {
    hide Exact, Typed, TablesPrivate, ZeroOk, RowsOk, LeavesPrivate;
    NewCorrect(m, held);
    assert NewSpace(m).Leaf(m.Spaces(), q) == ABSENT;
  }

  lemma RootSame(m: Memory, m': Memory, s: nat, v: nat)
    requires RootShared(m, m', s) && Typed(m) && ZeroOk(m) && v <= m.Spaces()
    ensures Same(m, Origin(m, s, v), m', v)
  {
    hide Typed, ZeroOk, RowsOk, ShareRow;
    forall q: seq<nat> | m.Path(q)
      ensures m'.Leaf(v, q) == m.Leaf(Origin(m, s, v), q)
      ensures m'.Walk(v, q, m.depth - 1) == m.Walk(Origin(m, s, v), q, m.depth - 1)
    {
      ShareRootLeaf(m, m', s, v, q);
      ShareRootWalk(m, m', s, v, q, m.depth - 1);
    }
  }

  /** Sharing the root: parent and child read every page in one table. */
  lemma ShareGuarded(m: Memory, m': Memory, s: nat, us: set<nat>)
    requires RootShared(m, m', s) && Typed(m) && ZeroOk(m) && Guarded(m, us)
    ensures m'.depth >= 1 && Guarded(m', us + {s, m.Spaces()})
  {
    hide Typed, ZeroOk, RowsOk, ShareRow, Loose;
    var n := m.Spaces();
    forall v: nat | v <= n ensures Same(m, Origin(m, s, v), m', v) { RootSame(m, m', s, v); }
    forall v: nat | v < n ensures Same(m, v, m', v) { assert Same(m, Origin(m, s, v), m', v); }
    forall u: nat, q: seq<nat> | u in us + {s, n} && u < m'.Spaces() && m'.Path(q) && Loose(m', u, q)
      ensures Common(m', u, q)
    {
      assert Same(m, Origin(m, s, s), m', s) && Same(m, Origin(m, s, n), m', n);
      assert m.Path(q);
      if u == s || u == n {
        assert m'.Leaf(s, q) == m.Leaf(s, q) && m'.Leaf(n, q) == m.Leaf(s, q);
        assert Meet(m', u, if u == s then n else s, q);
      } else {
        SameLoose(m, u, m', u, q);
        SameCommon(m, m', u, q);
      }
    }
  }

  /** The paging mode plays no part. */
  lemma PlainGuarded(m: Memory, us: set<nat>)
    requires m.depth >= 1
    ensures Guarded(Plain(m), us) <==> Guarded(m, us)
  {
    hide Loose, Common;
    forall q: seq<nat>, u: nat | m.Path(q)
      ensures Loose(Plain(m), u, q) <==> Loose(m, u, q)
      ensures Common(Plain(m), u, q) <==> Common(m, u, q)
    {
      PlainPage(m, u, q);
    }
    assert forall q: seq<nat> :: Plain(m).Path(q) <==> m.Path(q);
  }

  lemma PlainPage(m: Memory, u: nat, q: seq<nat>)
    requires m.depth >= 1 && m.Path(q)
    ensures Loose(Plain(m), u, q) <==> Loose(m, u, q)
    ensures Common(Plain(m), u, q) <==> Common(m, u, q)
  {
    var k := m.depth - 1;
    forall v: nat, r: seq<nat> | m.Path(r)
      ensures Plain(m).Walk(v, r, k) == m.Walk(v, r, k) && Plain(m).Leaf(v, r) == m.Leaf(v, r)
    {
      PlainWalk(m, v, r, k);
    }
    forall r: seq<nat> | m.Path(r) ensures Aliased(Plain(m), u, q, r) <==> Aliased(m, u, q, r) {
      assert Plain(m).Leaf(u, r) == m.Leaf(u, r);
    }
    forall v: nat ensures Meet(Plain(m), u, v, q) <==> Meet(m, u, v, q) {
      assert Plain(m).Leaf(u, q) == m.Leaf(u, q) && Plain(m).Leaf(v, q) == m.Leaf(v, q);
    }
  }

  lemma {:induction false} DeshareSteady(m: Memory, held: seq<nat>, n: nat, k: nat, m': Memory)
    requires Accounted(m, held) && |m.refs| <= n < |m.tab| && k <= |m.tab[n]| && Deshare(m, n, k) == Ok(m')
    ensures Accounted(m', held) && Steadies(m, m')
  {
    hide Exact, LeavesPrivate, TablesPrivate, ZeroOk, CowEntry, Steadies, SameReserved;
    SteadyRefl(m);
    if k > 0 {
      var m1 := Deshare(m, n, k - 1).value;
      DeshareSteady(m, held, n, k - 1, m1);
      assert EntryOk(m1, m1.level[n], m1.tab[n][k - 1]);
      if m1.tab[n][k - 1].present && !m1.tab[n][k - 1].hw {
        CowEntryAccounted(m1, held, n, k - 1);
        CowUpperSteady(m1, held, n, k - 1, m');
        SteadyTrans(m, m1, m');
      }
    }
  }

  lemma ForkGuarded(m: Memory, held: seq<nat>, s: nat, m': Memory, us: set<nat>)
    requires Accounted(m, held) && s < m.Spaces() && Fork(m, s) == Ok(m') && Guarded(m, us)
    ensures m'.depth >= 1 && Guarded(m', us + {s, m.Spaces()})
  {
    hide Exact, LeavesPrivate, Typed, ZeroOk, TablesPrivate, Deshare, ShareRow, SameReserved, Guarded;
    var m1 := ShareRoot(m, s).value;
    ShareGuarded(m, m1, s, us);
    if m.pae {
      var vs := us + {s, m.Spaces()};
      PlainAccounted(m, held);
      ShareRootKept(Plain(m), held, Plain(m1), s);
      PlainDeshare(m1, m.Root(s), m.rootFan);
      PlainGuarded(m1, vs);
      DeshareSteady(Plain(m1), held, m.Root(s), m.rootFan, Plain(m'));
      SteadyGuarded(Plain(m1), Plain(m'), vs);
      PlainGuarded(m', vs);
    }
  }

  // ---- Runs ----

  /** Neither an alias is made, nor a mapping moved, nor a space torn down. */
  predicate Quiet(op: Op) {
    !op.CopyOp? && !op.SwapOp? && !op.FreeOp?
  }

  predicate Creates(op: Op) {
    op.NewOp? || op.ForkOp?
  }

  /** New spaces, and both spaces of a fork, are guarded from then on; `n` is the number of spaces. */
  function GuardedAfter(us: set<nat>, n: nat, op: Op): set<nat> {
    if op.NewOp? then us + {n} else if op.ForkOp? then us + {op.s, n} else us
  }

  /** A quiet run that stores only in guarded spaces. */
  predicate Heirs(us: set<nat>, n: nat, ops: seq<Op>)
    decreases |ops|
  {
    ops != [] ==>
      && Quiet(ops[0]) && (ops[0].StoreOp? ==> ops[0].s in us)
      && Heirs(GuardedAfter(us, n, ops[0]), if Creates(ops[0]) then n + 1 else n, ops[1..])
  }

  lemma StepGuarded(m: Memory, held: seq<nat>, op: Op, m': Memory, us: set<nat>)
    requires Accounted(m, held) && ValidOp(m, op) && Quiet(op) && Step(m, op) == Ok(m') && Guarded(m, us)
    ensures m'.depth >= 1 && Guarded(m', GuardedAfter(us, m.Spaces(), op))
    ensures m'.Spaces() == if Creates(op) then m.Spaces() + 1 else m.Spaces()
  {
    hide Exact, LeavesPrivate, Typed, ZeroOk, TablesPrivate, Fork, Store, Touch, Install, Guarded, Steadies, RowsOk;
    match op
    case ForkOp(s) => ForkGuarded(m, held, s, m', us);
    case StoreOp(s, q, off, b) =>
      StoreSteady(m, held, s, q, off, b, m');
      SteadyGuarded(m, m', us);
    case LoadOp(s, q) =>
      var e := m.Leaf(s, q);
      TouchSteady(m, held, s, q, if !e.present && e.cacheDisable then m.depth - 1 else m.depth, m');
      SteadyGuarded(m, m', us);
    case PutOp(s, q, e) =>
      PutSteady(m, held, s, q, e, m');
      SteadyGuarded(m, m', us);
    case NewOp => NewGuarded(m, held, us);
  }

  /** In a guarded space no store is served in place on a page with an alias: the table is common. */
  lemma GuardedSolo(m: Memory, held: seq<nat>, us: set<nat>, op: Op)
    requires Accounted(m, held) && Guarded(m, us) && ValidOp(m, op) && (op.StoreOp? ==> op.s in us)
    ensures SoloOp(m, op)
  {
    hide Exact, LeavesPrivate, Typed, ZeroOk, TablesPrivate, RowsOk, Solo;
    if op.StoreOp? && Exposed(m, op.s, op.q) && !Solo(m, op.s, op.q) {
      assert Loose(m, op.s, op.q);
      var v: nat :| v < m.Spaces() && v != op.s && Meet(m, op.s, v, op.q);
      ChainUnique(m, held, op.s, op.q, m.depth - 1, v, op.q, m.depth - 1);
      assert false;
    }
  }

  lemma {:induction false} HeirsSolo(m: Memory, held: seq<nat>, us: set<nat>, ops: seq<Op>, m': Memory)
    requires Isolated(m, held) && Guarded(m, us) && Runs(m, ops, m') && Heirs(us, m.Spaces(), ops)
    ensures SafeRun(m, ops, m') && SoloRun(m, ops, m')
    decreases |ops|
  {
    hide Exact, Typed, TablesPrivate, ZeroOk, RowsOk, LeavesPrivate, Step, ValidOp, Guarded, SoloOp, GuardedAfter;
    if ops != [] {
      var m1 := Step(m, ops[0]).value;
      GuardedSolo(m, held, us, ops[0]);
      StepIsolatesIff(m, held, ops[0], m1);
      StepGuarded(m, held, ops[0], m1, us);
      HeirsSolo(m1, held, GuardedAfter(us, m.Spaces(), ops[0]), ops[1..], m');
    }
  }

  /** From any isolated state, however its spaces alias their pages: over every interleaving of new
      spaces, forks, loads and unmappings anywhere, and stores in spaces that were created or
      forked on the way, lazy sharing shows exactly what eager copying would. */
  lemma ForksAreEager(m: Memory, held: seq<nat>, ops: seq<Op>, m': Memory, v: seq<Image<seq<nat>>>)
    requires Isolated(m, held) && Runs(m, ops, m') && Heirs({}, m.Spaces(), ops) && Shows(m, v)
    ensures Shape(m') && Shows(m', AfterActs(v, Pages(m), ActsOf(ops)))
  {
    hide Exact, Typed, TablesPrivate, ZeroOk, LeavesPrivate, RowsOk, Runs, SafeRun, SoloRun, Heirs, Shows, AfterActs;
    hide Loose;
    assert Guarded(m, {});
    HeirsSolo(m, held, {}, ops, m');
    RunRefines(m, held, ops, m', v);
  }
}
