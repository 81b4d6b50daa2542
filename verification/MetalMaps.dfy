/** Demand paging of reads, and edits of single mappings. */
module MetalMaps {
  import opened Outcomes
  import opened PhysMm
  import opened MetalMemory
  import opened MetalOps
  import opened MetalAccounting
  import opened MetalCow
  import opened MetalWalks
  import opened MetalViews
  import opened MetalFaults
  import opened MetalStore

  lemma PageInTable(m: Memory, held: seq<nat>, s: nat, q: seq<nat>, k: nat, m': Memory)
    requires Accounted(m, held) && s < m.Spaces() && m.Path(q) && 0 < k < m.depth && PageIn(m, s, q, k) == Ok(m')
    ensures Kept(m, m', held) && SameLeaves(m, m') && m'.dat == m.dat && m'.Walk(s, q, k).Some?
  {
    hide Exact, LeavesPrivate, Typed, ZeroOk, TablesPrivate, RowsOk, SameReserved, SameLeaves, Prep;
    var m1 := Prep(m, s, q, k - 1).value;
    PrepTables(m, held, s, q, k - 1, m1);
    OpenWalk(m1, s, q, k - 1);
    var n := m1.Walk(s, q, k - 1).value;
    if !m1.tab[n][q[k - 1]].present {
      DemandAccounted(m1, held, n, q[k - 1]);
      DemandTableKept(m1, held, n, q[k - 1]);
      SameLeavesTrans(m, m1, m');
      DemandOpens(m1, n, s, q, k);
    }
  }

  lemma DemandOpens(m: Memory, n: nat, s: nat, q: seq<nat>, k: nat)
    requires Shape(m) && ZeroOk(m) && Typed(m) && s < m.Spaces() && m.Path(q) && 0 < k < m.depth
    requires m.Walk(s, q, k - 1) == Some(n) && Slot(m, n, q[k - 1]) && m.level[n] >= 2 && !m.tab[n][q[k - 1]].present
    ensures Demand(m, n, q[k - 1]).Walk(s, q, k).Some?
  {
    WalkDemand(m, n, q[k - 1], s, q, k - 1);
  }

  /** Reading through the tables: nothing is noticed, and the last table is there. */
  lemma {:induction false} TouchTables(m: Memory, held: seq<nat>, s: nat, q: seq<nat>, k: nat, m': Memory)
    requires Accounted(m, held) && s < m.Spaces() && m.Path(q) && k < m.depth && Touch(m, s, q, k) == Ok(m')
    ensures Kept(m, m', held) && SameLeaves(m, m') && m'.dat == m.dat && m'.Walk(s, q, k).Some?
  {
    hide Exact, LeavesPrivate, Typed, ZeroOk, TablesPrivate, PageIn, RowsOk, SameReserved;
    if k > 0 {
      var m1 := Touch(m, s, q, k - 1).value;
      TouchTables(m, held, s, q, k - 1, m1);
      var n := m1.Walk(s, q, k - 1).value;
      if !m1.tab[n][q[k - 1]].present {
        PageInTable(m1, held, s, q, k, m');
        SameLeavesTrans(m, m1, m');
      }
    }
  }

  /** Every leaf but the one at `(s, q)` is the same up to its write bit. */
  ghost predicate OtherLeaves(m: Memory, m': Memory, s: nat, q: seq<nat>) {
    && SameShape(m, m')
    && m.depth >= 1
    && forall s': nat, q': seq<nat> {:trigger m'.Leaf(s', q')} ::
         s' < m.Spaces() && m.Path(q') && (s' != s || q' != q) ==>
         HwEq(m.Leaf(s', q'), m'.Leaf(s', q'))
  }

  /** A write to the leaf slot of an open path changes that leaf only. */
  lemma LeafSlotWritten(m: Memory, m1: Memory, held: seq<nat>, s: nat, q: seq<nat>, t: nat, e: Entry, m': Memory)
    requires Shape(m) && s < m.Spaces() && m.Path(q)
    requires Accounted(m1, held) && SameLeaves(m, m1) && Chain(m1, s, q, m.depth - 1)
    requires m1.Walk(s, q, m.depth - 1) == Some(t)
    requires LeafWritten(m1, m', t, q[m.depth - 1], e)
    ensures OtherLeaves(m, m', s, q) && m'.Leaf(s, q) == e
  {
    hide Exact, Typed, ZeroOk, TablesPrivate;
    var k := m.depth - 1;
    LeafAfter(m1, m', t, q[k], e, s, q);
    forall s': nat, q': seq<nat> | s' < m.Spaces() && m.Path(q') && (s' != s || q' != q)
      ensures HwEq(m.Leaf(s', q'), m'.Leaf(s', q'))
    {
      DistinctSlots(m1, held, s, q, s', q');
      LeafAfter(m1, m', t, q[k], e, s', q');
      assert HwEq(m.Leaf(s', q'), m1.Leaf(s', q'));
    }
  }

  lemma PageInLeaf(m: Memory, held: seq<nat>, s: nat, q: seq<nat>, m': Memory)
    requires Accounted(m, held) && s < m.Spaces() && m.Path(q) && PageIn(m, s, q, m.depth) == Ok(m')
    requires !m.Leaf(s, q).present && !m.Leaf(s, q).cacheDisable
    ensures Kept(m, m', held) && SameViews(m, m') && OtherLeaves(m, m', s, q)
    ensures m'.Leaf(s, q) == NewEntry(m.zero, false, true)
  {
    hide Exact, LeavesPrivate, Typed, ZeroOk, TablesPrivate, Prep;
    var k := m.depth - 1;
    var m1 := Prep(m, s, q, k).value;
    PrepTables(m, held, s, q, k, m1);
    OpenWalk(m1, s, q, k);
    OpenChain(m1, held, s, q, k);
    var t := m1.Walk(s, q, k).value;
    assert HwEq(m.Leaf(s, q), m1.Leaf(s, q));
    DemandAccounted(m1, held, t, q[k]);
    DemandLeafKept(m1, held, t, q[k]);
    SameLeavesViews(m, m1);
    SameViewsTrans(m, m1, m');
    LeafSlotWritten(m, m1, held, s, q, t, NewEntry(m.zero, false, true), m');
  }

  /** A load, whatever it pages in, changes nothing that any space observes; the page it reads is
      present after it, unless it is a device trap. */
  lemma LoadCorrect(m: Memory, held: seq<nat>, s: nat, q: seq<nat>, m': Memory)
    requires Accounted(m, held) && s < m.Spaces() && m.Path(q) && Load(m, s, q) == Ok(m')
    ensures Kept(m, m', held) && SameViews(m, m') && OtherLeaves(m, m', s, q)
    ensures HwEq(m.Leaf(s, q), m'.Leaf(s, q)) || m'.Leaf(s, q) == NewEntry(m.zero, false, true)
    ensures m'.Leaf(s, q).present <==> m.Leaf(s, q).present || !m.Leaf(s, q).cacheDisable
  {
    hide Exact, LeavesPrivate, Typed, ZeroOk, TablesPrivate, PageIn, RowsOk, SameReserved;
    var e := m.Leaf(s, q);
    var k := m.depth - 1;
    if !e.present && e.cacheDisable {
      TouchTables(m, held, s, q, k, m');
      SameLeavesViews(m, m');
    } else {
      var m1 := Touch(m, s, q, k).value;
      TouchTables(m, held, s, q, k, m1);
      SameLeavesViews(m, m1);
      assert HwEq(e, m1.Leaf(s, q));
      var t := m1.Walk(s, q, k).value;
      if !m1.tab[t][q[k]].present {
        PageInLeaf(m1, held, s, q, m');
        SameViewsTrans(m, m1, m');
        forall s': nat, q': seq<nat> | s' < m.Spaces() && m.Path(q') && (s' != s || q' != q)
          ensures HwEq(m.Leaf(s', q'), m'.Leaf(s', q'))
        {
          assert HwEq(m.Leaf(s', q'), m1.Leaf(s', q')) && HwEq(m1.Leaf(s', q'), m'.Leaf(s', q'));
        }
      }
    }
  }

  // ---- Installing an entry ----

  lemma CowKeepsLevel(m: Memory, n: nat, i: nat, f: nat)
    requires Shape(m) && Slot(m, n, i) && f < |m.refs| && m.refs[f] > 0 && m.level[f] == 0 && CowEntry(m, n, i).Ok?
    ensures CowEntry(m, n, i).value.level[f] == 0
  {
    hide ShareRow, NextFit, RowsOk, SameReserved;
  }

  /** A frame that is in use but is no table stays so while tables are made private. */
  lemma CowKeepsData(m: Memory, n: nat, i: nat, f: nat)
    requires Shape(m) && Slot(m, n, i) && f < |m.refs| && m.refs[f] > 0 && m.level[f] == 0 && PrepSlot(m, n, i).Ok?
    ensures PrepSlot(m, n, i).value.level[f] == 0
  {
    hide CowEntry;
    var m1 := if m.tab[n][i].present then m else Demand(m, n, i);
    if !m1.tab[n][i].hw { CowKeepsLevel(m1, n, i, f); }
  }

  lemma {:induction false} PrepKeepsData(m: Memory, held: seq<nat>, s: nat, q: seq<nat>, k: nat, m': Memory, f: nat)
    requires Accounted(m, held) && s < m.Spaces() && m.Path(q) && k < m.depth && Prep(m, s, q, k) == Ok(m')
    requires Counted(m, f) && held[f] > 0 && m.level[f] == 0
    ensures Counted(m', f) && m'.refs[f] > 0 && m'.level[f] == 0
  {
    hide Exact, LeavesPrivate, Typed, ZeroOk, TablesPrivate, PrepSlot, SameLeaves;
    PrepTables(m, held, s, q, k, m');
    HeldFrame(m', held, f);
    if k > 0 {
      var m1 := PrepUnfold(m, s, q, k, m');
      PrepKeepsData(m, held, s, q, k - 1, m1, f);
      CowKeepsData(m1, m1.Walk(s, q, k - 1).value, q[k - 1], f);
    }
  }

  lemma HeldFrame(m: Memory, held: seq<nat>, f: nat)
    requires Accounted(m, held) && Counted(m, f) && held[f] > 0
    ensures m.refs[f] > 0
  {
    assert Owners(m, f) >= 0;
  }

  /** The entry can go into a leaf slot, and the reference it needs is held. */
  ghost predicate LeafReady(m: Memory, e: Entry)
    requires Shape(m)
  {
    EntryOk(m, 1, e)
  }

  lemma PrepReady(m: Memory, held: seq<nat>, s: nat, q: seq<nat>, e: Entry, m': Memory)
    requires |held| == |m.refs| && Accounted(m, Hold(held, e)) && s < m.Spaces() && m.Path(q)
    requires Prep(m, s, q, m.depth - 1) == Ok(m')
    requires LeafReady(m, e)
    ensures LeafReady(m', e)
  {
    hide Exact, LeavesPrivate, Typed, ZeroOk, TablesPrivate, Prep;
    if Owns(e) && Counted(m, e.page) {
      PrepKeepsData(m, Hold(held, e), s, q, m.depth - 1, m', e.page);
    }
  }

  /** The state in which `Install` stores its entry. */
  ghost predicate Ready(m: Memory, m1: Memory, held: seq<nat>, s: nat, q: seq<nat>, t: nat)
    requires Shape(m) && m.Path(q)
  {
    && Kept(m, m1, held) && SameLeaves(m, m1) && m1.dat == m.dat
    && Open(m1, s, q, m.depth - 1) && m1.Walk(s, q, m.depth - 1) == Some(t)
    && Slot(m1, t, q[m.depth - 1]) && m1.level[t] == 1
  }

  lemma InstallReady(m: Memory, held: seq<nat>, s: nat, q: seq<nat>, e: Entry, m': Memory) returns (m1: Memory, t: nat)
    requires |held| == |m.refs| && Accounted(m, Hold(held, e)) && LeafReady(m, e)
    requires s < m.Spaces() && m.Path(q) && Install(m, s, q, e) == Ok(m')
    ensures Ready(m, m1, Hold(held, e), s, q, t) && LeafReady(m1, e) && Replace(m1, t, q[m.depth - 1], e) == Ok(m')
  {
    hide Exact, LeavesPrivate, Typed, ZeroOk, TablesPrivate, Prep;
    var k := m.depth - 1;
    m1 := Prep(m, s, q, k).value;
    PrepTables(m, Hold(held, e), s, q, k, m1);
    PrepReady(m, held, s, q, e, m1);
    OpenWalk(m1, s, q, k);
    t := m1.Walk(s, q, k).value;
  }

  lemma ReplaceLeafTabs(m: Memory, held: seq<nat>, t: nat, i: nat, e: Entry, m': Memory)
    requires Accounted(m, held) && Slot(m, t, i) && m.level[t] == 1 && Replace(m, t, i, e) == Ok(m')
    ensures LeafWritten(m, m', t, i, e) && m'.level == m.level && m'.dat == m.dat
  {
    assert EntryOk(m, m.level[t], m.tab[t][i]);
    if Owns(m.tab[t][i]) { assert m.level[m.tab[t][i].page := 0] == m.level; }
  }

  /** Installing a ready entry keeps the accounts and changes one leaf. */
  lemma InstallAccounted(m: Memory, m1: Memory, held: seq<nat>, s: nat, q: seq<nat>, t: nat, e: Entry, m': Memory)
    requires Shape(m) && |held| == |m.refs| && s < m.Spaces() && m.Path(q)
    requires Ready(m, m1, Hold(held, e), s, q, t) && LeafReady(m1, e) && Replace(m1, t, q[m.depth - 1], e) == Ok(m')
    ensures Accounted(m', held) && OtherLeaves(m, m', s, q) && m'.Leaf(s, q) == e && m'.dat == m.dat
    ensures Open(m', s, q, m.depth - 1) && m'.Walk(s, q, m.depth - 1) == Some(t)
  {
    hide Exact, LeavesPrivate, Typed, ZeroOk, TablesPrivate, Replace;
    var k := m.depth - 1;
    OpenChain(m1, Hold(held, e), s, q, k);
    ReplaceLeafTabs(m1, Hold(held, e), t, q[k], e, m');
    ReplaceAccounted(m1, held, t, q[k], e);
    LeafSlotWritten(m, m1, Hold(held, e), s, q, t, e, m');
    OpenAbove(m1, m', s, q, k, 1);
  }

  /** No other space maps the frame of `e`. */
  ghost predicate OnlyHere(m: Memory, s: nat, e: Entry)
    requires m.depth >= 1
  {
    forall s': nat, q': seq<nat> {:trigger m.Leaf(s', q')} ::
      s' < m.Spaces() && m.Path(q') && s' != s && Owns(m.Leaf(s', q')) ==> m.Leaf(s', q').page != e.page
  }

  /** Wherever the frame of `e` is mapped hardware-writable, space `s` reaches that table. */
  ghost predicate ReachesWriters(m: Memory, s: nat, e: Entry)
    requires |m.tab| == |m.level| && m.depth >= 1
  {
    forall t: nat, i: nat {:trigger m.tab[t][i]} ::
      t < |m.tab| && m.level[t] == 1 && i < |m.tab[t]| && Owns(m.tab[t][i]) && m.tab[t][i].hw &&
        m.tab[t][i].page == e.page
      ==> Reaches(m, s, t)
  }

  /** A table that a space reaches with some slot is a leaf of that space. */
  lemma ReachedLeaf(m: Memory, s: nat, u: nat, j: nat) returns (q: seq<nat>)
    requires Shape(m) && Reaches(m, s, u) && Slot(m, u, j) && u < |m.refs|
    ensures s < m.Spaces() && m.Path(q) && m.Leaf(s, q) == m.tab[u][j] && m.Walk(s, q, m.depth - 1) == Some(u)
    ensures q[m.depth - 1] == j
  {
    var k := m.depth - 1;
    var r :| m.Path(r) && m.Walk(s, r, k) == Some(u);
    q := r[k := j];
    WalkPrefix(m, s, r, q, k);
  }

  lemma InstallPair(m: Memory, held: seq<nat>, s: nat, q: seq<nat>, t: nat, e: Entry, m': Memory, t': nat, a: nat,
                    u: nat, b: nat, s': nat)
    requires Isolated(m, held) && s < m.Spaces() && m.Path(q)
    requires Chain(m, s, q, m.depth - 1) && m.Walk(s, q, m.depth - 1) == Some(t)
    requires LeafWritten(m, m', t, q[m.depth - 1], e) && m'.level == m.level
    requires Owns(e) ==> ReachesWriters(m, s, e) && (e.hw ==> OnlyHere(m, s, e))
    requires SharesWritable(m', t', a, u, b) && Reaches(m, s', u)
    ensures Reaches(m, s', t')
  {
    hide Exact, Typed, ZeroOk, TablesPrivate, Reaches, RowsOk, SameReserved;
    var i := q[m.depth - 1];
    if t' == t && a == i && !(u == t && b == i) {
      WriterHere(m, s, q, t, e, s', u, b);
    } else if u == t && b == i && t' != t {
      ReachedHere(m, held, s, q, t, s');
    } else if !(u == t && b == i) && t' != u {
      assert SharesWritable(m, t', a, u, b);
    }
  }

  /** A table at the end of a chain is reached by its own space only. */
  lemma ReachedHere(m: Memory, held: seq<nat>, s: nat, q: seq<nat>, t: nat, s': nat)
    requires Accounted(m, held) && s < m.Spaces() && m.Path(q) && Chain(m, s, q, m.depth - 1)
    requires m.Walk(s, q, m.depth - 1) == Some(t)
    requires Reaches(m, s', t)
    ensures s' == s
  {
    hide Exact, Typed, ZeroOk, TablesPrivate, RowsOk;
    var r :| m.Path(r) && m.Walk(s', r, m.depth - 1) == Some(t);
    ChainUnique(m, held, s, q, m.depth - 1, s', r, m.depth - 1);
  }

  /** What is needed for an installed entry to keep the spaces apart. */
  lemma InstallLeaves(m: Memory, held: seq<nat>, s: nat, q: seq<nat>, t: nat, e: Entry, m': Memory)
    requires Isolated(m, held) && s < m.Spaces() && m.Path(q)
    requires Chain(m, s, q, m.depth - 1) && m.Walk(s, q, m.depth - 1) == Some(t)
    requires LeafWritten(m, m', t, q[m.depth - 1], e) && m'.level == m.level
    requires Owns(e) ==> ReachesWriters(m, s, e) && (e.hw ==> OnlyHere(m, s, e))
    ensures LeavesPrivate(m')
  {
    hide Exact, Typed, TablesPrivate, Reaches, OnlyHere, ReachesWriters, Chain, RowsOk, SameReserved;
    assert UpperSame(m, m');
    forall t': nat, a: nat, u: nat, b: nat, s': nat | SharesWritable(m', t', a, u, b) && Reaches(m', s', u)
      ensures Reaches(m', s', t')
    {
      ReachUpper(m, m', s', u);
      ReachUpper(m, m', s', t');
      InstallPair(m, held, s, q, t, e, m', t', a, u, b, s');
    }
  }

  lemma WriterHere(m: Memory, s: nat, q: seq<nat>, t: nat, e: Entry, s': nat, u: nat, b: nat)
    requires Shape(m) && s < m.Spaces() && m.Path(q) && m.Walk(s, q, m.depth - 1) == Some(t)
    requires OnlyHere(m, s, e) && Reaches(m, s', u) && Slot(m, u, b) && m.level[u] == 1 && Owns(m.tab[u][b])
    requires m.tab[u][b].page == e.page
    ensures Reaches(m, s', t)
  {
    var r := ReachedLeaf(m, s', u, b);
    assert s' == s;
  }
}
