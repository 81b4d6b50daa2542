/** Swapping two mappings of a space. Between the two stores the counts are off by one; that
    the faults of the second store do not notice is what these lemmas show. */
module MetalSwap {
  import opened Outcomes
  import opened PhysMm
  import opened MetalMemory
  import opened MetalOps
  import opened MetalCow
  import opened MetalWalks
  import opened MetalViews
  import opened MetalFaults
  import opened MetalMaps

  /** Node `u` is a root, or a table with one reference. */
  predicate Lone(m: Memory, u: nat) {
    u >= |m.refs| || (u != m.zero && m.refs[u] == 1)
  }

  /** Making one slot private changes no entry, in a lone node, that was open already. */
  lemma PrepSlotKeepsEntry(m: Memory, held: seq<nat>, n: nat, i: nat, m': Memory, u: nat, j: nat)
    requires Accounted(m, held) && Slot(m, n, i) && m.level[n] >= 2 && PrepSlot(m, n, i) == Ok(m')
    requires Slot(m, u, j) && m.level[u] > 0 && Lone(m, u) && Owns(m.tab[u][j]) && m.tab[u][j].hw
    ensures m'.tab[u][j] == m.tab[u][j]
  {
    hide Exact, LeavesPrivate, TablesPrivate, RowsOk, SameReserved;
    var m1 := if m.tab[n][i].present then m else Demand(m, n, i);
    if !m.tab[n][i].present { DemandAccounted(m, held, n, i); }
    assert m1.tab[u][j] == m.tab[u][j];
    if !m1.tab[n][i].hw { CowKeepsEntry(m1, held, n, i, m', u, j); }
  }

  lemma CowKeepsEntry(m: Memory, held: seq<nat>, n: nat, i: nat, m': Memory, u: nat, j: nat)
    requires Accounted(m, held) && Slot(m, n, i) && m.level[n] >= 2 && m.tab[n][i].present && !m.tab[n][i].hw
    requires CowEntry(m, n, i) == Ok(m')
    requires Slot(m, u, j) && m.level[u] > 0 && Lone(m, u) && Owns(m.tab[u][j]) && m.tab[u][j].hw
    ensures m'.tab[u][j] == m.tab[u][j]
  {
    EntryOwned(m, n, i);
    if RefCount(m.refs, m.zero, m.tab[n][i].page) != 1 {
      hide Exact, LeavesPrivate, TablesPrivate, Typed, ZeroOk, RowsOk;
      CowTableCopies(m, held, n, i);
    }
  }

  lemma EntryOwned(m: Memory, n: nat, i: nat)
    requires Shape(m) && Typed(m) && Slot(m, n, i) && m.level[n] >= 2 && m.tab[n][i].present
    ensures Owns(m.tab[n][i])
  {
    assert EntryOk(m, m.level[n], m.tab[n][i]);
  }

  /** So an open path stays open, through the same tables. */
  lemma {:induction false} PrepSlotKeepsOpen(m: Memory, held: seq<nat>, s: nat, q: seq<nat>, k: nat, n: nat, i: nat,
                                             m': Memory)
    requires Accounted(m, held) && s < m.Spaces() && m.Path(q) && k < m.depth && Open(m, s, q, k)
    requires Slot(m, n, i) && m.level[n] >= 2 && PrepSlot(m, n, i) == Ok(m')
    ensures Open(m', s, q, k) && m'.Walk(s, q, k) == m.Walk(s, q, k)
  {
    hide Exact, LeavesPrivate, TablesPrivate, Typed, ZeroOk, PrepSlot;
    if k > 0 {
      PrepSlotKeepsOpen(m, held, s, q, k - 1, n, i, m');
      OpenWalk(m, s, q, k - 1);
      OpenLone(m, held, s, q, k - 1);
      PrepSlotKeepsEntry(m, held, n, i, m', m.Walk(s, q, k - 1).value, q[k - 1]);
    }
  }

  lemma OpenLone(m: Memory, held: seq<nat>, s: nat, q: seq<nat>, k: nat)
    requires Accounted(m, held) && s < m.Spaces() && m.Path(q) && k < m.depth && Open(m, s, q, k)
    requires m.Walk(s, q, k).Some?
    ensures Lone(m, m.Walk(s, q, k).value)
  {
    hide Exact, LeavesPrivate, TablesPrivate, Typed, ZeroOk, RowsOk;
    OpenChain(m, held, s, q, k);
  }

  lemma {:induction false} PrepKeepsOpen(m: Memory, held: seq<nat>, s: nat, a: seq<nat>, j: nat, b: seq<nat>, k: nat,
                                         m': Memory)
    requires Accounted(m, held) && s < m.Spaces() && m.Path(a) && m.Path(b) && j < m.depth && k < m.depth
    requires Open(m, s, a, j) && Prep(m, s, b, k) == Ok(m')
    ensures Open(m', s, a, j) && m'.Walk(s, a, j) == m.Walk(s, a, j)
  {
    hide Exact, LeavesPrivate, TablesPrivate, Typed, ZeroOk, RowsOk, PrepSlot, SameLeaves;
    if k > 0 {
      var m1 := PrepUnfold(m, s, b, k, m');
      PrepKeepsOpen(m, held, s, a, j, b, k - 1, m1);
      PrepTables(m, held, s, b, k - 1, m1);
      OpenWalk(m1, s, b, k - 1);
      PrepSlotKeepsOpen(m1, held, s, a, j, m1.Walk(s, b, k - 1).value, b[k - 1], m');
    }
  }

  // ---- A leaf slot in a private table does not take part in the faults of other accesses ----

  lemma TabsCommute(tab: seq<seq<Entry>>, t: nat, r: seq<Entry>, x: nat, rx: seq<Entry>, p: nat, rp: seq<Entry>, n: nat,
                    rn: seq<Entry>)
    requires t < |tab| && x < |tab| && p < |tab| && n < |tab| && t != x && t != p && t != n
    ensures tab[t := r][x := rx][p := rp][n := rn] == tab[x := rx][p := rp][n := rn][t := r]
  {
  }

  lemma CopyTableCommutes(m: Memory, n: nat, i: nat, p: nat, t: nat, j: nat, e: Entry, m': Memory)
    requires Shape(m) && Slot(m, n, i) && m.level[n] >= 2 && m.tab[n][i].page < |m.refs| && p < |m.refs|
    requires Slot(m, t, j) && t != n && t != p && t != m.tab[n][i].page && n != p && n != m.tab[n][i].page
    requires CopyTable(SetEntry(m, t, j, e), n, i, p) == Ok(m')
    ensures CopyTable(m, n, i, p).Ok? && Slot(CopyTable(m, n, i, p).value, t, j)
    ensures m' == SetEntry(CopyTable(m, n, i, p).value, t, j, e)
  {
    hide ShareRow, RowsOk, SameReserved;
    var x := m.tab[n][i].page;
    var row := ReadOnlyRow(m.tab[x]);
    TabsCommute(m.tab, t, m.tab[t][j := e], x, row, p, row, n, m.tab[n][i := NewEntry(p, true, m.tab[n][i].user)]);
  }

  lemma CowCommutes(m: Memory, held: seq<nat>, n: nat, i: nat, t: nat, j: nat, e: Entry, m': Memory)
    requires Accounted(m, held) && Slot(m, n, i) && m.level[n] >= 2 && m.tab[n][i].present
    requires Slot(m, t, j) && m.level[t] == 1 && Lone(m, t) && CowEntry(SetEntry(m, t, j, e), n, i) == Ok(m')
    ensures CowEntry(m, n, i).Ok? && Slot(CowEntry(m, n, i).value, t, j)
    ensures m' == SetEntry(CowEntry(m, n, i).value, t, j, e)
  {
    hide Exact, LeavesPrivate, TablesPrivate, CopyTable;
    EntryOwned(m, n, i);
    assert EntryOk(m, m.level[n], m.tab[n][i]);
    var x := m.tab[n][i].page;
    if RefCount(m.refs, m.zero, x) == 1 {
      assert m.tab[t := m.tab[t][j := e]][n := m.tab[n][i := m.tab[n][i].(hw := true)]] ==
        m.tab[n := m.tab[n][i := m.tab[n][i].(hw := true)]][t := m.tab[t][j := e]];
    } else {
      var a := Alloc(m).value;
      FreeFrame(m, held, a.1);
      CopyTableCommutes(a.0, n, i, a.1, t, j, e, m');
    }
  }

  lemma PrepSlotCommutes(m: Memory, held: seq<nat>, n: nat, i: nat, t: nat, j: nat, e: Entry, m': Memory)
    requires Accounted(m, held) && Slot(m, n, i) && m.level[n] >= 2
    requires Slot(m, t, j) && m.level[t] == 1 && Lone(m, t) && PrepSlot(SetEntry(m, t, j, e), n, i) == Ok(m')
    ensures PrepSlot(m, n, i).Ok? && Slot(PrepSlot(m, n, i).value, t, j)
    ensures m' == SetEntry(PrepSlot(m, n, i).value, t, j, e)
  {
    hide Exact, LeavesPrivate, TablesPrivate, Typed, ZeroOk, CowEntry;
    var m1 := if m.tab[n][i].present then m else Demand(m, n, i);
    if !m.tab[n][i].present {
      DemandAccounted(m, held, n, i);
      assert m.tab[t := m.tab[t][j := e]][n := m1.tab[n]] == m1.tab[t := m.tab[t][j := e]];
      assert Demand(SetEntry(m, t, j, e), n, i) == SetEntry(m1, t, j, e);
    }
    if !m1.tab[n][i].hw { CowCommutes(m1, held, n, i, t, j, e, m'); }
  }

  /** So the faults of an access to `b` and a store into the private table of `a` commute. */
  lemma {:induction false} PrepCommutes(m: Memory, held: seq<nat>, s: nat, a: seq<nat>, t: nat, e: Entry, b: seq<nat>,
                                        k: nat, m': Memory)
    requires Accounted(m, held) && s < m.Spaces() && m.Path(a) && m.Path(b) && k < m.depth
    requires Open(m, s, a, m.depth - 1) && m.Walk(s, a, m.depth - 1) == Some(t) && Slot(m, t, a[m.depth - 1])
    requires Prep(SetEntry(m, t, a[m.depth - 1], e), s, b, k) == Ok(m')
    ensures Prep(m, s, b, k).Ok? && Slot(Prep(m, s, b, k).value, t, a[m.depth - 1])
    ensures m' == SetEntry(Prep(m, s, b, k).value, t, a[m.depth - 1], e)
  {
    hide Exact, LeavesPrivate, TablesPrivate, Typed, ZeroOk, PrepSlot, SameLeaves;
    if k > 0 {
      var j := a[m.depth - 1];
      var m3 := PrepUnfold(SetEntry(m, t, j, e), s, b, k, m');
      PrepCommutes(m, held, s, a, t, e, b, k - 1, m3);
      var m1 := Prep(m, s, b, k - 1).value;
      PrepCommutesStep(m, held, s, a, t, e, b, k, m1, m3.Walk(s, b, k - 1).value, m');
    }
  }

  lemma LeafStoreWalk(m: Memory, t: nat, j: nat, e: Entry, s: nat, q: seq<nat>, k: nat)
    requires Shape(m) && ZeroOk(m) && Typed(m) && Slot(m, t, j) && m.level[t] == 1 && s < m.Spaces() && m.Path(q)
    requires k < m.depth
    ensures SetEntry(m, t, j, e).Walk(s, q, k) == m.Walk(s, q, k)
  {
    WalkUpper(m, SetEntry(m, t, j, e), s, q, k);
  }

  lemma PrepFold(m: Memory, s: nat, q: seq<nat>, k: nat, m1: Memory, n: nat)
    requires Shape(m) && 0 < k <= |q| && Prep(m, s, q, k - 1) == Ok(m1) && Shape(m1) && m1.Walk(s, q, k - 1) == Some(n)
    requires Slot(m1, n, q[k - 1])
    ensures Prep(m, s, q, k) == PrepSlot(m1, n, q[k - 1])
  {
    hide PrepSlot, RowsOk;
  }

  lemma PrepCommutesStep(m: Memory, held: seq<nat>, s: nat, a: seq<nat>, t: nat, e: Entry, b: seq<nat>, k: nat,
                         m1: Memory, n: nat, m': Memory)
    requires Accounted(m, held) && s < m.Spaces() && m.Path(a) && m.Path(b) && 0 < k < m.depth
    requires Open(m, s, a, m.depth - 1) && m.Walk(s, a, m.depth - 1) == Some(t)
    requires Prep(m, s, b, k - 1) == Ok(m1) && Slot(m1, t, a[m.depth - 1])
    requires SetEntry(m1, t, a[m.depth - 1], e).Walk(s, b, k - 1) == Some(n)
    requires Slot(SetEntry(m1, t, a[m.depth - 1], e), n, b[k - 1])
    requires PrepSlot(SetEntry(m1, t, a[m.depth - 1], e), n, b[k - 1]) == Ok(m')
    ensures Prep(m, s, b, k).Ok? && Slot(Prep(m, s, b, k).value, t, a[m.depth - 1])
    ensures m' == SetEntry(Prep(m, s, b, k).value, t, a[m.depth - 1], e)
  {
    hide Exact, LeavesPrivate, TablesPrivate, Typed, ZeroOk, RowsOk, SameReserved, Prep, PrepSlot, SameLeaves, SetEntry;
    hide Open;
    PrepTables(m, held, s, b, k - 1, m1);
    PrepKeepsOpen(m, held, s, a, m.depth - 1, b, k - 1, m1);
    OpenWalk(m1, s, a, m.depth - 1);
    OpenLone(m1, held, s, a, m.depth - 1);
    LeafStoreWalk(m1, t, a[m.depth - 1], e, s, b, k - 1);
    OpenWalk(m1, s, b, k - 1);
    PrepFold(m, s, b, k, m1, n);
    PrepSlotCommutes(m1, held, n, b[k - 1], t, a[m.depth - 1], e, m');
  }

  // ---- Reading an entry leaves the owning leaves as they are, write bits included ----

  lemma CowUpperExact(m: Memory, held: seq<nat>, n: nat, i: nat, m': Memory, s: nat, q: seq<nat>)
    requires Accounted(m, held) && Slot(m, n, i) && m.level[n] >= 3 && m.tab[n][i].present
    requires CowEntry(m, n, i) == Ok(m')
    requires s < m.Spaces() && m.Path(q) && Owns(m.Leaf(s, q))
    ensures m'.Leaf(s, q) == m.Leaf(s, q)
  {
    hide Exact, LeavesPrivate, TablesPrivate, Typed, ZeroOk, RowsOk, SameReserved, CowTable, TableCopied;
    EntryOwned(m, n, i);
    if RefCount(m.refs, m.zero, m.tab[n][i].page) == 1 {
      GrantExact(m, n, i, s, q);
    } else {
      CowTableCopies(m, held, n, i);
      CopiedExact(m, m', n, i, m.tab[n][i].page, Alloc(m).value.1, s, q);
    }
  }

  lemma GrantExact(m: Memory, n: nat, i: nat, s: nat, q: seq<nat>)
    requires Shape(m) && ZeroOk(m) && Typed(m) && Slot(m, n, i) && m.level[n] >= 3
    requires s < m.Spaces() && m.Path(q) && Owns(m.Leaf(s, q))
    ensures SetEntry(m, n, i, m.tab[n][i].(hw := true)).Leaf(s, q) == m.Leaf(s, q)
  {
    hide Typed, SameReserved;
    var m' := SetEntry(m, n, i, m.tab[n][i].(hw := true));
    assert Similar(m, m', m.zero, m.zero);
    WalkTyped(m, s, q, m.depth - 1);
    WalkSimilar(m, m', m.zero, m.zero, s, q, m.depth - 1);
  }

  lemma CopiedExact(m: Memory, m': Memory, n: nat, i: nat, x: nat, p: nat, s: nat, q: seq<nat>)
    requires Shape(m) && ZeroOk(m) && Typed(m) && Slot(m, n, i) && m.level[n] >= 3 && TableCopied(m, m', n, i, x, p)
    requires s < m.Spaces() && m.Path(q) && Owns(m.Leaf(s, q))
    ensures m'.Leaf(s, q) == m.Leaf(s, q)
  {
    hide Typed, SameReserved, Similar;
    CopiedSimilar(m, m', n, i, x, p);
    WalkTyped(m, s, q, m.depth - 1);
    WalkSimilar(m, m', x, p, s, q, m.depth - 1);
  }

  lemma DemandExact(m: Memory, n: nat, i: nat, s: nat, q: seq<nat>)
    requires Shape(m) && ZeroOk(m) && Typed(m) && Slot(m, n, i) && m.level[n] >= 2 && !m.tab[n][i].present
    requires s < m.Spaces() && m.Path(q) && Owns(m.Leaf(s, q))
    ensures Demand(m, n, i).Leaf(s, q) == m.Leaf(s, q)
  {
    WalkTyped(m, s, q, m.depth - 1);
    WalkDemand(m, n, i, s, q, m.depth - 1);
  }

  lemma PrepSlotExact(m: Memory, held: seq<nat>, n: nat, i: nat, m': Memory, s: nat, q: seq<nat>)
    requires Accounted(m, held) && Slot(m, n, i) && m.level[n] >= 3 && PrepSlot(m, n, i) == Ok(m')
    requires s < m.Spaces() && m.Path(q) && Owns(m.Leaf(s, q))
    ensures m'.Leaf(s, q) == m.Leaf(s, q)
  {
    hide Exact, LeavesPrivate, TablesPrivate, Typed, ZeroOk, CowEntry;
    var m1 := if m.tab[n][i].present then m else Demand(m, n, i);
    if !m.tab[n][i].present {
      DemandAccounted(m, held, n, i);
      DemandExact(m, n, i, s, q);
    }
    if !m1.tab[n][i].hw { CowUpperExact(m1, held, n, i, m', s, q); }
  }

  lemma {:induction false} PrepExact(m: Memory, held: seq<nat>, s: nat, b: seq<nat>, k: nat, m': Memory, s': nat,
                                     q: seq<nat>)
    requires Accounted(m, held) && s < m.Spaces() && m.Path(b) && k + 2 <= m.depth && Prep(m, s, b, k) == Ok(m')
    requires s' < m.Spaces() && m.Path(q) && Owns(m.Leaf(s', q))
    ensures m'.Leaf(s', q) == m.Leaf(s', q)
  {
    hide Exact, LeavesPrivate, TablesPrivate, Typed, ZeroOk, RowsOk, SameReserved, PrepSlot, SameLeaves;
    if k > 0 {
      var m1 := PrepUnfold(m, s, b, k, m');
      PrepTables(m, held, s, b, k - 1, m1);
      PrepExact(m, held, s, b, k - 1, m1, s', q);
      OpenWalk(m1, s, b, k - 1);
      PrepSlotExact(m1, held, m1.Walk(s, b, k - 1).value, b[k - 1], m', s', q);
    }
  }

  lemma PageInExact(m: Memory, held: seq<nat>, s: nat, b: seq<nat>, k: nat, m': Memory, s': nat, q: seq<nat>)
    requires Accounted(m, held) && s < m.Spaces() && m.Path(b) && 0 < k < m.depth && PageIn(m, s, b, k) == Ok(m')
    requires s' < m.Spaces() && m.Path(q) && Owns(m.Leaf(s', q))
    ensures m'.Leaf(s', q) == m.Leaf(s', q)
  {
    hide Exact, LeavesPrivate, TablesPrivate, Typed, ZeroOk, RowsOk, SameReserved, Prep, SameLeaves;
    var m1 := Prep(m, s, b, k - 1).value;
    PrepTables(m, held, s, b, k - 1, m1);
    PrepExact(m, held, s, b, k - 1, m1, s', q);
    OpenWalk(m1, s, b, k - 1);
    var n := m1.Walk(s, b, k - 1).value;
    if !m1.tab[n][b[k - 1]].present { DemandExact(m1, n, b[k - 1], s', q); }
  }

  lemma {:induction false} TouchExact(m: Memory, held: seq<nat>, s: nat, b: seq<nat>, k: nat, m': Memory, s': nat,
                                      q: seq<nat>)
    requires Accounted(m, held) && s < m.Spaces() && m.Path(b) && k < m.depth && Touch(m, s, b, k) == Ok(m')
    requires s' < m.Spaces() && m.Path(q) && Owns(m.Leaf(s', q))
    ensures m'.Leaf(s', q) == m.Leaf(s', q)
  {
    hide Exact, LeavesPrivate, TablesPrivate, Typed, ZeroOk, RowsOk, SameReserved, PageIn, SameLeaves;
    if k > 0 {
      var m1 := Touch(m, s, b, k - 1).value;
      TouchTables(m, held, s, b, k - 1, m1);
      TouchExact(m, held, s, b, k - 1, m1, s', q);
      if !m1.tab[m1.Walk(s, b, k - 1).value][b[k - 1]].present { PageInExact(m1, held, s, b, k, m', s', q); }
    }
  }
}
