/** Loads, stores and page edits go through while there are frames and room in the counts. */
module MetalProgress {
  import opened Outcomes
  import opened PhysMm
  import opened ArchContract
  import opened MetalMemory
  import opened MetalOps
  import opened MetalCow
  import opened MetalWalks
  import opened MetalViews
  import opened MetalFaults
  import opened MetalStore
  import opened MetalMaps
  import opened MetalRetry
  import opened MetalAlias
  import opened MetalSwap
  import opened MetalRoom

  // ---- Leaves ----

  lemma ReleaseGoes(m: Memory, k: nat, e: Entry)
    requires Shape(m) && Owns(e) && EntryOk(m, k, e)
    ensures Release(m, e.page).Ok?
  {
  }

  lemma ReplaceGoes(m: Memory, n: nat, i: nat, e: Entry)
    requires Shape(m) && Typed(m) && Slot(m, n, i) && m.level[n] > 0
    ensures Replace(m, n, i, e).Ok?
  {
    var was := m.tab[n][i];
    assert EntryOk(m, m.level[n], was);
    if Owns(was) { ReleaseGoes(SetEntry(m, n, i, e), m.level[n], was); }
  }

  lemma LeafGoes(m: Memory, held: seq<nat>, t: nat, i: nat)
    requires Accounted(m, held) && Slot(m, t, i) && m.level[t] == 1 && Grantable(m.tab[t][i]) && FreeFrames(m) >= 1
    ensures PrepSlot(m, t, i).Ok?
  {
    var m1 := if m.tab[t][i].present then m else Demand(m, t, i);
    assert EntryOk(m, m.level[t], m.tab[t][i]);
    if !m.tab[t][i].present { DemandAccounted(m, held, t, i); }
    if !m1.tab[t][i].hw {
      assert EntryOk(m1, m1.level[t], m1.tab[t][i]) && Owns(m1.tab[t][i]);
      AllocGoes(m1);
    }
  }

  /** A store needs at most a frame for each level. */
  lemma StoreGoes(m: Memory, held: seq<nat>, s: nat, q: seq<nat>, off: nat, b: bv8)
    requires Accounted(m, held) && s < m.Spaces() && m.Path(q) && off < PAGE_SIZE
    requires Room(m, 1, 0, m.depth - 1) && FreeFrames(m) >= m.depth
    ensures Store(m, s, q, off, b).Ok?
  {
    hide Exact, TablesPrivate, LeavesPrivate, Typed, ZeroOk, RowsOk, SameReserved, Room, PrepSlot, FreeCount, HwOpen;
    var k := m.depth - 1;
    if Grantable(m.Leaf(s, q)) {
      if HwOpen(m, s, q, m.depth) {
        AlreadyOpen(m, held, s, q);
        ServedPage(m, m, held, s, q);
      } else {
        PrepGoes(m, held, s, q, k, 1, 0);
        var m1 := Prep(m, s, q, k).value;
        PrepTables(m, held, s, q, k, m1);
        OpenWalk(m1, s, q, k);
        assert HwEq(m.Leaf(s, q), m1.Leaf(s, q));
        LeafGoes(m1, held, m1.Walk(s, q, k).value, q[k]);
        var m2 := Prep(m, s, q, m.depth).value;
        ServeFaults(m, held, s, q, m2);
        ServedPage(m, m2, held, s, q);
      }
    }
  }

  lemma ServedPage(m: Memory, m': Memory, held: seq<nat>, s: nat, q: seq<nat>)
    requires Shape(m) && s < m.Spaces() && m.Path(q) && Served(m, m', held, s, q)
    ensures Owns(m'.Leaf(s, q)) ==> m'.Leaf(s, q).page < |m.refs|
  {
    hide Exact, TablesPrivate, LeavesPrivate, RowsOk, SameReserved;
    var k := m.depth - 1;
    ChainWalk(m', s, q, k);
    var t := m'.Walk(s, q, k).value;
    assert EntryOk(m', m'.level[t], m'.tab[t][q[k]]);
  }

  // ---- Reads ----

  /** What is missing on a path stays missing while the tables above it are made private. */
  lemma EntrySimilar(m: Memory, m': Memory, x: nat, p: nat, s: nat, q: seq<nat>, k: nat)
    requires Shape(m) && ZeroOk(m) && Typed(m) && Similar(m, m', x, p) && s < m.Spaces() && m.Path(q) && k < m.depth
    requires m.Walk(s, q, k).Some? && !m.At(m.Walk(s, q, k).value, q[k]).present
    ensures m'.Walk(s, q, k).Some? && !m'.At(m'.Walk(s, q, k).value, q[k]).present
  {
    WalkSimilar(m, m', x, p, s, q, k);
    WalkTyped(m, s, q, k);
    var a := m.Walk(s, q, k).value;
    assert Follows(m, a, m.tab[a][q[k]], m'.tab[a][q[k]], x, p);
  }

  lemma CowStaysAbsent(m: Memory, held: seq<nat>, n: nat, i: nat, m': Memory, s: nat, q: seq<nat>, k: nat)
    requires Accounted(m, held) && Slot(m, n, i) && m.level[n] >= 2 && Owns(m.tab[n][i]) && CowEntry(m, n, i) == Ok(m')
    requires s < m.Spaces() && m.Path(q) && k < m.depth
    requires m.Walk(s, q, k).Some? && !m.At(m.Walk(s, q, k).value, q[k]).present
    ensures m'.Walk(s, q, k).Some? && !m'.At(m'.Walk(s, q, k).value, q[k]).present
  {
    hide Exact, TablesPrivate, Typed, CowTable, TableCopied;
    if RefCount(m.refs, m.zero, m.tab[n][i].page) == 1 {
      assert Similar(m, m', m.zero, m.zero);
      EntrySimilar(m, m', m.zero, m.zero, s, q, k);
    } else {
      CowTableCopies(m, held, n, i);
      CopiedSimilar(m, m', n, i, m.tab[n][i].page, Alloc(m).value.1);
      EntrySimilar(m, m', m.tab[n][i].page, Alloc(m).value.1, s, q, k);
    }
  }

  lemma {:induction false} WalkShorter(m: Memory, s: nat, q: seq<nat>, j: nat, k: nat)
    requires j < k <= |q| && m.Walk(s, q, k).Some?
    ensures m.Walk(s, q, j).Some? && m.At(m.Walk(s, q, j).value, q[j]).present
  {
    if j < k - 1 { WalkShorter(m, s, q, j, k - 1); }
  }

  lemma SlotStaysAbsent(m: Memory, held: seq<nat>, n: nat, i: nat, m': Memory, s: nat, q: seq<nat>, k: nat)
    requires Accounted(m, held) && Slot(m, n, i) && m.level[n] >= 2 && m.tab[n][i].present
    requires PrepSlot(m, n, i) == Ok(m')
    requires s < m.Spaces() && m.Path(q) && k < m.depth
    requires m.Walk(s, q, k).Some? && !m.At(m.Walk(s, q, k).value, q[k]).present
    ensures m'.Walk(s, q, k).Some? && !m'.At(m'.Walk(s, q, k).value, q[k]).present
  {
    assert EntryOk(m, m.level[n], m.tab[n][i]);
    hide Exact, TablesPrivate, LeavesPrivate, Typed, ZeroOk, RowsOk, SameReserved, CowEntry;
    if !m.tab[n][i].hw { CowStaysAbsent(m, held, n, i, m', s, q, k); }
  }

  lemma {:induction false} PrepStaysAbsent(m: Memory, held: seq<nat>, s: nat, q: seq<nat>, j: nat, k: nat, m': Memory)
    requires Accounted(m, held) && s < m.Spaces() && m.Path(q) && j <= k < m.depth && Prep(m, s, q, j) == Ok(m')
    requires m.Walk(s, q, k).Some? && !m.At(m.Walk(s, q, k).value, q[k]).present
    ensures m'.Walk(s, q, k).Some? && !m'.At(m'.Walk(s, q, k).value, q[k]).present
  {
    hide Exact, TablesPrivate, LeavesPrivate, Typed, ZeroOk, RowsOk, SameReserved, PrepSlot, SameLeaves, Open;
    if j > 0 {
      var m1 := PrepUnfold(m, s, q, j, m');
      PrepStaysAbsent(m, held, s, q, j - 1, k, m1);
      PrepTables(m, held, s, q, j - 1, m1);
      OpenWalk(m1, s, q, j - 1);
      WalkShorter(m1, s, q, j - 1, k);
      SlotStaysAbsent(m1, held, m1.Walk(s, q, j - 1).value, q[j - 1], m', s, q, k);
    }
  }

  /** Entry `k` of `q` was just paged in: everything above it is open, and it is the zero page. */
  ghost predicate Paged(m: Memory, s: nat, q: seq<nat>, k: nat)
    requires 1 <= k <= |q|
  {
    Open(m, s, q, k - 1) && m.Walk(s, q, k) == Some(m.zero)
  }

  lemma PageInEnd(m: Memory, held: seq<nat>, s: nat, q: seq<nat>, k: nat, c: nat, d: nat, m1: Memory)
    requires Accounted(m, held) && s < m.Spaces() && m.Path(q) && 1 <= k <= m.depth && Prep(m, s, q, k - 1) == Ok(m1)
    requires m.Walk(s, q, k - 1).Some? && !m.At(m.Walk(s, q, k - 1).value, q[k - 1]).present
    requires Room(m1, c, d, m.depth - k)
    ensures PageIn(m, s, q, k).Ok?
    ensures var m' := PageIn(m, s, q, k).value; Paged(m', s, q, k) && Room(m', c, d, m.depth - k) && m'.refs == m1.refs
  {
    hide Exact, TablesPrivate, LeavesPrivate, Typed, ZeroOk, RowsOk, SameReserved, Room, Prep, SameLeaves;
    PrepTables(m, held, s, q, k - 1, m1);
    PrepStaysAbsent(m, held, s, q, k - 1, k - 1, m1);
    OpenWalk(m1, s, q, k - 1);
    var n := m1.Walk(s, q, k - 1).value;
    var m' := Demand(m1, n, q[k - 1]);
    RoomSet(m1, n, q[k - 1], NewEntry(m.zero, false, true), c, d, m.depth - k);
    OpenAbove(m1, m', s, q, k - 1, m1.level[n]);
  }

  lemma PageInFirst(m: Memory, held: seq<nat>, s: nat, q: seq<nat>, k: nat, c: nat, d: nat)
    requires Accounted(m, held) && s < m.Spaces() && m.Path(q) && 1 <= k <= m.depth
    requires m.Walk(s, q, k - 1).Some? && !m.At(m.Walk(s, q, k - 1).value, q[k - 1]).present
    requires Room(m, c, d, m.depth - 1) && FreeFrames(m) >= k - 1
    ensures PageIn(m, s, q, k).Ok?
    ensures var m' := PageIn(m, s, q, k).value;
      Paged(m', s, q, k) && Room(m', c, d, m.depth - k) && FreeFrames(m') + (k - 1) >= FreeFrames(m)
  {
    hide Exact, TablesPrivate, LeavesPrivate, Typed, ZeroOk, RowsOk, SameReserved, Room, Prep, PageIn, FreeCount;
    PrepGoes(m, held, s, q, k - 1, c, d);
    PageInEnd(m, held, s, q, k, c, d, Prep(m, s, q, k - 1).value);
  }

  /** Below an open path only the last entry takes a fault. */
  lemma PrepNext(m: Memory, held: seq<nat>, s: nat, q: seq<nat>, k: nat, c: nat, d: nat)
    requires Accounted(m, held) && s < m.Spaces() && m.Path(q) && 1 <= k < m.depth && Open(m, s, q, k - 1)
    requires Room(m, c, d, m.depth - k) && FreeFrames(m) >= 1
    ensures Prep(m, s, q, k).Ok?
    ensures var m' := Prep(m, s, q, k).value; Room(m', c, d, m.depth - k - 1) && FreeFrames(m') + 1 >= FreeFrames(m)
  {
    hide Exact, TablesPrivate, LeavesPrivate, Typed, ZeroOk, RowsOk, SameReserved, Room, PrepSlot, FreeCount, Open;
    OpenIsClear(m, s, q, k - 1);
    PrepIdle(m, s, q, k - 1);
    OpenWalk(m, s, q, k - 1);
    PrepUpperGoes(m, held, m.Walk(s, q, k - 1).value, q[k - 1], c, d);
  }

  lemma ZeroAbsent(m: Memory, i: nat)
    requires Shape(m) && ZeroOk(m)
    ensures !m.At(m.zero, i).present
  {
  }

  lemma PageInNext(m: Memory, held: seq<nat>, s: nat, q: seq<nat>, k: nat, c: nat, d: nat)
    requires Accounted(m, held) && s < m.Spaces() && m.Path(q) && 2 <= k <= m.depth && Paged(m, s, q, k - 1)
    requires Room(m, c, d, m.depth - (k - 1)) && FreeFrames(m) >= 1
    ensures PageIn(m, s, q, k).Ok?
    ensures var m' := PageIn(m, s, q, k).value;
      Paged(m', s, q, k) && Room(m', c, d, m.depth - k) && FreeFrames(m') + 1 >= FreeFrames(m)
  {
    hide Exact, TablesPrivate, LeavesPrivate, Typed, ZeroOk, RowsOk, SameReserved, Room, Prep, PageIn, FreeCount, Open;
    ZeroAbsent(m, q[k - 1]);
    PrepNext(m, held, s, q, k - 1, c, d);
    PageInEnd(m, held, s, q, k, c, d, Prep(m, s, q, k - 1).value);
  }

  /** Reading through `k` entries costs a frame for each but the last, and only if something is missing. */
  lemma {:induction false} TouchGoes(m: Memory, held: seq<nat>, s: nat, q: seq<nat>, k: nat, c: nat, d: nat)
    requires Accounted(m, held) && s < m.Spaces() && m.Path(q) && k <= m.depth
    requires Room(m, c, d, m.depth - 1) && FreeFrames(m) + 1 >= k
    ensures Touch(m, s, q, k).Ok?
    ensures var m' := Touch(m, s, q, k).value;
      || m' == m
      || (k >= 1 && Paged(m', s, q, k) && Room(m', c, d, m.depth - k) && FreeFrames(m') + (k - 1) >= FreeFrames(m))
  {
    hide Exact, TablesPrivate, LeavesPrivate, Typed, RowsOk, SameReserved, Room, PageIn, FreeCount, SameLeaves, Open;
    if k > 0 {
      TouchGoes(m, held, s, q, k - 1, c, d);
      var m1 := Touch(m, s, q, k - 1).value;
      TouchTables(m, held, s, q, k - 1, m1);
      WalkTyped(m1, s, q, k - 1);
      var n := m1.Walk(s, q, k - 1).value;
      if !m1.tab[n][q[k - 1]].present {
        if m1 == m { PageInFirst(m, held, s, q, k, c, d); } else { PageInNext(m1, held, s, q, k, c, d); }
      }
    }
  }

  // ---- Edits ----

  lemma InstallGoes(m: Memory, held: seq<nat>, s: nat, q: seq<nat>, e: Entry)
    requires Accounted(m, held) && s < m.Spaces() && m.Path(q) && Room(m, 1, 0, m.depth - 1)
    requires FreeFrames(m) + 1 >= m.depth
    ensures Install(m, s, q, e).Ok?
  {
    hide Exact, TablesPrivate, LeavesPrivate, Typed, ZeroOk, RowsOk, SameReserved, Room, Prep, Replace, FreeCount;
    var k := m.depth - 1;
    PrepGoes(m, held, s, q, k, 1, 0);
    var m1 := Prep(m, s, q, k).value;
    PrepTables(m, held, s, q, k, m1);
    OpenWalk(m1, s, q, k);
    ReplaceGoes(m1, m1.Walk(s, q, k).value, q[k], e);
  }

  lemma RetainGoes(m: Memory, p: nat, c: nat, l: nat)
    requires Shape(m) && Room(m, c, 1, l)
    ensures Retain(m, p).Ok? && Room(Retain(m, p).value, c, 0, l)
    ensures FreeFrames(Retain(m, p).value) == FreeFrames(m)
  {
    hide Times, RowRefs, FreeCount, RowsOk;
    if Counted(m, p) { assert m.refs[p] + 1 < RESERVED; }
    var m' := Retain(m, p).value;
    forall f: nat | Counted(m', f) ensures m'.refs[f] < RESERVED { assert Counted(m, f); }
    forall y: nat, f: nat ensures Bears(m', c, 0, l, y, f) {
      assert Bears(m, c, 1, l, y, f);
    }
    RetainFree(m.refs, m'.refs, |m.refs|);
  }

  lemma {:induction false} RetainFree(refs: seq<nat>, refs': seq<nat>, k: nat)
    requires k <= |refs| == |refs'| && forall f: nat :: f < |refs| ==> (refs[f] == 0 <==> refs'[f] == 0)
    ensures FreeCount(refs', k) == FreeCount(refs, k)
  {
    if k > 0 { RetainFree(refs, refs', k - 1); }
  }

  lemma CopyGoes(m: Memory, held: seq<nat>, s: nat, src: seq<nat>, dst: seq<nat>)
    requires Accounted(m, held) && s < m.Spaces() && m.Path(src) && m.Path(dst)
    requires Room(m, 2, 1, m.depth - 1) && FreeFrames(m) + 3 >= 2 * m.depth
    ensures CopyPage(m, s, src, dst).Ok?
  {
    hide Exact, TablesPrivate, LeavesPrivate, Typed, ZeroOk, RowsOk, SameReserved, Room, Touch, Install, FreeCount;
    hide Retain;
    var k := m.depth - 1;
    TouchGoes(m, held, s, src, k, 2, 1);
    var m1 := Touch(m, s, src, k).value;
    TouchTables(m, held, s, src, k, m1);
    if m1 == m { RoomLess(m, 2, 1, k, 1, 1, k); } else { RoomLess(m1, 2, 1, 1, 1, 1, k); }
    var e := m1.Leaf(s, src);
    if Owns(e) {
      LeafIsReady(m1, s, src);
      RetainGoes(m1, e.page, 1, k);
      RetainAccounted(m1, held, e);
      InstallGoes(Retain(m1, e.page).value, Hold(held, e), s, dst, e);
    } else {
      RoomLess(m1, 1, 1, k, 1, 0, k);
      InstallGoes(m1, held, s, dst, e);
    }
  }

  // ---- Swap: a leaf stored in a private table does not stop the faults of another access ----

  lemma CopyTableThrough(m: Memory, n: nat, i: nat, p: nat, t: nat, j: nat, e: Entry, m': Memory)
    requires Shape(m) && Slot(m, n, i) && m.level[n] >= 2 && m.tab[n][i].page < |m.refs| && p < |m.refs|
    requires Slot(m, t, j) && t != n && t != p && t != m.tab[n][i].page && n != p && n != m.tab[n][i].page
    requires CopyTable(m, n, i, p) == Ok(m')
    ensures Slot(m', t, j) && CopyTable(SetEntry(m, t, j, e), n, i, p) == Ok(SetEntry(m', t, j, e))
  {
    hide ShareRow, RowsOk, SameReserved;
    var x := m.tab[n][i].page;
    var row := ReadOnlyRow(m.tab[x]);
    TabsCommute(m.tab, t, m.tab[t][j := e], x, row, p, row, n, m.tab[n][i := NewEntry(p, true, m.tab[n][i].user)]);
  }

  lemma CowThrough(m: Memory, held: seq<nat>, n: nat, i: nat, t: nat, j: nat, e: Entry, m': Memory)
    requires Accounted(m, held) && Slot(m, n, i) && m.level[n] >= 2 && m.tab[n][i].present
    requires Slot(m, t, j) && m.level[t] == 1 && Lone(m, t) && CowEntry(m, n, i) == Ok(m')
    ensures Slot(m', t, j) && CowEntry(SetEntry(m, t, j, e), n, i) == Ok(SetEntry(m', t, j, e))
  {
    hide Exact, LeavesPrivate, TablesPrivate, CopyTable;
    EntryOwned(m, n, i);
    assert EntryOk(m, m.level[n], m.tab[n][i]);
    var x := m.tab[n][i].page;
    if RefCount(m.refs, m.zero, x) == 1 {
      assert m.tab[t := m.tab[t][j := e]][n := m.tab[n][i := m.tab[n][i].(hw := true)]] ==
        m.tab[n := m.tab[n][i := m.tab[n][i].(hw := true)]][t := m.tab[t][j := e]];
    } else {
      var a := Alloc(m).value;
      FreeFrame(m, held, a.1);
      CopyTableThrough(a.0, n, i, a.1, t, j, e, m');
    }
  }

  lemma PrepSlotThrough(m: Memory, held: seq<nat>, n: nat, i: nat, t: nat, j: nat, e: Entry, m': Memory)
    requires Accounted(m, held) && Slot(m, n, i) && m.level[n] >= 2
    requires Slot(m, t, j) && m.level[t] == 1 && Lone(m, t) && PrepSlot(m, n, i) == Ok(m')
    ensures Slot(m', t, j) && PrepSlot(SetEntry(m, t, j, e), n, i) == Ok(SetEntry(m', t, j, e))
  {
    hide Exact, LeavesPrivate, TablesPrivate, Typed, ZeroOk, CowEntry;
    var m1 := if m.tab[n][i].present then m else Demand(m, n, i);
    if !m.tab[n][i].present {
      DemandAccounted(m, held, n, i);
      assert m.tab[t := m.tab[t][j := e]][n := m1.tab[n]] == m1.tab[t := m.tab[t][j := e]];
      assert Demand(SetEntry(m, t, j, e), n, i) == SetEntry(m1, t, j, e);
    }
    if !m1.tab[n][i].hw { CowThrough(m1, held, n, i, t, j, e, m'); }
  }

  lemma {:induction false} PrepThrough(m: Memory, held: seq<nat>, s: nat, a: seq<nat>, t: nat, e: Entry, b: seq<nat>,
                                       k: nat,
                                       m': Memory)
    requires Accounted(m, held) && s < m.Spaces() && m.Path(a) && m.Path(b) && k < m.depth
    requires Open(m, s, a, m.depth - 1) && m.Walk(s, a, m.depth - 1) == Some(t) && Slot(m, t, a[m.depth - 1])
    requires Prep(m, s, b, k) == Ok(m')
    ensures Slot(m', t, a[m.depth - 1])
    ensures Prep(SetEntry(m, t, a[m.depth - 1], e), s, b, k) == Ok(SetEntry(m', t, a[m.depth - 1], e))
  {
    hide Exact, LeavesPrivate, TablesPrivate, Typed, ZeroOk, PrepSlot, SameLeaves, SetEntry, Open;
    if k > 0 {
      var m1 := PrepUnfold(m, s, b, k, m');
      PrepThrough(m, held, s, a, t, e, b, k - 1, m1);
      PrepThroughStep(m, held, s, a, t, e, b, k, m1, m');
    }
  }

  lemma PrepThroughStep(m: Memory, held: seq<nat>, s: nat, a: seq<nat>, t: nat, e: Entry, b: seq<nat>, k: nat,
                        m1: Memory,
                        m': Memory)
    requires Accounted(m, held) && s < m.Spaces() && m.Path(a) && m.Path(b) && 0 < k < m.depth
    requires Open(m, s, a, m.depth - 1) && m.Walk(s, a, m.depth - 1) == Some(t) && Slot(m, t, a[m.depth - 1])
    requires Prep(m, s, b, k - 1) == Ok(m1) && Slot(m1, t, a[m.depth - 1]) && m1.Walk(s, b, k - 1).Some?
    requires Slot(m1, m1.Walk(s, b, k - 1).value, b[k - 1])
    requires PrepSlot(m1, m1.Walk(s, b, k - 1).value, b[k - 1]) == Ok(m')
    requires Prep(SetEntry(m, t, a[m.depth - 1], e), s, b, k - 1) == Ok(SetEntry(m1, t, a[m.depth - 1], e))
    ensures Slot(m', t, a[m.depth - 1])
    ensures Prep(SetEntry(m, t, a[m.depth - 1], e), s, b, k) == Ok(SetEntry(m', t, a[m.depth - 1], e))
  {
    hide Exact, LeavesPrivate, TablesPrivate, Typed, ZeroOk, RowsOk, SameReserved, PrepSlot, SameLeaves, Open;
    var j := a[m.depth - 1];
    PrepTables(m, held, s, b, k - 1, m1);
    PrepKeepsOpen(m, held, s, a, m.depth - 1, b, k - 1, m1);
    OpenWalk(m1, s, a, m.depth - 1);
    OpenLone(m1, held, s, a, m.depth - 1);
    LeafStoreWalk(m1, t, j, e, s, b, k - 1);
    OpenWalk(m1, s, b, k - 1);
    var n := m1.Walk(s, b, k - 1).value;
    PrepSlotThrough(m1, held, n, b[k - 1], t, j, e, m');
    PrepFold(SetEntry(m, t, j, e), s, b, k, SetEntry(m1, t, j, e), n);
  }

  lemma SwapGoes(m: Memory, held: seq<nat>, s: nat, a: seq<nat>, b: seq<nat>)
    requires Accounted(m, held) && s < m.Spaces() && m.Path(a) && m.Path(b)
    requires Room(m, 4, 0, m.depth - 1) && FreeFrames(m) + 6 >= 4 * m.depth
    ensures SwapPage(m, s, a, b).Ok?
  {
    hide Exact, TablesPrivate, LeavesPrivate, Typed, ZeroOk, RowsOk, SameReserved, Room, Touch, Prep, FreeCount;
    hide SameLeaves, Open;
    var k := m.depth - 1;
    TouchGoes(m, held, s, a, k, 4, 0);
    var m1 := Touch(m, s, a, k).value;
    TouchTables(m, held, s, a, k, m1);
    if m1 == m { RoomLess(m, 4, 0, k, 3, 0, k); } else { RoomLess(m1, 4, 0, 1, 3, 0, k); }
    TouchGoes(m1, held, s, b, k, 3, 0);
    var m2 := Touch(m1, s, b, k).value;
    TouchTables(m1, held, s, b, k, m2);
    if m2 == m1 { RoomLess(m1, 3, 0, k, 2, 0, k); } else { RoomLess(m2, 3, 0, 1, 2, 0, k); }
    PokesGo(m2, held, s, a, b, m2.Leaf(s, b), m1.Leaf(s, a));
  }

  lemma PokesGo(m: Memory, held: seq<nat>, s: nat, a: seq<nat>, b: seq<nat>, eb: Entry, ea: Entry)
    requires Accounted(m, held) && s < m.Spaces() && m.Path(a) && m.Path(b)
    requires Room(m, 2, 0, m.depth - 1) && FreeFrames(m) + 2 >= 2 * m.depth
    ensures Poke(m, s, a, eb).Ok? && Poke(Poke(m, s, a, eb).value, s, b, ea).Ok?
  {
    hide Exact, TablesPrivate, LeavesPrivate, Typed, ZeroOk, RowsOk, SameReserved, Room, Prep, FreeCount, SameLeaves;
    hide Open;
    var k := m.depth - 1;
    PrepGoes(m, held, s, a, k, 2, 0);
    var m1 := Prep(m, s, a, k).value;
    PrepTables(m, held, s, a, k, m1);
    OpenWalk(m1, s, a, k);
    var t := m1.Walk(s, a, k).value;
    RoomLess(m1, 2, 0, 0, 1, 0, k);
    PrepGoes(m1, held, s, b, k, 1, 0);
    var m2 := Prep(m1, s, b, k).value;
    PrepTables(m1, held, s, b, k, m2);
    PrepThrough(m1, held, s, a, t, eb, b, k, m2);
    OpenWalk(m2, s, b, k);
    PrepKeepsOpen(m1, held, s, a, k, b, k, m2);
    OpenWalk(m2, s, a, k);
    LeafStoreWalk(m2, t, a[k], eb, s, b, k);
  }

  // ---- Load ----

  lemma LoadGoes(m: Memory, held: seq<nat>, s: nat, q: seq<nat>)
    requires Accounted(m, held) && s < m.Spaces() && m.Path(q)
    requires Room(m, 1, 0, m.depth - 1) && FreeFrames(m) + 1 >= m.depth
    ensures Load(m, s, q).Ok?
  {
    hide Exact, TablesPrivate, LeavesPrivate, Typed, ZeroOk, RowsOk, Room, Touch, FreeCount;
    var e := m.Leaf(s, q);
    TouchGoes(m, held, s, q, if !e.present && e.cacheDisable then m.depth - 1 else m.depth, 1, 0);
  }
}
