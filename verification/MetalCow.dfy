/** Copy-on-write keeps the counts exact: sharing a whole table costs one reference per entry,
    and the copy's own references pay for it. */
module MetalCow {
  import opened PhysMm
  import opened ArchContract
  import opened MetalMemory
  import opened MetalOps
  import opened MetalCounts
  import opened MetalAccounting

  /** A free frame is nobody's, and is not in use as a table. */
  lemma FreeFrame(m: Memory, held: seq<nat>, p: nat)
    requires Accounted(m, held) && p < |m.refs| && m.refs[p] == 0
    ensures held[p] == 0 && Owners(m, p) == 0 && Unowned(m, p) && m.level[p] == 0
  {
    assert Owners(m, p) == 0;
    NoOwners(m, p);
  }

  /** A fresh frame arrives with one reference, the allocator's. */
  lemma AllocAccounted(m: Memory, held: seq<nat>, e: Entry)
    requires Accounted(m, held)
    requires Alloc(m).Ok? && Owns(e) && e.page == Alloc(m).value.1
    ensures Accounted(Alloc(m).value.0, Hold(held, e))
    ensures Unowned(Alloc(m).value.0, e.page)
  {
    var p := e.page;
    var m' := Alloc(m).value.0;
    FreeFrame(m, held, p);
    forall f: nat | Counted(m', f) ensures m'.refs[f] == Hold(held, e)[f] + Owners(m', f) {
      assert Counted(m, f) && Owners(m, f) <= m.refs[f];
    }
    forall n, i | 0 <= n < |m.tab| && m.level[n] > 0 && 0 <= i < |m.tab[n]|
      ensures EntryOk(m', m.level[n], m.tab[n][i]) && PrivateOk(m', n, m.tab[n][i])
    {
      assert EntryOk(m, m.level[n], m.tab[n][i]) && PrivateOk(m, n, m.tab[n][i]);
    }
  }

  /** `retain_mapping` on a leaf entry: one more reference, in the kernel's hands. */
  lemma RetainAccounted(m: Memory, held: seq<nat>, e: Entry)
    requires Accounted(m, held) && Owns(e) && EntryOk(m, 1, e)
    requires Retain(m, e.page).Ok?
    ensures Accounted(Retain(m, e.page).value, Hold(held, e))
  {
    var m' := Retain(m, e.page).value;
    forall f: nat | Counted(m', f) ensures m'.refs[f] == Hold(held, e)[f] + Owners(m', f) {
      assert Counted(m, f) && Owners(m, f) <= m.refs[f];
    }
    forall n, i | 0 <= n < |m.tab| && m.level[n] > 0 && 0 <= i < |m.tab[n]|
      ensures EntryOk(m', m.level[n], m.tab[n][i]) && PrivateOk(m', n, m.tab[n][i])
    {
      assert EntryOk(m, m.level[n], m.tab[n][i]) && PrivateOk(m, n, m.tab[n][i]);
    }
  }

  /** `x` can be shared as a level-`l` table: it is one, or it is the zero page. */
  ghost predicate Table(m: Memory, x: nat, l: nat)
    requires Shape(m)
  {
    x < |m.refs| && 1 <= l < m.depth && (x == m.zero || m.level[x] == l)
  }

  lemma ShareIntoOwners(m: Memory, x: nat, p: nat, l: nat, refs: seq<nat>, f: nat)
    requires Shape(m) && x < |m.refs| && p < |m.refs| && x != p && m.level[p] == 0 && 1 <= l < m.depth
    requires |refs| == |m.refs| && forall f :: 0 <= f < |refs| ==>
      refs[f] <= RESERVED && (refs[f] == RESERVED <==> m.refs[f] == RESERVED)
    ensures Owners(ShareInto(m, x, p, l, refs), f) == Owners(m, f) + RowRefs(m.tab[x], f, |m.tab[x]|)
  {
    var row := ReadOnlyRow(m.tab[x]);
    RowRefsReadOnly(m.tab[x], f, |m.tab[x]|);
    OwnersRow(m.tab, m.level, x, row, f, |m.tab|);
    OwnersRow(m.tab[x := row], m.level, p, row, f, |m.tab|);
    OwnersLevel(m.tab[x := row][p := row], m.level, p, l, f, |m.tab|);
  }

  /** Only frames the row owns gain references, and those are live frames one level down. */
  lemma RowTyped(m: Memory, x: nat, l: nat, f: nat)
    requires Shape(m) && ZeroOk(m) && Typed(m) && Table(m, x, l)
    requires RowRefs(m.tab[x], f, |m.tab[x]|) > 0
    ensures x != m.zero && f < |m.refs| && exists j :: 0 <= j < |m.tab[x]| && Owns(m.tab[x][j]) && m.tab[x][j].page == f
    ensures Counted(m, f) ==> m.refs[f] >= 1 && m.level[f] == l - 1
  {
    var j := RowRefsSome(m.tab[x], f, |m.tab[x]|);
    assert EntryOk(m, m.level[x], m.tab[x][j]);
  }

  lemma ShareIntoExact(m: Memory, held: seq<nat>, x: nat, p: nat, l: nat)
    requires Shape(m) && ZeroOk(m) && Typed(m) && Exact(m, held)
    requires Table(m, x, l) && p < |m.refs| && p != x && m.level[p] == 0
    requires ShareRow(m.refs, m.zero, m.tab[x], |m.tab[x]|).Ok?
    ensures Exact(ShareInto(m, x, p, l, ShareRow(m.refs, m.zero, m.tab[x], |m.tab[x]|).value), held)
  {
    var row := m.tab[x];
    var refs := ShareRow(m.refs, m.zero, row, |row|).value;
    var m' := ShareInto(m, x, p, l, refs);
    ShareRowCounts(m.refs, m.zero, row, |row|);
    forall f: nat | Counted(m', f) ensures m'.refs[f] == held[f] + Owners(m', f) {
      ShareIntoOwners(m, x, p, l, refs, f);
      if RowRefs(row, f, |row|) > 0 { RowTyped(m, x, l, f); }
      assert Counted(m, f) && Owners(m, f) <= m.refs[f];
    }
  }

  /** Counts have not fallen, and the same frames are reserved. */
  ghost predicate Grown(refs: seq<nat>, refs': seq<nat>) {
    && |refs'| == |refs|
    && forall f :: 0 <= f < |refs| ==>
         refs[f] <= refs'[f] <= RESERVED && (refs'[f] == RESERVED <==> refs[f] == RESERVED)
  }

  lemma ShareIntoEntry(m: Memory, x: nat, p: nat, l: nat, refs: seq<nat>, n: nat, i: nat)
    requires Shape(m) && ZeroOk(m) && Typed(m) && Grown(m.refs, refs)
    requires Table(m, x, l) && Counted(m, p) && p != x && m.refs[p] >= 1 && m.level[p] == 0 && Unowned(m, p)
    requires n < |m.tab| && i < |m.tab[n]| && ShareInto(m, x, p, l, refs).level[n] > 0
    ensures var m' := ShareInto(m, x, p, l, refs); EntryOk(m', m'.level[n], m'.tab[n][i])
  {
    var m' := ShareInto(m, x, p, l, refs);
    var n0 := if n == p then x else n;
    if n0 == m.zero {
      assert m'.tab[n][i] == ABSENT;
    } else {
      assert EntryOk(m, m.level[n0], m.tab[n0][i]);
    }
  }

  lemma ShareIntoTyped(m: Memory, x: nat, p: nat, l: nat)
    requires Shape(m) && ZeroOk(m) && Typed(m)
    requires Table(m, x, l) && Counted(m, p) && p != x && m.refs[p] >= 1 && m.level[p] == 0 && Unowned(m, p)
    requires ShareRow(m.refs, m.zero, m.tab[x], |m.tab[x]|).Ok?
    ensures Typed(ShareInto(m, x, p, l, ShareRow(m.refs, m.zero, m.tab[x], |m.tab[x]|).value))
    ensures ZeroOk(ShareInto(m, x, p, l, ShareRow(m.refs, m.zero, m.tab[x], |m.tab[x]|).value))
  {
    hide ShareRow, EntryOk;
    var row := m.tab[x];
    var refs := ShareRow(m.refs, m.zero, row, |row|).value;
    ShareRowGrows(m.refs, m.zero, row, |row|);
    var m' := ShareInto(m, x, p, l, refs);
    forall n: nat, i: nat | n < |m'.tab| && m'.level[n] > 0 && i < |m'.tab[n]|
      ensures EntryOk(m', m'.level[n], m'.tab[n][i])
    {
      ShareIntoEntry(m, x, p, l, refs, n, i);
    }
  }

  lemma ShareIntoPrivate(m: Memory, held: seq<nat>, x: nat, p: nat, l: nat)
    requires Accounted(m, held)
    requires Table(m, x, l) && p < |m.refs| && p != x && m.level[p] == 0
    requires ShareRow(m.refs, m.zero, m.tab[x], |m.tab[x]|).Ok?
    ensures TablesPrivate(ShareInto(m, x, p, l, ShareRow(m.refs, m.zero, m.tab[x], |m.tab[x]|).value))
  {
    hide ShareRow, RowRefs;
    var row := m.tab[x];
    var refs := ShareRow(m.refs, m.zero, row, |row|).value;
    var m' := ShareInto(m, x, p, l, refs);
    ShareRowCounts(m.refs, m.zero, row, |row|);
    forall n: nat, i: nat | n < |m'.tab| && m'.level[n] > 0 && i < |m'.tab[n]|
      ensures PrivateOk(m', n, m'.tab[n][i])
    {
      if n != p && n != x {
        var f := m.tab[n][i].page;
        assert EntryOk(m, m.level[n], m.tab[n][i]) && PrivateOk(m, n, m.tab[n][i]);
        if RowRefs(row, f, |row|) > 0 && f < |m.refs| && f != m.zero && m.refs[f] == 1 && Owns(m.tab[n][i]) {
          RowTyped(m, x, l, f);
          var j :| 0 <= j < |row| && Owns(row[j]) && row[j].page == f;
          SoleOwner(m, held, n, i, x, j, f);
        }
      }
    }
  }

  lemma ShareIntoAccounted(m: Memory, held: seq<nat>, x: nat, p: nat, l: nat)
    requires Accounted(m, held)
    requires Table(m, x, l) && Counted(m, p) && p != x && m.refs[p] >= 1 && m.level[p] == 0 && Unowned(m, p)
    requires ShareRow(m.refs, m.zero, m.tab[x], |m.tab[x]|).Ok?
    ensures Accounted(ShareInto(m, x, p, l, ShareRow(m.refs, m.zero, m.tab[x], |m.tab[x]|).value), held)
  {
    ShareIntoExact(m, held, x, p, l);
    ShareIntoTyped(m, x, p, l);
    ShareIntoPrivate(m, held, x, p, l);
  }

  lemma CowTableAccounted(m: Memory, held: seq<nat>, n: nat, i: nat)
    requires Accounted(m, held) && Slot(m, n, i) && m.level[n] >= 2 && Owns(m.tab[n][i])
    requires RefCount(m.refs, m.zero, m.tab[n][i].page) != 1
    requires CowTable(m, n, i).Ok?
    ensures Accounted(CowTable(m, n, i).value, held)
  {
    var e := m.tab[n][i];
    var p := Alloc(m).value.1;
    var copy := NewEntry(p, true, e.user);
    FreeFrame(m, held, p);
    AllocAccounted(m, held, copy);
    assert EntryOk(m, m.level[n], e);
    CopyTableAccounted(Alloc(m).value.0, held, n, i, copy);
  }

  lemma ShareIntoFits(m: Memory, n: nat, i: nat, copy: Entry)
    requires Shape(m) && ZeroOk(m) && Typed(m) && Slot(m, n, i) && m.level[n] >= 2
    requires var e := m.tab[n][i];
      Owns(e) && e.page < |m.refs| && (Counted(m, e.page) ==> m.refs[e.page] >= 2) &&
        copy == NewEntry(copy.page, true, e.user)
    requires Counted(m, copy.page) && m.refs[copy.page] == 1 && m.level[copy.page] == 0 && Unowned(m, copy.page)
    requires ShareRow(m.refs, m.zero, m.tab[m.tab[n][i].page], |m.tab[m.tab[n][i].page]|).Ok?
    ensures var e := m.tab[n][i];
      var m' := ShareInto(m, e.page, copy.page, m.level[n] - 1,
        ShareRow(m.refs, m.zero, m.tab[e.page], |m.tab[e.page]|).value);
      m'.tab[n][i] == e && Fits(m', n, copy) && (Counted(m', e.page) ==> m'.refs[e.page] >= 2)
    ensures Table(m, m.tab[n][i].page, m.level[n] - 1) && copy.page != m.tab[n][i].page
  {
    var e := m.tab[n][i];
    var l := m.level[n] - 1;
    assert EntryOk(m, m.level[n], e);
    var row := m.tab[e.page];
    ShareRowCounts(m.refs, m.zero, row, |row|);
    if RowRefs(row, copy.page, |row|) > 0 { RowTyped(m, e.page, l, copy.page); }
  }

  lemma CopyTableAccounted(m: Memory, held: seq<nat>, n: nat, i: nat, copy: Entry)
    requires |held| == |m.refs| && Accounted(m, Hold(held, copy)) && Slot(m, n, i) && m.level[n] >= 2
    requires var e := m.tab[n][i];
      Owns(e) && e.page < |m.refs| && (Counted(m, e.page) ==> m.refs[e.page] >= 2) &&
        copy == NewEntry(copy.page, true, e.user)
    requires Counted(m, copy.page) && m.refs[copy.page] == 1 && m.level[copy.page] == 0 && Unowned(m, copy.page)
    requires CopyTable(m, n, i, copy.page).Ok?
    ensures Accounted(CopyTable(m, n, i, copy.page).value, held)
  {
    hide Exact, TablesPrivate, Typed, ZeroOk, ShareRow, EntryOk, Unowned, Fits;
    var e := m.tab[n][i];
    var row := m.tab[e.page];
    ShareIntoFits(m, n, i, copy);
    ShareIntoAccounted(m, Hold(held, copy), e.page, copy.page, m.level[n] - 1);
    CowTableInstall(ShareInto(m, e.page, copy.page, m.level[n] - 1, ShareRow(m.refs, m.zero, row, |row|).value), held,
      n, i, copy, e);
  }

  /** The last two steps: point the slot at the copy, drop the reference on the original. */
  lemma CowTableInstall(m: Memory, held: seq<nat>, n: nat, i: nat, copy: Entry, e: Entry)
    requires |held| == |m.refs| && Accounted(m, Hold(held, copy)) && Slot(m, n, i) && Fits(m, n, copy)
    requires m.tab[n][i] == e && Owns(e) && e.page < |m.refs| && (Counted(m, e.page) ==> m.refs[e.page] >= 2)
    requires Release(SetEntry(m, n, i, copy), e.page).Ok?
    ensures Accounted(Release(SetEntry(m, n, i, copy), e.page).value, held)
  {
    SetEntryAccounted(m, held, n, i, copy);
    ReleaseShared(SetEntry(m, n, i, copy), held, e);
  }

  lemma CowLeafAccounted(m: Memory, held: seq<nat>, n: nat, i: nat)
    requires Accounted(m, held) && Slot(m, n, i) && m.level[n] == 1 && m.tab[n][i].present
    requires CowLeaf(m, n, i).Ok?
    ensures Accounted(CowLeaf(m, n, i).value, held)
  {
    var e := m.tab[n][i];
    var p := Alloc(m).value.1;
    var copy := NewEntry(p, true, e.user);
    FreeFrame(m, held, p);
    AllocAccounted(m, held, copy);
    var m1 := Alloc(m).value.0.(dat := m.dat[p := m.dat[e.page]]);
    DataAccounted(Alloc(m).value.0, Hold(held, copy), p, m.dat[e.page]);
    ReplaceAccounted(m1, held, n, i, copy);
  }

  /** Writing a frame other than the zero page does not touch the accounts. */
  lemma DataAccounted(m: Memory, held: seq<nat>, p: nat, v: Bytes)
    requires Accounted(m, held) && p < |m.refs| && p != m.zero && |v| == PAGE_SIZE
    ensures Accounted(m.(dat := m.dat[p := v]), held)
  {
    var m' := m.(dat := m.dat[p := v]);
    forall n, i | 0 <= n < |m.tab| && m.level[n] > 0 && 0 <= i < |m.tab[n]|
      ensures EntryOk(m', m.level[n], m.tab[n][i]) && PrivateOk(m', n, m.tab[n][i])
    {
      assert EntryOk(m, m.level[n], m.tab[n][i]) && PrivateOk(m, n, m.tab[n][i]);
    }
    forall f: nat | Counted(m', f) ensures m'.refs[f] == held[f] + Owners(m', f) {
      assert Counted(m, f) && Owners(m, f) <= m.refs[f];
    }
  }

  /** A sole owner regains the write bit. */
  lemma SetWritableAccounted(m: Memory, held: seq<nat>, n: nat, i: nat)
    requires Accounted(m, held) && Slot(m, n, i) && m.level[n] > 0 && Owns(m.tab[n][i])
    requires RefCount(m.refs, m.zero, m.tab[n][i].page) == 1 && !m.tab[n][i].softRo
    ensures Accounted(SetEntry(m, n, i, m.tab[n][i].(hw := true)), held)
  {
    var e := m.tab[n][i];
    var e' := e.(hw := true);
    assert EntryOk(m, m.level[n], e);
    var m' := SetEntry(m, n, i, e');
    SetEntryTyped(m, n, i, e');
    SetEntryPrivate(m, n, i, e');
    forall f: nat | Counted(m', f) ensures m'.refs[f] == held[f] + Owners(m', f) {
      OwnersSetEntry(m, n, i, e', f);
      assert Counted(m, f) && Owners(m, f) <= m.refs[f];
    }
  }

  lemma DemandAccounted(m: Memory, held: seq<nat>, n: nat, i: nat)
    requires Accounted(m, held) && Slot(m, n, i) && m.level[n] > 0 && !m.tab[n][i].present
    ensures Accounted(Demand(m, n, i), held)
  {
    var e := NewEntry(m.zero, false, true);
    var m' := Demand(m, n, i);
    SetEntryTyped(m, n, i, e);
    SetEntryPrivate(m, n, i, e);
    forall f: nat | Counted(m', f) ensures m'.refs[f] == held[f] + Owners(m', f) {
      OwnersSetEntry(m, n, i, e, f);
      assert Counted(m, f) && Owners(m, f) <= m.refs[f];
    }
  }

  lemma CowEntryAccounted(m: Memory, held: seq<nat>, n: nat, i: nat)
    requires Accounted(m, held) && Slot(m, n, i) && m.level[n] > 0 && Owns(m.tab[n][i])
    requires CowEntry(m, n, i).Ok? && !m.tab[n][i].softRo
    ensures Accounted(CowEntry(m, n, i).value, held)
  {
    if RefCount(m.refs, m.zero, m.tab[n][i].page) == 1 { SetWritableAccounted(m, held, n, i); }
    else if m.level[n] >= 2 { CowTableAccounted(m, held, n, i); }
    else { CowLeafAccounted(m, held, n, i); }
  }
}
