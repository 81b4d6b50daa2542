/** What the faults on the way to a table cost: free frames, and room in the counts of shared frames. */
module MetalRoom {
  import opened PhysMm
  import opened MetalMemory
  import opened MetalOps
  import opened MetalCounts
  import opened MetalCow
  import opened MetalViews
  import opened MetalFaults

  // ---- Free frames ----

  /** Free frames among the first `k`. */
  function FreeCount(refs: seq<nat>, k: nat): nat
    requires k <= |refs|
  {
    if k == 0 then 0 else FreeCount(refs, k - 1) + if k - 1 >= FIRST_PAGE && refs[k - 1] == 0 then 1 else 0
  }

  function FreeFrames(m: Memory): nat {
    FreeCount(m.refs, |m.refs|)
  }

  lemma {:induction false} FreeSome(refs: seq<nat>, k: nat)
    requires k <= |refs| && FreeCount(refs, k) > 0
    ensures exists p: nat :: FIRST_PAGE <= p < k && refs[p] == 0
  {
    if !(k - 1 >= FIRST_PAGE && refs[k - 1] == 0) { FreeSome(refs, k - 1); }
  }

  /** Taking one frame costs one; a frame that stays free still counts. */
  lemma {:induction false} FreeLess(refs: seq<nat>, refs': seq<nat>, p: nat, k: nat)
    requires k <= |refs| == |refs'|
    requires forall f: nat :: f < |refs| && f != p && refs[f] == 0 ==> refs'[f] == 0
    ensures FreeCount(refs', k) + (if p < k then 1 else 0) >= FreeCount(refs, k)
  {
    if k > 0 { FreeLess(refs, refs', p, k - 1); }
  }

  lemma AllocGoes(m: Memory)
    requires Shape(m) && FreeFrames(m) >= 1
    ensures Alloc(m).Ok?
  {
    FreeSome(m.refs, |m.refs|);
  }

  // ---- Room in the counts ----

  /** Sharing a row goes through if no frame it owns would reach 255. */
  lemma {:induction false} ShareRowGoes(refs: seq<nat>, zero: nat, row: seq<Entry>, k: nat)
    requires k <= |row| && forall p :: 0 <= p < |refs| ==> refs[p] <= RESERVED
    requires forall p: nat {:trigger RowRefs(row, p, k)} ::
      p < |refs| && p != zero && refs[p] != 0 && refs[p] != RESERVED ==> refs[p] + RowRefs(row, p, k) < RESERVED
    ensures ShareRow(refs, zero, row, k).Ok?
  {
    if k > 0 {
      forall p: nat | p < |refs| && p != zero && refs[p] != 0 && refs[p] != RESERVED
        ensures refs[p] + RowRefs(row, p, k - 1) < RESERVED
      {
        assert refs[p] + RowRefs(row, p, k) < RESERVED;
      }
      ShareRowGoes(refs, zero, row, k - 1);
      ShareRowCounts(refs, zero, row, k - 1);
      var f := row[k - 1].page;
      if Owns(row[k - 1]) && f < |refs| && f != zero && refs[f] != 0 && refs[f] != RESERVED {
        assert refs[f] + RowRefs(row, f, k) < RESERVED;
      }
    }
  }

  function Refs(m: Memory, y: nat, f: nat): nat
    requires y < |m.tab|
  {
    RowRefs(m.tab[y], f, |m.tab[y]|)
  }

  function Times(c: nat, r: nat): nat { c * r }

  /** How often a table of this level may still be shared. */
  function Shares(c: nat, level: nat, l: nat): nat
    requires c >= 1
  {
    if level <= l then c else c - 1
  }

  /** Frame `f` stays below 255 with `d` more references, table `y` being shared as often as that. */
  predicate Bears(m: Memory, c: nat, d: nat, l: nat, y: nat, f: nat)
    requires c >= 1 && |m.tab| == |m.level|
  {
    y < |m.tab| && m.level[y] > 0 && Counted(m, f) ==>
      m.refs[f] + d + Times(Shares(c, m.level[y], l), Refs(m, y, f)) < RESERVED
  }

  /** No frame reaches 255 if it gets `d` references, and each table of level `l` or less is
      shared `c` times, each other table once less. */
  ghost predicate Room(m: Memory, c: nat, d: nat, l: nat)
    requires |m.tab| == |m.level|
  {
    && c >= 1 && c + d < RESERVED
    && (forall f: nat {:trigger Counted(m, f)} :: Counted(m, f) ==> m.refs[f] + d < RESERVED)
    && (forall y: nat, f: nat {:trigger Bears(m, c, d, l, y, f)} :: Bears(m, c, d, l, y, f))
  }

  lemma TimesMax(c: nat, a: nat, b: nat)
    requires c >= 1
    ensures a + Times(c - 1, b) <= Times(c, if a <= b then b else a)
    ensures Times(c, a) == a + Times(c - 1, a) && Times(0, a) == 0 && Times(1, a) == a
    ensures Times(c, 0) == 0 && Times(c - 1, 0) == 0
  {
    if a > b { assert (c - 1) * b <= (c - 1) * a; }
  }

  lemma TimesLess(c: nat, c': nat, a: nat, b: nat)
    requires c' <= c && b <= a
    ensures Times(c', b) <= Times(c, a)
  {
    assert c' * b <= c * b <= c * a;
  }

  // ---- Copying a table ----

  lemma CowTableGoes(m: Memory, held: seq<nat>, n: nat, i: nat, c: nat, d: nat, l: nat)
    requires Accounted(m, held) && Slot(m, n, i) && m.level[n] >= 2 && Owns(m.tab[n][i])
    requires RefCount(m.refs, m.zero, m.tab[n][i].page) != 1 && FreeFrames(m) >= 1 && Room(m, c, d, l)
    requires l == m.level[n] - 1
    ensures CowTable(m, n, i).Ok?
  {
    hide Exact, TablesPrivate, RowRefs, ShareRow, FreeCount, NextFit;
    var e := m.tab[n][i];
    var x := e.page;
    assert EntryOk(m, m.level[n], e);
    AllocGoes(m);
    var p := Alloc(m).value.1;
    FreeFrame(m, held, p);
    var m1 := Alloc(m).value.0;
    var row := m.tab[x];
    forall f: nat | f < |m.refs| && f != m.zero && m1.refs[f] != 0 && m1.refs[f] != RESERVED
      ensures m1.refs[f] + RowRefs(row, f, |row|) < RESERVED
    {
      if RowRefs(row, f, |row|) > 0 {
        RowTyped(m, x, m.level[n] - 1, f);
        assert Bears(m, c, d, l, x, f);
        TimesMax(c, Refs(m, x, f), Refs(m, x, f));
      }
    }
    ShareRowGoes(m1.refs, m.zero, row, |row|);
    ShareRowGrows(m1.refs, m.zero, row, |row|);
  }

  /** The counts after a table was copied. */
  lemma CowTableRefs(m: Memory, held: seq<nat>, n: nat, i: nat, f: nat)
    requires Accounted(m, held) && Slot(m, n, i) && m.level[n] >= 2 && Owns(m.tab[n][i])
    requires RefCount(m.refs, m.zero, m.tab[n][i].page) != 1 && CowTable(m, n, i).Ok? && f < |m.refs|
    ensures m.tab[n][i].page < |m.tab| && Alloc(m).Ok?
    ensures var m', p := CowTable(m, n, i).value, Alloc(m).value.1;
      && (f == p ==> m'.refs[f] == 1)
      && (f != p && m.refs[f] == 0 ==> m'.refs[f] == 0)
      && (f != p && Counted(m, f) ==> m'.refs[f] <= m.refs[f] + Refs(m, m.tab[n][i].page, f))
  {
    hide Exact, TablesPrivate, RowRefs, ShareRow;
    var e := m.tab[n][i];
    var x := e.page;
    assert EntryOk(m, m.level[n], e);
    var p := Alloc(m).value.1;
    FreeFrame(m, held, p);
    var m1 := Alloc(m).value.0;
    ShareRowCounts(m1.refs, m.zero, m.tab[x], |m.tab[x]|);
    if RowRefs(m.tab[x], p, |m.tab[x]|) > 0 { RowTyped(m, x, m.level[n] - 1, p); }
  }

  lemma CowTableFrees(m: Memory, held: seq<nat>, n: nat, i: nat)
    requires Accounted(m, held) && Slot(m, n, i) && m.level[n] >= 2 && Owns(m.tab[n][i])
    requires RefCount(m.refs, m.zero, m.tab[n][i].page) != 1 && CowTable(m, n, i).Ok?
    ensures FreeFrames(CowTable(m, n, i).value) + 1 >= FreeFrames(m)
  {
    hide Exact, Typed, ZeroOk, TablesPrivate, RowsOk, CowTable, RowRefs, FreeCount;
    var m' := CowTable(m, n, i).value;
    CowTableRefs(m, held, n, i, 0);
    var p := Alloc(m).value.1;
    forall f: nat | f < |m.refs| && f != p && m.refs[f] == 0 ensures m'.refs[f] == 0 { CowTableRefs(m, held, n, i, f); }
    FreeLess(m.refs, m'.refs, p, |m.refs|);
  }

  /** What a table owns is one level down. */
  lemma RefsTyped(m: Memory, y: nat, f: nat)
    requires Shape(m) && Typed(m) && y < |m.tab| && m.level[y] > 0 && Counted(m, f) && Refs(m, y, f) > 0
    ensures m.level[f] == m.level[y] - 1
  {
    var j := RowRefsSome(m.tab[y], f, |m.tab[y]|);
    assert EntryOk(m, m.level[y], m.tab[y][j]);
  }

  /** The rows after a table was copied. */
  lemma CopiedRefs(m: Memory, m': Memory, n: nat, i: nat, x: nat, p: nat, y: nat, f: nat)
    requires Shape(m) && Slot(m, n, i) && TableCopied(m, m', n, i, x, p) && y < |m.tab|
    ensures y == n ==> Refs(m', y, f) <= Refs(m, y, f) + if f == p then 1 else 0
    ensures y == x || y == p ==> Refs(m', y, f) == Refs(m, x, f)
    ensures y != n && y != x && y != p ==> Refs(m', y, f) == Refs(m, y, f)
  {
    hide RowsOk, SameReserved, RowRefs;
    if y == n { RowRefsUpdate(m.tab[n], i, NewEntry(p, true, m.tab[n][i].user), f, |m.tab[n]|); }
    if y == x || y == p { RowRefsReadOnly(m.tab[x], f, |m.tab[x]|); }
  }

  /** Nobody owns a free frame. */
  lemma FreeRefs(m: Memory, held: seq<nat>, y: nat, p: nat)
    requires Accounted(m, held) && p < |m.refs| && m.refs[p] == 0 && y < |m.tab| && (m.level[y] > 0 || y == m.zero)
    ensures Refs(m, y, p) == 0
  {
    hide Exact, TablesPrivate;
    FreeFrame(m, held, p);
    if Refs(m, y, p) > 0 {
      var j := RowRefsSome(m.tab[y], p, |m.tab[y]|);
      assert false;
    }
  }

  lemma CopiedShape(m: Memory, m': Memory, n: nat, i: nat, x: nat, p: nat)
    requires Shape(m) && Slot(m, n, i) && TableCopied(m, m', n, i, x, p)
    ensures SameShape(m, m') && p != n && x != n && p != x && p != m.zero && p < |m.refs| && x < |m.refs|
    ensures m.level[p] == 0 && m.level[n] >= 2 && m'.level == m.level[p := m.level[n] - 1]
    ensures x == m.zero || m.level[x] == m.level[n] - 1
  {
    hide RowsOk;
  }

  lemma ZeroRefs(m: Memory, f: nat)
    requires Shape(m) && ZeroOk(m)
    ensures Refs(m, m.zero, f) == 0
  {
    RowRefsNone(m.tab[m.zero], f, |m.tab[m.zero]|);
  }

  /** A shared table leaves its frames room, however often another table of its level is shared. */
  lemma SharedRoom(m: Memory, x: nat, c: nat, d: nat, l: nat, y: nat, f: nat)
    requires Shape(m) && ZeroOk(m) && Room(m, c, d, l) && Counted(m, f) && x < |m.tab|
    requires (x == m.zero || 0 < m.level[x] <= l)
    requires y < |m.tab| && (y == m.zero || 0 < m.level[y] <= l)
    ensures m.refs[f] + Refs(m, x, f) + d + Times(c - 1, Refs(m, y, f)) < RESERVED
  {
    hide RowRefs, RowsOk, Times, Refs;
    ZeroRefs(m, f);
    TimesMax(c, Refs(m, x, f), Refs(m, y, f));
    TimesMax(c, 0, 0);
    assert Bears(m, c, d, l, x, f) && Bears(m, c, d, l, y, f);
  }

  /** What copying a table leaves for frame `f`: the sharing of tables of its level was used once. */
  lemma CopiedOld(m: Memory, held: seq<nat>, m': Memory, n: nat, i: nat, x: nat, p: nat, c: nat, d: nat, y: nat, f: nat)
    requires Accounted(m, held) && Slot(m, n, i) && TableCopied(m, m', n, i, x, p) && Room(m, c, d, m.level[n] - 1)
    requires f != p && Counted(m, f) && m'.refs[f] <= m.refs[f] + Refs(m, x, f) && y < |m.tab| && m'.level[y] > 0
    ensures m'.refs[f] + d + Times(Shares(c, m'.level[y], m.level[n] - 2), Refs(m', y, f)) < RESERVED
  {
    hide Exact, TablesPrivate, RowRefs, RowsOk, TableCopied, Times, Refs, Typed;
    CopiedShape(m, m', n, i, x, p);
    CopiedRefs(m, m', n, i, x, p, y, f);
    var l := m.level[n] - 1;
    SharedRoom(m, x, c, d, l, x, f);
    TimesMax(c, 0, 0);
    if Refs(m, x, f) > 0 && x != m.zero { RefsTyped(m, x, f); }
    ZeroRefs(m, f);
    if y == n {
      if Refs(m, n, f) > 0 { RefsTyped(m, n, f); }
      assert Bears(m, c, d, l, n, f);
      TimesLess(c - 1, c - 1, Refs(m, n, f), Refs(m', n, f));
    } else if y == x || y == p {
    } else if m.level[y] == l {
      SharedRoom(m, x, c, d, l, y, f);
    } else {
      if Refs(m, y, f) > 0 { RefsTyped(m, y, f); }
      assert Bears(m, c, d, l, y, f);
    }
  }

  lemma CopiedFresh(m: Memory, held: seq<nat>, m': Memory, n: nat, i: nat, x: nat, p: nat, c: nat, d: nat, y: nat)
    requires Accounted(m, held) && Slot(m, n, i) && TableCopied(m, m', n, i, x, p) && Room(m, c, d, m.level[n] - 1)
    requires m.refs[p] == 0 && m'.refs[p] == 1 && y < |m.tab| && m'.level[y] > 0
    ensures m'.refs[p] + d + Times(Shares(c, m'.level[y], m.level[n] - 2), Refs(m', y, p)) < RESERVED
  {
    hide Exact, TablesPrivate, RowRefs, RowsOk, TableCopied, Refs, Typed;
    CopiedShape(m, m', n, i, x, p);
    CopiedRefs(m, m', n, i, x, p, y, p);
    FreeRefs(m, held, if y == p then x else y, p);
    FreeRefs(m, held, x, p);
    if y == n { TimesLess(c - 1, c - 1, 1, Refs(m', n, p)); }
  }

  lemma CowTableRoom(m: Memory, held: seq<nat>, n: nat, i: nat, c: nat, d: nat)
    requires Accounted(m, held) && Slot(m, n, i) && m.level[n] >= 2 && Owns(m.tab[n][i])
    requires RefCount(m.refs, m.zero, m.tab[n][i].page) != 1 && CowTable(m, n, i).Ok? && Room(m, c, d, m.level[n] - 1)
    ensures Room(CowTable(m, n, i).value, c, d, m.level[n] - 2)
  {
    hide Exact, TablesPrivate, RowRefs, ZeroOk, RowsOk, TableCopied, Times, Refs, Typed, CowTable, Shares;
    CowTableCopies(m, held, n, i);
    var m', x, p := CowTable(m, n, i).value, m.tab[n][i].page, Alloc(m).value.1;
    CopiedShape(m, m', n, i, x, p);
    forall y: nat, f: nat | y < |m.tab| && m'.level[y] > 0 && Counted(m', f)
      ensures m'.refs[f] + d + Times(Shares(c, m'.level[y], m.level[n] - 2), Refs(m', y, f)) < RESERVED
    {
      CowTableRefs(m, held, n, i, f);
      if f == p {
        CopiedFresh(m, held, m', n, i, x, p, c, d, y);
      } else {
        CopiedOld(m, held, m', n, i, x, p, c, d, y, f);
      }
    }
    assert m'.level[n] > 0;
  }

  // ---- One slot, one path ----

  lemma RoomLess(m: Memory, c: nat, d: nat, l: nat, c': nat, d': nat, l': nat)
    requires |m.tab| == |m.level| && Room(m, c, d, l) && d' <= d && (if c' == c then l' <= l else 1 <= c' < c)
    ensures Room(m, c', d', l')
  {
    hide Times, Refs;
    forall y: nat, f: nat ensures Bears(m, c', d', l', y, f) {
      assert Bears(m, c, d, l, y, f);
      if y < |m.tab| && m.level[y] > 0 {
        TimesLess(Shares(c, m.level[y], l), Shares(c', m.level[y], l'), Refs(m, y, f), Refs(m, y, f));
      }
    }
  }

  /** Counts as before, and no row owns more. */
  lemma RoomSame(m: Memory, m': Memory, c: nat, d: nat, l: nat)
    requires |m.tab| == |m.level| && Room(m, c, d, l)
    requires m'.refs == m.refs && m'.level == m.level && m'.zero == m.zero && |m'.tab| == |m.tab|
    requires forall y: nat, f: nat {:trigger Refs(m', y, f)} ::
      y < |m.tab| && m.level[y] > 0 && Counted(m, f) ==> Refs(m', y, f) <= Refs(m, y, f)
    ensures Room(m', c, d, l)
  {
    hide Times, Refs;
    forall f: nat | Counted(m', f) ensures m'.refs[f] + d < RESERVED { assert Counted(m, f); }
    forall y: nat, f: nat ensures Bears(m', c, d, l, y, f) {
      assert Bears(m, c, d, l, y, f);
      if y < |m.tab| && m.level[y] > 0 && Counted(m', f) {
        assert Counted(m, f);
        TimesLess(Shares(c, m.level[y], l), Shares(c, m.level[y], l), Refs(m, y, f), Refs(m', y, f));
      }
    }
  }

  /** Only one entry changed, and it owns no counted frame that it did not own. */
  lemma RoomSet(m: Memory, n: nat, i: nat, e: Entry, c: nat, d: nat, l: nat)
    requires Shape(m) && Slot(m, n, i) && Room(m, c, d, l)
    requires Owns(e) ==> e.page == m.zero || (Owns(m.tab[n][i]) && e.page == m.tab[n][i].page)
    ensures Room(SetEntry(m, n, i, e), c, d, l)
  {
    hide RowRefs, RowsOk, SameReserved;
    var m' := SetEntry(m, n, i, e);
    forall y: nat, f: nat | y < |m.tab| && m.level[y] > 0 && Counted(m, f) ensures Refs(m', y, f) <= Refs(m, y, f) {
      if y == n { RowRefsUpdate(m.tab[n], i, e, f, |m.tab[n]|); }
    }
    RoomSame(m, m', c, d, l);
  }

  lemma CowUpperGoes(m: Memory, held: seq<nat>, n: nat, i: nat, c: nat, d: nat)
    requires Accounted(m, held) && Slot(m, n, i) && m.level[n] >= 2 && Owns(m.tab[n][i])
    requires Room(m, c, d, m.level[n] - 1) && FreeFrames(m) >= 1
    ensures CowEntry(m, n, i).Ok?
    ensures var m' := CowEntry(m, n, i).value; Room(m', c, d, m.level[n] - 2) && FreeFrames(m') + 1 >= FreeFrames(m)
  {
    hide Exact, TablesPrivate, Typed, ZeroOk, RowsOk, SameReserved, Room, CowTable, FreeCount;
    if RefCount(m.refs, m.zero, m.tab[n][i].page) == 1 {
      RoomSet(m, n, i, m.tab[n][i].(hw := true), c, d, m.level[n] - 1);
      RoomLess(SetEntry(m, n, i, m.tab[n][i].(hw := true)), c, d, m.level[n] - 1, c, d, m.level[n] - 2);
    } else {
      CowTableGoes(m, held, n, i, c, d, m.level[n] - 1);
      CowTableRoom(m, held, n, i, c, d);
      CowTableFrees(m, held, n, i);
    }
  }

  lemma PrepUpperGoes(m: Memory, held: seq<nat>, n: nat, i: nat, c: nat, d: nat)
    requires Accounted(m, held) && Slot(m, n, i) && m.level[n] >= 2
    requires Room(m, c, d, m.level[n] - 1) && FreeFrames(m) >= 1
    ensures PrepSlot(m, n, i).Ok?
    ensures var m' := PrepSlot(m, n, i).value; Room(m', c, d, m.level[n] - 2) && FreeFrames(m') + 1 >= FreeFrames(m)
  {
    assert EntryOk(m, m.level[n], m.tab[n][i]);
    hide Exact, TablesPrivate, Typed, ZeroOk, RowsOk, SameReserved, Room, CowEntry, FreeCount;
    if !m.tab[n][i].present {
      DemandAccounted(m, held, n, i);
      RoomSet(m, n, i, NewEntry(m.zero, false, true), c, d, m.level[n] - 1);
      CowUpperGoes(Demand(m, n, i), held, n, i, c, d);
    } else if m.tab[n][i].hw {
      RoomLess(m, c, d, m.level[n] - 1, c, d, m.level[n] - 2);
    } else {
      CowUpperGoes(m, held, n, i, c, d);
    }
  }

  /** The faults on the way to a last-level table: one frame a level at most, one share of one table a level. */
  lemma {:induction false} PrepGoes(m: Memory, held: seq<nat>, s: nat, q: seq<nat>, k: nat, c: nat, d: nat)
    requires Accounted(m, held) && s < m.Spaces() && m.Path(q) && k < m.depth
    requires Room(m, c, d, m.depth - 1) && FreeFrames(m) >= k
    ensures Prep(m, s, q, k).Ok?
    ensures var m' := Prep(m, s, q, k).value; Room(m', c, d, m.depth - 1 - k) && FreeFrames(m') + k >= FreeFrames(m)
  {
    hide Exact, TablesPrivate, LeavesPrivate, Typed, ZeroOk, RowsOk, SameReserved;
    hide Room, PrepSlot, FreeCount, SameLeaves;
    if k > 0 {
      PrepGoes(m, held, s, q, k - 1, c, d);
      var m1 := Prep(m, s, q, k - 1).value;
      PrepTables(m, held, s, q, k - 1, m1);
      OpenWalk(m1, s, q, k - 1);
      PrepUpperGoes(m1, held, m1.Walk(s, q, k - 1).value, q[k - 1], c, d);
    }
  }
}
