/** `swap_page_entries`: two mappings of a space trade places. */
module MetalExchange {
  import opened Outcomes
  import opened ArchContract
  import opened MetalMemory
  import opened MetalOps
  import opened MetalCounts
  import opened MetalAccounting
  import opened MetalViews
  import opened MetalFaults
  import opened MetalStore
  import opened MetalMaps
  import opened MetalAlias
  import opened MetalSwap

  /** `q`, or the other page of the swap. */
  function Partner(q: seq<nat>, a: seq<nat>, b: seq<nat>): seq<nat> {
    if q == a then b else if q == b then a else q
  }

  /** Space `s` finds at `a` what it had at `b` and the other way round; nothing else moves. */
  ghost predicate Swapped(m: Memory, m': Memory, s: nat, a: seq<nat>, b: seq<nat>) {
    && SameShape(m, m') && m.depth >= 1 && m.Path(a) && m.Path(b)
    && forall s': nat, q: seq<nat> {:trigger m'.Leaf(s', q)} :: s' < m.Spaces() && m.Path(q) ==>
         HwEq(m.Leaf(s', if s' == s then Partner(q, a, b) else q), m'.Leaf(s', q))
  }

  /** `e` is what was read at `q`: up to the write bit, and exactly if it owns a frame. */
  predicate ReadAt(m: Memory, s: nat, q: seq<nat>, e: Entry)
    requires |q| == m.depth && m.depth >= 1
  {
    && HwEq(m.Leaf(s, q), e)
    && (Owns(m.Leaf(s, q)) ==> e == m.Leaf(s, q))
  }

  /** The two reads. */
  lemma SwapReads(m: Memory, held: seq<nat>, s: nat, a: seq<nat>, b: seq<nat>, m1: Memory, m2: Memory)
    requires Accounted(m, held) && s < m.Spaces() && m.Path(a) && m.Path(b)
    requires Touch(m, s, a, m.depth - 1) == Ok(m1) && Touch(m1, s, b, m.depth - 1) == Ok(m2)
    ensures Kept(m, m2, held) && SameLeaves(m, m2) && m2.dat == m.dat
    ensures ReadAt(m, s, a, m1.Leaf(s, a)) && ReadAt(m, s, b, m2.Leaf(s, b))
    ensures EntryOk(m2, 1, m1.Leaf(s, a)) && EntryOk(m2, 1, m2.Leaf(s, b))
  {
    hide Exact, LeavesPrivate, Typed, ZeroOk, TablesPrivate, Touch, RowsOk;
    CopySource(m, held, s, a, m1);
    assert HwEq(m.Leaf(s, a), m1.Leaf(s, a));
    CopySource(m1, held, s, b, m2);
    assert HwEq(m.Leaf(s, b), m1.Leaf(s, b)) && HwEq(m1.Leaf(s, b), m2.Leaf(s, b));
    if Owns(m.Leaf(s, b)) { TouchExact(m, held, s, a, m.depth - 1, m1, s, b); }
    SameLeavesTrans(m, m1, m2);
    assert HwEq(m1.Leaf(s, a), m2.Leaf(s, a));
    LeafIsReady(m2, s, a);
    StaleReady(m1, m2, m1.Leaf(s, a), m2.Leaf(s, a));
  }

  /** An entry read before the faults fits wherever the entry now in its place fits. */
  lemma StaleReady(m: Memory, m': Memory, e: Entry, now: Entry)
    requires Shape(m) && SameShape(m, m') && EntryOk(m, 1, e) && EntryOk(m', 1, now) && HwEq(e, now)
    ensures EntryOk(m', 1, e)
  {
    hide RowsOk;
  }

  /** The state in which both slots are written: nobody has noticed, and both tables are private. */
  ghost predicate BothReady(m: Memory, m': Memory, held: seq<nat>, s: nat, a: seq<nat>, ta: nat, b: seq<nat>, tb: nat)
    requires Shape(m) && m.Path(a) && m.Path(b)
  {
    && SameShape(m, m') && Kept(m, m', held) && SameLeaves(m, m') && m'.dat == m.dat
    && var k := m.depth - 1;
       && Open(m', s, a, k) && m'.Walk(s, a, k) == Some(ta) && Slot(m', ta, a[k]) && m'.level[ta] == 1
       && Open(m', s, b, k) && m'.Walk(s, b, k) == Some(tb) && Slot(m', tb, b[k]) && m'.level[tb] == 1
  }

  lemma PokeUnfold(m: Memory, s: nat, q: seq<nat>, e: Entry, m': Memory) returns (m1: Memory, t: nat)
    requires Shape(m) && |q| == m.depth && Poke(m, s, q, e) == Ok(m')
    ensures Prep(m, s, q, m.depth - 1) == Ok(m1) && SameShape(m, m1) && m1.Walk(s, q, m.depth - 1) == Some(t)
    ensures Slot(m1, t, q[m.depth - 1])
    ensures m' == SetEntry(m1, t, q[m.depth - 1], e)
  {
    hide Prep;
    m1 := Prep(m, s, q, m.depth - 1).value;
    t := m1.Walk(s, q, m.depth - 1).value;
  }

  /** The two writes, as if all their faults had come first. */
  lemma SwapWrites(m: Memory, held: seq<nat>, s: nat, a: seq<nat>, ea: Entry, b: seq<nat>, eb: Entry, m3: Memory,
                   m': Memory)
    returns (m1: Memory, ta: nat, tb: nat)
    requires Accounted(m, held) && s < m.Spaces() && m.Path(a) && m.Path(b)
    requires Poke(m, s, a, eb) == Ok(m3) && Poke(m3, s, b, ea) == Ok(m')
    ensures BothReady(m, m1, held, s, a, ta, b, tb)
    ensures m' == SetEntry(SetEntry(m1, ta, a[m.depth - 1], eb), tb, b[m.depth - 1], ea)
  {
    hide Exact, LeavesPrivate, Typed, ZeroOk, TablesPrivate, RowsOk, SameReserved, Prep, Poke, SameLeaves;
    var k := m.depth - 1;
    var m2, m4;
    m2, ta := PokeUnfold(m, s, a, eb, m3);
    PrepTables(m, held, s, a, k, m2);
    m4, tb := PokeUnfold(m3, s, b, ea, m');
    PrepCommutes(m2, held, s, a, ta, eb, b, k, m4);
    m1 := Prep(m2, s, b, k).value;
    PrepTables(m2, held, s, b, k, m1);
    SameLeavesTrans(m, m2, m1);
    PrepKeepsOpen(m2, held, s, a, k, b, k, m1);
    OpenWalk(m1, s, a, k);
    OpenWalk(m1, s, b, k);
    LeafStoreWalk(m1, ta, a[k], eb, s, b, k);
  }

  // ---- Accounts ----

  lemma TradeExact(m: Memory, held: seq<nat>, ta: nat, i: nat, ea: Entry, tb: nat, j: nat, eb: Entry)
    requires Accounted(m, held) && Slot(m, ta, i) && Slot(m, tb, j) && m.level[ta] == 1 && m.level[tb] == 1
    requires HwEq(m.tab[ta][i], ea) && HwEq(m.tab[tb][j], eb)
    ensures Exact(SetEntry(SetEntry(m, ta, i, eb), tb, j, ea), held)
  {
    hide Typed, ZeroOk, TablesPrivate, RowsOk, SameReserved;
    var m1 := SetEntry(m, ta, i, eb);
    var m' := SetEntry(m1, tb, j, ea);
    forall p: nat | Counted(m', p) ensures m'.refs[p] == held[p] + Owners(m', p) {
      OwnersSetEntry(m, ta, i, eb, p);
      OwnersSetEntry(m1, tb, j, ea, p);
      assert Counted(m, p) && m.refs[p] == held[p] + Owners(m, p);
    }
  }

  lemma TradeAccounted(m: Memory, held: seq<nat>, ta: nat, i: nat, ea: Entry, tb: nat, j: nat, eb: Entry)
    requires Accounted(m, held) && Slot(m, ta, i) && Slot(m, tb, j) && m.level[ta] == 1 && m.level[tb] == 1
    requires HwEq(m.tab[ta][i], ea) && HwEq(m.tab[tb][j], eb) && EntryOk(m, 1, ea) && EntryOk(m, 1, eb)
    ensures Accounted(SetEntry(SetEntry(m, ta, i, eb), tb, j, ea), held)
    ensures ZeroOk(SetEntry(m, ta, i, eb)) && Typed(SetEntry(m, ta, i, eb))
  {
    hide Typed, TablesPrivate, Exact;
    TradeExact(m, held, ta, i, ea, tb, j, eb);
    SetEntryTyped(m, ta, i, eb);
    SetEntryPrivate(m, ta, i, eb);
    SetEntryTyped(SetEntry(m, ta, i, eb), tb, j, ea);
    SetEntryPrivate(SetEntry(m, ta, i, eb), tb, j, ea);
  }

  /** One leaf after the trade. */
  lemma TradeLeaf(m: Memory, held: seq<nat>, s: nat, a: seq<nat>, ta: nat, ea: Entry, b: seq<nat>, tb: nat, eb: Entry,
                  m': Memory, s': nat, q: seq<nat>)
    requires Accounted(m, held) && s < m.Spaces() && m.Path(a) && m.Path(b) && BothReady(m, m, held, s, a, ta, b, tb)
    requires var m1 := SetEntry(m, ta, a[m.depth - 1], eb);
      ZeroOk(m1) && Typed(m1) && m' == SetEntry(m1, tb, b[m.depth - 1], ea)
    requires s' < m.Spaces() && m.Path(q)
    ensures m'.Leaf(s', q) == if s' == s && q == b then ea else if s' == s && q == a then eb else m.Leaf(s', q)
    ensures m'.Walk(s', q, m.depth - 1) == m.Walk(s', q, m.depth - 1)
  {
    hide Exact, LeavesPrivate, Typed, ZeroOk, TablesPrivate, RowsOk, SameReserved, SameLeaves;
    var k := m.depth - 1;
    var m1 := SetEntry(m, ta, a[k], eb);
    OpenChain(m, held, s, a, k);
    OpenChain(m, held, s, b, k);
    LeafAfter(m, m1, ta, a[k], eb, s', q);
    LeafAfter(m1, m', tb, b[k], ea, s', q);
    if s' != s || q != a { DistinctSlots(m, held, s, a, s', q); }
    if s' != s || q != b { DistinctSlots(m, held, s, b, s', q); }
  }

  // ---- The whole swap ----

  /** `m'` is `m1` with the two entries, as read in `m`, traded. */
  ghost predicate Traded(m: Memory, m1: Memory, held: seq<nat>, s: nat, a: seq<nat>, ta: nat, ea: Entry, b: seq<nat>,
                         tb: nat, eb: Entry, m': Memory) {
    && Accounted(m, held) && s < m.Spaces() && m.Path(a) && m.Path(b)
    && BothReady(m, m1, held, s, a, ta, b, tb)
    && ReadAt(m, s, a, ea) && ReadAt(m, s, b, eb)
    && m' == SetEntry(SetEntry(m1, ta, a[m.depth - 1], eb), tb, b[m.depth - 1], ea)
    && SameShape(m, m') && Accounted(m', held)
    && ZeroOk(SetEntry(m1, ta, a[m.depth - 1], eb)) && Typed(SetEntry(m1, ta, a[m.depth - 1], eb))
  }

  lemma SwapUnfold(m: Memory, s: nat, a: seq<nat>, b: seq<nat>, m': Memory) returns (m1: Memory, m2: Memory, m3: Memory)
    requires Shape(m) && |a| == |b| == m.depth && SwapPage(m, s, a, b) == Ok(m')
    ensures Touch(m, s, a, m.depth - 1) == Ok(m1) && SameShape(m, m1) && Touch(m1, s, b, m.depth - 1) == Ok(m2)
    ensures SameShape(m, m2)
    ensures Poke(m2, s, a, m2.Leaf(s, b)) == Ok(m3) && SameShape(m, m3) && Poke(m3, s, b, m1.Leaf(s, a)) == Ok(m')
  {
    hide Touch, Poke, RowsOk;
    m1 := Touch(m, s, a, m.depth - 1).value;
    m2 := Touch(m1, s, b, m.depth - 1).value;
    m3 := Poke(m2, s, a, m2.Leaf(s, b)).value;
  }

  /** The slots of both pages, just before the writes, still hold what was read. */
  lemma ReadyEntries(m: Memory, held: seq<nat>, s: nat, a: seq<nat>, ta: nat, ea: Entry, b: seq<nat>, tb: nat,
                     eb: Entry, m1: Memory)
    requires Shape(m) && s < m.Spaces() && m.Path(a) && m.Path(b) && BothReady(m, m1, held, s, a, ta, b, tb)
    requires HwEq(m.Leaf(s, a), ea) && HwEq(m.Leaf(s, b), eb) && EntryOk(m, 1, ea) && EntryOk(m, 1, eb)
    ensures HwEq(m1.tab[ta][a[m.depth - 1]], ea) && HwEq(m1.tab[tb][b[m.depth - 1]], eb) && EntryOk(m1, 1, ea)
    ensures EntryOk(m1, 1, eb)
  {
    hide Exact, LeavesPrivate, ZeroOk, TablesPrivate, RowsOk;
    var k := m.depth - 1;
    assert HwEq(m.Leaf(s, a), m1.Leaf(s, a)) && HwEq(m.Leaf(s, b), m1.Leaf(s, b));
    assert EntryOk(m1, m1.level[ta], m1.tab[ta][a[k]]) && EntryOk(m1, m1.level[tb], m1.tab[tb][b[k]]);
    StaleReady(m, m1, ea, m1.tab[ta][a[k]]);
    StaleReady(m, m1, eb, m1.tab[tb][b[k]]);
  }

  lemma SwapTrades(m: Memory, held: seq<nat>, s: nat, a: seq<nat>, b: seq<nat>, m': Memory)
    returns (m1: Memory, ta: nat, ea: Entry, tb: nat, eb: Entry)
    requires Accounted(m, held) && s < m.Spaces() && m.Path(a) && m.Path(b) && SwapPage(m, s, a, b) == Ok(m')
    ensures Traded(m, m1, held, s, a, ta, ea, b, tb, eb, m')
  {
    hide Exact, LeavesPrivate, Typed, ZeroOk, TablesPrivate, RowsOk, SameReserved, SwapPage, Touch, Poke;
    hide SetEntry, Open, EntryOk;
    var t1, t2, t3 := SwapUnfold(m, s, a, b, m');
    ea, eb := t1.Leaf(s, a), t2.Leaf(s, b);
    SwapReads(m, held, s, a, b, t1, t2);
    m1, ta, tb := SwapWrites(t2, held, s, a, ea, b, eb, t3, m');
    assert HwEq(m.Leaf(s, a), t2.Leaf(s, a)) && HwEq(m.Leaf(s, b), t2.Leaf(s, b));
    ReadyEntries(t2, held, s, a, ta, ea, b, tb, eb, m1);
    TradeAccounted(m1, held, ta, a[m.depth - 1], ea, tb, b[m.depth - 1], eb);
    SameLeavesTrans(m, t2, m1);
  }

  lemma TradedLeaf(m: Memory, m1: Memory, held: seq<nat>, s: nat, a: seq<nat>, ta: nat, ea: Entry, b: seq<nat>, tb: nat,
                   eb: Entry, m': Memory, s': nat, q: seq<nat>)
    requires Traded(m, m1, held, s, a, ta, ea, b, tb, eb, m') && s' < m.Spaces() && m.Path(q)
    ensures m'.Leaf(s', q) == if s' == s && q == b then ea else if s' == s && q == a then eb else m1.Leaf(s', q)
    ensures m'.Walk(s', q, m.depth - 1) == m1.Walk(s', q, m.depth - 1)
  {
    hide Exact, LeavesPrivate, Typed, ZeroOk, TablesPrivate, RowsOk, SetEntry, Open;
    TradeLeaf(m1, held, s, a, ta, ea, b, tb, eb, m', s', q);
  }

  /** A swap keeps the accounts and does what it says. */
  lemma SwapCorrect(m: Memory, held: seq<nat>, s: nat, a: seq<nat>, b: seq<nat>, m': Memory)
    requires Accounted(m, held) && s < m.Spaces() && m.Path(a) && m.Path(b) && SwapPage(m, s, a, b) == Ok(m')
    ensures Accounted(m', held) && Swapped(m, m', s, a, b) && m'.dat == m.dat
  {
    hide Exact, LeavesPrivate, Typed, ZeroOk, TablesPrivate, RowsOk, SwapPage, Open, EntryOk;
    var m1, ta, ea, tb, eb := SwapTrades(m, held, s, a, b, m');
    forall s': nat, q: seq<nat> | s' < m.Spaces() && m.Path(q)
      ensures HwEq(m.Leaf(s', if s' == s then Partner(q, a, b) else q), m'.Leaf(s', q))
    {
      TradedLeaf(m, m1, held, s, a, ta, ea, b, tb, eb, m', s', q);
      assert HwEq(m.Leaf(s', q), m1.Leaf(s', q));
    }
  }

  /** Each page keeps the other space's pages out of reach through its new, stale write bit. */
  ghost predicate SafeSwap(m: Memory, s: nat, a: seq<nat>, b: seq<nat>)
    requires |a| == |b| == m.depth && m.depth >= 1
  {
    SafeCopy(m, s, a) && SafeCopy(m, s, b)
  }

  /** A frame that a swapped, writable entry maps is mapped by no other space. */
  lemma UnsafeSwapPage(m: Memory, m1: Memory, held: seq<nat>, s: nat, a: seq<nat>, ta: nat, ea: Entry, b: seq<nat>,
                       tb: nat, eb: Entry, m': Memory,
                       from: seq<nat>, s': nat, q: seq<nat>)
    requires Traded(m, m1, held, s, a, ta, ea, b, tb, eb, m') && LeavesPrivate(m') && from in {a, b}
    requires Owns(m.Leaf(s, from)) && m.Leaf(s, from).hw && s' < m.Spaces() && m.Path(q) && Owns(m.Leaf(s', q))
    requires m.Leaf(s', q).page == m.Leaf(s, from).page
    ensures s' == s
  {
    hide Exact, LeavesPrivate, Typed, ZeroOk, TablesPrivate, SameReserved, EntryOk;
    if s' != s {
      var to := if from == a then b else a;
      OpenAbove(m1, m', s, to, m.depth - 1, 1);
      TradedLeaf(m, m1, held, s, a, ta, ea, b, tb, eb, m', s, to);
      TradedLeaf(m, m1, held, s, a, ta, ea, b, tb, eb, m', s', q);
      assert HwEq(m.Leaf(s', q), m1.Leaf(s', q));
      UnsafeCopyShares(m', held, s, to, s', q);
    }
  }

  lemma UnsafeSwapShares(m: Memory, m1: Memory, held: seq<nat>, s: nat, a: seq<nat>, ta: nat, ea: Entry, b: seq<nat>,
                         tb: nat, eb: Entry, m': Memory)
    requires Traded(m, m1, held, s, a, ta, ea, b, tb, eb, m') && LeavesPrivate(m')
    ensures SafeSwap(m, s, a, b)
  {
    hide LeavesPrivate, Typed, RowsOk, SameReserved;
    forall s': nat, q: seq<nat> | s' < m.Spaces() && m.Path(q) && s' != s && Owns(m.Leaf(s', q))
      ensures Owns(m.Leaf(s, a)) && m.Leaf(s, a).hw ==> m.Leaf(s', q).page != m.Leaf(s, a).page
      ensures Owns(m.Leaf(s, b)) && m.Leaf(s, b).hw ==> m.Leaf(s', q).page != m.Leaf(s, b).page
    {
      if Owns(m.Leaf(s, a)) && m.Leaf(s, a).hw && m.Leaf(s', q).page == m.Leaf(s, a).page {
        UnsafeSwapPage(m, m1, held, s, a, ta, ea, b, tb, eb, m', a, s', q);
      }
      if Owns(m.Leaf(s, b)) && m.Leaf(s, b).hw && m.Leaf(s', q).page == m.Leaf(s, b).page {
        UnsafeSwapPage(m, m1, held, s, a, ta, ea, b, tb, eb, m', b, s', q);
      }
    }
  }

  /** Nobody but `s` maps the frame of a writable swapped entry. */
  lemma SwappedHere(m: Memory, m1: Memory, held: seq<nat>, s: nat, a: seq<nat>, ta: nat, ea: Entry, b: seq<nat>,
                    tb: nat, eb: Entry, m': Memory,
                    e: Entry, s': nat, q: seq<nat>)
    requires Traded(m, m1, held, s, a, ta, ea, b, tb, eb, m') && SafeSwap(m, s, a, b)
    requires e in {ea, eb} && Owns(e) && e.hw && s' < m.Spaces() && m.Path(q) && Owns(m'.Leaf(s', q))
    requires m'.Leaf(s', q).page == e.page
    ensures s' == s
  {
    hide Exact, LeavesPrivate, Typed, ZeroOk, TablesPrivate, RowsOk, SameReserved, SetEntry, Open, EntryOk;
    TradedLeaf(m, m1, held, s, a, ta, ea, b, tb, eb, m', s', q);
    assert HwEq(m.Leaf(s', q), m1.Leaf(s', q));
  }

  lemma TradedReaches(m: Memory, m1: Memory, held: seq<nat>, s: nat, a: seq<nat>, ta: nat, ea: Entry, b: seq<nat>,
                      tb: nat, eb: Entry, m': Memory, s': nat, t: nat)
    requires Traded(m, m1, held, s, a, ta, ea, b, tb, eb, m')
    ensures Reaches(m', s', t) <==> Reaches(m1, s', t)
    ensures Reaches(m', s, ta) && Reaches(m', s, tb)
    ensures Reaches(m1, s', t) && t in {ta, tb} ==> s' == s
  {
    hide Exact, LeavesPrivate, Typed, ZeroOk, TablesPrivate, RowsOk, SameReserved, SetEntry, Open, EntryOk, ReadAt;
    hide SameLeaves;
    SameReach(m, m1, held, s, a, ta, ea, b, tb, eb, m', s', t);
    SameReach(m, m1, held, s, a, ta, ea, b, tb, eb, m', s, ta);
    SameReach(m, m1, held, s, a, ta, ea, b, tb, eb, m', s, tb);
    assert m1.Path(a) && m1.Path(b);
    if Reaches(m1, s', t) && t in {ta, tb} { TradedTable(m, m1, held, s, a, ta, ea, b, tb, eb, m', s', t); }
  }

  lemma SameReach(m: Memory, m1: Memory, held: seq<nat>, s: nat, a: seq<nat>, ta: nat, ea: Entry, b: seq<nat>, tb: nat,
                  eb: Entry, m': Memory, s': nat, t: nat)
    requires Traded(m, m1, held, s, a, ta, ea, b, tb, eb, m')
    ensures Reaches(m', s', t) <==> Reaches(m1, s', t)
  {
    hide Exact, LeavesPrivate, Typed, ZeroOk, TablesPrivate, RowsOk, SameReserved, SetEntry, Open, EntryOk, ReadAt;
    hide SameLeaves;
    var k := m.depth - 1;
    if Reaches(m', s', t) {
      var q :| m'.Path(q) && m'.Walk(s', q, k) == Some(t);
      TradedLeaf(m, m1, held, s, a, ta, ea, b, tb, eb, m', s', q);
      assert m1.Path(q);
    }
    if Reaches(m1, s', t) {
      var q :| m1.Path(q) && m1.Walk(s', q, k) == Some(t);
      TradedLeaf(m, m1, held, s, a, ta, ea, b, tb, eb, m', s', q);
      assert m'.Path(q);
    }
  }

  lemma TradedTable(m: Memory, m1: Memory, held: seq<nat>, s: nat, a: seq<nat>, ta: nat, ea: Entry, b: seq<nat>,
                    tb: nat, eb: Entry, m': Memory, s': nat, t: nat)
    requires Traded(m, m1, held, s, a, ta, ea, b, tb, eb, m') && Reaches(m1, s', t) && t in {ta, tb}
    ensures s' == s
  {
    hide Exact, LeavesPrivate, Typed, ZeroOk, TablesPrivate, RowsOk, SameReserved, SetEntry, EntryOk;
    hide ReadAt, SameLeaves, Reaches;
    var q := if t == ta then a else b;
    OpenChain(m1, held, s, q, m.depth - 1);
    ReachedHere(m1, held, s, q, t, s');
  }

  /** The pair condition of `LeavesPrivate` after a safe swap. */
  lemma TradedPair(m: Memory, m1: Memory, held: seq<nat>, s: nat, a: seq<nat>, ta: nat, ea: Entry, b: seq<nat>, tb: nat,
                   eb: Entry, m': Memory,
                   t: nat, i: nat, u: nat, j: nat, s': nat)
    requires Traded(m, m1, held, s, a, ta, ea, b, tb, eb, m') && SafeSwap(m, s, a, b) && LeavesPrivate(m1)
    requires SharesWritable(m', t, i, u, j) && Reaches(m', s', u)
    ensures Reaches(m', s', t)
  {
    hide Exact, Typed, ZeroOk, TablesPrivate, SameReserved, Open, EntryOk, SameLeaves, Reaches;
    var k := m.depth - 1;
    TradedReaches(m, m1, held, s, a, ta, ea, b, tb, eb, m', s', u);
    TradedReaches(m, m1, held, s, a, ta, ea, b, tb, eb, m', s', t);
    if (t == ta && i == a[k]) || (t == tb && i == b[k]) {
      var q := ReachedLeaf(m', s', u, j);
      SwappedHere(m, m1, held, s, a, ta, ea, b, tb, eb, m', m'.tab[t][i], s', q);
    } else {
      TradedOther(m, m1, held, s, a, ta, ea, b, tb, eb, m', t, i, u, j, s');
    }
  }

  /** Whatever the frame's other mapping was before the swap, an unswapped writable slot was in reach. */
  lemma TradedOther(m: Memory, m1: Memory, held: seq<nat>, s: nat, a: seq<nat>, ta: nat, ea: Entry, b: seq<nat>,
                    tb: nat, eb: Entry, m': Memory,
                    t: nat, i: nat, u: nat, j: nat, s': nat)
    requires Traded(m, m1, held, s, a, ta, ea, b, tb, eb, m') && LeavesPrivate(m1)
    requires SharesWritable(m', t, i, u, j) && Reaches(m1, s', u)
    requires !(t == ta && i == a[m.depth - 1]) && !(t == tb && i == b[m.depth - 1])
    ensures Reaches(m1, s', t)
  {
    hide Exact, Typed, ZeroOk, TablesPrivate, RowsOk, SameReserved, Open, EntryOk, Reaches;
    var k := m.depth - 1;
    TradedReaches(m, m1, held, s, a, ta, ea, b, tb, eb, m', s', u);
    TradedReaches(m, m1, held, s, a, ta, ea, b, tb, eb, m', s, ta);
    TradedReaches(m, m1, held, s, a, ta, ea, b, tb, eb, m', s, tb);
    assert HwEq(m.Leaf(s, a), m1.Leaf(s, a)) && HwEq(m.Leaf(s, b), m1.Leaf(s, b));
    if u == tb && j == b[k] {
      assert SharesWritable(m1, t, i, ta, a[k]);
    } else if u == ta && j == a[k] {
      assert SharesWritable(m1, t, i, tb, b[k]);
    } else {
      assert SharesWritable(m1, t, i, u, j);
    }
  }

  /** A swap keeps the spaces apart exactly when aliasing either page would have. */
  lemma SwapIsolatesIff(m: Memory, held: seq<nat>, s: nat, a: seq<nat>, b: seq<nat>, m': Memory)
    requires Isolated(m, held) && s < m.Spaces() && m.Path(a) && m.Path(b) && SwapPage(m, s, a, b) == Ok(m')
    ensures Isolated(m', held) <==> SafeSwap(m, s, a, b)
  {
    hide Exact, Typed, ZeroOk, TablesPrivate, RowsOk, SameReserved, SwapPage, Open, EntryOk, SafeSwap, Reaches;
    hide SharesWritable, SetEntry;
    var m1, ta, ea, tb, eb := SwapTrades(m, held, s, a, b, m');
    if LeavesPrivate(m') { UnsafeSwapShares(m, m1, held, s, a, ta, ea, b, tb, eb, m'); }
    if SafeSwap(m, s, a, b) {
      forall t: nat, i: nat, u: nat, j: nat, s': nat | SharesWritable(m', t, i, u, j) && Reaches(m', s', u)
        ensures Reaches(m', s', t)
      {
        TradedPair(m, m1, held, s, a, ta, ea, b, tb, eb, m', t, i, u, j, s');
      }
    }
  }

  /** The swapped page `to` takes a store without a fault, and the frame is another space's too. */
  lemma TradedLeaks(m: Memory, m1: Memory, held: seq<nat>, s: nat, a: seq<nat>, ta: nat, ea: Entry, b: seq<nat>,
                    tb: nat, eb: Entry, m': Memory,
                    from: seq<nat>, to: seq<nat>, s': nat, q: seq<nat>)
    requires Traded(m, m1, held, s, a, ta, ea, b, tb, eb, m') && ((from == a && to == b) || (from == b && to == a))
    requires Owns(m.Leaf(s, from)) && m.Leaf(s, from).hw && s' != s && s' < m.Spaces() && m.Path(q)
    requires Owns(m.Leaf(s', q)) && m.Leaf(s', q).page == m.Leaf(s, from).page
    ensures Accounted(m', held) && m'.dat == m.dat
    ensures HwOpen(m', s, to, m.depth) && Grantable(m'.Leaf(s, to)) && Owns(m'.Leaf(s, to))
    ensures m'.Leaf(s, to).page < |m.refs| && Owns(m'.Leaf(s', q))
    ensures m'.Leaf(s', q).page == m'.Leaf(s, to).page == m.Leaf(s', q).page
  {
    hide Exact, LeavesPrivate, Typed, ZeroOk, TablesPrivate, SameReserved, EntryOk;
    OpenAbove(m1, m', s, to, m.depth - 1, 1);
    TradedLeaf(m, m1, held, s, a, ta, ea, b, tb, eb, m', s, to);
    TradedLeaf(m, m1, held, s, a, ta, ea, b, tb, eb, m', s', q);
    assert HwEq(m.Leaf(s', q), m1.Leaf(s', q));
    WrittenLeaf(m', held, s, to);
  }

  /** What an unsafe swap lets happen: a store at one of the two pages shows up in another space. */
  lemma UnsafeSwapLeaks(m: Memory, held: seq<nat>, s: nat, a: seq<nat>, b: seq<nat>, m': Memory, off: nat, byte: bv8)
    returns (to: seq<nat>, s': nat, q': seq<nat>, m'': Memory)
    requires Isolated(m, held) && s < m.Spaces() && m.Path(a) && m.Path(b) && SwapPage(m, s, a, b) == Ok(m')
    requires !SafeSwap(m, s, a, b) && off < PAGE_SIZE
    ensures to in {a, b} && s' != s && s' < m.Spaces() && m.Path(q') && Store(m', s, to, off, byte) == Ok(m'')
    ensures View(m, s', q').Ram? && |View(m, s', q').bytes| == PAGE_SIZE
    ensures View(m'', s', q') == Ram(View(m, s', q').bytes[off := byte])
  {
    hide Accounted, LeavesPrivate, SwapPage, Store, HwOpen, Traded, Grantable, RowsOk, SameReserved;
    var m1, ta, ea, tb, eb := SwapTrades(m, held, s, a, b, m');
    var from := if SafeCopy(m, s, a) then b else a;
    to := if SafeCopy(m, s, a) then a else b;
    s', q' :| s' < m.Spaces() && m.Path(q') && s' != s && Owns(m.Leaf(s', q')) &&
      m.Leaf(s', q').page == m.Leaf(s, from).page;
    TradedLeaks(m, m1, held, s, a, ta, ea, b, tb, eb, m', from, to, s', q');
    m'' := SharedWrite(m', held, s, to, off, byte, s', q');
  }
}
