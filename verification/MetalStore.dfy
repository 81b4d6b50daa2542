/** A guest store, retried through its faults, changes one byte of one space. */
module MetalStore {
  import opened Outcomes
  import opened PhysMm
  import opened ArchContract
  import opened MetalMemory
  import opened MetalOps
  import opened MetalCounts
  import opened MetalCow
  import opened MetalWalks
  import opened MetalViews
  import opened MetalFaults

  /** The processor lets a store through: present and writable all the way, except that PAE
      ignores the write bit of the root entry. */
  predicate HwOpen(m: Memory, s: nat, q: seq<nat>, k: nat)
    requires k <= |q|
  {
    k > 0 ==>
      && HwOpen(m, s, q, k - 1)
      && m.Walk(s, q, k - 1).Some?
      && var e := m.At(m.Walk(s, q, k - 1).value, q[k - 1]);
         e.present && (e.hw || (m.pae && k == 1))
  }

  function Write(m: Memory, p: nat, off: nat, b: bv8): (r: Memory)
    requires Shape(m) && p < |m.refs| && off < PAGE_SIZE
    ensures SameShape(m, r)
  {
    m.(dat := m.dat[p := m.dat[p][off := b]])
  }

  /** A guest store: refused on a trap window or a sealed page, otherwise retried until every
      fault is served, then performed (on a device page outside this memory). */
  function Store(m: Memory, s: nat, q: seq<nat>, off: nat, b: bv8): (r: Halting<Memory>)
    requires Shape(m) && |q| == m.depth && off < PAGE_SIZE
    ensures r.Ok? ==> SameShape(m, r.value)
  {
    if !Grantable(m.Leaf(s, q)) then Ok(m)
    else
      var m1 :- if HwOpen(m, s, q, m.depth) then Ok(m) else Prep(m, s, q, m.depth);
      var e := m1.Leaf(s, q);
      if !Owns(e) then Ok(m1)
      else if e.page >= |m.refs| then Panic
      else Ok(Write(m1, e.page, off, b))
  }

  /** What the processor lets through, one space owns. */
  lemma {:induction false} HwOpenChain(m: Memory, held: seq<nat>, s: nat, q: seq<nat>, k: nat)
    requires Accounted(m, held) && s < m.Spaces() && m.Path(q) && k < m.depth
    requires HwOpen(m, s, q, k) && m.Walk(s, q, k).Some? && m.At(m.Walk(s, q, k).value, q[k]).present
    ensures Chain(m, s, q, k)
  {
    if k > 0 {
      HwOpenChain(m, held, s, q, k - 1);
      WalkTyped(m, s, q, k - 1);
      WalkTyped(m, s, q, k);
      var n := m.Walk(s, q, k - 1).value;
      assert EntryOk(m, m.level[n], m.tab[n][q[k - 1]]) && PrivateOk(m, n, m.tab[n][q[k - 1]]);
    }
  }

  /** Two pages of a space are the same storage. */
  predicate Aliased(m: Memory, s: nat, q: seq<nat>, q': seq<nat>)
    requires |q| == |q'| == m.depth && m.depth >= 1
  {
    Owns(m.Leaf(s, q)) && Owns(m.Leaf(s, q')) && m.Leaf(s, q).page == m.Leaf(s, q').page && m.Leaf(s, q).page != m.zero
  }

  /** Only this space sees a frame it can write without a fault. */
  lemma WritableFrameIsPrivate(m: Memory, held: seq<nat>, s: nat, q: seq<nat>, s': nat, q': seq<nat>)
    requires Isolated(m, held) && s < m.Spaces() && s' < m.Spaces() && m.Path(q) && m.Path(q')
    requires Chain(m, s, q, m.depth - 1) && Owns(m.Leaf(s, q)) && m.Leaf(s, q).hw
    requires Owns(m.Leaf(s', q')) && m.Leaf(s', q').page == m.Leaf(s, q).page
    ensures s' == s
  {
    var k := m.depth - 1;
    ChainWalk(m, s, q, k);
    var t := m.Walk(s, q, k).value;
    WalkTyped(m, s', q', k);
    var u := m.Walk(s', q', k).value;
    assert SharesWritable(m, t, q[k], u, q'[k]);
    assert Reaches(m, s', u);
    var r :| m.Path(r) && m.Walk(s', r, k) == Some(t);
    ChainUnique(m, held, s, q, k, s', r, k);
  }

  /** Changing the contents of a counted frame moves no leaf and keeps the invariant. */
  lemma DataIsolated(m: Memory, held: seq<nat>, p: nat, v: Bytes)
    requires Isolated(m, held) && p < |m.refs| && p != m.zero && |v| == PAGE_SIZE
    ensures var m' := m.(dat := m.dat[p := v]);
      && Isolated(m', held)
      && forall s: nat, q: seq<nat> {:trigger m'.Leaf(s, q)} :: s < m.Spaces() && m.Path(q) ==>
           m'.Leaf(s, q) == m.Leaf(s, q)
  {
    hide Exact, TablesPrivate, Typed;
    var m' := m.(dat := m.dat[p := v]);
    DataAccounted(m, held, p, v);
    forall s: nat, q: seq<nat> | s < m.Spaces() && m.Path(q) ensures m'.Leaf(s, q) == m.Leaf(s, q) {
      WalkUpper(m, m', s, q, m.depth - 1);
    }
    forall t: nat, a: nat, u: nat, c: nat, s: nat | SharesWritable(m', t, a, u, c) && Reaches(m', s, u)
      ensures Reaches(m', s, t)
    {
      assert SharesWritable(m, t, a, u, c);
      ReachUpper(m, m', s, u);
      ReachUpper(m, m', s, t);
    }
  }

  /** A store with no faults left to serve: leaves stay, and only pages of space `s` that are
      this very frame see the new byte. */
  lemma WriteThrough(m: Memory, held: seq<nat>, s: nat, q: seq<nat>, off: nat, b: bv8)
    requires Isolated(m, held) && s < m.Spaces() && m.Path(q) && off < PAGE_SIZE
    requires Chain(m, s, q, m.depth - 1) && Owns(m.Leaf(s, q)) && m.Leaf(s, q).hw
    ensures var p := m.Leaf(s, q).page; p < |m.refs| && p != m.zero && Isolated(Write(m, p, off, b), held)
    ensures forall s': nat, q': seq<nat> {:trigger m.Leaf(s', q')} :: s' < m.Spaces() && m.Path(q') ==>
      Write(m, m.Leaf(s, q).page, off, b).Leaf(s', q') == m.Leaf(s', q')
  {
    ChainWalk(m, s, q, m.depth - 1);
    var t := m.Walk(s, q, m.depth - 1).value;
    var p := m.Leaf(s, q).page;
    assert EntryOk(m, m.level[t], m.tab[t][q[m.depth - 1]]);
    DataIsolated(m, held, p, m.dat[p][off := b]);
  }

  /** The frame now in slot `i` of table `t` is the one that was there, or nothing else maps it. */
  ghost predicate SoleOrSame(m: Memory, m': Memory, t: nat, i: nat)
    requires Shape(m) && SameShape(m, m') && Slot(m, t, i)
  {
    forall u: nat, j: nat {:trigger OwnedAt(m', u, j, m'.tab[t][i].page)} ::
      OwnedAt(m', u, j, m'.tab[t][i].page) && (u != t || j != i) ==> m'.tab[t][i] == m.tab[t][i]
  }

  /** Serving the last fault of a store: the leaf. The other leaves stay; the frame that is
      written is the one mapped before, or a copy that nothing else maps. */
  lemma LeafFault(m: Memory, held: seq<nat>, t: nat, i: nat, m': Memory)
    requires Accounted(m, held) && Slot(m, t, i) && m.level[t] == 1 && Grantable(m.tab[t][i])
    requires PrepSlot(m, t, i) == Ok(m')
    ensures Kept(m, m', held) && SameViews(m, m')
    ensures m'.tab[t][i].present && m'.tab[t][i].hw && m'.tab == m.tab[t := m.tab[t][i := m'.tab[t][i]]]
    ensures Owns(m'.tab[t][i]) <==> !m.tab[t][i].present || Owns(m.tab[t][i])
    ensures SoleOrSame(m, m', t, i) && m'.level == m.level
  {
    assert EntryOk(m, m.level[t], m.tab[t][i]);
    hide CowEntry, Exact, TablesPrivate, LeavesPrivate, Typed, ZeroOk, SameReserved;
    if !m.tab[t][i].present {
      MissingLeafFault(m, held, t, i, m');
    } else if m.tab[t][i].hw {
      assert m.tab[t][i := m.tab[t][i]] == m.tab[t];
      assert m.tab[t := m.tab[t]] == m.tab;
    } else {
      CowLeafFault(m, held, t, i, m');
    }
  }

  lemma MissingLeafFault(m: Memory, held: seq<nat>, t: nat, i: nat, m': Memory)
    requires Accounted(m, held) && Slot(m, t, i) && m.level[t] == 1 && !m.tab[t][i].present && Grantable(m.tab[t][i])
    requires CowEntry(Demand(m, t, i), t, i) == Ok(m')
    ensures Kept(m, m', held) && SameViews(m, m')
    ensures Owns(m'.tab[t][i]) && m'.tab[t][i].hw && m'.tab == m.tab[t := m.tab[t][i := m'.tab[t][i]]]
    ensures m'.level == m.level
    ensures forall u: nat, j: nat {:trigger OwnedAt(m', u, j, m'.tab[t][i].page)} ::
      OwnedAt(m', u, j, m'.tab[t][i].page) ==> u == t && j == i
  {
    hide CowEntry, Exact, TablesPrivate, LeavesPrivate, Typed, ZeroOk, RowsOk, SameReserved;
    var m1 := Demand(m, t, i);
    DemandAccounted(m, held, t, i);
    DemandLeafKept(m, held, t, i);
    CowLeafFault(m1, held, t, i, m');
    var e := m'.tab[t][i];
    assert m1.tab[t][i := e] == m.tab[t][i := e];
    assert m1.tab[t := m.tab[t][i := e]] == m.tab[t := m.tab[t][i := e]];
    SameViewsTrans(m, m1, m');
  }

  lemma SameViewsTrans(m: Memory, m1: Memory, m': Memory)
    requires SameViews(m, m1) && SameViews(m1, m')
    ensures SameViews(m, m')
  {
    forall s: nat, q: seq<nat> | s < m.Spaces() && m.Path(q)
      ensures View(m', s, q) == View(m, s, q) && (Sealed(m', s, q) <==> Sealed(m, s, q))
    {
      assert View(m1, s, q) == View(m, s, q) && View(m', s, q) == View(m1, s, q);
    }
  }

  lemma CowLeafFault(m: Memory, held: seq<nat>, t: nat, i: nat, m': Memory)
    requires Accounted(m, held) && Slot(m, t, i) && m.level[t] == 1 && Owns(m.tab[t][i]) && !m.tab[t][i].softRo
    requires CowEntry(m, t, i) == Ok(m')
    ensures Kept(m, m', held) && SameViews(m, m')
    ensures Owns(m'.tab[t][i]) && m'.tab[t][i].hw && m'.tab == m.tab[t := m.tab[t][i := m'.tab[t][i]]]
    ensures m'.level == m.level
    ensures forall u: nat, j: nat {:trigger OwnedAt(m', u, j, m'.tab[t][i].page)} ::
      OwnedAt(m', u, j, m'.tab[t][i].page) ==> u == t && j == i
  {
    hide RowsOk, SameReserved;
    CowEntryAccounted(m, held, t, i);
    if RefCount(m.refs, m.zero, m.tab[t][i].page) == 1 {
      SetWritableKept(m, held, t, i);
      SameLeavesViews(m, m');
    } else {
      CowLeafKept(m, held, t, i);
      CowLeafTabs(m, held, t, i);
    }
    forall u: nat, j: nat | OwnedAt(m', u, j, m'.tab[t][i].page) ensures u == t && j == i {
      if RefCount(m.refs, m.zero, m.tab[t][i].page) == 1 {
        SoleOwner(m', held, t, i, u, j, m'.tab[t][i].page);
      }
    }
  }

  /** All faults of a store at `q` are served: nobody noticed, and `q` is open and private. */
  ghost predicate Served(m: Memory, m': Memory, held: seq<nat>, s: nat, q: seq<nat>)
    requires Shape(m) && m.Path(q)
  {
    && Kept(m, m', held) && SameViews(m, m')
    && Chain(m', s, q, m.depth - 1) && m'.Leaf(s, q).present && m'.Leaf(s, q).hw
    && (Owns(m'.Leaf(s, q)) <==> !m.Leaf(s, q).present || Owns(m.Leaf(s, q)))
    && (forall q': seq<nat> {:trigger Aliased(m', s, q, q')} :: m.Path(q') && q' != q && Aliased(m', s, q, q') ==>
         Aliased(m, s, q, q'))
    && (forall s': nat, q': seq<nat> {:trigger m'.Leaf(s', q')} ::
         s' < m.Spaces() && m.Path(q') && (s' != s || q' != q) ==>
          HwEq(m.Leaf(s', q'), m'.Leaf(s', q')))
  }

  lemma AlreadyOpen(m: Memory, held: seq<nat>, s: nat, q: seq<nat>)
    requires Accounted(m, held) && s < m.Spaces() && m.Path(q) && HwOpen(m, s, q, m.depth)
    ensures Served(m, m, held, s, q)
  {
    HwOpenChain(m, held, s, q, m.depth - 1);
  }

  /** No other path, of this space or another, ends in a leaf slot of a private table. */
  lemma DistinctSlots(m: Memory, held: seq<nat>, s: nat, q: seq<nat>, s': nat, q': seq<nat>)
    requires Accounted(m, held) && s < m.Spaces() && s' < m.Spaces() && m.Path(q) && m.Path(q') && (s' != s || q' != q)
    requires Chain(m, s, q, m.depth - 1)
    ensures m.Walk(s', q', m.depth - 1) != m.Walk(s, q, m.depth - 1) || q'[m.depth - 1] != q[m.depth - 1]
  {
    var k := m.depth - 1;
    assert q == q[..k] + [q[k]] && q' == q'[..k] + [q'[k]];
    if m.Walk(s', q', k) == m.Walk(s, q, k) && q'[k] == q[k] {
      ChainUnique(m, held, s, q, k, s', q', k);
      assert false;
    }
  }

  /** An alias that survives the leaf fault was one before. */
  lemma AliasBefore(m: Memory, s: nat, q: seq<nat>, q': seq<nat>, t: nat, i: nat, m': Memory)
    requires Shape(m) && ZeroOk(m) && Typed(m) && s < m.Spaces() && m.Path(q) && m.Path(q')
    requires m.Walk(s, q, m.depth - 1) == Some(t) && i == q[m.depth - 1] && Slot(m, t, i) && SameShape(m, m')
    requires LeafWritten(m, m', t, i, m'.tab[t][i]) && SoleOrSame(m, m', t, i) && m'.level == m.level
    requires m.Walk(s, q', m.depth - 1) != Some(t) || q'[m.depth - 1] != i
    requires Aliased(m', s, q, q')
    ensures Aliased(m, s, q, q')
  {
    hide Typed, RowsOk, SameReserved;
    var k := m.depth - 1;
    LeafAfter(m, m', t, i, m'.tab[t][i], s, q);
    LeafAfter(m, m', t, i, m'.tab[t][i], s, q');
    WalkTyped(m, s, q', k);
    assert OwnedAt(m', m.Walk(s, q', k).value, q'[k], m'.tab[t][i].page);
  }

  lemma ServeFaults(m: Memory, held: seq<nat>, s: nat, q: seq<nat>, m': Memory)
    requires Accounted(m, held) && s < m.Spaces() && m.Path(q) && Grantable(m.Leaf(s, q))
    requires Prep(m, s, q, m.depth) == Ok(m')
    ensures Served(m, m', held, s, q)
  {
    hide PrepSlot;
    var k := m.depth - 1;
    var m1 := PrepUnfold(m, s, q, m.depth, m');
    PrepTables(m, held, s, q, k, m1);
    ServeLeaf(m, m1, held, s, q, m');
  }

  lemma ServeLeaf(m: Memory, m1: Memory, held: seq<nat>, s: nat, q: seq<nat>, m': Memory)
    requires Shape(m) && s < m.Spaces() && m.Path(q) && Grantable(m.Leaf(s, q))
    requires Kept(m, m1, held) && SameLeaves(m, m1) && m1.dat == m.dat && Open(m1, s, q, m.depth - 1)
    requires m1.Walk(s, q, m.depth - 1).Some? && Slot(m1, m1.Walk(s, q, m.depth - 1).value, q[m.depth - 1])
    requires PrepSlot(m1, m1.Walk(s, q, m.depth - 1).value, q[m.depth - 1]) == Ok(m')
    ensures Served(m, m', held, s, q)
  {
    hide PrepSlot, Exact, TablesPrivate, LeavesPrivate, Typed, RowsOk, SameReserved;
    var k := m.depth - 1;
    var t := m1.Walk(s, q, k).value;
    assert HwEq(m.Leaf(s, q), m1.Leaf(s, q));
    OpenWalk(m1, s, q, k);
    OpenChain(m1, held, s, q, k);
    LeafFault(m1, held, t, q[k], m');
    SameLeavesViews(m, m1);
    SameViewsTrans(m, m1, m');
    OpenAbove(m1, m', s, q, k, 1);
    OpenChain(m', held, s, q, k);
    WalkUpper(m1, m', s, q, k);
    forall q': seq<nat> | m.Path(q') && q' != q && Aliased(m', s, q, q') ensures Aliased(m, s, q, q') {
      DistinctSlots(m1, held, s, q, s, q');
      AliasBefore(m1, s, q, q', t, q[k], m');
      assert HwEq(m.Leaf(s, q'), m1.Leaf(s, q'));
    }
    forall s': nat, q': seq<nat> | s' < m.Spaces() && m.Path(q') && (s' != s || q' != q)
      ensures HwEq(m.Leaf(s', q'), m'.Leaf(s', q'))
    {
      DistinctSlots(m1, held, s, q, s', q');
      LeafAfter(m1, m', t, q[k], m'.tab[t][q[k]], s', q');
      assert HwEq(m.Leaf(s', q'), m1.Leaf(s', q'));
    }
  }

  /** The page a space observes at `q` is ordinary memory it may write. */
  predicate Writable(m: Memory, s: nat, q: seq<nat>)
    requires |q| == m.depth && m.depth >= 1
  {
    View(m, s, q).Ram? && !Sealed(m, s, q)
  }

  /** A store never shows in another space; in its own it changes the byte it addresses, at
      that page and at most at pages that were the same storage already. */
  ghost predicate StoreEffect(m: Memory, m': Memory, s: nat, q: seq<nat>, off: nat, b: bv8)
    requires Shape(m) && m.Path(q) && off < PAGE_SIZE
  {
    && SameShape(m, m')
    && (forall s': nat, q': seq<nat> {:trigger View(m', s', q')} :: s' < m.Spaces() && m.Path(q') && s' != s ==>
          View(m', s', q') == View(m, s', q'))
    && (forall s': nat, q': seq<nat> {:trigger Sealed(m', s', q')} :: s' < m.Spaces() && m.Path(q') ==>
          (Sealed(m', s', q') <==> Sealed(m, s', q')))
    && (forall q': seq<nat> {:trigger View(m', s, q')} :: m.Path(q') && q' != q ==>
          View(m', s, q') == View(m, s, q') || (Aliased(m, s, q, q') && View(m', s, q') == View(m', s, q)))
    && (if Writable(m, s, q) then
          |View(m, s, q).bytes| == PAGE_SIZE && View(m', s, q) == Ram(View(m, s, q).bytes[off := b])
        else View(m', s, q) == View(m, s, q))
  }

  /** The write itself, once every fault is served. */
  lemma ServedWrite(m: Memory, m1: Memory, held: seq<nat>, s: nat, q: seq<nat>, off: nat, b: bv8)
    requires Shape(m) && s < m.Spaces() && m.Path(q) && off < PAGE_SIZE
    requires Served(m, m1, held, s, q) && LeavesPrivate(m) && Writable(m, s, q) && Owns(m1.Leaf(s, q))
    ensures m1.Leaf(s, q).page < |m1.refs| && Isolated(Write(m1, m1.Leaf(s, q).page, off, b), held)
    ensures StoreEffect(m, Write(m1, m1.Leaf(s, q).page, off, b), s, q, off, b)
  {
    hide Exact, TablesPrivate, LeavesPrivate, Typed, ZeroOk, Chain;
    WriteThrough(m1, held, s, q, off, b);
    var p := m1.Leaf(s, q).page;
    var m' := Write(m1, p, off, b);
    assert View(m1, s, q) == View(m, s, q);
    forall s': nat, q': seq<nat> | s' < m.Spaces() && m.Path(q')
      ensures Sealed(m', s', q') <==> Sealed(m, s', q')
      ensures s' != s ==> View(m', s', q') == View(m, s', q')
      ensures s' == s && q' != q ==>
        View(m', s, q') == View(m, s, q') || (Aliased(m, s, q, q') && View(m', s, q') == View(m', s, q))
    {
      assert m'.Leaf(s', q') == m1.Leaf(s', q') && View(m1, s', q') == View(m, s', q');
      if Owns(m1.Leaf(s', q')) && m1.Leaf(s', q').page == p {
        WritableFrameIsPrivate(m1, held, s, q, s', q');
        assert q' != q ==> Aliased(m1, s, q, q');
      }
    }
  }

  lemma NoWrite(m: Memory, m': Memory, s: nat, q: seq<nat>, off: nat, b: bv8)
    requires Shape(m) && s < m.Spaces() && m.Path(q) && off < PAGE_SIZE && SameViews(m, m') && !Writable(m, s, q)
    ensures StoreEffect(m, m', s, q, off, b)
  {
    forall s': nat, q': seq<nat> | s' < m.Spaces() && m.Path(q') ensures Sealed(m', s', q') <==> Sealed(m, s', q') {
      assert View(m', s', q') == View(m, s', q');
    }
  }

  /** Metal isolation, one store: whatever faults it takes, a store in one space is invisible
      in every other and does in its own exactly what it says. */
  lemma StoreCorrect(m: Memory, held: seq<nat>, s: nat, q: seq<nat>, off: nat, b: bv8, m': Memory)
    requires Isolated(m, held) && s < m.Spaces() && m.Path(q) && off < PAGE_SIZE
    requires Store(m, s, q, off, b) == Ok(m')
    ensures Isolated(m', held) && StoreEffect(m, m', s, q, off, b)
  {
    hide Exact, TablesPrivate, LeavesPrivate, Typed, ZeroOk, Prep;
    if !Grantable(m.Leaf(s, q)) {
      NoWrite(m, m, s, q, off, b);
    } else {
      var m1 := if HwOpen(m, s, q, m.depth) then m else Prep(m, s, q, m.depth).value;
      if HwOpen(m, s, q, m.depth) { AlreadyOpen(m, held, s, q); } else { ServeFaults(m, held, s, q, m1); }
      if Owns(m1.Leaf(s, q)) { ServedWrite(m, m1, held, s, q, off, b); } else { NoWrite(m, m1, s, q, off, b); }
    }
  }
}
