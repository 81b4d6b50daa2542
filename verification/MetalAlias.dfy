/** Unmapping, device mappings, and aliasing a page inside a space. */
module MetalAlias {
  import opened Outcomes
  import opened PhysMm
  import opened ArchContract
  import opened MetalMemory
  import opened MetalOps
  import opened MetalAccounting
  import opened MetalCow
  import opened MetalWalks
  import opened MetalViews
  import opened MetalFaults
  import opened MetalStore
  import opened MetalMaps

  /** An entry that holds no reference: absent (`unmap_range`), a trap window or a device page
      (`map_user_page_phys`). */
  predicate Unowning(m: Memory, e: Entry) {
    && !Owns(e)
    && (e.present ==> e.hw && !e.softRo && e.page != m.zero && (e.page < |m.refs| ==> m.refs[e.page] == RESERVED))
  }

  lemma UnmapCorrect(m: Memory, held: seq<nat>, s: nat, q: seq<nat>, e: Entry, m': Memory)
    requires Accounted(m, held) && s < m.Spaces() && m.Path(q) && Unowning(m, e) && Install(m, s, q, e) == Ok(m')
    ensures Kept(m, m', held) && OtherLeaves(m, m', s, q) && m'.Leaf(s, q) == e && m'.dat == m.dat
  {
    hide Exact, LeavesPrivate, Typed, ZeroOk, TablesPrivate, Install, Replace;
    HeldSize(m, held);
    var m1, t := InstallReady(m, held, s, q, e, m');
    InstallAccounted(m, m1, held, s, q, t, e, m');
    if LeavesPrivate(m) {
      OpenChain(m1, held, s, q, m.depth - 1);
      ReplaceLeafTabs(m1, held, t, q[m.depth - 1], e, m');
      InstallLeaves(m1, held, s, q, t, e, m');
    }
  }

  /** When the page is there, reading its entry takes no fault. */
  lemma {:induction false} TouchPresent(m: Memory, held: seq<nat>, s: nat, q: seq<nat>, k: nat)
    requires Accounted(m, held) && s < m.Spaces() && m.Path(q) && k < m.depth && m.Walk(s, q, k).Some?
    ensures Touch(m, s, q, k) == Ok(m)
  {
    hide RowsOk, SameReserved;
    if k > 0 {
      TouchPresent(m, held, s, q, k - 1);
      WalkTyped(m, s, q, k - 1);
    }
  }

  /** Aliasing `src` is safe when its entry is not hardware-writable, or no other space maps the frame. */
  ghost predicate SafeCopy(m: Memory, s: nat, src: seq<nat>)
    requires |src| == m.depth && m.depth >= 1
  {
    Owns(m.Leaf(s, src)) && m.Leaf(s, src).hw ==> OnlyHere(m, s, m.Leaf(s, src))
  }

  /** A leaf entry is fit for any leaf slot. */
  lemma LeafIsReady(m: Memory, s: nat, q: seq<nat>)
    requires Shape(m) && ZeroOk(m) && Typed(m) && s < m.Spaces() && m.Path(q)
    ensures LeafReady(m, m.Leaf(s, q))
  {
    var k := m.depth - 1;
    if m.Walk(s, q, k).Some? {
      WalkTyped(m, s, q, k);
      var t := m.Walk(s, q, k).value;
      if t != m.zero { assert EntryOk(m, m.level[t], m.tab[t][q[k]]); }
    }
  }

  /** The entry `copy_page_entries` reads, in the state in which it reads it. */
  lemma CopySource(m: Memory, held: seq<nat>, s: nat, src: seq<nat>, m1: Memory)
    requires Accounted(m, held) && s < m.Spaces() && m.Path(src) && Touch(m, s, src, m.depth - 1) == Ok(m1)
    ensures Kept(m, m1, held) && SameLeaves(m, m1) && m1.dat == m.dat
    ensures Owns(m1.Leaf(s, src)) ==> m1 == m
    ensures Owns(m1.Leaf(s, src)) <==> Owns(m.Leaf(s, src))
    ensures LeafReady(m1, m1.Leaf(s, src))
  {
    hide Exact, LeavesPrivate, Typed, ZeroOk, TablesPrivate, Touch;
    var k := m.depth - 1;
    TouchTables(m, held, s, src, k, m1);
    assert HwEq(m.Leaf(s, src), m1.Leaf(s, src));
    if m.Walk(s, src, k).Some? { TouchPresent(m, held, s, src, k); }
    LeafIsReady(m1, s, src);
  }

  /** `retain_mapping`: tables and leaves stay. */
  lemma RetainKept(m: Memory, held: seq<nat>, e: Entry, m': Memory)
    requires Accounted(m, held) && Owns(e) && EntryOk(m, 1, e) && Retain(m, e.page) == Ok(m')
    ensures Kept(m, m', Hold(held, e)) && LeafReady(m', e) && SameLeaves(m, m') && m'.dat == m.dat
    ensures forall s: nat, q: seq<nat> :: s < m.Spaces() && m.Path(q) ==> m'.Leaf(s, q) == m.Leaf(s, q)
  {
    hide Exact, Typed, ZeroOk, TablesPrivate, Retain, EntryOk, RowsOk, SameReserved;
    RetainAccounted(m, held, e);
    assert m'.tab == m.tab && m'.level == m.level && m'.dat == m.dat by { RetainTabs(m, e.page); }
    assert LeafReady(m', e) by { RetainReady(m, held, e, m'); }
    forall s: nat, q: seq<nat> | s < m.Spaces() && m.Path(q) ensures m'.Leaf(s, q) == m.Leaf(s, q) {
      WalkUpper(m, m', s, q, m.depth - 1);
    }
    forall t: nat, a: nat, u: nat, b: nat, s: nat |
      LeavesPrivate(m) && SharesWritable(m', t, a, u, b) && Reaches(m', s, u)
      ensures Reaches(m', s, t)
    {
      assert SharesWritable(m, t, a, u, b);
      ReachUpper(m, m', s, u);
      ReachUpper(m, m', s, t);
    }
  }

  lemma RetainTabs(m: Memory, p: nat)
    requires Shape(m) && Retain(m, p).Ok?
    ensures var m' := Retain(m, p).value; m'.tab == m.tab && m'.level == m.level && m'.dat == m.dat
  {
  }

  lemma RetainReady(m: Memory, held: seq<nat>, e: Entry, m': Memory)
    requires Accounted(m, held) && Owns(e) && EntryOk(m, 1, e) && Retain(m, e.page) == Ok(m')
    ensures EntryOk(m', 1, e)
  {
  }

  /** A space reaches every table that can write a frame the space maps. */
  lemma MapsReachWriters(m: Memory, s: nat, q: seq<nat>, e: Entry)
    requires Shape(m) && ZeroOk(m) && Typed(m) && LeavesPrivate(m) && s < m.Spaces() && m.Path(q)
    requires Owns(m.Leaf(s, q)) && m.Leaf(s, q).page == e.page
    ensures ReachesWriters(m, s, e)
  {
    hide Typed;
    WalkTyped(m, s, q, m.depth - 1);
    var u := m.Walk(s, q, m.depth - 1).value;
    assert Reaches(m, s, u);
    forall t: nat, i: nat | t < |m.tab| && m.level[t] == 1 && i < |m.tab[t]| && Owns(m.tab[t][i]) && m.tab[t][i].hw &&
      m.tab[t][i].page == e.page
      ensures Reaches(m, s, t)
    {
      assert SharesWritable(m, t, i, u, q[m.depth - 1]);
    }
  }

  lemma OnlyHereSame(m: Memory, m': Memory, s: nat, e: Entry)
    requires SameLeaves(m, m') && OnlyHere(m, s, e)
    ensures OnlyHere(m', s, e)
  {
    forall s': nat, q': seq<nat> | s' < m'.Spaces() && m'.Path(q') && s' != s && Owns(m'.Leaf(s', q'))
      ensures m'.Leaf(s', q').page != e.page
    {
      assert m.Path(q') && HwEq(m.Leaf(s', q'), m'.Leaf(s', q'));
    }
  }

  /** `copy_page_entries`, unfolded into its steps. */
  lemma CopySteps(m: Memory, s: nat, src: seq<nat>, dst: seq<nat>, m': Memory) returns (m1: Memory, m2: Memory)
    requires Shape(m) && s < m.Spaces() && m.Path(src) && m.Path(dst) && CopyPage(m, s, src, dst) == Ok(m')
    ensures Touch(m, s, src, m.depth - 1) == Ok(m1) && SameShape(m, m1) && SameShape(m, m2)
    ensures (if Owns(m1.Leaf(s, src)) then Retain(m1, m1.Leaf(s, src).page) else Ok(m1)) == Ok(m2)
    ensures Install(m2, s, dst, m1.Leaf(s, src)) == Ok(m')
  {
    hide Touch, Retain, Install;
    m1 := Touch(m, s, src, m.depth - 1).value;
    m2 := if Owns(m1.Leaf(s, src)) then Retain(m1, m1.Leaf(s, src).page).value else m1;
  }

  /** The state before the destination is written: the entry is held, everything else as it was. */
  lemma CopyHeld(m: Memory, held: seq<nat>, s: nat, src: seq<nat>, m1: Memory, m2: Memory)
    requires Accounted(m, held) && s < m.Spaces() && m.Path(src) && Touch(m, s, src, m.depth - 1) == Ok(m1)
    requires (if Owns(m1.Leaf(s, src)) then Retain(m1, m1.Leaf(s, src).page) else Ok(m1)) == Ok(m2)
    ensures Kept(m, m2, Hold(held, m1.Leaf(s, src))) && LeafReady(m2, m1.Leaf(s, src)) && SameLeaves(m, m2)
    ensures m2.dat == m.dat
    ensures HwEq(m.Leaf(s, src), m1.Leaf(s, src)) && m2.Leaf(s, src) == m1.Leaf(s, src)
    ensures Owns(m1.Leaf(s, src)) ==> m1.Leaf(s, src) == m.Leaf(s, src)
    ensures Owns(m1.Leaf(s, src)) <==> Owns(m.Leaf(s, src))
  {
    hide Exact, LeavesPrivate, Typed, ZeroOk, TablesPrivate, Touch, Retain;
    CopySource(m, held, s, src, m1);
    assert HwEq(m.Leaf(s, src), m1.Leaf(s, src));
    var e := m1.Leaf(s, src);
    if Owns(e) {
      RetainKept(m1, held, e, m2);
      SameLeavesTrans(m, m1, m2);
    }
  }

  /** Aliasing keeps the accounts: one leaf changes, and it now maps what `src` maps. */
  lemma CopyAccounted(m: Memory, held: seq<nat>, s: nat, src: seq<nat>, dst: seq<nat>, m': Memory)
    requires Accounted(m, held) && s < m.Spaces() && m.Path(src) && m.Path(dst) && CopyPage(m, s, src, dst) == Ok(m')
    ensures Accounted(m', held) && OtherLeaves(m, m', s, dst) && HwEq(m.Leaf(s, src), m'.Leaf(s, dst))
    ensures m'.dat == m.dat
    ensures Open(m', s, dst, m.depth - 1)
    ensures Owns(m.Leaf(s, src)) ==> m'.Leaf(s, dst) == m.Leaf(s, src)
  {
    hide Exact, LeavesPrivate, Typed, ZeroOk, TablesPrivate, Touch, Retain, Install, Replace, CopyPage;
    HeldSize(m, held);
    var m1, m2 := CopySteps(m, s, src, dst, m');
    CopyHeld(m, held, s, src, m1, m2);
    var e := m1.Leaf(s, src);
    var m3, t := InstallReady(m2, held, s, dst, e, m');
    InstallAccounted(m2, m3, held, s, dst, t, e, m');
    OtherLeavesTrans(m, m2, m', s, dst);
  }

  lemma OtherLeavesTrans(m: Memory, m1: Memory, m': Memory, s: nat, q: seq<nat>)
    requires SameLeaves(m, m1) && OtherLeaves(m1, m', s, q)
    ensures OtherLeaves(m, m', s, q)
  {
    forall s': nat, q': seq<nat> | s' < m.Spaces() && m.Path(q') && (s' != s || q' != q)
      ensures HwEq(m.Leaf(s', q'), m'.Leaf(s', q'))
    {
      assert HwEq(m.Leaf(s', q'), m1.Leaf(s', q')) && HwEq(m1.Leaf(s', q'), m'.Leaf(s', q'));
    }
  }

  lemma SafeCopyIsolates(m: Memory, held: seq<nat>, s: nat, src: seq<nat>, dst: seq<nat>, m': Memory)
    requires Isolated(m, held) && s < m.Spaces() && m.Path(src) && m.Path(dst) && CopyPage(m, s, src, dst) == Ok(m')
    requires SafeCopy(m, s, src)
    ensures LeavesPrivate(m')
  {
    hide Exact, LeavesPrivate, Typed, ZeroOk, TablesPrivate, Touch, Retain, Install, Replace, CopyPage, OnlyHere;
    hide ReachesWriters, RowsOk, SameReserved;
    HeldSize(m, held);
    var m1, m2 := CopySteps(m, s, src, dst, m');
    CopyHeld(m, held, s, src, m1, m2);
    var e := m1.Leaf(s, src);
    var m3, t := InstallReady(m2, held, s, dst, e, m');
    if Owns(e) {
      SameLeavesTrans(m, m2, m3);
      if e.hw { OnlyHereSame(m, m3, s, e); }
      assert HwEq(m2.Leaf(s, src), m3.Leaf(s, src));
      MapsReachWriters(m3, s, src, e);
    }
    OpenChain(m3, Hold(held, e), s, dst, m.depth - 1);
    ReplaceLeafTabs(m3, Hold(held, e), t, dst[m.depth - 1], e, m');
    InstallLeaves(m3, Hold(held, e), s, dst, t, e, m');
  }

  /** The two leaves at the ends of an unsafe copy. */
  lemma UnsafeCopyShares(m: Memory, held: seq<nat>, s: nat, dst: seq<nat>, s': nat, q': seq<nat>)
    requires Isolated(m, held) && s < m.Spaces() && s' < m.Spaces() && m.Path(dst) && m.Path(q')
    requires Open(m, s, dst, m.depth - 1)
    requires Owns(m.Leaf(s, dst)) && m.Leaf(s, dst).hw && Owns(m.Leaf(s', q'))
    requires m.Leaf(s', q').page == m.Leaf(s, dst).page
    ensures s' == s
  {
    hide Exact, LeavesPrivate, Typed, ZeroOk, TablesPrivate;
    OpenChain(m, held, s, dst, m.depth - 1);
    WritableFrameIsPrivate(m, held, s, dst, s', q');
  }

  /** Aliasing a page keeps the spaces apart exactly when the copy is safe. It is not when the
      source table is still shared from a fork: its entry keeps its write bit there, and the
      copy takes that bit to a slot no fault will check. */
  lemma CopyIsolatesIff(m: Memory, held: seq<nat>, s: nat, src: seq<nat>, dst: seq<nat>, m': Memory)
    requires Isolated(m, held) && s < m.Spaces() && m.Path(src) && m.Path(dst) && CopyPage(m, s, src, dst) == Ok(m')
    ensures Isolated(m', held) <==> SafeCopy(m, s, src)
  {
    hide Exact, LeavesPrivate, Typed, ZeroOk, TablesPrivate, CopyPage, Open;
    CopyAccounted(m, held, s, src, dst, m');
    if SafeCopy(m, s, src) {
      SafeCopyIsolates(m, held, s, src, dst, m');
    } else if LeavesPrivate(m') {
      var s': nat, q': seq<nat> :|
        s' < m.Spaces() && m.Path(q') && s' != s && Owns(m.Leaf(s', q')) && m.Leaf(s', q').page == m.Leaf(s, src).page;
      assert HwEq(m.Leaf(s', q'), m'.Leaf(s', q'));
      UnsafeCopyShares(m', held, s, dst, s', q');
    }
  }

  lemma {:induction false} OpenIsHwOpen(m: Memory, s: nat, q: seq<nat>, k: nat)
    requires k <= |q| && Open(m, s, q, k)
    ensures HwOpen(m, s, q, k)
  {
    if k > 0 { OpenIsHwOpen(m, s, q, k - 1); }
  }

  /** What an unsafe copy lets happen: a store at the copy shows up in another space. */
  lemma UnsafeCopyLeaks(m: Memory, held: seq<nat>, s: nat, src: seq<nat>, dst: seq<nat>, m': Memory, off: nat, b: bv8)
    returns (s': nat, q': seq<nat>, m'': Memory)
    requires Isolated(m, held) && s < m.Spaces() && m.Path(src) && m.Path(dst) && CopyPage(m, s, src, dst) == Ok(m')
    requires !SafeCopy(m, s, src) && off < PAGE_SIZE
    ensures s' != s && s' < m.Spaces() && m.Path(q') && Store(m', s, dst, off, b) == Ok(m'')
    ensures View(m, s', q').Ram? && |View(m, s', q').bytes| == PAGE_SIZE
    ensures View(m'', s', q') == Ram(View(m, s', q').bytes[off := b])
  {
    hide Exact, LeavesPrivate, Typed, ZeroOk, TablesPrivate, CopyPage, Open, HwOpen, Prep;
    CopyAccounted(m, held, s, src, dst, m');
    s', q' :| s' < m.Spaces() && m.Path(q') && s' != s && Owns(m.Leaf(s', q')) &&
      m.Leaf(s', q').page == m.Leaf(s, src).page;
    assert HwEq(m.Leaf(s', q'), m'.Leaf(s', q'));
    WrittenLeaf(m', held, s, dst);
    m'' := SharedWrite(m', held, s, dst, off, b, s', q');
  }

  /** A store that takes no fault shows at every page that maps the same frame, in any space. */
  lemma SharedWrite(m: Memory, held: seq<nat>, s: nat, q: seq<nat>, off: nat, b: bv8, s': nat,
                    q': seq<nat>) returns (m': Memory)
    requires Accounted(m, held) && s < m.Spaces() && m.Path(q) && s' < m.Spaces() && m.Path(q') && off < PAGE_SIZE
    requires HwOpen(m, s, q, m.depth) && Grantable(m.Leaf(s, q)) && Owns(m.Leaf(s, q)) && m.Leaf(s, q).page < |m.refs|
    requires Owns(m.Leaf(s', q')) && m.Leaf(s', q').page == m.Leaf(s, q).page
    ensures Store(m, s, q, off, b) == Ok(m')
    ensures View(m, s', q').Ram? && |View(m, s', q').bytes| == PAGE_SIZE
    ensures View(m', s', q') == Ram(View(m, s', q').bytes[off := b])
  {
    hide Exact, Typed, ZeroOk, TablesPrivate, HwOpen, Prep;
    m' := Write(m, m.Leaf(s, q).page, off, b);
    WalkUpper(m, m', s', q', m.depth - 1);
  }

  /** An open page with a writable leaf takes a store without a fault. */
  lemma WrittenLeaf(m: Memory, held: seq<nat>, s: nat, q: seq<nat>)
    requires Accounted(m, held) && s < m.Spaces() && m.Path(q) && Open(m, s, q, m.depth - 1) && Owns(m.Leaf(s, q))
    requires m.Leaf(s, q).hw
    ensures HwOpen(m, s, q, m.depth) && Grantable(m.Leaf(s, q)) && m.Leaf(s, q).page < |m.refs|
  {
    OpenWalk(m, s, q, m.depth - 1);
    var t := m.Walk(s, q, m.depth - 1).value;
    assert EntryOk(m, m.level[t], m.tab[t][q[m.depth - 1]]);
    OpenIsHwOpen(m, s, q, m.depth - 1);
  }
}
