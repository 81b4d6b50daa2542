/** Copy-on-write and demand paging are invisible: every space keeps seeing what it saw. */
module MetalViews {
  import opened Outcomes
  import opened PhysMm
  import opened ArchContract
  import opened MetalMemory
  import opened MetalOps
  import opened MetalCounts
  import opened MetalAccounting
  import opened MetalCow
  import opened MetalWalks

  /** The entries differ in the hardware write bit at most. */
  predicate HwEq(e: Entry, e': Entry) {
    e'.(hw := e.hw) == e
  }

  /** A mapping the space may not write: a semantically read-only page. */
  predicate Sealed(m: Memory, s: nat, q: seq<nat>)
    requires |q| == m.depth && m.depth >= 1
  {
    m.Leaf(s, q).present && m.Leaf(s, q).softRo
  }

  /** Every space observes the same contents and permissions. */
  ghost predicate SameViews(m: Memory, m': Memory) {
    && SameShape(m, m')
    && m.depth >= 1
    && forall s: nat, q: seq<nat> {:trigger View(m', s, q)} :: s < m.Spaces() && m.Path(q) ==>
         View(m', s, q) == View(m, s, q) && (Sealed(m', s, q) <==> Sealed(m, s, q))
  }

  /** Every leaf entry of every space is the same up to its write bit. */
  ghost predicate SameLeaves(m: Memory, m': Memory) {
    && SameShape(m, m')
    && m.depth >= 1
    && forall s: nat, q: seq<nat> {:trigger m'.Leaf(s, q)} :: s < m.Spaces() && m.Path(q) ==>
         HwEq(m.Leaf(s, q), m'.Leaf(s, q))
  }

  lemma SameLeavesViews(m: Memory, m': Memory)
    requires SameLeaves(m, m') && m'.dat == m.dat
    ensures SameViews(m, m')
  {
    forall s: nat, q: seq<nat> | s < m.Spaces() && m.Path(q)
      ensures View(m', s, q) == View(m, s, q) && (Sealed(m', s, q) <==> Sealed(m, s, q))
    {
      assert HwEq(m.Leaf(s, q), m'.Leaf(s, q));
    }
  }

  /** Table `x` may have been replaced by its copy `p`; otherwise only write bits differ. */
  ghost predicate Similar(m: Memory, m': Memory, x: nat, p: nat)
    requires Shape(m)
  {
    && SameShape(m, m')
    && p < |m.refs|
    && forall a: nat, i: nat {:trigger m.tab[a][i]} ::
         a < |m.tab| && i < |m.tab[a]| && (m.level[a] > 0 || a == m.zero) ==>
         && Follows(m, a, m.tab[a][i], m'.tab[a][i], x, p)
         && (a == x ==> Follows(m, a, m.tab[a][i], m'.At(p, i), x, p))
  }

  predicate Follows(m: Memory, a: nat, e: Entry, e': Entry, x: nat, p: nat)
    requires a < |m.level|
  {
    HwEq(e, e') || (m.level[a] >= 2 && e.present && e'.present && e.page == x && e'.page == p)
  }

  /** The same walk, with `p` standing in for `x` where the copy was installed. */
  lemma {:induction false} WalkSimilar(m: Memory, m': Memory, x: nat, p: nat, s: nat, q: seq<nat>, k: nat)
    requires Shape(m) && ZeroOk(m) && Typed(m) && Similar(m, m', x, p)
    requires s < m.Spaces() && m.Path(q) && k < m.depth
    ensures m'.Walk(s, q, k).Some? <==> m.Walk(s, q, k).Some?
    ensures m.Walk(s, q, k).Some? ==>
      m'.Walk(s, q, k) == m.Walk(s, q, k) || (m.Walk(s, q, k) == Some(x) && m'.Walk(s, q, k) == Some(p))
  {
    if k > 0 {
      WalkSimilar(m, m', x, p, s, q, k - 1);
      if m.Walk(s, q, k - 1).Some? {
        WalkTyped(m, s, q, k - 1);
        var a := m.Walk(s, q, k - 1).value;
        assert Follows(m, a, m.tab[a][q[k - 1]], m'.tab[a][q[k - 1]], x, p);
      }
    }
  }

  lemma LeafSimilar(m: Memory, m': Memory, x: nat, p: nat, s: nat, q: seq<nat>)
    requires Shape(m) && ZeroOk(m) && Typed(m) && Similar(m, m', x, p) && s < m.Spaces() && m.Path(q)
    ensures HwEq(m.Leaf(s, q), m'.Leaf(s, q))
  {
    var k := m.depth - 1;
    WalkSimilar(m, m', x, p, s, q, k);
    if m.Walk(s, q, k).Some? {
      WalkTyped(m, s, q, k);
      var a := m.Walk(s, q, k).value;
      assert Follows(m, a, m.tab[a][q[k]], m'.tab[a][q[k]], x, p);
    }
  }

  lemma SimilarLeaves(m: Memory, m': Memory, x: nat, p: nat)
    requires Shape(m) && ZeroOk(m) && Typed(m) && Similar(m, m', x, p)
    ensures SameLeaves(m, m')
  {
    forall s: nat, q: seq<nat> | s < m.Spaces() && m.Path(q) ensures HwEq(m.Leaf(s, q), m'.Leaf(s, q)) {
      LeafSimilar(m, m', x, p, s, q);
    }
  }

  lemma ReachSimilar(m: Memory, m': Memory, x: nat, p: nat, s: nat, t: nat)
    requires Shape(m) && ZeroOk(m) && Typed(m) && Similar(m, m', x, p)
    ensures Reaches(m, s, t) && t != x ==> Reaches(m', s, t)
    ensures Reaches(m', s, t) ==> Reaches(m, s, t) || (t == p && Reaches(m, s, x))
  {
    var k := m.depth - 1;
    if Reaches(m, s, t) && t != x {
      var q :| m.Path(q) && m.Walk(s, q, k) == Some(t);
      WalkSimilar(m, m', x, p, s, q, k);
      assert m'.Path(q) && m'.Walk(s, q, k) == Some(t);
    }
    if Reaches(m', s, t) {
      var q :| m'.Path(q) && m'.Walk(s, q, k) == Some(t);
      assert m.Path(q);
      WalkSimilar(m, m', x, p, s, q, k);
    }
  }

  /** What copying table `x` into frame `p` leaves: two read-only rows and one redirected slot. */
  ghost predicate TableCopied(m: Memory, m': Memory, n: nat, i: nat, x: nat, p: nat)
    requires Shape(m) && Slot(m, n, i)
  {
    && SameShape(m, m')
    && x == m.tab[n][i].page && m.tab[n][i].present && m.level[n] >= 2
    && x < |m.refs| && p < |m.refs| && p != x && p != n && x != n && p != m.zero && m.level[p] == 0
    && (x == m.zero || m.level[x] == m.level[n] - 1)
    && m'.dat == m.dat && m'.level == m.level[p := m.level[n] - 1]
    && m'.tab == m.tab[x := ReadOnlyRow(m.tab[x])][p := ReadOnlyRow(m.tab[x])]
         [n := m.tab[n][i := NewEntry(p, true, m.tab[n][i].user)]]
  }

  lemma CowTableCopies(m: Memory, held: seq<nat>, n: nat, i: nat)
    requires Accounted(m, held) && Slot(m, n, i) && m.level[n] >= 2 && Owns(m.tab[n][i])
    requires RefCount(m.refs, m.zero, m.tab[n][i].page) != 1 && CowTable(m, n, i).Ok?
    ensures Alloc(m).Ok? && TableCopied(m, CowTable(m, n, i).value, n, i, m.tab[n][i].page, Alloc(m).value.1)
  {
    hide RowRefs, TablesPrivate, Exact;
    var e := m.tab[n][i];
    assert EntryOk(m, m.level[n], e);
    FreeFrame(m, held, Alloc(m).value.1);
    var m1 := Alloc(m).value.0;
    ShareRowCounts(m1.refs, m.zero, m.tab[e.page], |m.tab[e.page]|);
  }

  lemma CopiedSimilar(m: Memory, m': Memory, n: nat, i: nat, x: nat, p: nat)
    requires Shape(m) && ZeroOk(m) && Slot(m, n, i) && TableCopied(m, m', n, i, x, p)
    ensures Similar(m, m', x, p)
  {
  }

  lemma CopiedKept(m: Memory, m': Memory, n: nat, i: nat, x: nat, p: nat)
    requires Shape(m) && ZeroOk(m) && Typed(m) && Slot(m, n, i) && TableCopied(m, m', n, i, x, p)
    ensures LeavesPrivate(m) ==> LeavesPrivate(m')
  {
    hide Typed, Similar, Reaches;
    CopiedSimilar(m, m', n, i, x, p);
    forall t: nat, a: nat, u: nat, b: nat, s: nat |
      LeavesPrivate(m) && SharesWritable(m', t, a, u, b) && Reaches(m', s, u)
      ensures Reaches(m', s, t)
    {
      assert t != x && t != p;
      var u0 := if u == p then x else u;
      assert SharesWritable(m, t, a, u0, b);
      ReachSimilar(m, m', x, p, s, u);
      UnreachedFrame(m, s, p);
      ReachSimilar(m, m', x, p, s, t);
    }
  }

  /** A frame that is not a table is not reached as one. */
  lemma UnreachedFrame(m: Memory, s: nat, p: nat)
    requires Shape(m) && ZeroOk(m) && Typed(m) && p < |m.refs| && p != m.zero && m.level[p] == 0
    ensures !Reaches(m, s, p)
  {
    if Reaches(m, s, p) {
      var q :| m.Path(q) && m.Walk(s, q, m.depth - 1) == Some(p);
      WalkTyped(m, s, q, m.depth - 1);
    }
  }

  lemma SetWritableKept(m: Memory, held: seq<nat>, n: nat, i: nat)
    requires Accounted(m, held) && Slot(m, n, i) && m.level[n] > 0 && Owns(m.tab[n][i])
    requires RefCount(m.refs, m.zero, m.tab[n][i].page) == 1
    ensures SameLeaves(m, SetEntry(m, n, i, m.tab[n][i].(hw := true)))
    ensures LeavesPrivate(m) ==> LeavesPrivate(SetEntry(m, n, i, m.tab[n][i].(hw := true)))
  {
    var m' := SetEntry(m, n, i, m.tab[n][i].(hw := true));
    assert Similar(m, m', m.zero, m.zero);
    SimilarLeaves(m, m', m.zero, m.zero);
    forall t: nat, a: nat, u: nat, b: nat, s: nat |
      LeavesPrivate(m) && SharesWritable(m', t, a, u, b) && Reaches(m', s, u)
      ensures Reaches(m', s, t)
    {
      ReachSimilar(m, m', m.zero, m.zero, s, u);
      ReachSimilar(m, m', m.zero, m.zero, s, t);
      if t == n && a == i {
        SoleOwner(m, held, t, a, u, b, m.tab[n][i].page);
      } else {
        assert SharesWritable(m, t, a, u, b);
      }
    }
  }

  /** The tables above the last level are the same, write bits included. */
  ghost predicate UpperSame(m: Memory, m': Memory)
    requires Shape(m)
  {
    && SameShape(m, m')
    && forall a: nat {:trigger m'.tab[a]} :: a < |m.tab| && (m.level[a] >= 2 || a == m.zero) ==> m'.tab[a] == m.tab[a]
  }

  lemma {:induction false} WalkUpper(m: Memory, m': Memory, s: nat, q: seq<nat>, k: nat)
    requires Shape(m) && ZeroOk(m) && Typed(m) && UpperSame(m, m')
    requires s < m.Spaces() && m.Path(q) && k < m.depth
    ensures m'.Walk(s, q, k) == m.Walk(s, q, k)
  {
    if k > 0 {
      WalkUpper(m, m', s, q, k - 1);
      if m.Walk(s, q, k - 1).Some? { WalkTyped(m, s, q, k - 1); }
    }
  }

  lemma ReachUpper(m: Memory, m': Memory, s: nat, t: nat)
    requires Shape(m) && ZeroOk(m) && Typed(m) && UpperSame(m, m')
    ensures Reaches(m', s, t) <==> Reaches(m, s, t)
  {
    var k := m.depth - 1;
    if Reaches(m, s, t) {
      var q :| m.Path(q) && m.Walk(s, q, k) == Some(t);
      WalkUpper(m, m', s, q, k);
      assert m'.Path(q);
    }
    if Reaches(m', s, t) {
      var q :| m'.Path(q) && m'.Walk(s, q, k) == Some(t);
      assert m.Path(q);
      WalkUpper(m, m', s, q, k);
    }
  }

  /** `m'` is `m` with slot `i` of the last-level table `n` set to `e` (counts and data may differ). */
  ghost predicate LeafWritten(m: Memory, m': Memory, n: nat, i: nat, e: Entry)
    requires Shape(m)
  {
    && Slot(m, n, i) && m.level[n] == 1
    && SameShape(m, m')
    && m'.tab == m.tab[n := m.tab[n][i := e]]
  }

  lemma LeafAfter(m: Memory, m': Memory, n: nat, i: nat, e: Entry, s: nat, q: seq<nat>)
    requires Shape(m) && ZeroOk(m) && Typed(m) && LeafWritten(m, m', n, i, e) && s < m.Spaces() && m.Path(q)
    ensures m'.Walk(s, q, m.depth - 1) == m.Walk(s, q, m.depth - 1)
    ensures m'.Leaf(s, q) == if m.Walk(s, q, m.depth - 1) == Some(n) && q[m.depth - 1] == i then e else m.Leaf(s, q)
  {
    hide Typed;
    WalkUpper(m, m', s, q, m.depth - 1);
  }

  /** `e` can stand in for the entry it displaces: same contents, or zeros for nothing. */
  ghost predicate StandsIn(m: Memory, m': Memory, n: nat, i: nat, e: Entry)
    requires Shape(m) && SameShape(m, m') && Slot(m, n, i)
  {
    && Owns(e) && e.page < |m.refs| && !e.softRo
    && var was := m.tab[n][i];
       if was.present then Owns(was) && !was.softRo && was.page < |m.refs| && m'.dat[e.page] == m.dat[was.page]
       else !was.cacheDisable && m'.dat[e.page] == Zeros()
  }

  /** The frames that last-level tables map have kept their contents. */
  ghost predicate MappedSame(m: Memory, m': Memory)
    requires Shape(m) && SameShape(m, m')
  {
    forall a: nat, b: nat {:trigger m.tab[a][b]} ::
      a < |m.tab| && m.level[a] == 1 && b < |m.tab[a]| && Owns(m.tab[a][b]) && m.tab[a][b].page < |m.refs|
      ==> m'.dat[m.tab[a][b].page] == m.dat[m.tab[a][b].page]
  }

  lemma LeafWrittenView(m: Memory, m': Memory, n: nat, i: nat, e: Entry, s: nat, q: seq<nat>)
    requires Shape(m) && ZeroOk(m) && Typed(m) && LeafWritten(m, m', n, i, e)
    requires StandsIn(m, m', n, i, e) && MappedSame(m, m') && s < m.Spaces() && m.Path(q)
    ensures View(m', s, q) == View(m, s, q) && (Sealed(m', s, q) <==> Sealed(m, s, q))
  {
    hide Typed;
    LeafAfter(m, m', n, i, e, s, q);
    var t := m.Walk(s, q, m.depth - 1);
    if t.Some? { WalkTyped(m, s, q, m.depth - 1); }
  }

  lemma LeafWrittenViews(m: Memory, m': Memory, n: nat, i: nat, e: Entry)
    requires Shape(m) && ZeroOk(m) && Typed(m) && LeafWritten(m, m', n, i, e)
    requires StandsIn(m, m', n, i, e) && MappedSame(m, m')
    ensures SameViews(m, m')
  {
    forall s: nat, q: seq<nat> | s < m.Spaces() && m.Path(q)
      ensures View(m', s, q) == View(m, s, q) && (Sealed(m', s, q) <==> Sealed(m, s, q))
    {
      LeafWrittenView(m, m', n, i, e, s, q);
    }
  }

  lemma CowLeafTabs(m: Memory, held: seq<nat>, n: nat, i: nat)
    requires Accounted(m, held) && Slot(m, n, i) && m.level[n] == 1 && Owns(m.tab[n][i]) && CowLeaf(m, n, i).Ok?
    ensures var p, m' := Alloc(m).value.1, CowLeaf(m, n, i).value;
      && p < |m.refs| && Unowned(m, p) && p != m.zero
      && LeafWritten(m, m', n, i, NewEntry(p, true, m.tab[n][i].user))
      && m.tab[n][i].page < |m.refs| && m'.dat == m.dat[p := m.dat[m.tab[n][i].page]]
      && forall f: nat {:trigger m'.level[f]} :: f < |m.level| && m.level[f] > 0 ==> m'.level[f] == m.level[f]
    ensures forall f: nat {:trigger CowLeaf(m, n, i).value.level[f]} ::
      f < |m.level| && CowLeaf(m, n, i).value.level[f] > 0 ==>
        CowLeaf(m, n, i).value.level[f] == m.level[f]
  {
    var e := m.tab[n][i];
    assert EntryOk(m, m.level[n], e);
    FreeFrame(m, held, Alloc(m).value.1);
  }

  lemma CowLeafKept(m: Memory, held: seq<nat>, n: nat, i: nat)
    requires Accounted(m, held) && Slot(m, n, i) && m.level[n] == 1 && Owns(m.tab[n][i]) && !m.tab[n][i].softRo
    requires CowLeaf(m, n, i).Ok?
    ensures SameViews(m, CowLeaf(m, n, i).value) && (LeavesPrivate(m) ==> LeavesPrivate(CowLeaf(m, n, i).value))
  {
    var p := Alloc(m).value.1;
    var m' := CowLeaf(m, n, i).value;
    var e := NewEntry(p, true, m.tab[n][i].user);
    CowLeafTabs(m, held, n, i);
    LeafWrittenViews(m, m', n, i, e);
    forall t: nat, a: nat, u: nat, b: nat, s: nat |
      LeavesPrivate(m) && SharesWritable(m', t, a, u, b) && Reaches(m', s, u)
      ensures Reaches(m', s, t)
    {
      ReachUpper(m, m', s, u);
      ReachUpper(m, m', s, t);
      if t == n && a == i {
        assert u == n && b == i;
      } else {
        assert SharesWritable(m, t, a, u, b);
      }
    }
  }

  lemma DemandLeafKept(m: Memory, held: seq<nat>, n: nat, i: nat)
    requires Accounted(m, held) && Slot(m, n, i) && m.level[n] == 1
    requires !m.tab[n][i].present && !m.tab[n][i].cacheDisable
    ensures SameViews(m, Demand(m, n, i)) && (LeavesPrivate(m) ==> LeavesPrivate(Demand(m, n, i)))
  {
    var m' := Demand(m, n, i);
    LeafWrittenViews(m, m', n, i, NewEntry(m.zero, false, true));
    forall t: nat, a: nat, u: nat, b: nat, s: nat |
      LeavesPrivate(m) && SharesWritable(m', t, a, u, b) && Reaches(m', s, u)
      ensures Reaches(m', s, t)
    {
      ReachUpper(m, m', s, u);
      ReachUpper(m, m', s, t);
      assert EntryOk(m, m.level[t], m.tab[t][a]);
      assert SharesWritable(m, t, a, u, b);
    }
  }

  /** Paging in an empty table opens walks only as far as the zero page. */
  lemma {:induction false} WalkDemand(m: Memory, n: nat, i: nat, s: nat, q: seq<nat>, k: nat)
    requires Shape(m) && ZeroOk(m) && Typed(m) && Slot(m, n, i) && m.level[n] >= 2 && !m.tab[n][i].present
    requires s < m.Spaces() && m.Path(q) && k < m.depth
    ensures m.Walk(s, q, k).Some? ==> Demand(m, n, i).Walk(s, q, k) == m.Walk(s, q, k)
    ensures m.Walk(s, q, k).None? ==> Demand(m, n, i).Walk(s, q, k) in {None, Some(m.zero)}
  {
    if k > 0 {
      WalkDemand(m, n, i, s, q, k - 1);
      if m.Walk(s, q, k - 1).Some? { WalkTyped(m, s, q, k - 1); }
    }
  }

  lemma DemandTableKept(m: Memory, held: seq<nat>, n: nat, i: nat)
    requires Accounted(m, held) && Slot(m, n, i) && m.level[n] >= 2 && !m.tab[n][i].present
    ensures SameLeaves(m, Demand(m, n, i)) && (LeavesPrivate(m) ==> LeavesPrivate(Demand(m, n, i)))
  {
    var m' := Demand(m, n, i);
    var k := m.depth - 1;
    forall s: nat, q: seq<nat> | s < m.Spaces() && m.Path(q) ensures HwEq(m.Leaf(s, q), m'.Leaf(s, q)) {
      WalkDemand(m, n, i, s, q, k);
      if m.Walk(s, q, k).Some? { WalkTyped(m, s, q, k); }
    }
    forall t: nat, a: nat, u: nat, b: nat, s: nat |
      LeavesPrivate(m) && SharesWritable(m', t, a, u, b) && Reaches(m', s, u)
      ensures Reaches(m', s, t)
    {
      assert SharesWritable(m, t, a, u, b);
      var q :| m'.Path(q) && m'.Walk(s, q, k) == Some(u);
      assert m.Path(q);
      WalkDemand(m, n, i, s, q, k);
      assert Reaches(m, s, u);
      var q' :| m.Path(q') && m.Walk(s, q', k) == Some(t);
      WalkDemand(m, n, i, s, q', k);
      assert m'.Path(q');
    }
  }
}
