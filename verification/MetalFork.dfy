/** Lazy fork: the child sees at once what the parent saw, and nobody else notices. */
module MetalFork {
  import opened Outcomes
  import opened PhysMm
  import opened MetalMemory
  import opened MetalOps
  import opened MetalCounts
  import opened MetalCow
  import opened MetalWalks
  import opened MetalViews
  import opened MetalFaults

  /** `m'` is `m` after the root of `s` was shared with a new space. */
  ghost predicate RootShared(m: Memory, m': Memory, s: nat) {
    && Shape(m) && s < m.Spaces() && ShareRow(m.refs, m.zero, m.tab[m.Root(s)], m.rootFan).Ok?
    && ShareRoot(m, s) == Ok(m')
  }

  lemma ShareRootOwners(m: Memory, m': Memory, s: nat, f: nat)
    requires RootShared(m, m', s)
    ensures Owners(m', f) == Owners(m, f) + RowRefs(m.tab[m.Root(s)], f, m.rootFan)
  {
    var n := m.Root(s);
    var row := ReadOnlyRow(m.tab[n]);
    RowRefsReadOnly(m.tab[n], f, m.rootFan);
    OwnersRow(m.tab, m.level, n, row, f, |m.tab|);
    OwnersPrefix(m.tab[n := row], m.level, m.tab[n := row] + [row], m.level + [m.depth], f, |m.tab|);
  }

  /** The frames a root owns are tables one level down, or the zero page. */
  lemma RootRowTyped(m: Memory, s: nat, f: nat)
    requires Shape(m) && Typed(m) && s < m.Spaces() && RowRefs(m.tab[m.Root(s)], f, m.rootFan) > 0
    ensures exists j :: 0 <= j < m.rootFan && Owns(m.tab[m.Root(s)][j]) && m.tab[m.Root(s)][j].page == f
    ensures f < |m.refs| && (Counted(m, f) ==> m.refs[f] >= 1 && m.level[f] == m.depth - 1)
  {
    var j := RowRefsSome(m.tab[m.Root(s)], f, m.rootFan);
    assert EntryOk(m, m.level[m.Root(s)], m.tab[m.Root(s)][j]);
  }

  lemma ShareRootExact(m: Memory, held: seq<nat>, m': Memory, s: nat)
    requires RootShared(m, m', s) && Typed(m) && Exact(m, held)
    ensures Exact(m', held)
  {
    var row := m.tab[m.Root(s)];
    ShareRowCounts(m.refs, m.zero, row, |row|);
    forall f: nat | Counted(m', f) ensures m'.refs[f] == held[f] + Owners(m', f) {
      ShareRootOwners(m, m', s, f);
      if RowRefs(row, f, |row|) > 0 { RootRowTyped(m, s, f); }
      assert Counted(m, f) && Owners(m, f) <= m.refs[f];
    }
  }

  lemma ShareRootTyped(m: Memory, m': Memory, s: nat)
    requires RootShared(m, m', s) && Typed(m) && ZeroOk(m)
    ensures Typed(m') && ZeroOk(m')
  {
    hide ShareRow;
    var row := m.tab[m.Root(s)];
    ShareRowGrows(m.refs, m.zero, row, |row|);
    forall n: nat, i: nat | n < |m'.tab| && m'.level[n] > 0 && i < |m'.tab[n]|
      ensures EntryOk(m', m'.level[n], m'.tab[n][i])
    {
      var n0 := if n == |m.tab| then m.Root(s) else n;
      assert EntryOk(m, m.level[n0], m.tab[n0][i]);
    }
  }

  /** Sharing a root leaves no shared table writable (PAE's stronger demand comes from its loop). */
  lemma ShareRootPrivate(m: Memory, held: seq<nat>, m': Memory, s: nat)
    requires RootShared(m, m', s) && Accounted(m, held) && !m.pae
    ensures TablesPrivate(m')
  {
    hide ShareRow, RowRefs;
    var row := m.tab[m.Root(s)];
    ShareRowCounts(m.refs, m.zero, row, |row|);
    forall n: nat, i: nat | n < |m'.tab| && m'.level[n] > 0 && i < |m'.tab[n]|
      ensures PrivateOk(m', n, m'.tab[n][i])
    {
      if n < |m.tab| && n != m.Root(s) {
        var f := m.tab[n][i].page;
        assert EntryOk(m, m.level[n], m.tab[n][i]) && PrivateOk(m, n, m.tab[n][i]);
        if f < |m.refs| && f != m.zero && m.refs[f] == 1 && Owns(m.tab[n][i]) && RowRefs(row, f, |row|) > 0 {
          RootRowTyped(m, s, f);
          var j :| 0 <= j < |row| && Owns(row[j]) && row[j].page == f;
          SoleOwner(m, held, n, i, m.Root(s), j, f);
        }
      }
    }
  }

  /** The walks of the old spaces stay; the child walks like its parent. */
  lemma {:induction false} ShareRootWalk(m: Memory, m': Memory, s: nat, s': nat, q: seq<nat>, k: nat)
    requires RootShared(m, m', s) && Typed(m) && ZeroOk(m) && s' <= m.Spaces() && m.Path(q) && k < m.depth
    ensures k > 0 ==> m'.Walk(s', q, k) == m.Walk(if s' == m.Spaces() then s else s', q, k)
  {
    hide ShareRow, RowsOk, SameReserved;
    var s0 := if s' == m.Spaces() then s else s';
    if k > 0 {
      ShareRootWalk(m, m', s, s', q, k - 1);
      if m.Walk(s0, q, k - 1).Some? { WalkTyped(m, s0, q, k - 1); }
    }
  }

  lemma ShareRootLeaf(m: Memory, m': Memory, s: nat, s': nat, q: seq<nat>)
    requires RootShared(m, m', s) && Typed(m) && ZeroOk(m) && s' <= m.Spaces() && m.Path(q)
    ensures m'.Leaf(s', q) == m.Leaf(if s' == m.Spaces() then s else s', q)
  {
    hide ShareRow;
    var s0 := if s' == m.Spaces() then s else s';
    ShareRootWalk(m, m', s, s', q, m.depth - 1);
    if m.Walk(s0, q, m.depth - 1).Some? { WalkTyped(m, s0, q, m.depth - 1); }
  }

  lemma ShareRootReaches(m: Memory, m': Memory, s: nat, s': nat, t: nat)
    requires RootShared(m, m', s) && Typed(m) && ZeroOk(m)
    ensures Reaches(m', s', t) <==> s' <= m.Spaces() && Reaches(m, if s' == m.Spaces() then s else s', t)
  {
    hide ShareRow, Typed, ZeroOk, RowsOk, SameReserved;
    var k := m.depth - 1;
    if s' <= m.Spaces() {
      var s0 := if s' == m.Spaces() then s else s';
      if Reaches(m, s0, t) {
        var q :| m.Path(q) && m.Walk(s0, q, k) == Some(t);
        ShareRootWalk(m, m', s, s', q, k);
        assert m'.Path(q);
      }
      if Reaches(m', s', t) {
        var q :| m'.Path(q) && m'.Walk(s', q, k) == Some(t);
        assert m.Path(q);
        ShareRootWalk(m, m', s, s', q, k);
      }
    }
  }

  lemma ShareRootLeaves(m: Memory, m': Memory, s: nat)
    requires RootShared(m, m', s) && Typed(m) && ZeroOk(m) && LeavesPrivate(m)
    ensures LeavesPrivate(m')
  {
    hide ShareRow, Typed, ZeroOk, Reaches;
    forall t: nat, a: nat, u: nat, b: nat, s': nat | SharesWritable(m', t, a, u, b) && Reaches(m', s', u)
      ensures Reaches(m', s', t)
    {
      assert SharesWritable(m, t, a, u, b);
      ShareRootReaches(m, m', s, s', u);
      ShareRootReaches(m, m', s, s', t);
    }
  }

  lemma ShareRootKept(m: Memory, held: seq<nat>, m': Memory, s: nat)
    requires RootShared(m, m', s) && Accounted(m, held) && !m.pae
    ensures Kept(m, m', held)
  {
    ShareRootExact(m, held, m', s);
    ShareRootTyped(m, m', s);
    ShareRootPrivate(m, held, m', s);
    if LeavesPrivate(m) { ShareRootLeaves(m, m', s); }
  }

  // ---- The PAE loop ----

  /** The same memory on a processor that honours the write bit of root entries. */
  function Plain(m: Memory): Memory {
    m.(pae := false)
  }

  lemma PlainAccounted(m: Memory, held: seq<nat>)
    requires Accounted(m, held)
    ensures Accounted(Plain(m), held) && (LeavesPrivate(Plain(m)) <==> LeavesPrivate(m))
  {
    PlainLeaves(m);
    var p := Plain(m);
    forall f: nat | Counted(p, f) ensures p.refs[f] == held[f] + Owners(p, f) {
      assert Counted(m, f) && Owners(m, f) <= m.refs[f];
    }
    forall n: nat, i: nat | n < |m.tab| && m.level[n] > 0 && i < |m.tab[n]|
      ensures EntryOk(p, m.level[n], m.tab[n][i]) && PrivateOk(p, n, m.tab[n][i])
    {
      assert EntryOk(m, m.level[n], m.tab[n][i]) && PrivateOk(m, n, m.tab[n][i]);
    }
  }

  lemma {:induction false} PlainWalk(m: Memory, s: nat, q: seq<nat>, k: nat)
    requires k <= |q|
    ensures Plain(m).Walk(s, q, k) == m.Walk(s, q, k)
  {
    if k > 0 { PlainWalk(m, s, q, k - 1); }
  }

  lemma PlainReaches(m: Memory, s: nat, t: nat)
    requires m.depth >= 1
    ensures Reaches(Plain(m), s, t) <==> Reaches(m, s, t)
  {
    forall q | m.Path(q) ensures Plain(m).Walk(s, q, m.depth - 1) == m.Walk(s, q, m.depth - 1) {
      PlainWalk(m, s, q, m.depth - 1);
    }
    assert forall q :: Plain(m).Path(q) <==> m.Path(q);
  }

  lemma PlainLeaves(m: Memory)
    requires Shape(m)
    ensures LeavesPrivate(Plain(m)) <==> LeavesPrivate(m)
  {
    hide Reaches;
    var p := Plain(m);
    forall s: nat, t: nat ensures Reaches(p, s, t) <==> Reaches(m, s, t) { PlainReaches(m, s, t); }
    forall t: nat, a: nat, u: nat, b: nat, s: nat |
      SharesWritable(m, t, a, u, b) && Reaches(m, s, u) && LeavesPrivate(p)
      ensures Reaches(m, s, t)
    {
      assert SharesWritable(p, t, a, u, b) && Reaches(p, s, u);
    }
    forall t: nat, a: nat, u: nat, b: nat, s: nat |
      SharesWritable(p, t, a, u, b) && Reaches(p, s, u) && LeavesPrivate(m)
      ensures Reaches(p, s, t)
    {
      assert SharesWritable(m, t, a, u, b) && Reaches(m, s, u);
    }
  }

  lemma PlainCow(m: Memory, n: nat, i: nat)
    requires Shape(m) && Slot(m, n, i)
    ensures CowEntry(m, n, i).Ok? <==> CowEntry(Plain(m), n, i).Ok?
    ensures CowEntry(m, n, i).Ok? ==> CowEntry(Plain(m), n, i) == Ok(Plain(CowEntry(m, n, i).value))
  {
    hide ShareRow, RowsOk, SameReserved;
  }

  lemma {:induction false} PlainDeshare(m: Memory, n: nat, k: nat)
    requires Shape(m) && n < |m.tab| && k <= |m.tab[n]| && Deshare(m, n, k).Ok?
    ensures Deshare(Plain(m), n, k) == Ok(Plain(Deshare(m, n, k).value))
  {
    hide CowEntry;
    if k > 0 {
      PlainDeshare(m, n, k - 1);
      PlainCow(Deshare(m, n, k - 1).value, n, k - 1);
    }
  }

  /** A table copy moves the count of no other table of its level, and the original's by one. */
  lemma CowTopRefs(m: Memory, held: seq<nat>, n: nat, i: nat, f: nat)
    requires Accounted(m, held) && Slot(m, n, i) && m.level[n] == m.depth && Owns(m.tab[n][i])
    requires RefCount(m.refs, m.zero, m.tab[n][i].page) != 1 && CowEntry(m, n, i).Ok?
    requires Counted(m, f) && m.level[f] == m.depth - 1 && m.refs[f] >= 1
    ensures CowEntry(m, n, i).value.refs[f] == m.refs[f] - if f == m.tab[n][i].page then 1 else 0
  {
    var x := m.tab[n][i].page;
    assert EntryOk(m, m.level[n], m.tab[n][i]);
    var row := m.tab[x];
    var p := Alloc(m).value.1;
    FreeFrame(m, held, p);
    ShareRowCounts(Alloc(m).value.0.refs, m.zero, row, |row|);
    if RowRefs(row, f, |row|) > 0 { RowTyped(m, x, m.depth - 1, f); }
  }

  /** Root `r` is private: each of its tables is referenced once. */
  predicate RowPrivate(m: Memory, r: nat, lo: nat, hi: nat)
    requires r < |m.tab| && hi <= |m.tab[r]|
  {
    forall j: nat {:trigger m.tab[r][j]} :: lo <= j < hi && Owns(m.tab[r][j]) ==>
      m.tab[r][j].page == m.zero || (m.tab[r][j].page < |m.refs| && m.refs[m.tab[r][j].page] == 1)
  }

  /** Slot `j` of the child is still shared with the parent: read-only, and counted twice. */
  predicate StillShared(m: Memory, a: nat, c: nat, j: nat)
    requires a < |m.tab| && c < |m.tab| && j < |m.tab[a]| && j < |m.tab[c]|
  {
    && m.tab[a][j] == m.tab[c][j]
    && (Owns(m.tab[c][j]) ==>
          !m.tab[c][j].hw && (m.tab[c][j].page == m.zero ||
            (m.tab[c][j].page < |m.refs| && m.refs[m.tab[c][j].page] == 2)))
  }

  predicate DistinctTables(m: Memory, c: nat)
    requires c < |m.tab|
  {
    forall j: nat, j': nat {:trigger m.tab[c][j], m.tab[c][j']} ::
      j < j' < |m.tab[c]| && Owns(m.tab[c][j]) && Owns(m.tab[c][j']) && m.tab[c][j].page == m.tab[c][j'].page
      ==> m.tab[c][j].page == m.zero
  }

  /** How far the PAE loop has got after `k` slots of parent root `a`, with child root `c`. */
  ghost predicate HalfDeshared(m: Memory, a: nat, c: nat, k: nat)
    requires Shape(m)
  {
    && |m.refs| <= a < |m.tab| && |m.refs| <= c < |m.tab| && a != c && k <= m.rootFan
    && (forall r: nat {:trigger RowPrivate(m, r, 0, m.rootFan)} ::
          |m.refs| <= r < |m.tab| && r != a && r != c ==> RowPrivate(m, r, 0, m.rootFan))
    && RowPrivate(m, a, 0, k) && RowPrivate(m, c, 0, k) && DistinctTables(m, c)
    && (forall j: nat {:trigger StillShared(m, a, c, j)} :: k <= j < m.rootFan ==> StillShared(m, a, c, j))
  }

  /** Among the tables that roots own, only `x` lost a reference. */
  ghost predicate OneFewer(m: Memory, m': Memory, x: nat)
    requires Shape(m) && SameShape(m, m')
  {
    forall r: nat, j: nat {:trigger m.tab[r][j]} ::
      |m.refs| <= r < |m.tab| && j < m.rootFan && Owns(m.tab[r][j]) && m.tab[r][j].page != m.zero ==>
        m.tab[r][j].page < |m.refs| &&
        m'.refs[m.tab[r][j].page] + (if m.tab[r][j].page == x then 1 else 0) == m.refs[m.tab[r][j].page]
  }

  lemma CowOneFewer(m: Memory, held: seq<nat>, a: nat, k: nat, m': Memory)
    requires Accounted(m, held) && |m.refs| <= a < |m.tab| && k < m.rootFan && Owns(m.tab[a][k])
    requires RefCount(m.refs, m.zero, m.tab[a][k].page) != 1 && CowEntry(m, a, k) == Ok(m')
    ensures OneFewer(m, m', m.tab[a][k].page)
  {
    hide CowEntry, Exact, TablesPrivate, Typed, ZeroOk;
    forall r: nat, j: nat | |m.refs| <= r < |m.tab| && j < m.rootFan && Owns(m.tab[r][j]) && m.tab[r][j].page != m.zero
      ensures m.tab[r][j].page < |m.refs|
      ensures m'.refs[m.tab[r][j].page] + (if m.tab[r][j].page == m.tab[a][k].page then 1 else 0) ==
        m.refs[m.tab[r][j].page]
    {
      RootEntry(m, r, j);
      CowTopRefs(m, held, a, k, m.tab[r][j].page);
    }
  }

  lemma HalfStep(m: Memory, a: nat, c: nat, k: nat, m': Memory)
    requires Shape(m) && HalfDeshared(m, a, c, k) && k < m.rootFan && Owns(m.tab[a][k]) && SameShape(m, m')
    requires OneFewer(m, m', m.tab[a][k].page)
    requires m'.tab[a] == m.tab[a][k := m'.tab[a][k]] && m'.tab[a][k].page < |m.refs| && m'.refs[m'.tab[a][k].page] == 1
    requires forall r: nat {:trigger m'.tab[r]} :: |m.refs| <= r < |m.tab| && r != a ==> m'.tab[r] == m.tab[r]
    ensures HalfDeshared(m', a, c, k + 1)
  {
    assert StillShared(m, a, c, k);
    forall j: nat | k + 1 <= j < m.rootFan ensures StillShared(m', a, c, j) {
      assert StillShared(m, a, c, j);
    }
    forall r: nat | |m.refs| <= r < |m.tab| && r != a && r != c ensures RowPrivate(m', r, 0, m.rootFan) {
      assert RowPrivate(m, r, 0, m.rootFan);
    }
  }

  /** One turn of the loop on a slot that is still shared. */
  lemma DeshareCow(m: Memory, held: seq<nat>, a: nat, c: nat, k: nat, m': Memory)
    requires Accounted(m, held) && HalfDeshared(m, a, c, k) && k < m.rootFan
    requires Owns(m.tab[a][k]) && CowEntry(m, a, k) == Ok(m')
    ensures Kept(m, m', held) && SameLeaves(m, m') && m'.dat == m.dat && HalfDeshared(m', a, c, k + 1)
  {
    hide Exact, LeavesPrivate, Typed, ZeroOk, SameLeaves;
    assert StillShared(m, a, c, k);
    CowUpperKept(m, held, a, k);
    CowTableCopies(m, held, a, k);
    CowOneFewer(m, held, a, k, m');
    assert PrivateOk(m', a, m'.tab[a][k]);
    assert m'.tab[a] == m.tab[a][k := m'.tab[a][k]];
    HalfStep(m, a, c, k, m');
  }

  lemma RootEntry(m: Memory, r: nat, j: nat)
    requires Shape(m) && Typed(m) && |m.refs| <= r < |m.tab| && j < m.rootFan && Owns(m.tab[r][j])
    requires m.tab[r][j].page != m.zero
    ensures var f := m.tab[r][j].page; Counted(m, f) && m.refs[f] >= 1 && m.level[f] == m.depth - 1
  {
    assert EntryOk(m, m.level[r], m.tab[r][j]);
  }

  /** The PAE loop, on the plain view of the memory. */
  lemma {:induction false} DeshareLoop(m: Memory, held: seq<nat>, a: nat, c: nat, k: nat, m': Memory)
    requires Accounted(m, held) && HalfDeshared(m, a, c, 0) && |m.refs| <= a < |m.tab| && k <= m.rootFan
    requires Deshare(m, a, k) == Ok(m')
    ensures Kept(m, m', held) && SameLeaves(m, m') && m'.dat == m.dat && HalfDeshared(m', a, c, k)
  {
    hide CowEntry, Exact, LeavesPrivate, Typed, ZeroOk, TablesPrivate, SameLeaves, HalfDeshared;
    if k > 0 {
      var m1 := Deshare(m, a, k - 1).value;
      DeshareLoop(m, held, a, c, k - 1, m1);
      DeshareTurn(m1, held, a, c, k - 1, m');
      SameLeavesTrans(m, m1, m');
    } else {
      assert SameLeaves(m, m) by { SameLeavesRefl(m); }
    }
  }

  lemma SameLeavesRefl(m: Memory)
    requires Shape(m)
    ensures SameLeaves(m, m)
  {
  }

  lemma DeshareTurn(m: Memory, held: seq<nat>, a: nat, c: nat, k: nat, m': Memory)
    requires Accounted(m, held) && HalfDeshared(m, a, c, k) && k < m.rootFan
    requires (if m.tab[a][k].present && !m.tab[a][k].hw then CowEntry(m, a, k) else Ok(m)) == Ok(m')
    ensures Kept(m, m', held) && SameLeaves(m, m') && m'.dat == m.dat && HalfDeshared(m', a, c, k + 1)
  {
    assert EntryOk(m, m.level[a], m.tab[a][k]);
    assert StillShared(m, a, c, k);
    if m.tab[a][k].present && !m.tab[a][k].hw {
      DeshareCow(m, held, a, c, k, m');
    } else {
      SameLeavesRefl(m);
    }
  }

  /** What `RootShared` gives the loop to start from. */
  lemma SharedHalf(m: Memory, held: seq<nat>, m': Memory, s: nat)
    requires RootShared(m, m', s) && Accounted(m, held) && m.pae
    ensures HalfDeshared(m', m.Root(s), |m.tab|, 0)
  {
    hide ShareRow;
    var a, c := m.Root(s), |m.tab|;
    var row := m.tab[a];
    ShareRowCounts(m.refs, m.zero, row, |row|);
    forall r: nat, j: nat | |m.refs| <= r < |m.tab| && j < m.rootFan && Owns(m.tab[r][j]) && m.tab[r][j].page != m.zero
      ensures var f := m.tab[r][j].page; f < |m.refs| && m'.refs[f] == if r == a then 2 else 1
    {
      SharedRefs(m, held, m', s, r, j);
    }
    forall j: nat, j': nat | j < j' < m.rootFan && Owns(row[j]) && Owns(row[j']) && row[j].page == row[j'].page
      ensures row[j].page == m.zero
    {
      if row[j].page != m.zero {
        RootEntry(m, a, j);
        assert PrivateOk(m, a, row[j]);
        SoleOwner(m, held, a, j, a, j', row[j].page);
      }
    }
    forall j: nat | j < m.rootFan ensures StillShared(m', a, c, j) {
    }
  }

  lemma SharedRefs(m: Memory, held: seq<nat>, m': Memory, s: nat, r: nat, j: nat)
    requires RootShared(m, m', s) && Accounted(m, held) && m.pae
    requires |m.refs| <= r < |m.tab| && j < m.rootFan && Owns(m.tab[r][j]) && m.tab[r][j].page != m.zero
    ensures var f := m.tab[r][j].page; f < |m.refs| && m'.refs[f] == if r == m.Root(s) then 2 else 1
  {
    var a := m.Root(s);
    var row := m.tab[a];
    var f := m.tab[r][j].page;
    ShareRowCounts(m.refs, m.zero, row, |row|);
    RootEntry(m, r, j);
    assert PrivateOk(m, r, m.tab[r][j]);
    assert Owners(m, f) <= 1;
    OwnersNode(m.tab, m.level, f, |m.tab|, a);
    if r == a {
      RowRefsHolds(row, f, |row|, j);
    } else if RowRefs(row, f, |row|) > 0 {
      var j' := RowRefsSome(row, f, |row|);
      SoleOwner(m, held, r, j, a, j', f);
    }
  }

  /** When the loop has passed every slot, PAE's demand holds again. */
  lemma DesharedPrivate(m: Memory, held: seq<nat>, a: nat, c: nat)
    requires Accounted(Plain(m), held) && HalfDeshared(Plain(m), a, c, m.rootFan)
    ensures Accounted(m, held) && (LeavesPrivate(m) <==> LeavesPrivate(Plain(m)))
  {
    PlainLeaves(m);
    var p := Plain(m);
    forall f: nat | Counted(m, f) ensures m.refs[f] == held[f] + Owners(m, f) {
      assert Counted(p, f) && Owners(p, f) <= p.refs[f];
    }
    forall n: nat, i: nat | n < |m.tab| && m.level[n] > 0 && i < |m.tab[n]|
      ensures EntryOk(m, m.level[n], m.tab[n][i]) && PrivateOk(m, n, m.tab[n][i])
    {
      assert EntryOk(p, m.level[n], m.tab[n][i]) && PrivateOk(p, n, m.tab[n][i]);
      if n >= |m.refs| && n != a && n != c { assert RowPrivate(p, n, 0, m.rootFan); }
    }
  }

  /** The space whose memory space `s'` holds after a fork of `s`. */
  function Origin(m: Memory, s: nat, s': nat): nat {
    if s' == m.Spaces() then s else s'
  }

  /** What a fork of `s` does: one more space, with the leaves of `s`; every other leaf stays. */
  ghost predicate ForkEffect(m: Memory, m': Memory, s: nat) {
    && Shape(m) && Shape(m') && s < m.Spaces()
    && m'.Spaces() == m.Spaces() + 1 && |m'.refs| == |m.refs| && m'.dat == m.dat
    && m'.zero == m.zero && m'.depth == m.depth && m'.fan == m.fan && m'.rootFan == m.rootFan && m'.pae == m.pae
    && forall s': nat, q: seq<nat> {:trigger m'.Leaf(s', q)} :: s' <= m.Spaces() && m.Path(q) ==>
         HwEq(m.Leaf(Origin(m, s, s'), q), m'.Leaf(s', q))
  }

  lemma ForkPlain(m: Memory, held: seq<nat>, s: nat, m': Memory)
    requires RootShared(m, m', s) && Accounted(m, held)
    ensures ForkEffect(m, m', s)
  {
    hide ShareRow, Exact, TablesPrivate;
    forall s': nat, q: seq<nat> | s' <= m.Spaces() && m.Path(q)
      ensures HwEq(m.Leaf(Origin(m, s, s'), q), m'.Leaf(s', q))
    {
      ShareRootLeaf(m, m', s, s', q);
    }
  }

  lemma ForkPae(m: Memory, held: seq<nat>, s: nat, m1: Memory, m': Memory)
    requires RootShared(m, m1, s) && Accounted(m, held) && m.pae && Deshare(m1, m.Root(s), m.rootFan) == Ok(m')
    ensures Kept(m, m', held) && SameShape(m1, m') && m'.dat == m1.dat
    ensures SameLeaves(Plain(m1), Plain(m'))
  {
    PlainAccounted(m, held);
    ShareRootKept(Plain(m), held, Plain(m1), s);
    SharedHalf(m, held, m1, s);
    assert HalfDeshared(Plain(m1), m.Root(s), |m.tab|, 0) by {
      forall r: nat | |m1.refs| <= r < |m1.tab| && r != m.Root(s) && r != |m.tab|
        ensures RowPrivate(Plain(m1), r, 0, m.rootFan)
      {
        assert RowPrivate(m1, r, 0, m.rootFan);
      }
      forall j: nat | j < m.rootFan ensures StillShared(Plain(m1), m.Root(s), |m.tab|, j) {
        assert StillShared(m1, m.Root(s), |m.tab|, j);
      }
    }
    PlainDeshare(m1, m.Root(s), m.rootFan);
    hide Exact, LeavesPrivate, Typed, ZeroOk, TablesPrivate, SameLeaves, HalfDeshared, Deshare, ShareRow;
    DeshareLoop(Plain(m1), held, m.Root(s), |m.tab|, m.rootFan, Plain(m'));
    DesharedPrivate(m', held, m.Root(s), |m.tab|);
  }

  lemma ForkPaeEffect(m: Memory, s: nat, m1: Memory, m': Memory)
    requires ForkEffect(m, m1, s) && SameShape(m1, m') && m'.dat == m1.dat && SameLeaves(Plain(m1), Plain(m'))
    ensures ForkEffect(m, m', s)
  {
    hide RowsOk, SameReserved;
    forall s': nat, q: seq<nat> | s' <= m.Spaces() && m.Path(q)
      ensures HwEq(m.Leaf(Origin(m, s, s'), q), m'.Leaf(s', q))
    {
      assert HwEq(m.Leaf(Origin(m, s, s'), q), m1.Leaf(s', q));
      PlainLeaf(m1, m', s', q);
    }
  }

  lemma PlainLeaf(m: Memory, m': Memory, s: nat, q: seq<nat>)
    requires Shape(m) && SameShape(m, m') && SameLeaves(Plain(m), Plain(m')) && s < m.Spaces() && m.Path(q)
    ensures HwEq(m.Leaf(s, q), m'.Leaf(s, q))
  {
    hide RowsOk, SameReserved;
    assert Plain(m).Path(q);
    assert HwEq(Plain(m).Leaf(s, q), Plain(m').Leaf(s, q));
    PlainWalk(m, s, q, m.depth - 1);
    PlainWalk(m', s, q, m.depth - 1);
  }

  /** Fork keeps the accounts and the isolation, and child and parent see the same memory. */
  lemma ForkCorrect(m: Memory, held: seq<nat>, s: nat, m': Memory)
    requires Accounted(m, held) && s < m.Spaces() && Fork(m, s) == Ok(m')
    ensures Kept(m, m', held) && ForkEffect(m, m', s)
  {
    hide Exact, LeavesPrivate, Typed, ZeroOk, TablesPrivate, Deshare, ShareRow, SameReserved, SameLeaves, ForkEffect;
    var m1 := ShareRoot(m, s).value;
    ForkPlain(m, held, s, m1);
    if m.pae {
      ForkPae(m, held, s, m1, m');
      ForkPaeEffect(m, s, m1, m');
    } else {
      ShareRootKept(m, held, m', s);
    }
  }
}
