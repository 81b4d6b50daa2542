/** Tearing a space down: its tables go, everybody else's stay. */
module MetalFree {
  import opened Outcomes
  import opened PhysMm
  import opened MetalMemory
  import opened MetalOps
  import opened MetalAccounting
  import opened MetalWalks

  /** Every other space walks as before, through tables with the same entries. */
  ghost predicate OtherSpaces(m: Memory, m': Memory, s: nat) {
    && SameShape(m, m')
    && forall s': nat, q: seq<nat>, k: nat {:trigger m'.Walk(s', q, k)} ::
         s' < m.Spaces() && s' != s && m.Path(q) && k < m.depth ==>
           && m'.Walk(s', q, k) == m.Walk(s', q, k)
           && (m.Walk(s', q, k).Some? ==> m'.At(m.Walk(s', q, k).value, q[k]) == m.At(m.Walk(s', q, k).value, q[k]))
  }

  /** Entries were cleared, none was made; nodes went out of use, none came into it. */
  ghost predicate OnlyCleared(m: Memory, m': Memory)
    requires Shape(m) && SameShape(m, m')
  {
    && (forall a: nat, b: nat {:trigger m'.tab[a][b]} :: a < |m.tab| && b < |m.tab[a]| ==>
          m'.tab[a][b] == m.tab[a][b] || m'.tab[a][b] == ABSENT)
    && (forall a: nat {:trigger m'.level[a]} :: a < |m.tab| ==> m'.level[a] == m.level[a] || m'.level[a] == 0)
  }

  /** Nothing above level `l` changed, nor at level `l` outside node `n`. */
  ghost predicate Below(m: Memory, m': Memory, n: nat, l: nat)
    requires Shape(m) && SameShape(m, m')
  {
    forall a: nat {:trigger m'.tab[a]} {:trigger m'.level[a]} :: a < |m.tab| && m.level[a] >= l ==>
      && (a != n || m.level[a] > l ==> m'.tab[a] == m.tab[a])
      && m'.level[a] == m.level[a]
      && (a < |m.refs| ==> m'.refs[a] == m.refs[a])
  }

  ghost predicate Freed(m: Memory, m': Memory, s: nat, n: nat, l: nat) {
    && Shape(m) && SameShape(m, m') && m'.dat == m.dat
    && OtherSpaces(m, m', s) && OnlyCleared(m, m') && Below(m, m', n, l)
  }

  lemma FreedTrans(m: Memory, m1: Memory, m': Memory, s: nat, n: nat, l: nat)
    requires l >= 1 && Freed(m, m1, s, n, l) && Freed(m1, m', s, n, l)
    ensures Freed(m, m', s, n, l)
  {
    forall s': nat, q: seq<nat>, k: nat | s' < m.Spaces() && s' != s && m.Path(q) && k < m.depth
      ensures m'.Walk(s', q, k) == m.Walk(s', q, k)
      ensures m.Walk(s', q, k).Some? ==> m'.At(m.Walk(s', q, k).value, q[k]) == m.At(m.Walk(s', q, k).value, q[k])
    {
      assert m1.Path(q) && m1.Walk(s', q, k) == m.Walk(s', q, k);
    }
  }

  /** The chain of tables that leads to a node survives changes below it. */
  lemma {:induction false} ChainBelow(m: Memory, m': Memory, s: nat, q: seq<nat>, k: nat, n: nat, l: nat)
    requires Shape(m) && ZeroOk(m) && Typed(m) && SameShape(m, m') && Below(m, m', n, l) && s < m.Spaces() && m.Path(q)
    requires k < m.depth && k + l <= m.depth && Chain(m, s, q, k)
    ensures Chain(m', s, q, k) && m'.Walk(s, q, k) == m.Walk(s, q, k)
  {
    if k > 0 {
      ChainBelow(m, m', s, q, k - 1, n, l);
      ChainWalk(m, s, q, k - 1);
      ChainWalk(m, s, q, k);
      var a := m.Walk(s, q, k - 1).value;
      assert m'.tab[a] == m.tab[a];
      assert m'.level[m.Walk(s, q, k).value] == m.level[m.Walk(s, q, k).value];
    }
  }

  /** Clearing a slot of a node that only space `s` reaches. */
  lemma {:induction false} WalkCleared(m: Memory, held: seq<nat>, s: nat, r: seq<nat>, j: nat, i: nat, m': Memory,
                                       s': nat, q: seq<nat>, k: nat)
    requires Accounted(m, held) && s < m.Spaces() && m.Path(r) && j < m.depth && Chain(m, s, r, j) && SameShape(m, m')
    requires m.Walk(s, r, j).Some? && Slot(m, m.Walk(s, r, j).value, i)
    requires m'.tab == m.tab[m.Walk(s, r, j).value := m.tab[m.Walk(s, r, j).value][i := ABSENT]]
    requires s' < m.Spaces() && s' != s && m.Path(q) && k < m.depth
    ensures m'.Walk(s', q, k) == m.Walk(s', q, k)
    ensures m.Walk(s', q, k).Some? ==> m'.At(m.Walk(s', q, k).value, q[k]) == m.At(m.Walk(s', q, k).value, q[k])
  {
    hide Exact, Typed, ZeroOk, TablesPrivate;
    if k > 0 { WalkCleared(m, held, s, r, j, i, m', s', q, k - 1); }
    if m.Walk(s', q, k).Some? {
      if m.Walk(s', q, k) == m.Walk(s, r, j) { ChainUnique(m, held, s, r, j, s', q, k); }
    }
  }

  /** Dropping an entry of an upper table: sole-owned only if it has been emptied. */
  lemma ClearAccounted(m: Memory, held: seq<nat>, n: nat, i: nat, m': Memory)
    requires Accounted(m, held) && Slot(m, n, i) && m.level[n] > 0 && Replace(m, n, i, ABSENT) == Ok(m')
    requires var e := m.tab[n][i];
      Owns(e) && e.page < |m.refs| && m.level[e.page] > 0 && m.refs[e.page] == 1 ==> e.page != n && Drained(m, e.page)
    ensures Accounted(m', held)
  {
    hide Exact, Typed, ZeroOk, TablesPrivate;
    HeldSize(m, held);
    var e := m.tab[n][i];
    EntryTyped(m, n, i);
    SetEntryAccounted(m, held, n, i, ABSENT);
    if Owns(e) { ReleaseAccounted(SetEntry(m, n, i, ABSENT), held, e); }
  }

  lemma EntryTyped(m: Memory, n: nat, i: nat)
    requires Shape(m) && Typed(m) && Slot(m, n, i) && m.level[n] > 0
    ensures EntryOk(m, m.level[n], m.tab[n][i])
  {
  }

  lemma ClearFreed(m: Memory, held: seq<nat>, s: nat, r: seq<nat>, j: nat, n: nat, i: nat, m': Memory)
    requires Accounted(m, held) && s < m.Spaces() && m.Path(r) && j < m.depth && Chain(m, s, r, j)
    requires m.Walk(s, r, j) == Some(n)
    requires Slot(m, n, i) && m.level[n] == m.depth - j && Replace(m, n, i, ABSENT) == Ok(m')
    ensures Freed(m, m', s, n, m.depth - j) && m'.tab[n] == m.tab[n][i := ABSENT]
  {
    ClearTabs(m, n, i, m');
    hide Exact, Typed, ZeroOk, TablesPrivate, Replace;
    forall s': nat, q: seq<nat>, k: nat | s' < m.Spaces() && s' != s && m.Path(q) && k < m.depth
      ensures m'.Walk(s', q, k) == m.Walk(s', q, k)
      ensures m.Walk(s', q, k).Some? ==> m'.At(m.Walk(s', q, k).value, q[k]) == m.At(m.Walk(s', q, k).value, q[k])
    {
      WalkCleared(m, held, s, r, j, i, m', s', q, k);
    }
  }

  lemma ClearTabs(m: Memory, n: nat, i: nat, m': Memory)
    requires Shape(m) && Typed(m) && ZeroOk(m) && Slot(m, n, i) && m.level[n] > 0 && Replace(m, n, i, ABSENT) == Ok(m')
    ensures m'.tab == m.tab[n := m.tab[n][i := ABSENT]] && m'.dat == m.dat
    ensures OnlyCleared(m, m') && Below(m, m', n, m.level[n])
  {
    EntryTyped(m, n, i);
  }

  /** What the recursion knows about node `n`: only space `s` reaches it, by path `r`. */
  ghost predicate Mine(m: Memory, s: nat, r: seq<nat>, n: nat, l: nat)
    requires Shape(m)
  {
    && s < m.Spaces() && m.Path(r) && 1 <= l <= m.depth && Chain(m, s, r, m.depth - l)
    && m.Walk(s, r, m.depth - l) == Some(n) && n < |m.tab| && m.level[n] == l
  }

  lemma MineBelow(m: Memory, m': Memory, s: nat, r: seq<nat>, n: nat, l: nat, n': nat, l': nat)
    requires Shape(m) && ZeroOk(m) && Typed(m) && Mine(m, s, r, n, l) && SameShape(m, m') && Below(m, m', n', l')
    requires l' <= l
    ensures Mine(m', s, r, n, l)
  {
    hide Typed, ZeroOk;
    ChainBelow(m, m', s, r, m.depth - l, n', l');
    assert m'.level[n] == m.level[n];
  }

  /** The table under a sole-owned entry of one of our nodes is ours too. */
  lemma MineChild(m: Memory, s: nat, r: seq<nat>, n: nat, i: nat, l: nat) returns (r': seq<nat>)
    requires Shape(m) && ZeroOk(m) && Typed(m) && Mine(m, s, r, n, l) && l >= 2 && Slot(m, n, i)
    requires m.tab[n][i].present && RefCount(m.refs, m.zero, m.tab[n][i].page) == 1
    ensures Mine(m, s, r', m.tab[n][i].page, l - 1)
  {
    EntryTyped(m, n, i);
    var k := m.depth - l;
    r' := r[k := i];
    WalkPrefix(m, s, r, r', k);
    ChainPrefix(m, s, r, r', k);
    assert Chain(m, s, r', k + 1);
  }

  lemma {:induction false} ChainPrefix(m: Memory, s: nat, q: seq<nat>, q': seq<nat>, k: nat)
    requires k <= |q| && k <= |q'| && q[..k] == q'[..k] && Chain(m, s, q, k)
    ensures Chain(m, s, q', k)
  {
    if k > 0 {
      assert q[..k - 1] == q[..k][..k - 1] && q'[..k - 1] == q'[..k][..k - 1];
      assert q[k - 1] == q[..k][k - 1] && q'[k - 1] == q'[..k][k - 1];
      WalkPrefix(m, s, q, q', k - 1);
      ChainPrefix(m, s, q, q', k - 1);
    }
  }

  predicate Emptied(m: Memory, n: nat, k: nat)
    requires n < |m.tab| && k <= |m.tab[n]|
  {
    forall j: nat {:trigger m.tab[n][j]} :: j < k ==> !m.tab[n][j].present
  }

  lemma {:induction false} FreeRowCorrect(m: Memory, held: seq<nat>, s: nat, r: seq<nat>, n: nat, k: nat, l: nat,
                                          m': Memory)
    requires Accounted(m, held) && Mine(m, s, r, n, l) && k <= |m.tab[n]| && FreeRow(m, n, k, l) == Ok(m')
    ensures Accounted(m', held) && Freed(m, m', s, n, l) && Emptied(m', n, k)
    decreases l, k
  {
    hide Exact, Typed, ZeroOk, TablesPrivate, FreeSlot;
    if k > 0 {
      var m1 := FreeRow(m, n, k - 1, l).value;
      FreeRowCorrect(m, held, s, r, n, k - 1, l, m1);
      MineBelow(m, m1, s, r, n, l, n, l);
      FreeSlotCorrect(m1, held, s, r, n, k - 1, l, m');
      FreedTrans(m, m1, m', s, n, l);
    } else {
      FreedRefl(m, s, n, l);
    }
  }

  lemma FreedRefl(m: Memory, s: nat, n: nat, l: nat)
    requires Shape(m)
    ensures Freed(m, m, s, n, l)
  {
  }

  lemma {:induction false} FreeSlotCorrect(m: Memory, held: seq<nat>, s: nat, r: seq<nat>, n: nat, i: nat, l: nat,
                                           m': Memory)
    requires Accounted(m, held) && Mine(m, s, r, n, l) && Slot(m, n, i) && FreeSlot(m, n, i, l) == Ok(m')
    ensures Accounted(m', held) && Freed(m, m', s, n, l)
    ensures m'.tab[n] == m.tab[n] || m'.tab[n] == m.tab[n][i := ABSENT]
    ensures !m'.tab[n][i].present
    decreases l, i
  {
    hide Exact, Typed, ZeroOk, TablesPrivate, FreeRow;
    if !m.tab[n][i].present {
      FreedRefl(m, s, n, l);
    } else if l >= 2 && RefCount(m.refs, m.zero, m.tab[n][i].page) == 1 {
      var x := m.tab[n][i].page;
      var r' := MineChild(m, s, r, n, i, l);
      var m1 := FreeRow(m, x, m.fan, l - 1).value;
      FreeRowCorrect(m, held, s, r', x, m.fan, l - 1, m1);
      FreeEmptied(m, held, s, r, n, i, l, m1, m');
    } else {
      FreeShared(m, held, s, r, n, i, l, m');
    }
  }

  lemma FreeShared(m: Memory, held: seq<nat>, s: nat, r: seq<nat>, n: nat, i: nat, l: nat, m': Memory)
    requires Accounted(m, held) && Mine(m, s, r, n, l) && Slot(m, n, i) && Replace(m, n, i, ABSENT) == Ok(m')
    requires l == 1 || RefCount(m.refs, m.zero, m.tab[n][i].page) != 1
    ensures Accounted(m', held) && Freed(m, m', s, n, l) && m'.tab[n] == m.tab[n][i := ABSENT]
  {
    EntryTyped(m, n, i);
    hide Exact, Typed, TablesPrivate, Replace;
    ClearAccounted(m, held, n, i, m');
    ClearFreed(m, held, s, r, m.depth - l, n, i, m');
  }

  /** The table below has been emptied; its entry goes. */
  lemma FreeEmptied(m: Memory, held: seq<nat>, s: nat, r: seq<nat>, n: nat, i: nat, l: nat, m1: Memory, m': Memory)
    requires Shape(m) && ZeroOk(m) && Typed(m) && Mine(m, s, r, n, l) && Slot(m, n, i) && l >= 2
    requires var x := m.tab[n][i].page;
      x < |m.refs| && x != n && Accounted(m1, held) && Freed(m, m1, s, x, l - 1) && Emptied(m1, x, m.fan)
    requires Replace(m1, n, i, ABSENT) == Ok(m')
    ensures Accounted(m', held) && Freed(m, m', s, n, l) && m'.tab[n] == m.tab[n][i := ABSENT]
  {
    hide Exact, Typed, ZeroOk, TablesPrivate, Replace;
    var x := m.tab[n][i].page;
    MineBelow(m, m1, s, r, n, l, x, l - 1);
    assert m1.tab[n] == m.tab[n];
    ClearAccounted(m1, held, n, i, m');
    ClearFreed(m1, held, s, r, m.depth - l, n, i, m');
    FreedWeaken(m, m1, s, x, n, l);
    FreedTrans(m, m1, m', s, n, l);
  }

  lemma FreedWeaken(m: Memory, m': Memory, s: nat, x: nat, n: nat, l: nat)
    requires l >= 2 && Freed(m, m', s, x, l - 1)
    ensures Freed(m, m', s, n, l)
  {
  }

  /** What tearing down `s` leaves: its pages read as fresh, every other leaf as it was. */
  ghost predicate FreeEffect(m: Memory, m': Memory, s: nat) {
    && Shape(m) && SameShape(m, m') && m'.dat == m.dat
    && forall s': nat, q: seq<nat> {:trigger m'.Leaf(s', q)} :: s' < m.Spaces() && m.Path(q) ==>
         m'.Leaf(s', q) == if s' == s then ABSENT else m.Leaf(s', q)
  }

  lemma {:induction false} EmptyRoot(m: Memory, s: nat, q: seq<nat>, k: nat)
    requires Shape(m) && s < m.Spaces() && m.Path(q) && 0 < k < m.depth && Emptied(m, m.Root(s), m.rootFan)
    ensures m.Walk(s, q, k).None?
  {
    if k > 1 { EmptyRoot(m, s, q, k - 1); }
  }

  lemma FreedReaches(m: Memory, m': Memory, s: nat, s': nat, t: nat)
    requires Shape(m) && s < m.Spaces() && Freed(m, m', s, m.Root(s), m.depth) && Emptied(m', m.Root(s), m.rootFan)
    ensures Reaches(m', s', t) <==> s' != s && Reaches(m, s', t)
  {
    hide OnlyCleared, Below, RowsOk, SameReserved;
    var k := m.depth - 1;
    if Reaches(m', s', t) {
      var q :| m'.Path(q) && m'.Walk(s', q, k) == Some(t);
      assert m.Path(q);
      if s' == s { EmptyRoot(m', s, q, k); }
    }
    if s' != s && Reaches(m, s', t) {
      var q :| m.Path(q) && m.Walk(s', q, k) == Some(t);
      assert m'.Path(q) && m'.Walk(s', q, k) == Some(t);
    }
  }

  lemma FreedLeaves(m: Memory, m': Memory, s: nat)
    requires Shape(m) && s < m.Spaces() && Freed(m, m', s, m.Root(s), m.depth) && Emptied(m', m.Root(s), m.rootFan)
    requires LeavesPrivate(m)
    ensures LeavesPrivate(m')
  {
    hide OtherSpaces, Below, Reaches, SameReserved;
    forall t: nat, a: nat, u: nat, b: nat, s': nat | SharesWritable(m', t, a, u, b) && Reaches(m', s', u)
      ensures Reaches(m', s', t)
    {
      FreedReaches(m, m', s, s', u);
      FreedReaches(m, m', s, s', t);
      assert SharesWritable(m, t, a, u, b);
    }
  }

  /** Tearing down a space drops exactly its references and is invisible elsewhere. */
  lemma FreeCorrect(m: Memory, held: seq<nat>, s: nat, m': Memory)
    requires Accounted(m, held) && s < m.Spaces() && FreeSpace(m, s) == Ok(m')
    ensures Kept(m, m', held) && FreeEffect(m, m', s)
  {
    hide Exact, Typed, ZeroOk, TablesPrivate, LeavesPrivate, FreeRow;
    var r := seq(m.depth, _ => 0);
    FreeRowCorrect(m, held, s, r, m.Root(s), m.rootFan, m.depth, m');
    if LeavesPrivate(m) { FreedLeaves(m, m', s); }
    forall s': nat, q: seq<nat> | s' < m.Spaces() && m.Path(q)
      ensures m'.Leaf(s', q) == if s' == s then ABSENT else m.Leaf(s', q)
    {
      if s' == s {
        EmptyRoot(m', s, q, m.depth - 1);
      } else {
        assert m'.Walk(s', q, m.depth - 1) == m.Walk(s', q, m.depth - 1);
      }
    }
  }
}
