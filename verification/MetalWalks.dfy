/** Walks through the tables: where they end, and when only one space can take them. */
module MetalWalks {
  import opened MetalMemory
  import opened MetalOps
  import opened MetalCounts

  /** A walk of `k` steps ends at a node of level `depth - k`, or at the zero page. */
  lemma {:induction false} WalkTyped(m: Memory, s: nat, q: seq<nat>, k: nat)
    requires Shape(m) && ZeroOk(m) && Typed(m) && s < m.Spaces() && m.Path(q) && k < m.depth
    requires m.Walk(s, q, k).Some?
    ensures Slot(m, m.Walk(s, q, k).value, q[k])
    ensures m.Walk(s, q, k).value == m.zero || m.level[m.Walk(s, q, k).value] == m.depth - k
    ensures k > 0 ==> m.Walk(s, q, k).value < |m.refs|
  {
    if k > 0 {
      WalkTyped(m, s, q, k - 1);
      var n := m.Walk(s, q, k - 1).value;
      assert n != m.zero;
      assert EntryOk(m, m.level[n], m.tab[n][q[k - 1]]);
    }
  }

  lemma {:induction false} WalkPrefix(m: Memory, s: nat, q: seq<nat>, q': seq<nat>, k: nat)
    requires k <= |q| && k <= |q'| && q[..k] == q'[..k]
    ensures m.Walk(s, q, k) == m.Walk(s, q', k)
  {
    if k > 0 {
      assert q[..k - 1] == q[..k][..k - 1] && q'[..k - 1] == q'[..k][..k - 1];
      assert q[k - 1] == q[..k][k - 1] && q'[k - 1] == q'[..k][k - 1];
      WalkPrefix(m, s, q, q', k - 1);
    }
  }

  /** Every table on the way is referenced once. */
  ghost predicate Chain(m: Memory, s: nat, q: seq<nat>, k: nat)
    requires k <= |q|
  {
    k > 0 ==>
      && Chain(m, s, q, k - 1)
      && m.Walk(s, q, k - 1).Some?
      && var e := m.At(m.Walk(s, q, k - 1).value, q[k - 1]);
         Owns(e) && Counted(m, e.page) && m.refs[e.page] == 1
  }

  lemma {:induction false} ChainWalk(m: Memory, s: nat, q: seq<nat>, k: nat)
    requires Shape(m) && ZeroOk(m) && Typed(m) && s < m.Spaces() && m.Path(q) && k < m.depth && Chain(m, s, q, k)
    ensures m.Walk(s, q, k).Some? && m.Walk(s, q, k).value != m.zero
    ensures Slot(m, m.Walk(s, q, k).value, q[k]) && m.level[m.Walk(s, q, k).value] == m.depth - k
  {
    WalkTyped(m, s, q, k);
  }

  /** The entry a walk takes out of a node is an owning one, except at the last level. */
  lemma StepOwned(m: Memory, s: nat, q: seq<nat>, k: nat)
    requires Shape(m) && ZeroOk(m) && Typed(m) && s < m.Spaces() && m.Path(q) && 0 < k < m.depth
    requires m.Walk(s, q, k).Some?
    ensures m.Walk(s, q, k - 1).Some? && OwnedAt(m, m.Walk(s, q, k - 1).value, q[k - 1], m.Walk(s, q, k).value)
  {
    WalkTyped(m, s, q, k - 1);
    var n := m.Walk(s, q, k - 1).value;
    assert EntryOk(m, m.level[n], m.tab[n][q[k - 1]]);
  }

  /** A node whose chain of tables is unshared is reached by one path of one space. */
  lemma {:induction false} ChainUnique(m: Memory, held: seq<nat>, s: nat, q: seq<nat>, k: nat, s': nat, q': seq<nat>,
                                       k': nat)
    requires Accounted(m, held) && s < m.Spaces() && s' < m.Spaces() && m.Path(q) && m.Path(q')
    requires k < m.depth && k' < m.depth && Chain(m, s, q, k) && m.Walk(s', q', k') == m.Walk(s, q, k)
    ensures s' == s && k' == k && q'[..k] == q[..k]
  {
    ChainWalk(m, s, q, k);
    WalkTyped(m, s', q', k');
    if k > 0 {
      StepOwned(m, s, q, k);
      StepOwned(m, s', q', k');
      var n := m.Walk(s, q, k).value;
      SoleOwner(m, held, m.Walk(s, q, k - 1).value, q[k - 1], m.Walk(s', q', k - 1).value, q'[k - 1], n);
      ChainUnique(m, held, s, q, k - 1, s', q', k - 1);
      assert q[..k] == q[..k - 1] + [q[k - 1]] && q'[..k] == q'[..k - 1] + [q'[k - 1]];
    }
  }
}
