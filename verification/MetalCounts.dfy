/** Arithmetic of owning entries: how one change to the tables moves every count. */
module MetalCounts {
  import opened PhysMm
  import opened MetalMemory
  import opened MetalOps

  lemma {:induction false} RowRefsUpdate(row: seq<Entry>, i: nat, e: Entry, p: nat, k: nat)
    requires i < |row| && k <= |row|
    ensures RowRefs(row[i := e], p, k) + (if i < k then Holds(row[i], p) else 0)
         == RowRefs(row, p, k) + (if i < k then Holds(e, p) else 0)
  {
    if k > 0 { RowRefsUpdate(row, i, e, p, k - 1); }
  }

  lemma {:induction false} RowRefsReadOnly(row: seq<Entry>, p: nat, k: nat)
    requires k <= |row|
    ensures RowRefs(ReadOnlyRow(row), p, k) == RowRefs(row, p, k)
  {
    if k > 0 { RowRefsReadOnly(row, p, k - 1); }
  }

  lemma {:induction false} RowRefsHolds(row: seq<Entry>, p: nat, k: nat, i: nat)
    requires i < k <= |row|
    ensures Holds(row[i], p) <= RowRefs(row, p, k)
  {
    if i < k - 1 { RowRefsHolds(row, p, k - 1, i); }
  }

  lemma {:induction false} RowRefsTwo(row: seq<Entry>, p: nat, k: nat, i: nat, j: nat)
    requires i < j < k <= |row| && Holds(row[i], p) == 1 && Holds(row[j], p) == 1
    ensures RowRefs(row, p, k) >= 2
  {
    if j < k - 1 { RowRefsTwo(row, p, k - 1, i, j); } else { RowRefsHolds(row, p, j, i); }
  }

  lemma {:induction false} RowRefsNone(row: seq<Entry>, p: nat, k: nat)
    requires k <= |row| && forall i :: 0 <= i < k ==> Holds(row[i], p) == 0
    ensures RowRefs(row, p, k) == 0
  {
    if k > 0 { RowRefsNone(row, p, k - 1); }
  }

  lemma {:induction false} RowRefsSome(row: seq<Entry>, p: nat, k: nat) returns (i: nat)
    requires k <= |row| && RowRefs(row, p, k) > 0
    ensures i < k && Holds(row[i], p) == 1
  {
    if Holds(row[k - 1], p) == 1 { i := k - 1; } else { i := RowRefsSome(row, p, k - 1); }
  }

  /** Changing one row moves the total by that row's difference. */
  lemma {:induction false} OwnersRow(tab: seq<seq<Entry>>, level: seq<nat>, n: nat, row: seq<Entry>, p: nat, k: nat)
    requires n < |tab| == |level| && k <= |tab|
    ensures OwnersUpTo(tab[n := row], level, p, k) + (if n < k then NodeRefs(tab, level, p, n) else 0)
         == OwnersUpTo(tab, level, p, k) + (if n < k then NodeRefs(tab[n := row], level, p, n) else 0)
  {
    if k > 0 { OwnersRow(tab, level, n, row, p, k - 1); }
  }

  /** Putting a node into or out of use as a table moves the total by its row. */
  lemma {:induction false} OwnersLevel(tab: seq<seq<Entry>>, level: seq<nat>, n: nat, l: nat, p: nat, k: nat)
    requires n < |tab| == |level| && k <= |tab|
    ensures OwnersUpTo(tab, level[n := l], p, k) + (if n < k then NodeRefs(tab, level, p, n) else 0)
         == OwnersUpTo(tab, level, p, k) + (if n < k then NodeRefs(tab, level[n := l], p, n) else 0)
  {
    if k > 0 { OwnersLevel(tab, level, n, l, p, k - 1); }
  }

  /** Rows added behind the first `k` nodes do not count among them. */
  lemma {:induction false} OwnersPrefix(tab: seq<seq<Entry>>, level: seq<nat>, tab': seq<seq<Entry>>, level': seq<nat>,
                                        p: nat, k: nat)
    requires k <= |tab| == |level| && |tab'| == |level'| && tab <= tab' && level <= level'
    ensures OwnersUpTo(tab', level', p, k) == OwnersUpTo(tab, level, p, k)
  {
    if k > 0 { OwnersPrefix(tab, level, tab', level', p, k - 1); }
  }

  lemma {:induction false} OwnersNode(tab: seq<seq<Entry>>, level: seq<nat>, p: nat, k: nat, n: nat)
    requires n < k <= |tab| == |level|
    ensures NodeRefs(tab, level, p, n) <= OwnersUpTo(tab, level, p, k)
  {
    if n < k - 1 { OwnersNode(tab, level, p, k - 1, n); }
  }

  lemma {:induction false} OwnersTwoNodes(tab: seq<seq<Entry>>, level: seq<nat>, p: nat, k: nat, n: nat, n': nat)
    requires n < n' < k <= |tab| == |level|
    ensures NodeRefs(tab, level, p, n) + NodeRefs(tab, level, p, n') <= OwnersUpTo(tab, level, p, k)
  {
    if n' < k - 1 { OwnersTwoNodes(tab, level, p, k - 1, n, n'); } else { OwnersNode(tab, level, p, n', n); }
  }

  /** Node `n` is in use as a table or root and its slot `i` owns `p`. */
  predicate OwnedAt(m: Memory, n: nat, i: nat, p: nat)
    requires |m.tab| == |m.level|
  {
    n < |m.tab| && m.level[n] > 0 && i < |m.tab[n]| && Holds(m.tab[n][i], p) == 1
  }

  lemma OwnedCounts(m: Memory, n: nat, i: nat, p: nat)
    requires |m.tab| == |m.level| && OwnedAt(m, n, i, p)
    ensures Owners(m, p) >= 1
  {
    RowRefsHolds(m.tab[n], p, |m.tab[n]|, i);
    OwnersNode(m.tab, m.level, p, |m.tab|, n);
  }

  lemma OwnedTwice(m: Memory, n: nat, i: nat, n': nat, i': nat, p: nat)
    requires |m.tab| == |m.level| && OwnedAt(m, n, i, p) && OwnedAt(m, n', i', p)
    requires n != n' || i != i'
    ensures Owners(m, p) >= 2
  {
    if n == n' {
      RowRefsTwo(m.tab[n], p, |m.tab[n]|, if i < i' then i else i', if i < i' then i' else i);
      OwnersNode(m.tab, m.level, p, |m.tab|, n);
    } else {
      RowRefsHolds(m.tab[n], p, |m.tab[n]|, i);
      RowRefsHolds(m.tab[n'], p, |m.tab[n']|, i');
      OwnersTwoNodes(m.tab, m.level, p, |m.tab|, if n < n' then n else n', if n < n' then n' else n);
    }
  }

  /** A frame counted once has one owning entry. */
  lemma SoleOwner(m: Memory, held: seq<nat>, n: nat, i: nat, n': nat, i': nat, p: nat)
    requires Shape(m) && Exact(m, held) && Counted(m, p) && m.refs[p] == 1
    requires OwnedAt(m, n, i, p) && OwnedAt(m, n', i', p)
    ensures n == n' && i == i'
  {
    if n != n' || i != i' { OwnedTwice(m, n, i, n', i', p); }
  }

  /** The effect of one slot on every total. */
  lemma OwnersSetEntry(m: Memory, n: nat, i: nat, e: Entry, p: nat)
    requires Shape(m) && Slot(m, n, i) && m.level[n] > 0
    ensures Owners(SetEntry(m, n, i, e), p) + Holds(m.tab[n][i], p) == Owners(m, p) + Holds(e, p)
  {
    OwnersRow(m.tab, m.level, n, m.tab[n][i := e], p, |m.tab|);
    RowRefsUpdate(m.tab[n], i, e, p, |m.tab[n]|);
  }

  /** `share_and_copy` adds to each counted frame the number of entries that own it. */
  lemma {:induction false} ShareRowCounts(refs: seq<nat>, zero: nat, row: seq<Entry>, k: nat)
    requires k <= |row| && ShareRow(refs, zero, row, k).Ok?
    requires forall p :: 0 <= p < |refs| ==> refs[p] <= RESERVED
    ensures forall p :: 0 <= p < |refs| ==>
      ShareRow(refs, zero, row, k).value[p] ==
        if p == zero || refs[p] == 0 || refs[p] == RESERVED then refs[p] else refs[p] + RowRefs(row, p, k)
    ensures forall p :: 0 <= p < |refs| && refs[p] < RESERVED ==> ShareRow(refs, zero, row, k).value[p] < RESERVED
  {
    if k > 0 { ShareRowCounts(refs, zero, row, k - 1); }
  }

  /** Sharing never lowers a count and never changes which frames are free or reserved. */
  lemma {:induction false} ShareRowGrows(refs: seq<nat>, zero: nat, row: seq<Entry>, k: nat)
    requires k <= |row| && ShareRow(refs, zero, row, k).Ok?
    requires forall p :: 0 <= p < |refs| ==> refs[p] <= RESERVED
    ensures forall p :: 0 <= p < |refs| ==>
      var r := ShareRow(refs, zero, row, k).value[p];
      refs[p] <= r && (r == RESERVED <==> refs[p] == RESERVED)
  {
    if k > 0 { ShareRowGrows(refs, zero, row, k - 1); }
  }
}
