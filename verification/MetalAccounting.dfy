/** Every operation keeps the reference counts exact. */
module MetalAccounting {
  import opened MetalMemory
  import opened MetalOps
  import opened MetalCounts

  /** What a slot of node `n` accepts. */
  ghost predicate Fits(m: Memory, n: nat, e: Entry)
    requires Shape(m) && n < |m.tab|
  {
    && m.level[n] > 0
    && EntryOk(m, m.level[n], e)
    && PrivateOk(m, n, e)
  }

  lemma SetEntryExact(m: Memory, held: seq<nat>, n: nat, i: nat, e: Entry)
    requires Shape(m) && |held| == |m.refs| && Exact(m, Hold(held, e)) && Slot(m, n, i) && m.level[n] > 0
    ensures Exact(SetEntry(m, n, i, e), Hold(held, m.tab[n][i]))
  {
    var m' := SetEntry(m, n, i, e);
    forall p: nat | Counted(m', p) ensures m'.refs[p] == Hold(held, m.tab[n][i])[p] + Owners(m', p) {
      OwnersSetEntry(m, n, i, e, p);
      assert Counted(m, p) && Owners(m, p) <= m.refs[p];
    }
  }

  lemma SetEntryTyped(m: Memory, n: nat, i: nat, e: Entry)
    requires Shape(m) && Typed(m) && Slot(m, n, i) && m.level[n] > 0 && EntryOk(m, m.level[n], e)
    ensures Typed(SetEntry(m, n, i, e))
  {
    var m' := SetEntry(m, n, i, e);
    forall n', i' | 0 <= n' < |m'.tab| && m'.level[n'] > 0 && 0 <= i' < |m'.tab[n']|
      ensures EntryOk(m', m'.level[n'], m'.tab[n'][i'])
    {
      if n' != n || i' != i { assert EntryOk(m, m.level[n'], m.tab[n'][i']); }
    }
  }

  lemma SetEntryPrivate(m: Memory, n: nat, i: nat, e: Entry)
    requires Shape(m) && TablesPrivate(m) && Slot(m, n, i) && Fits(m, n, e)
    ensures TablesPrivate(SetEntry(m, n, i, e))
  {
    var m' := SetEntry(m, n, i, e);
    forall n': nat, i': nat | n' < |m'.tab| && m'.level[n'] > 0 && i' < |m'.tab[n']|
      ensures PrivateOk(m', n', m'.tab[n'][i'])
    {
      if n' != n || i' != i { assert PrivateOk(m, n', m.tab[n'][i']); }
    }
  }

  /** Storing an entry turns the reference it brought into a counted one and leaves the
      displaced entry's reference in the kernel's hands. */
  lemma SetEntryAccounted(m: Memory, held: seq<nat>, n: nat, i: nat, e: Entry)
    requires |held| == |m.refs| && Accounted(m, Hold(held, e)) && Slot(m, n, i) && Fits(m, n, e)
    ensures Accounted(SetEntry(m, n, i, e), Hold(held, m.tab[n][i]))
  {
    SetEntryExact(m, held, n, i, e);
    SetEntryTyped(m, n, i, e);
    SetEntryPrivate(m, n, i, e);
  }

  /** No entry in use owns frame `f`. */
  ghost predicate Unowned(m: Memory, f: nat)
    requires |m.tab| == |m.level|
  {
    forall n, i :: 0 <= n < |m.tab| && m.level[n] > 0 && 0 <= i < |m.tab[n]| && Owns(m.tab[n][i]) ==>
      m.tab[n][i].page != f
  }

  lemma NoOwners(m: Memory, f: nat)
    requires |m.tab| == |m.level| && Owners(m, f) == 0
    ensures Unowned(m, f)
  {
    forall n, i | 0 <= n < |m.tab| && m.level[n] > 0 && 0 <= i < |m.tab[n]| && Owns(m.tab[n][i])
      ensures m.tab[n][i].page != f
    {
      if m.tab[n][i].page == f { OwnedCounts(m, n, i, f); }
    }
  }

  ghost predicate Drained(m: Memory, f: nat)
    requires f < |m.tab|
  {
    forall j :: 0 <= j < |m.tab[f]| ==> !Owns(m.tab[f][j])
  }

  /** The last reference goes: the frame is free and, if it was a table, it was empty. */
  lemma ReleaseLast(m: Memory, held: seq<nat>, e: Entry)
    requires |held| == |m.refs| && Accounted(m, Hold(held, e)) && Owns(e) && e.page < |m.refs|
    requires Counted(m, e.page) && m.refs[e.page] == 1 && (m.level[e.page] > 0 ==> Drained(m, e.page))
    ensures Release(m, e.page).Ok? && Accounted(Release(m, e.page).value, held)
  {
    var f := e.page;
    var m' := Release(m, f).value;
    assert Owners(m, f) == 0;
    NoOwners(m, f);
    forall p: nat | Counted(m', p) ensures m'.refs[p] == held[p] + Owners(m', p) {
      OwnersLevel(m.tab, m.level, f, 0, p, |m.tab|);
      if m.level[f] > 0 { RowRefsNone(m.tab[f], p, |m.tab[f]|); }
      assert Counted(m, p) && Owners(m, p) <= m.refs[p];
    }
    ReleaseTyped(m, f);
  }

  lemma ReleaseTyped(m: Memory, f: nat)
    requires Shape(m) && Typed(m) && TablesPrivate(m) && Counted(m, f) && m.refs[f] == 1 && Unowned(m, f)
    ensures Release(m, f).Ok? && Typed(Release(m, f).value)
    ensures TablesPrivate(Release(m, f).value)
  {
    var m' := Release(m, f).value;
    forall n, i | 0 <= n < |m'.tab| && m'.level[n] > 0 && 0 <= i < |m'.tab[n]|
      ensures EntryOk(m', m'.level[n], m'.tab[n][i]) && PrivateOk(m', n, m'.tab[n][i])
    {
      assert EntryOk(m, m.level[n], m.tab[n][i]) && PrivateOk(m, n, m.tab[n][i]);
    }
  }

  /** Another reference remains, or the frame is not counted. */
  lemma ReleaseShared(m: Memory, held: seq<nat>, e: Entry)
    requires |held| == |m.refs| && Accounted(m, Hold(held, e)) && Owns(e) && e.page < |m.refs|
    requires Counted(m, e.page) ==> m.refs[e.page] >= 2
    requires Release(m, e.page).Ok?
    ensures Accounted(Release(m, e.page).value, held)
  {
    var f := e.page;
    var m' := Release(m, f).value;
    assert m'.level == m.level by { assert f == m.zero ==> m.level[f := 0] == m.level; }
    forall p: nat | Counted(m', p) ensures m'.refs[p] == held[p] + Owners(m', p) {
      assert Counted(m, p) && Owners(m, p) <= m.refs[p];
    }
    forall n, i | 0 <= n < |m.tab| && m.level[n] > 0 && 0 <= i < |m.tab[n]|
      ensures EntryOk(m', m.level[n], m.tab[n][i]) && PrivateOk(m', n, m.tab[n][i])
    {
      assert EntryOk(m, m.level[n], m.tab[n][i]) && PrivateOk(m, n, m.tab[n][i]);
      if Owns(m.tab[n][i]) && m.tab[n][i].page == f { OwnedCounts(m, n, i, f); }
    }
  }

  /** Dropping a held reference; a table loses its last one only once it is empty. */
  lemma ReleaseAccounted(m: Memory, held: seq<nat>, e: Entry)
    requires |held| == |m.refs| && Accounted(m, Hold(held, e)) && Owns(e) && e.page < |m.refs|
    requires m.level[e.page] > 0 && m.refs[e.page] == 1 ==> Drained(m, e.page)
    requires Release(m, e.page).Ok?
    ensures Accounted(Release(m, e.page).value, held)
  {
    if Counted(m, e.page) && m.refs[e.page] == 1 {
      ReleaseLast(m, held, e);
    } else {
      ReleaseShared(m, held, e);
    }
  }

  lemma ReplaceAccounted(m: Memory, held: seq<nat>, n: nat, i: nat, e: Entry)
    requires |held| == |m.refs| && Accounted(m, Hold(held, e)) && Slot(m, n, i) && Fits(m, n, e)
    requires m.level[n] == 1
    requires Replace(m, n, i, e).Ok?
    ensures Accounted(Replace(m, n, i, e).value, held)
  {
    var was := m.tab[n][i];
    assert EntryOk(m, m.level[n], was);
    SetEntryAccounted(m, held, n, i, e);
    if Owns(was) { ReleaseAccounted(SetEntry(m, n, i, e), held, was); }
  }

  lemma HeldSize(m: Memory, held: seq<nat>)
    requires Accounted(m, held)
    ensures |held| == |m.refs|
  {
  }
}
