/** The simple specification: every space is its own array of pages and a fork copies the
    array at once. The lazy machine shows exactly that. */
module MetalImages {
  import opened Outcomes
  import opened ArchContract
  import opened MetalMemory
  import opened MetalOps
  import opened MetalViews
  import opened MetalStore
  import opened MetalExposure
  import opened MetalFork
  import opened MetalMaps
  import opened MetalAlias
  import opened MetalFree
  import opened MetalExchange
  import opened MetalRuns

  function PageOf(m: Memory, s: nat, q: seq<nat>): Page
    requires |q| == m.depth && m.depth >= 1
  {
    Page(View(m, s, q), Sealed(m, s, q))
  }

  /** `v` is what the spaces of `m` see. */
  ghost predicate Shows(m: Memory, v: seq<Image<seq<nat>>>)
    requires m.depth >= 1
  {
    && |v| == m.Spaces()
    && forall s: nat, q: seq<nat> {:trigger q in v[s]} {:trigger v[s][q]} :: s < |v| ==>
         (q in v[s] <==> m.Path(q)) && (m.Path(q) ==> v[s][q] == PageOf(m, s, q))
  }

  ghost function Picture(m: Memory): (v: seq<Image<seq<nat>>>)
    requires m.depth >= 1
    ensures Shows(m, v)
  {
    seq(m.Spaces(), (s: nat) => imap q: seq<nat> | m.Path(q) :: PageOf(m, s, q))
  }

  // ---- Operations as acts of the contract ----

  /** What a mapping that owns no frame looks like. */
  function Outside(e: Entry): Page {
    Page(if e.present then Device(e.page) else if e.cacheDisable then Trap else Ram(Zeros()), false)
  }

  function ActOf(op: Op): Act<seq<nat>> {
    match op
    case ForkOp(s) => DoFork(s)
    case StoreOp(s, q, off, b) => DoStore(s, q, off, b)
    case LoadOp(_, _) => DoNothing
    case PutOp(s, q, e) => DoPut(s, q, Outside(e))
    case CopyOp(s, src, dst) => DoCopy(s, src, dst)
    case SwapOp(s, a, b) => DoSwap(s, a, b)
    case FreeOp(s) => DoClear(s)
    case NewOp => DoCreate
  }

  function ActsOf(ops: seq<Op>): (acts: seq<Act<seq<nat>>>)
    ensures |acts| == |ops| && forall i :: 0 <= i < |ops| ==> acts[i] == ActOf(ops[i])
  {
    seq(|ops|, i requires 0 <= i < |ops| => ActOf(ops[i]))
  }

  ghost function Pages(m: Memory): iset<seq<nat>> {
    iset q: seq<nat> | m.Path(q)
  }

  // ---- One step refines the specification ----

  /** The operation keeps spaces apart. Only aliasing and swapping ever ask for anything. */
  ghost predicate SafeOp(m: Memory, op: Op)
    requires m.depth >= 1 && ValidOp(m, op)
  {
    && (op.CopyOp? ==> SafeCopy(m, op.s, op.src))
    && (op.SwapOp? ==> SafeSwap(m, op.s, op.src, op.dst))
  }

  /** No other page of space `s` is the storage of page `q`. */
  ghost predicate Solo(m: Memory, s: nat, q: seq<nat>)
    requires |q| == m.depth && m.depth >= 1
  {
    forall q': seq<nat> {:trigger Aliased(m, s, q, q')} :: m.Path(q') && q' != q ==> !Aliased(m, s, q, q')
  }

  /** A store that would be written in place hits a page that is no alias inside its space. */
  ghost predicate SoloOp(m: Memory, op: Op)
    requires m.depth >= 1 && ValidOp(m, op)
  {
    op.StoreOp? && Exposed(m, op.s, op.q) ==> Solo(m, op.s, op.q)
  }

  lemma SameLeafPage(m: Memory, m': Memory, s: nat, q: seq<nat>, s': nat, q': seq<nat>)
    requires |q| == |q'| == m.depth == m'.depth && m.depth >= 1 && m'.dat == m.dat
    requires HwEq(m.Leaf(s, q), m'.Leaf(s', q'))
    ensures PageOf(m', s', q') == PageOf(m, s, q)
  {
  }

  lemma ForkRefines(m: Memory, held: seq<nat>, s: nat, m': Memory, v: seq<Image<seq<nat>>>)
    requires Accounted(m, held) && s < m.Spaces() && Fork(m, s) == Ok(m') && Shows(m, v)
    ensures Shows(m', v + [v[s]])
  {
    hide Accounted, Fork, RowsOk, ForkEffect, PageOf;
    ForkCorrect(m, held, s, m');
    ForkShape(m, m', s);
    var v' := v + [v[s]];
    forall s': nat, q: seq<nat> | s' < |v'|
      ensures (q in v'[s'] <==> m'.Path(q)) && (m'.Path(q) ==> v'[s'][q] == PageOf(m', s', q))
    {
      var v0 := v[Origin(m, s, s')];
      assert q in v0 <==> m.Path(q);
      if m.Path(q) { ForkPage(m, m', s, s', q); }
    }
  }

  lemma ForkShape(m: Memory, m': Memory, s: nat)
    requires ForkEffect(m, m', s)
    ensures m'.Spaces() == m.Spaces() + 1 && m'.depth == m.depth && m'.fan == m.fan && m'.rootFan == m.rootFan
  {
  }

  lemma ForkPage(m: Memory, m': Memory, s: nat, s': nat, q: seq<nat>)
    requires ForkEffect(m, m', s) && s' <= m.Spaces() && m.Path(q)
    ensures PageOf(m', s', q) == PageOf(m, Origin(m, s, s'), q)
  {
    assert HwEq(m.Leaf(Origin(m, s, s'), q), m'.Leaf(s', q));
  }

  /** One page after a store, in any space. */
  lemma StorePage(m: Memory, held: seq<nat>, s: nat, q: seq<nat>, off: nat, b: bv8, m': Memory, s': nat, r: seq<nat>)
    requires Isolated(m, held) && s < m.Spaces() && m.Path(q) && off < PAGE_SIZE && Store(m, s, q, off, b) == Ok(m')
    requires SoloOp(m, StoreOp(s, q, off, b)) && s' < m.Spaces() && m.Path(r)
    ensures m'.depth == m.depth
    ensures PageOf(m', s', r) == if s' == s && r == q then Stored(PageOf(m, s, q), off, b) else PageOf(m, s', r)
  {
    hide Isolated, Store, RowsOk, SameReserved, Exposed, Solo;
    StoreCorrect(m, held, s, q, off, b, m');
    if s' == s && r != q {
      StoreExact(m, held, s, q, off, b, m', r);
      if Exposed(m, s, q) { SoloPage(m, s, q, r); }
    }
    assert s' != s ==> View(m', s', r) == View(m, s', r);
    assert Sealed(m', s', r) <==> Sealed(m, s', r);
  }

  lemma SoloPage(m: Memory, s: nat, q: seq<nat>, r: seq<nat>)
    requires |q| == m.depth && m.depth >= 1 && Solo(m, s, q) && m.Path(r) && r != q
    ensures !Aliased(m, s, q, r)
  {
  }

  lemma StoreRefines(m: Memory, held: seq<nat>, s: nat, q: seq<nat>, off: nat, b: bv8, m': Memory,
                     v: seq<Image<seq<nat>>>)
    requires Isolated(m, held) && s < m.Spaces() && m.Path(q) && off < PAGE_SIZE && Store(m, s, q, off, b) == Ok(m')
    requires Shows(m, v)
    requires SoloOp(m, StoreOp(s, q, off, b))
    ensures q in v[s] && Shows(m', v[s := v[s][q := Stored(v[s][q], off, b)]])
  {
    hide Isolated, Store, RowsOk, SameReserved, PageOf, SoloOp, Stored;
    var v' := v[s := v[s][q := Stored(v[s][q], off, b)]];
    forall s': nat, r: seq<nat> | s' < |v'|
      ensures (r in v'[s'] <==> m'.Path(r)) && (m'.Path(r) ==> v'[s'][r] == PageOf(m', s', r))
    {
      assert r in v[s'] <==> m.Path(r);
      if m.Path(r) {
        assert v[s'][r] == PageOf(m, s', r);
        StorePage(m, held, s, q, off, b, m', s', r);
      }
    }
  }

  /** Everything but one page of one space is as it was. */
  lemma PutShows(m: Memory, m': Memory, s: nat, q: seq<nat>, v: seq<Image<seq<nat>>>)
    requires OtherLeaves(m, m', s, q) && m'.dat == m.dat && s < m.Spaces() && m.Path(q) && Shows(m, v)
    ensures q in v[s] && Shows(m', v[s := v[s][q := PageOf(m', s, q)]])
  {
    hide RowsOk, SameReserved, PageOf;
    var v' := v[s := v[s][q := PageOf(m', s, q)]];
    forall s': nat, r: seq<nat> | s' < |v'|
      ensures (r in v'[s'] <==> m'.Path(r)) && (m'.Path(r) ==> v'[s'][r] == PageOf(m', s', r))
    {
      assert r in v[s'] <==> m.Path(r);
      if m.Path(r) && (s' != s || r != q) {
        assert HwEq(m.Leaf(s', r), m'.Leaf(s', r));
        SameLeafPage(m, m', s', r, s', r);
      }
    }
  }

  lemma PutRefines(m: Memory, held: seq<nat>, s: nat, q: seq<nat>, e: Entry, m': Memory, v: seq<Image<seq<nat>>>)
    requires Accounted(m, held) && s < m.Spaces() && m.Path(q) && Unowning(m, e) && Install(m, s, q, e) == Ok(m')
    requires Shows(m, v)
    ensures q in v[s] && Shows(m', v[s := v[s][q := Outside(e)]])
  {
    hide Accounted, Install, Shows;
    UnmapCorrect(m, held, s, q, e, m');
    PutShows(m, m', s, q, v);
    assert PageOf(m', s, q) == Outside(e);
  }

  lemma CopyRefines(m: Memory, held: seq<nat>, s: nat, src: seq<nat>, dst: seq<nat>, m': Memory,
                    v: seq<Image<seq<nat>>>)
    requires Accounted(m, held) && s < m.Spaces() && m.Path(src) && m.Path(dst) && CopyPage(m, s, src, dst) == Ok(m')
    requires Shows(m, v)
    ensures src in v[s] && Shows(m', v[s := v[s][dst := v[s][src]]])
  {
    hide Accounted, CopyPage, PageOf, RowsOk, SameReserved;
    CopyAccounted(m, held, s, src, dst, m');
    PutShows(m, m', s, dst, v);
    SameLeafPage(m, m', s, src, s, dst);
    assert v[s][src] == PageOf(m, s, src);
  }

  lemma SwapRefines(m: Memory, held: seq<nat>, s: nat, a: seq<nat>, b: seq<nat>, m': Memory, v: seq<Image<seq<nat>>>)
    requires Accounted(m, held) && s < m.Spaces() && m.Path(a) && m.Path(b) && SwapPage(m, s, a, b) == Ok(m')
    requires Shows(m, v)
    ensures a in v[s] && b in v[s] && Shows(m', v[s := v[s][a := v[s][b]][b := v[s][a]]])
  {
    hide Accounted, SwapPage, PageOf, RowsOk, SameReserved;
    SwapCorrect(m, held, s, a, b, m');
    assert v[s][a] == PageOf(m, s, a) && v[s][b] == PageOf(m, s, b);
    var v' := v[s := v[s][a := v[s][b]][b := v[s][a]]];
    forall s': nat, r: seq<nat> | s' < |v'|
      ensures (r in v'[s'] <==> m'.Path(r)) && (m'.Path(r) ==> v'[s'][r] == PageOf(m', s', r))
    {
      assert r in v[s'] <==> m.Path(r);
      if m.Path(r) {
        var r0 := if s' == s then Partner(r, a, b) else r;
        assert HwEq(m.Leaf(s', r0), m'.Leaf(s', r));
        SameLeafPage(m, m', s', r0, s', r);
        assert v[s'][r0] == PageOf(m, s', r0);
      }
    }
  }

  lemma LoadRefines(m: Memory, held: seq<nat>, s: nat, q: seq<nat>, m': Memory, v: seq<Image<seq<nat>>>)
    requires Accounted(m, held) && s < m.Spaces() && m.Path(q) && Load(m, s, q) == Ok(m') && Shows(m, v)
    ensures Shows(m', v)
  {
    hide Accounted, Load, RowsOk, SameReserved, View, Sealed;
    LoadCorrect(m, held, s, q, m');
    forall s': nat, r: seq<nat> | s' < |v|
      ensures (r in v[s'] <==> m'.Path(r)) && (m'.Path(r) ==> v[s'][r] == PageOf(m', s', r))
    {
      assert r in v[s'] <==> m.Path(r);
      if m.Path(r) { assert View(m', s', r) == View(m, s', r); }
    }
  }

  lemma FreeRefines(m: Memory, held: seq<nat>, s: nat, m': Memory, v: seq<Image<seq<nat>>>)
    requires Accounted(m, held) && s < m.Spaces() && FreeSpace(m, s) == Ok(m') && Shows(m, v)
    ensures Shows(m', v[s := imap q | q in Pages(m) :: BLANK])
  {
    hide Accounted, FreeSpace, RowsOk, SameReserved;
    FreeCorrect(m, held, s, m');
    var v' := v[s := imap q | q in Pages(m) :: BLANK];
    forall s': nat, r: seq<nat> | s' < |v'|
      ensures (r in v'[s'] <==> m'.Path(r)) && (m'.Path(r) ==> v'[s'][r] == PageOf(m', s', r))
    {
      assert r in v[s'] <==> m.Path(r);
      if m.Path(r) {
        assert v[s'][r] == PageOf(m, s', r) && m'.Leaf(s', r) == if s' == s then ABSENT else m.Leaf(s', r);
      }
    }
  }

  lemma NewRefines(m: Memory, held: seq<nat>, v: seq<Image<seq<nat>>>)
    requires Accounted(m, held) && Shows(m, v)
    ensures Shows(NewSpace(m), v + [imap q | q in Pages(m) :: BLANK])
  {
    hide Accounted, NewSpace, RowsOk;
    NewCorrect(m, held);
    var m' := NewSpace(m);
    var v' := v + [imap q | q in Pages(m) :: BLANK];
    forall s': nat, r: seq<nat> | s' < |v'|
      ensures (r in v'[s'] <==> m'.Path(r)) && (m'.Path(r) ==> v'[s'][r] == PageOf(m', s', r))
    {
      if s' < |v| { assert r in v[s'] <==> m.Path(r); }
      if m.Path(r) {
        assert m'.Leaf(s', r) == if s' == m.Spaces() then ABSENT else m.Leaf(s', r);
        if s' < |v| { assert v[s'][r] == PageOf(m, s', r); }
      }
    }
  }
}
