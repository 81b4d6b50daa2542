/** Whole runs of the metal backend: every reachable state has exact counts, spaces stay
    apart, and lazy copy-on-write is an eager deep copy to whoever looks. */
module MetalRuns {
  import opened Outcomes
  import opened ArchContract
  import opened MetalMemory
  import opened MetalOps
  import opened MetalCounts
  import opened MetalCow
  import opened MetalWalks
  import opened MetalViews
  import opened MetalFaults
  import opened MetalStore
  import opened MetalFork
  import opened MetalMaps
  import opened MetalAlias
  import opened MetalFree
  import opened MetalExchange

  datatype Op =
    | ForkOp(s: nat)
    | StoreOp(s: nat, q: seq<nat>, off: nat, byte: bv8)
    | LoadOp(s: nat, q: seq<nat>)
    | PutOp(s: nat, q: seq<nat>, e: Entry)
    | CopyOp(s: nat, src: seq<nat>, dst: seq<nat>)
    | SwapOp(s: nat, src: seq<nat>, dst: seq<nat>)
    | FreeOp(s: nat)
    | NewOp

  /** The operation names a space and pages that exist; a mapping put in place owns no frame. */
  predicate ValidOp(m: Memory, op: Op) {
    && (!op.NewOp? ==> op.s < m.Spaces())
    && (op.StoreOp? ==> m.Path(op.q) && op.off < PAGE_SIZE)
    && (op.LoadOp? ==> m.Path(op.q))
    && (op.PutOp? ==> m.Path(op.q) && Unowning(m, op.e))
    && (op.CopyOp? || op.SwapOp? ==> m.Path(op.src) && m.Path(op.dst))
  }

  function Step(m: Memory, op: Op): (r: Halting<Memory>)
    requires Shape(m) && ValidOp(m, op)
    ensures r.Ok? ==> Shape(r.value)
  {
    match op
    case ForkOp(s) => Fork(m, s)
    case StoreOp(s, q, off, b) => Store(m, s, q, off, b)
    case LoadOp(s, q) => Load(m, s, q)
    case PutOp(s, q, e) => Install(m, s, q, e)
    case CopyOp(s, src, dst) => CopyPage(m, s, src, dst)
    case SwapOp(s, a, b) => SwapPage(m, s, a, b)
    case FreeOp(s) => FreeSpace(m, s)
    case NewOp => Ok(NewSpace(m))
  }

  // ---- Accounts ----

  lemma StoreAccounted(m: Memory, held: seq<nat>, s: nat, q: seq<nat>, off: nat, b: bv8, m': Memory)
    requires Accounted(m, held) && s < m.Spaces() && m.Path(q) && off < PAGE_SIZE && Store(m, s, q, off, b) == Ok(m')
    ensures Accounted(m', held)
  {
    hide Exact, TablesPrivate, LeavesPrivate, Typed, ZeroOk, Prep, HwOpen, RowsOk, SameReserved;
    if Grantable(m.Leaf(s, q)) {
      var m1 := if HwOpen(m, s, q, m.depth) then m else Prep(m, s, q, m.depth).value;
      if HwOpen(m, s, q, m.depth) { AlreadyOpen(m, held, s, q); } else { ServeFaults(m, held, s, q, m1); }
      if Owns(m1.Leaf(s, q)) { WriteAccounted(m1, held, s, q, off, b); }
    }
  }

  lemma WriteAccounted(m: Memory, held: seq<nat>, s: nat, q: seq<nat>, off: nat, b: bv8)
    requires Accounted(m, held) && s < m.Spaces() && m.Path(q) && off < PAGE_SIZE
    requires Chain(m, s, q, m.depth - 1) && Owns(m.Leaf(s, q)) && m.Leaf(s, q).hw
    ensures m.Leaf(s, q).page < |m.refs| && Accounted(Write(m, m.Leaf(s, q).page, off, b), held)
  {
    hide Exact, TablesPrivate, ZeroOk, SameReserved;
    ChainWalk(m, s, q, m.depth - 1);
    var t := m.Walk(s, q, m.depth - 1).value;
    assert EntryOk(m, m.level[t], m.tab[t][q[m.depth - 1]]);
    var p := m.Leaf(s, q).page;
    DataAccounted(m, held, p, m.dat[p][off := b]);
  }

  // ---- New spaces ----

  ghost predicate NewEffect(m: Memory, m': Memory) {
    && Shape(m) && Shape(m') && m'.Spaces() == m.Spaces() + 1 && |m'.refs| == |m.refs| && m'.dat == m.dat
    && m'.zero == m.zero && m'.depth == m.depth && m'.fan == m.fan && m'.rootFan == m.rootFan
    && forall s: nat, q: seq<nat> {:trigger m'.Leaf(s, q)} :: s <= m.Spaces() && m.Path(q) ==>
         m'.Leaf(s, q) == if s == m.Spaces() then ABSENT else m.Leaf(s, q)
  }

  lemma {:induction false} NewWalk(m: Memory, s: nat, q: seq<nat>, k: nat)
    requires Shape(m) && ZeroOk(m) && Typed(m) && s <= m.Spaces() && m.Path(q) && k < m.depth
    ensures NewSpace(m).Walk(s, q, k) == if s == m.Spaces() then (if k == 0 then Some(m.Root(s)) else None)
      else m.Walk(s, q, k)
  {
    if k > 0 {
      NewWalk(m, s, q, k - 1);
      if s < m.Spaces() && m.Walk(s, q, k - 1).Some? { WalkTyped(m, s, q, k - 1); }
    }
  }

  lemma NewAccounted(m: Memory, held: seq<nat>)
    requires Accounted(m, held)
    ensures Accounted(NewSpace(m), held)
  {
    var m' := NewSpace(m);
    forall p: nat | Counted(m', p) ensures m'.refs[p] == held[p] + Owners(m', p) {
      NewOwners(m, p);
      assert Counted(m, p) && m.refs[p] == held[p] + Owners(m, p);
    }
    forall n: nat, i: nat | n < |m'.tab| && m'.level[n] > 0 && i < |m'.tab[n]|
      ensures EntryOk(m', m'.level[n], m'.tab[n][i]) && PrivateOk(m', n, m'.tab[n][i])
    {
      if n < |m.tab| { assert EntryOk(m, m.level[n], m.tab[n][i]) && PrivateOk(m, n, m.tab[n][i]); }
    }
  }

  lemma NewOwners(m: Memory, p: nat)
    requires Shape(m)
    ensures Owners(NewSpace(m), p) == Owners(m, p)
  {
    var m' := NewSpace(m);
    OwnersPrefix(m.tab, m.level, m'.tab, m'.level, p, |m.tab|);
    RowRefsNone(m'.tab[|m.tab|], p, m.rootFan);
  }

  lemma NewReaches(m: Memory, s: nat, t: nat)
    requires Shape(m) && ZeroOk(m) && Typed(m)
    ensures Reaches(NewSpace(m), s, t) <==> Reaches(m, s, t)
  {
    hide Typed, ZeroOk, RowsOk;
    var m' := NewSpace(m);
    var k := m.depth - 1;
    if Reaches(m', s, t) {
      var q :| m'.Path(q) && m'.Walk(s, q, k) == Some(t);
      NewWalk(m, s, q, k);
      assert m.Path(q);
    }
    if Reaches(m, s, t) {
      var q :| m.Path(q) && m.Walk(s, q, k) == Some(t);
      NewWalk(m, s, q, k);
      assert m'.Path(q);
    }
  }

  lemma NewCorrect(m: Memory, held: seq<nat>)
    requires Accounted(m, held)
    ensures Kept(m, NewSpace(m), held) && NewEffect(m, NewSpace(m))
  {
    hide Exact, Typed, TablesPrivate, Reaches;
    var m' := NewSpace(m);
    NewAccounted(m, held);
    forall t: nat, a: nat, u: nat, b: nat, s: nat |
      LeavesPrivate(m) && SharesWritable(m', t, a, u, b) && Reaches(m', s, u)
      ensures Reaches(m', s, t)
    {
      NewReaches(m, s, u);
      NewReaches(m, s, t);
      assert SharesWritable(m, t, a, u, b);
    }
    forall s: nat, q: seq<nat> | s <= m.Spaces() && m.Path(q)
      ensures m'.Leaf(s, q) == if s == m.Spaces() then ABSENT else m.Leaf(s, q)
    {
      NewWalk(m, s, q, m.depth - 1);
      if s < m.Spaces() && m.Walk(s, q, m.depth - 1).Some? { WalkTyped(m, s, q, m.depth - 1); }
    }
  }

  // ---- One step ----

  /** Every operation, safe or not, keeps every count exact. */
  lemma StepAccounted(m: Memory, held: seq<nat>, op: Op, m': Memory)
    requires Accounted(m, held) && ValidOp(m, op) && Step(m, op) == Ok(m')
    ensures Accounted(m', held)
  {
    hide Accounted, Fork, Store, Load, Install, CopyPage, SwapPage, FreeSpace, NewSpace, Unowning, ForkEffect;
    hide FreeEffect, NewEffect, OtherLeaves, Swapped, SameViews;
    match op
    case ForkOp(s) => ForkCorrect(m, held, s, m');
    case StoreOp(s, q, off, b) => StoreAccounted(m, held, s, q, off, b, m');
    case LoadOp(s, q) => LoadCorrect(m, held, s, q, m');
    case PutOp(s, q, e) => UnmapCorrect(m, held, s, q, e, m');
    case CopyOp(s, src, dst) => CopyAccounted(m, held, s, src, dst, m');
    case SwapOp(s, a, b) => SwapCorrect(m, held, s, a, b, m');
    case FreeOp(s) => FreeCorrect(m, held, s, m');
    case NewOp => NewCorrect(m, held);
  }
}
