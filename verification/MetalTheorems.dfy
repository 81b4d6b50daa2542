/** The theorems about runs: exact counts always, isolation exactly while operations are safe,
    and copy-on-write that cannot be told from copying. */
module MetalTheorems {
  import opened Outcomes
  import opened ArchContract
  import opened MetalMemory
  import opened MetalOps
  import opened MetalWalks
  import opened MetalViews
  import opened MetalFaults
  import opened MetalStore
  import opened MetalExposure
  import opened MetalFork
  import opened MetalMaps
  import opened MetalAlias
  import opened MetalFree
  import opened MetalExchange
  import opened MetalRuns
  import opened MetalImages

  // ---- One step ----

  /** A step keeps isolation exactly when it is safe. */
  lemma StepIsolatesIff(m: Memory, held: seq<nat>, op: Op, m': Memory)
    requires Isolated(m, held) && ValidOp(m, op) && Step(m, op) == Ok(m')
    ensures Isolated(m', held) <==> SafeOp(m, op)
  {
    hide Accounted, LeavesPrivate, Fork, Store, Load, Install, CopyPage, SwapPage, FreeSpace, NewSpace, Unowning;
    hide SafeCopy, SafeSwap;
    hide ForkEffect, FreeEffect, NewEffect, OtherLeaves, SameViews, StoreEffect;
    match op
    case ForkOp(s) => ForkCorrect(m, held, s, m');
    case StoreOp(s, q, off, b) => StoreCorrect(m, held, s, q, off, b, m');
    case LoadOp(s, q) => LoadCorrect(m, held, s, q, m');
    case PutOp(s, q, e) => UnmapCorrect(m, held, s, q, e, m');
    case CopyOp(s, src, dst) => CopyIsolatesIff(m, held, s, src, dst, m');
    case SwapOp(s, a, b) => SwapIsolatesIff(m, held, s, a, b, m');
    case FreeOp(s) => FreeCorrect(m, held, s, m');
    case NewOp => NewCorrect(m, held);
  }

  lemma StepRefines(m: Memory, held: seq<nat>, op: Op, m': Memory, v: seq<Image<seq<nat>>>)
    requires Isolated(m, held) && ValidOp(m, op) && SoloOp(m, op) && Step(m, op) == Ok(m') && Shows(m, v)
    ensures ActValid(v, ActOf(op)) && Shows(m', NextImages(v, Pages(m), ActOf(op)))
  {
    hide Exact, Typed, TablesPrivate, ZeroOk, RowsOk, Fork, Store, Load, Install, CopyPage, SwapPage, FreeSpace;
    hide NewSpace, Unowning, PageOf;
    SpecFollows(m, op, v);
    hide Shows;
    match op
    case ForkOp(s) => ForkRefines(m, held, s, m', v);
    case StoreOp(s, q, off, b) => StoreRefines(m, held, s, q, off, b, m', v);
    case LoadOp(s, q) => LoadRefines(m, held, s, q, m', v);
    case PutOp(s, q, e) => PutRefines(m, held, s, q, e, m', v);
    case CopyOp(s, src, dst) => CopyRefines(m, held, s, src, dst, m', v);
    case SwapOp(s, a, b) => SwapRefines(m, held, s, a, b, m', v);
    case FreeOp(s) => FreeRefines(m, held, s, m', v);
    case NewOp => NewRefines(m, held, v);
  }

  lemma SpecFollows(m: Memory, op: Op, v: seq<Image<seq<nat>>>)
    requires m.depth >= 1 && ValidOp(m, op) && Shows(m, v)
    ensures ActValid(v, ActOf(op))
  {
  }

  // ---- Exactly when one step departs from the contract ----

  /** The same operation, whatever byte a store writes. */
  predicate Akin(op: Op, op': Op) {
    if op.StoreOp? then op'.StoreOp? && op'.s == op.s && op'.q == op.q else op' == op
  }

  /** The step, if it goes through, does what the contract says. */
  ghost predicate Conforms(m: Memory, op: Op, v: seq<Image<seq<nat>>>)
    requires Shape(m)
  {
    ValidOp(m, op) && Step(m, op).Ok? && ActValid(v, ActOf(op)) ==>
      Shows(Step(m, op).value, NextImages(v, Pages(m), ActOf(op)))
  }

  /** A store served in place on a page mapped twice shows at the other page too, where the contract has no change. */
  lemma StoreDeparts(m: Memory, held: seq<nat>, s: nat, q: seq<nat>, v: seq<Image<seq<nat>>>) returns (b: bv8)
    requires Isolated(m, held) && s < m.Spaces() && m.Path(q) && Shows(m, v) && Exposed(m, s, q) && !Solo(m, s, q)
    requires Store(m, s, q, 0, 0).Ok?
    ensures q in v[s] && Store(m, s, q, 0, b).Ok?
    ensures !Shows(Store(m, s, q, 0, b).value, v[s := v[s][q := Stored(v[s][q], 0, b)]])
  {
    hide Exact, Typed, TablesPrivate, ZeroOk, LeavesPrivate, SameReserved, Prep, HwOpen, Exposed, Writable;
    assert q in v[s];
    var q': seq<nat> :| m.Path(q') && q' != q && Aliased(m, s, q, q');
    assert q' in v[s] && v[s][q'] == PageOf(m, s, q');
    ExposedWritable(m, held, s, q);
    AliasCell(m, held, s, q, q');
    b := if View(m, s, q').bytes[0] == 0 then 1 else 0;
    var m' := Store(m, s, q, 0, b).value;
    StoreExact(m, held, s, q, 0, b, m', q');
    var v': seq<Image<seq<nat>>> := v[s := v[s][q := Stored(v[s][q], 0, b)]];
    assert v'[s][q'] == PageOf(m, s, q') && View(m', s, q').bytes[0] == b;
  }

  lemma ExposedWritable(m: Memory, held: seq<nat>, s: nat, q: seq<nat>)
    requires Accounted(m, held) && s < m.Spaces() && m.Path(q) && Exposed(m, s, q)
    ensures Writable(m, s, q)
  {
    ChainWalk(m, s, q, m.depth - 1);
    var t := m.Walk(s, q, m.depth - 1).value;
    assert EntryOk(m, m.level[t], m.tab[t][q[m.depth - 1]]);
  }

  lemma AliasCell(m: Memory, held: seq<nat>, s: nat, q: seq<nat>, q': seq<nat>)
    requires Accounted(m, held) && s < m.Spaces() && m.Path(q) && m.Path(q') && Aliased(m, s, q, q')
    ensures View(m, s, q').Ram? && |View(m, s, q').bytes| == PAGE_SIZE
  {
  }

  /** Whatever byte a store writes, a step conforms to the contract exactly when no store is
      served in place on a page its space maps twice. */
  lemma StepRefinesIff(m: Memory, held: seq<nat>, op: Op, v: seq<Image<seq<nat>>>)
    requires Isolated(m, held) && ValidOp(m, op) && Step(m, op).Ok? && Shows(m, v)
    ensures (forall op': Op :: Akin(op, op') ==> Conforms(m, op', v)) <==> SoloOp(m, op)
  {
    hide Exact, Typed, TablesPrivate, ZeroOk, LeavesPrivate, RowsOk, Shows, Pages, NextImages, Step, Conforms, Exposed;
    hide Solo, ValidOp;
    if SoloOp(m, op) {
      forall op': Op | Akin(op, op') ensures Conforms(m, op', v) { AkinConforms(m, held, op, op', v); }
    } else {
      var op' := StoreConflicts(m, held, op, v);
      assert Akin(op, op') && !Conforms(m, op', v);
    }
  }

  lemma AkinConforms(m: Memory, held: seq<nat>, op: Op, op': Op, v: seq<Image<seq<nat>>>)
    requires Isolated(m, held) && ValidOp(m, op) && Shows(m, v) && SoloOp(m, op) && Akin(op, op')
    ensures Conforms(m, op', v)
  {
    hide Exact, Typed, TablesPrivate, ZeroOk, LeavesPrivate, RowsOk, Shows, Pages, NextImages, Step, ActValid, Exposed;
    hide Solo;
    if ValidOp(m, op') && Step(m, op').Ok? { StepRefines(m, held, op', Step(m, op').value, v); }
  }

  lemma StoreConflicts(m: Memory, held: seq<nat>, op: Op, v: seq<Image<seq<nat>>>) returns (op': Op)
    requires Isolated(m, held) && ValidOp(m, op) && Step(m, op).Ok? && Shows(m, v) && !SoloOp(m, op)
    ensures Akin(op, op') && !Conforms(m, op', v)
  {
    hide Exact, Typed, TablesPrivate, ZeroOk, LeavesPrivate, RowsOk, Shows, Prep, HwOpen, Exposed, Solo;
    var b := StoreDeparts(m, held, op.s, op.q, v);
    op' := StoreOp(op.s, op.q, 0, b);
    SpecFollows(m, op', v);
  }

  /** The operation changes what space `s` itself sees. */
  predicate Edits(op: Op, s: nat) {
    !op.NewOp? && !op.ForkOp? && !op.LoadOp? && op.s == s
  }

  /** What one space does, no other space sees: not even an aliased store, nor a teardown. */
  lemma StepPrivate(m: Memory, held: seq<nat>, op: Op, m': Memory, s: nat, q: seq<nat>)
    requires Isolated(m, held) && ValidOp(m, op) && Step(m, op) == Ok(m') && s < m.Spaces() && m.Path(q)
    requires !Edits(op, s)
    ensures m'.Path(q) && s < m'.Spaces() && PageOf(m', s, q) == PageOf(m, s, q)
  {
    hide Exact, Typed, TablesPrivate, ZeroOk, RowsOk, Fork, Load, Install, CopyPage, SwapPage, FreeSpace, NewSpace;
    hide Unowning, PageOf;
    var v := Picture(m);
    assert v[s][q] == PageOf(m, s, q);
    if op.StoreOp? {
      StorePrivate(m, held, op.s, op.q, op.off, op.byte, m', s, q);
    } else {
      StepRefines(m, held, op, m', v);
      var v' := NextImages(v, Pages(m), ActOf(op));
      assert q in v'[s] && v'[s][q] == v[s][q];
    }
  }

  lemma StorePrivate(m: Memory, held: seq<nat>, s: nat, q: seq<nat>, off: nat, b: bv8, m': Memory, s': nat,
                     q': seq<nat>)
    requires Isolated(m, held) && s < m.Spaces() && m.Path(q) && off < PAGE_SIZE && Store(m, s, q, off, b) == Ok(m')
    requires s' < m.Spaces() && s' != s && m.Path(q')
    ensures m'.Path(q') && m'.Spaces() == m.Spaces() && PageOf(m', s', q') == PageOf(m, s', q')
  {
    hide Accounted, Store, RowsOk, SameReserved;
    StoreCorrect(m, held, s, q, off, b, m');
    assert View(m', s', q') == View(m, s', q') && (Sealed(m', s', q') <==> Sealed(m, s', q'));
  }

  // ---- Runs ----

  /** The machine gets from `m` to `m'` by `ops` without halting. */
  ghost predicate Runs(m: Memory, ops: seq<Op>, m': Memory)
    requires Shape(m)
    decreases |ops|
  {
    if ops == [] then m' == m
    else ValidOp(m, ops[0]) && Step(m, ops[0]).Ok? && Runs(Step(m, ops[0]).value, ops[1..], m')
  }

  lemma {:induction false} RunsAppend(m: Memory, ops: seq<Op>, m1: Memory, op: Op, m': Memory)
    requires Shape(m) && Runs(m, ops, m1) && Shape(m1) && ValidOp(m1, op) && Step(m1, op) == Ok(m')
    ensures Runs(m, ops + [op], m')
    decreases |ops|
  {
    hide Step, ValidOp, RowsOk;
    if ops == [] {
      assert ([] + [op])[1..] == [];
    } else {
      RunsAppend(Step(m, ops[0]).value, ops[1..], m1, op, m');
      assert (ops + [op])[1..] == ops[1..] + [op];
    }
  }

  /** Every aliasing and swap on the way is safe where it happens. */
  ghost predicate SafeRun(m: Memory, ops: seq<Op>, m': Memory)
    requires Shape(m) && Runs(m, ops, m')
    decreases |ops|
  {
    ops != [] ==> SafeOp(m, ops[0]) && SafeRun(Step(m, ops[0]).value, ops[1..], m')
  }

  /** No store on the way is served in place on a page that its space has mapped twice. */
  ghost predicate SoloRun(m: Memory, ops: seq<Op>, m': Memory)
    requires Shape(m) && Runs(m, ops, m')
    decreases |ops|
  {
    ops != [] ==> SoloOp(m, ops[0]) && SoloRun(Step(m, ops[0]).value, ops[1..], m')
  }

  /** Over every run, safe or not, the count of every frame is the number of entries that own it. */
  lemma {:induction false} RunAccounted(m: Memory, held: seq<nat>, ops: seq<Op>, m': Memory)
    requires Accounted(m, held) && Runs(m, ops, m')
    ensures Accounted(m', held)
    decreases |ops|
  {
    hide Exact, Typed, TablesPrivate, ZeroOk, RowsOk, Step, ValidOp;
    if ops != [] {
      var m1 := Step(m, ops[0]).value;
      StepAccounted(m, held, ops[0], m1);
      RunAccounted(m1, held, ops[1..], m');
    }
  }

  lemma {:induction false} RunIsolated(m: Memory, held: seq<nat>, ops: seq<Op>, m': Memory)
    requires Isolated(m, held) && Runs(m, ops, m') && SafeRun(m, ops, m')
    ensures Isolated(m', held)
    decreases |ops|
  {
    hide Exact, Typed, TablesPrivate, ZeroOk, RowsOk, LeavesPrivate, Step, ValidOp, SafeOp;
    if ops != [] {
      var m1 := Step(m, ops[0]).value;
      StepIsolatesIff(m, held, ops[0], m1);
      RunIsolated(m1, held, ops[1..], m');
    }
  }

  /** A space that does not edit its own memory keeps seeing it, whatever all the others do. */
  lemma {:induction false} RunPrivate(m: Memory, held: seq<nat>, ops: seq<Op>, m': Memory, s: nat, q: seq<nat>)
    requires Isolated(m, held) && Runs(m, ops, m') && SafeRun(m, ops, m') && s < m.Spaces() && m.Path(q)
    requires forall i :: 0 <= i < |ops| ==> !Edits(ops[i], s)
    ensures m'.Path(q) && PageOf(m', s, q) == PageOf(m, s, q)
    decreases |ops|
  {
    hide Exact, Typed, TablesPrivate, ZeroOk, RowsOk, LeavesPrivate, Step, ValidOp, SafeOp, PageOf, Edits;
    if ops != [] {
      var m1 := Step(m, ops[0]).value;
      StepIsolatesIff(m, held, ops[0], m1);
      StepPrivate(m, held, ops[0], m1, s, q);
      RunPrivate(m1, held, ops[1..], m', s, q);
    }
  }

  lemma StepPages(m: Memory, op: Op, m': Memory)
    requires Shape(m) && ValidOp(m, op) && Step(m, op) == Ok(m')
    ensures Pages(m') == Pages(m) && m'.depth == m.depth
  {
    hide Store, Load, Install, CopyPage, SwapPage, FreeSpace, CowEntry;
    if op.ForkOp? { assert m'.depth == m.depth && m'.fan == m.fan && m'.rootFan == m.rootFan; }
    assert forall q: seq<nat> :: m'.Path(q) <==> m.Path(q);
  }

  lemma {:induction false} RunPages(m: Memory, ops: seq<Op>, m': Memory)
    requires Shape(m) && Runs(m, ops, m')
    ensures Shape(m') && Pages(m') == Pages(m) && m'.depth == m.depth
    decreases |ops|
  {
    hide RowsOk, Step, ValidOp, Pages;
    if ops != [] {
      StepPages(m, ops[0], Step(m, ops[0]).value);
      RunPages(Step(m, ops[0]).value, ops[1..], m');
    }
  }

  /** Lazy copy-on-write refines eager copying over every safe run without aliased stores. */
  lemma {:induction false} RunRefines(m: Memory, held: seq<nat>, ops: seq<Op>, m': Memory, v: seq<Image<seq<nat>>>)
    requires Isolated(m, held) && Runs(m, ops, m') && SafeRun(m, ops, m') && SoloRun(m, ops, m') && Shows(m, v)
    ensures Shape(m') && Shows(m', AfterActs(v, Pages(m), ActsOf(ops)))
    decreases |ops|
  {
    hide Exact, Typed, TablesPrivate, ZeroOk, RowsOk, LeavesPrivate, Step, ValidOp, SafeOp, SoloOp, Shows, NextImages;
    hide ActValid, Pages, ActOf;
    if ops != [] {
      var m1 := Step(m, ops[0]).value;
      StepIsolatesIff(m, held, ops[0], m1);
      StepRefines(m, held, ops[0], m1, v);
      StepPages(m, ops[0], m1);
      RunRefines(m1, held, ops[1..], m', NextImages(v, Pages(m), ActOf(ops[0])));
      assert ActsOf(ops)[1..] == ActsOf(ops[1..]);
    }
  }

  // ---- From boot ----

  /** Before the first space: the kernel holds every frame in use, and no frame is a table. */
  ghost predicate Booted(m: Memory) {
    && Shape(m) && ZeroOk(m) && m.Spaces() == 0
    && forall n: nat {:trigger m.level[n]} :: n < |m.level| ==> m.level[n] == 0
  }

  lemma {:induction false} NoTablesNoOwners(tab: seq<seq<Entry>>, level: seq<nat>, p: nat, k: nat)
    requires k <= |tab| == |level| && forall n: nat {:trigger level[n]} :: n < |level| ==> level[n] == 0
    ensures OwnersUpTo(tab, level, p, k) == 0
  {
    if k > 0 { NoTablesNoOwners(tab, level, p, k - 1); }
  }

  lemma BootIsolated(m: Memory)
    requires Booted(m)
    ensures Isolated(m, m.refs)
  {
    forall p: nat | Counted(m, p) ensures m.refs[p] == m.refs[p] + Owners(m, p) {
      NoTablesNoOwners(m.tab, m.level, p, |m.tab|);
    }
  }

  /** The zero page is never mapped hardware-writable and never holds anything but zeros. */
  lemma ZeroPageSafe(m: Memory, ops: seq<Op>, m': Memory, n: nat, i: nat)
    requires Booted(m) && Runs(m, ops, m')
    requires n < |m'.tab| && n < |m'.level| && m'.level[n] > 0 && i < |m'.tab[n]| && m'.tab[n][i].present
    requires m'.tab[n][i].page == m'.zero
    ensures !m'.tab[n][i].hw && m'.zero < |m'.dat| && m'.dat[m'.zero] == Zeros()
  {
    BootIsolated(m);
    RunAccounted(m, m.refs, ops, m');
    assert EntryOk(m', m'.level[n], m'.tab[n][i]);
  }

  // ---- Fork without aliasing ----

  /** No space maps a frame at two pages. */
  ghost predicate Unaliased(m: Memory)
    requires m.depth >= 1
  {
    forall s: nat, q: seq<nat>, q': seq<nat> {:trigger Aliased(m, s, q, q')} ::
      s < m.Spaces() && m.Path(q) && m.Path(q') && q != q' ==> !Aliased(m, s, q, q')
  }

  lemma StoreUnaliased(m: Memory, held: seq<nat>, s: nat, q: seq<nat>, off: nat, b: bv8, m': Memory)
    requires Isolated(m, held) && Unaliased(m) && s < m.Spaces() && m.Path(q) && off < PAGE_SIZE
    requires Store(m, s, q, off, b) == Ok(m')
    ensures Unaliased(m')
  {
    hide Exact, TablesPrivate, LeavesPrivate, Typed, ZeroOk, Prep, HwOpen, RowsOk, SameReserved, Unaliased;
    if Grantable(m.Leaf(s, q)) {
      var m1 := if HwOpen(m, s, q, m.depth) then m else Prep(m, s, q, m.depth).value;
      if HwOpen(m, s, q, m.depth) { AlreadyOpen(m, held, s, q); } else { ServeFaults(m, held, s, q, m1); }
      ServedUnaliased(m, m1, held, s, q);
      if Owns(m1.Leaf(s, q)) { WriteUnaliased(m1, held, s, q, off, b); }
    }
  }

  lemma ServedUnaliased(m: Memory, m': Memory, held: seq<nat>, s: nat, q: seq<nat>)
    requires Shape(m) && Unaliased(m) && s < m.Spaces() && m.Path(q) && Served(m, m', held, s, q)
    ensures Unaliased(m')
  {
    hide Accounted, LeavesPrivate, RowsOk, SameReserved, Chain;
    forall s': nat, r: seq<nat>, r': seq<nat> | s' < m'.Spaces() && m'.Path(r) && m'.Path(r') && r != r'
      ensures !Aliased(m', s', r, r')
    {
      assert m.Path(r) && m.Path(r') && m.Path(q);
      if s' == s && r == q {
        assert !Aliased(m, s, q, r');
      } else if s' == s && r' == q {
        assert !Aliased(m, s, q, r) && (Aliased(m', s, q, r) <==> Aliased(m', s, r, q));
      } else {
        assert HwEq(m.Leaf(s', r), m'.Leaf(s', r)) && HwEq(m.Leaf(s', r'), m'.Leaf(s', r')) && !Aliased(m, s', r, r');
      }
    }
  }

  lemma WriteUnaliased(m: Memory, held: seq<nat>, s: nat, q: seq<nat>, off: nat, b: bv8)
    requires Isolated(m, held) && Unaliased(m) && s < m.Spaces() && m.Path(q) && off < PAGE_SIZE
    requires Chain(m, s, q, m.depth - 1) && Owns(m.Leaf(s, q)) && m.Leaf(s, q).hw
    ensures m.Leaf(s, q).page < |m.refs| && Unaliased(Write(m, m.Leaf(s, q).page, off, b))
  {
    hide Exact, Typed, TablesPrivate, ZeroOk, LeavesPrivate, RowsOk, SameReserved, Chain;
    WriteThrough(m, held, s, q, off, b);
    var m' := Write(m, m.Leaf(s, q).page, off, b);
    forall s': nat, r: seq<nat>, r': seq<nat> | s' < m'.Spaces() && m'.Path(r) && m'.Path(r') && r != r'
      ensures !Aliased(m', s', r, r')
    {
      assert m.Path(r) && m.Path(r');
      assert m'.Leaf(s', r) == m.Leaf(s', r) && m'.Leaf(s', r') == m.Leaf(s', r') && !Aliased(m, s', r, r');
    }
  }

  /** Everything but aliasing and swapping: no condition is left. */
  predicate Ordinary(op: Op) {
    !op.CopyOp? && !op.SwapOp?
  }

  /** Every leaf comes from one space of `m`, page by page, or maps no frame of its own. */
  ghost predicate Inherits(m: Memory, m': Memory, s': nat, s: nat)
    requires m.depth == m'.depth && m.depth >= 1
  {
    s < m.Spaces() && forall q: seq<nat> {:trigger m'.Leaf(s', q)} :: m.Path(q) ==>
      HwEq(m.Leaf(s, q), m'.Leaf(s', q)) || !Owns(m'.Leaf(s', q)) || m'.Leaf(s', q).page == m'.zero
  }

  lemma InheritsUnaliased(m: Memory, m': Memory, s': nat, s: nat, q: seq<nat>, q': seq<nat>)
    requires m.depth == m'.depth && m.depth >= 1 && m'.zero == m.zero && Unaliased(m) && Inherits(m, m', s', s)
    requires m.Path(q) && m.Path(q') && q != q'
    ensures !Aliased(m', s', q, q')
  {
    assert !Aliased(m, s, q, q');
  }

  /** In every other ordinary step, each space inherits its pages from one space. */
  lemma StepInherits(m: Memory, held: seq<nat>, op: Op, m': Memory, s': nat)
    requires Accounted(m, held) && ValidOp(m, op) && Ordinary(op) && !op.StoreOp? && Step(m, op) == Ok(m')
    requires s' < m'.Spaces()
    requires op.NewOp? ==> s' < m.Spaces()
    ensures m'.depth == m.depth && m'.zero == m.zero
    ensures Inherits(m, m', s', if op.ForkOp? then Origin(m, op.s, s') else s')
  {
    hide Exact, Typed, TablesPrivate, ZeroOk, RowsOk, SameReserved, Fork, Load, Install, FreeSpace, NewSpace, SameViews;
    match op
    case ForkOp(s) => ForkCorrect(m, held, s, m');
    case LoadOp(s, q) => LoadCorrect(m, held, s, q, m');
    case PutOp(s, q, e) => UnmapCorrect(m, held, s, q, e, m');
    case FreeOp(s) => FreeCorrect(m, held, s, m');
    case NewOp => NewCorrect(m, held);
  }

  lemma StepUnaliased(m: Memory, held: seq<nat>, op: Op, m': Memory)
    requires Isolated(m, held) && ValidOp(m, op) && Ordinary(op) && Unaliased(m) && Step(m, op) == Ok(m')
    ensures m'.depth == m.depth && Unaliased(m')
  {
    hide Exact, Typed, TablesPrivate, ZeroOk, RowsOk, SameReserved, LeavesPrivate, Fork, Store, Load, Install;
    hide FreeSpace, Inherits;
    StepPages(m, op, m');
    if op.StoreOp? {
      StoreUnaliased(m, held, op.s, op.q, op.off, op.byte, m');
    } else {
      forall s': nat, q: seq<nat>, q': seq<nat> | s' < m'.Spaces() && m'.Path(q) && m'.Path(q') && q != q'
        ensures !Aliased(m', s', q, q')
      {
        assert q in Pages(m) && q' in Pages(m);
        if op.NewOp? && s' == m.Spaces() {
          NewCorrect(m, held);
          assert m'.Leaf(s', q) == ABSENT;
        } else {
          StepInherits(m, held, op, m', s');
          InheritsUnaliased(m, m', s', if op.ForkOp? then Origin(m, op.s, s') else s', q, q');
        }
      }
    }
  }

  lemma OrdinarySafe(m: Memory, op: Op)
    requires m.depth >= 1 && ValidOp(m, op) && Ordinary(op) && Unaliased(m)
    ensures SafeOp(m, op) && SoloOp(m, op)
  {
  }

  lemma {:induction false} OrdinaryRun(m: Memory, held: seq<nat>, ops: seq<Op>, m': Memory)
    requires Isolated(m, held) && Unaliased(m) && Runs(m, ops, m') && forall i :: 0 <= i < |ops| ==> Ordinary(ops[i])
    ensures SafeRun(m, ops, m') && SoloRun(m, ops, m')
    decreases |ops|
  {
    hide Exact, Typed, TablesPrivate, ZeroOk, RowsOk, LeavesPrivate, Step, ValidOp;
    if ops != [] {
      var m1 := Step(m, ops[0]).value;
      OrdinarySafe(m, ops[0]);
      StepIsolatesIff(m, held, ops[0], m1);
      StepUnaliased(m, held, ops[0], m1);
      OrdinaryRun(m1, held, ops[1..], m');
    }
  }

  /** From boot, any interleaving of new spaces, forks, loads, stores, unmappings and teardowns,
      in any spaces, shows every space exactly what eager copying would. */
  lemma LazyForkIsEager(m: Memory, ops: seq<Op>, m': Memory)
    requires Booted(m) && Runs(m, ops, m') && forall i :: 0 <= i < |ops| ==> Ordinary(ops[i])
    ensures Shape(m') && Shows(m', AfterActs([], Pages(m), ActsOf(ops)))
  {
    hide Exact, Typed, TablesPrivate, ZeroOk, RowsOk, LeavesPrivate, Step, ValidOp, SafeRun, SoloRun, AfterActs, Runs;
    BootIsolated(m);
    OrdinaryRun(m, m.refs, ops, m');
    RunRefines(m, m.refs, ops, m', []);
  }

  // ---- Why aliasing is not ordinary ----

  /** Without PAE, forking a space makes every later aliasing of its writable pages unsafe,
      until the table that maps them has been unshared. */
  lemma ForkMakesCopyUnsafe(m: Memory, held: seq<nat>, s: nat, m': Memory, q: seq<nat>)
    requires Accounted(m, held) && s < m.Spaces() && !m.pae && Fork(m, s) == Ok(m') && m.Path(q) && Owns(m.Leaf(s, q))
    requires m.Leaf(s, q).hw
    ensures m'.Path(q) && s < m'.Spaces() && !SafeCopy(m', s, q)
  {
    ShareRootLeaf(m, m', s, s, q);
    ShareRootLeaf(m, m', s, m.Spaces(), q);
    assert m'.Path(q) && m.Spaces() != s;
  }

  // ---- Aliases and forks ----

  /** Right after a fork no page of the two spaces is written in place. */
  lemma ForkHidesPages(m: Memory, held: seq<nat>, s: nat, m': Memory, t: nat, q: seq<nat>)
    requires Isolated(m, held) && s < m.Spaces() && Fork(m, s) == Ok(m') && t in {s, m.Spaces()} && m.Path(q)
    ensures m'.Path(q) && !Exposed(m', t, q)
  {
    hide Accounted, LeavesPrivate, Fork, RowsOk, Exposed;
    ForkCorrect(m, held, s, m');
    var t' := if t == s then m.Spaces() else s;
    assert HwEq(m.Leaf(s, q), m'.Leaf(t, q)) && HwEq(m.Leaf(s, q), m'.Leaf(t', q));
    if Exposed(m', t, q) { ExposedElsewhere(m', held, t, q, t'); }
  }

  lemma ExposedElsewhere(m: Memory, held: seq<nat>, s: nat, q: seq<nat>, s': nat)
    requires Isolated(m, held) && s < m.Spaces() && s' < m.Spaces() && m.Path(q) && Exposed(m, s, q)
    requires Owns(m.Leaf(s, q)) ==> Owns(m.Leaf(s', q)) && m.Leaf(s', q).page == m.Leaf(s, q).page
    ensures s' == s
  {
    hide Accounted, LeavesPrivate, Chain;
    WritableFrameIsPrivate(m, held, s, q, s', q);
  }

  /** So the next store in either space parts its page from every alias. */
  lemma ForkSeparates(m: Memory, held: seq<nat>, s: nat, m': Memory, t: nat, q: seq<nat>, off: nat, b: bv8,
                      m'': Memory, q': seq<nat>)
    requires Isolated(m, held) && s < m.Spaces() && Fork(m, s) == Ok(m') && t in {s, m.Spaces()} && m.Path(q)
    requires off < PAGE_SIZE && m'.depth == |q| && Store(m', t, q, off, b) == Ok(m'') && m.Path(q') && q' != q
    ensures m''.depth == m.depth && View(m'', t, q') == View(m', t, q')
  {
    hide Accounted, LeavesPrivate, Fork, Store, RowsOk, Exposed, View;
    ForkHidesPages(m, held, s, m', t, q);
    ForkHidesPages(m, held, s, m', t, q');
    ForkCorrect(m, held, s, m');
    StoreExact(m', held, t, q, off, b, m'', q');
  }
}
