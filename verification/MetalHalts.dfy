/** When the metal machine halts: only out of frames, or because a count would reach 255. */
module MetalHalts {
  import opened Outcomes
  import opened PhysMm
  import opened MetalMemory
  import opened MetalOps
  import opened MetalCounts
  import opened MetalCow
  import opened MetalStore
  import opened MetalAlias
  import opened MetalFork
  import opened MetalFree
  import opened MetalRuns
  import opened MetalRoom
  import opened MetalProgress

  // ---- Fork ----

  lemma ShareRootGoes(m: Memory, held: seq<nat>, s: nat, c: nat)
    requires Accounted(m, held) && s < m.Spaces() && Room(m, c, 0, m.depth)
    ensures ShareRoot(m, s).Ok?
  {
    hide Exact, TablesPrivate, RowRefs, ShareRow;
    var row := m.tab[m.Root(s)];
    forall f: nat | f < |m.refs| && f != m.zero && m.refs[f] != 0 && m.refs[f] != RESERVED
      ensures m.refs[f] + RowRefs(row, f, |row|) < RESERVED
    {
      assert Counted(m, f) && Bears(m, c, 0, m.depth, m.Root(s), f);
      TimesMax(c, Refs(m, m.Root(s), f), Refs(m, m.Root(s), f));
    }
    ShareRowGoes(m.refs, m.zero, row, |row|);
  }

  /** The counts and rows after a root was shared. */
  lemma SharedRootRefs(m: Memory, held: seq<nat>, s: nat, m': Memory, y: nat, f: nat)
    requires Accounted(m, held) && s < m.Spaces() && ShareRoot(m, s) == Ok(m') && y <= |m.tab| && f < |m.refs|
    ensures m.refs[f] == 0 ==> m'.refs[f] == 0
    ensures Counted(m, f) ==> m'.refs[f] <= m.refs[f] + Refs(m, m.Root(s), f)
    ensures Refs(m', y, f) == if y == |m.tab| then Refs(m, m.Root(s), f) else Refs(m, y, f)
  {
    hide Exact, TablesPrivate, RowRefs, ShareRow;
    var row := m.tab[m.Root(s)];
    ShareRowCounts(m.refs, m.zero, row, |row|);
    RowRefsReadOnly(row, f, |row|);
    if RowRefs(row, f, |row|) > 0 { RootRowTyped(m, s, f); }
  }

  lemma SharedRootRoom(m: Memory, held: seq<nat>, s: nat, c: nat, m': Memory)
    requires Accounted(m, held) && s < m.Spaces() && Room(m, c, 0, m.depth) && ShareRoot(m, s) == Ok(m')
    ensures Room(m', c, 0, m.depth - 1) && FreeFrames(m') >= FreeFrames(m)
  {
    hide Exact, TablesPrivate, RowRefs, ShareRow, Refs, Times, FreeCount;
    var a := m.Root(s);
    forall y: nat, f: nat | y < |m'.tab| && m'.level[y] > 0 && Counted(m', f)
      ensures m'.refs[f] + Times(Shares(c, m'.level[y], m.depth - 1), Refs(m', y, f)) < RESERVED
    {
      SharedRootRefs(m, held, s, m', y, f);
      assert Counted(m, f);
      var y0 := if y == |m.tab| then a else y;
      TimesMax(c, 0, 0);
      if Refs(m, a, f) > 0 { RefsTyped(m, a, f); }
      if Refs(m, y0, f) > 0 { RefsTyped(m, y0, f); }
      assert m.level[y0] <= m.depth;
      if m.level[y0] == m.depth {
        SharedRoom(m, a, c, 0, m.depth, y0, f);
      } else {
        assert Bears(m, c, 0, m.depth, y0, f) && Bears(m, c, 0, m.depth, a, f);
        TimesMax(c, Refs(m, a, f), Refs(m, a, f));
      }
    }
    forall f: nat | f < |m.refs| && m.refs[f] == 0 ensures m'.refs[f] == 0 { SharedRootRefs(m, held, s, m', 0, f); }
    forall f: nat | Counted(m', f) ensures m'.refs[f] < RESERVED { SharedRootRefs(m, held, s, m', a, f); }
    FreeLess(m.refs, m'.refs, |m.refs|, |m.refs|);
  }

  /** The PAE loop takes at most one frame and one share of one table a slot. */
  lemma {:induction false} DeshareGoes(m: Memory, held: seq<nat>, a: nat, k: nat, c: nat)
    requires Accounted(m, held) && !m.pae && |m.refs| <= a < |m.tab| && k <= m.rootFan && k <= c
    requires Room(m, c, 0, m.depth - 1) && FreeFrames(m) >= k
    ensures Deshare(m, a, k).Ok?
    ensures var m' := Deshare(m, a, k).value;
      && Accounted(m', held) && !m'.pae && FreeFrames(m') + k >= FreeFrames(m)
      && (k < c ==> Room(m', c - k, 0, m.depth - 1))
  {
    hide Exact, TablesPrivate, Typed, ZeroOk, Room, CowEntry, FreeCount;
    if k > 0 {
      DeshareGoes(m, held, a, k - 1, c);
      DeshareTurnGoes(Deshare(m, a, k - 1).value, held, a, k - 1, c - k + 1);
    }
  }

  lemma DeshareTurnGoes(m: Memory, held: seq<nat>, a: nat, i: nat, c: nat)
    requires Accounted(m, held) && !m.pae && |m.refs| <= a < |m.tab| && i < m.rootFan
    requires Room(m, c, 0, m.depth - 1) && FreeFrames(m) >= 1
    ensures m.tab[a][i].present && !m.tab[a][i].hw ==> CowEntry(m, a, i).Ok?
    ensures var m' := if m.tab[a][i].present && !m.tab[a][i].hw then CowEntry(m, a, i).value else m;
      && Accounted(m', held) && !m'.pae && FreeFrames(m') + 1 >= FreeFrames(m)
      && (c > 1 ==> Room(m', c - 1, 0, m.depth - 1))
  {
    assert EntryOk(m, m.level[a], m.tab[a][i]);
    hide Exact, TablesPrivate, Typed, ZeroOk, Room, CowEntry, FreeCount, RowsOk, SameReserved;
    if m.tab[a][i].present && !m.tab[a][i].hw {
      CowUpperGoes(m, held, a, i, c, 0);
      var m' := CowEntry(m, a, i).value;
      CowEntryAccounted(m, held, a, i);
      if c > 1 { RoomLess(m', c, 0, m.depth - 2, c - 1, 0, m.depth - 1); }
    } else if c > 1 {
      RoomLess(m, c, 0, m.depth - 1, c - 1, 0, m.depth - 1);
    }
  }

  /** The loop does not look at the mode. */
  lemma {:induction false} DeshareFromPlain(m: Memory, n: nat, k: nat)
    requires Shape(m) && n < |m.tab| && k <= |m.tab[n]| && Deshare(Plain(m), n, k).Ok?
    ensures Deshare(m, n, k).Ok?
  {
    hide CowEntry;
    if k > 0 {
      DeshareFromPlain(m, n, k - 1);
      PlainDeshare(m, n, k - 1);
      PlainCow(Deshare(m, n, k - 1).value, n, k - 1);
    }
  }

  lemma ForkGoes(m: Memory, held: seq<nat>, s: nat, c: nat)
    requires Accounted(m, held) && s < m.Spaces() && Room(m, c, 0, m.depth)
    requires m.pae ==> m.rootFan <= c && FreeFrames(m) >= m.rootFan
    ensures Fork(m, s).Ok?
  {
    hide Exact, TablesPrivate, LeavesPrivate, Typed, ZeroOk, Room, Deshare, FreeCount, ShareRow;
    ShareRootGoes(m, held, s, c);
    var m1 := ShareRoot(m, s).value;
    if m.pae {
      SharedRootRoom(m, held, s, c, m1);
      PlainAccounted(m, held);
      ShareRootKept(Plain(m), held, Plain(m1), s);
      PlainRoom(m1, c, m.depth - 1);
      DeshareGoes(Plain(m1), held, m.Root(s), m.rootFan, c);
      DeshareFromPlain(m1, m.Root(s), m.rootFan);
    }
  }

  lemma PlainRoom(m: Memory, c: nat, l: nat)
    requires |m.tab| == |m.level| && Room(m, c, 0, l)
    ensures Room(Plain(m), c, 0, l) && FreeFrames(Plain(m)) == FreeFrames(m)
  {
    hide Times, Refs;
    forall y: nat, f: nat | y < |m.tab| ensures Refs(Plain(m), y, f) == Refs(m, y, f) { PlainRefs(m, y, f); }
    RoomSame(m, Plain(m), c, 0, l);
  }

  lemma PlainRefs(m: Memory, y: nat, f: nat)
    requires y < |m.tab|
    ensures Refs(Plain(m), y, f) == Refs(m, y, f)
  {
  }

  // ---- Tearing a space down ----

  lemma {:induction false} FreeRowGoes(m: Memory, held: seq<nat>, s: nat, r: seq<nat>, n: nat, k: nat, l: nat)
    requires Accounted(m, held) && Mine(m, s, r, n, l) && k <= |m.tab[n]|
    ensures FreeRow(m, n, k, l).Ok?
    decreases l, k
  {
    hide Exact, Typed, ZeroOk, TablesPrivate, FreeSlot;
    if k > 0 {
      FreeRowGoes(m, held, s, r, n, k - 1, l);
      var m1 := FreeRow(m, n, k - 1, l).value;
      FreeRowCorrect(m, held, s, r, n, k - 1, l, m1);
      MineBelow(m, m1, s, r, n, l, n, l);
      FreeSlotGoes(m1, held, s, r, n, k - 1, l);
    }
  }

  lemma {:induction false} FreeSlotGoes(m: Memory, held: seq<nat>, s: nat, r: seq<nat>, n: nat, i: nat, l: nat)
    requires Accounted(m, held) && Mine(m, s, r, n, l) && Slot(m, n, i)
    ensures FreeSlot(m, n, i, l).Ok?
    decreases l, i
  {
    hide Exact, Typed, ZeroOk, TablesPrivate, FreeRow;
    if m.tab[n][i].present {
      if l >= 2 && RefCount(m.refs, m.zero, m.tab[n][i].page) == 1 {
        var x := m.tab[n][i].page;
        var r' := MineChild(m, s, r, n, i, l);
        FreeRowGoes(m, held, s, r', x, m.fan, l - 1);
        var m1 := FreeRow(m, x, m.fan, l - 1).value;
        FreeRowCorrect(m, held, s, r', x, m.fan, l - 1, m1);
        MineBelow(m, m1, s, r, n, l, x, l - 1);
        ReplaceGoes(m1, n, i, ABSENT);
      } else {
        ReplaceGoes(m, n, i, ABSENT);
      }
    }
  }

  lemma FreeGoes(m: Memory, held: seq<nat>, s: nat)
    requires Accounted(m, held) && s < m.Spaces()
    ensures FreeSpace(m, s).Ok?
  {
    hide Exact, Typed, ZeroOk, TablesPrivate, FreeRow;
    FreeRowGoes(m, held, s, seq(m.depth, _ => 0), m.Root(s), m.rootFan, m.depth);
  }

  // ---- Every operation ----

  /** The frames an operation may take at most. */
  function FramesNeeded(m: Memory, op: Op): int {
    match op
    case ForkOp(_) => if m.pae then m.rootFan else 0
    case StoreOp(_, _, _, _) => m.depth
    case LoadOp(_, _) => m.depth - 1
    case PutOp(_, _, _) => m.depth - 1
    case CopyOp(_, _, _) => 2 * m.depth - 3
    case SwapOp(_, _, _) => 4 * m.depth - 6
    case FreeOp(_) => 0
    case NewOp => 0
  }

  /** How often an operation may share one table. */
  function SharesNeeded(m: Memory, op: Op): nat {
    match op
    case ForkOp(_) => if m.pae then m.rootFan else 1
    case CopyOp(_, _, _) => 2
    case SwapOp(_, _, _) => 4
    case _ => 1
  }

  /** Some frame can reach 255 references in this step: one that it takes itself, or frame `f`
      of table `y` if that table is shared as often as the step may. */
  ghost predicate Full(m: Memory, op: Op)
    requires |m.tab| == |m.level|
  {
    var d := if op.CopyOp? then 1 else 0;
    && !op.FreeOp? && !op.NewOp?
    && (SharesNeeded(m, op) + d >= RESERVED
        || exists y: nat, f: nat {:trigger Refs(m, y, f)} :: y < |m.tab| && m.level[y] > 0 && Counted(m, f) &&
             m.refs[f] + d + SharesNeeded(m, op) * Refs(m, y, f) >= RESERVED)
  }

  lemma NotFull(m: Memory, op: Op, c: nat, d: nat, l: nat)
    requires Shape(m) && ValidOp(m, op) && !Full(m, op) && !op.FreeOp? && !op.NewOp?
    requires 1 <= c == SharesNeeded(m, op) && d == if op.CopyOp? then 1 else 0
    ensures Room(m, c, d, l)
  {
    hide Refs, RowsOk;
    forall y: nat, f: nat | y < |m.tab| && m.level[y] > 0 && Counted(m, f)
      ensures m.refs[f] + d + Times(c, Refs(m, y, f)) < RESERVED && Bears(m, c, d, l, y, f)
    {
      assert m.refs[f] + d + SharesNeeded(m, op) * Refs(m, y, f) < RESERVED;
      TimesLess(c, Shares(c, m.level[y], l), Refs(m, y, f), Refs(m, y, f));
    }
    var a := m.Root(op.s);
    assert a < |m.tab| && m.level[a] > 0 by { RootLevel(m, op.s); }
  }

  lemma RootLevel(m: Memory, s: nat)
    requires Shape(m) && s < m.Spaces()
    ensures m.Root(s) < |m.tab| && m.level[m.Root(s)] > 0
  {
  }

  lemma StepGoes(m: Memory, held: seq<nat>, op: Op, c: nat, d: nat, l: nat)
    requires Accounted(m, held) && ValidOp(m, op) && FreeFrames(m) >= FramesNeeded(m, op)
    requires c == SharesNeeded(m, op) && d == if op.CopyOp? then 1 else 0
    requires l == if op.ForkOp? then m.depth else m.depth - 1
    requires op.FreeOp? || op.NewOp? || Room(m, c, d, l)
    ensures Step(m, op).Ok?
  {
    hide Accounted, Fork, Store, Load, Install, CopyPage, SwapPage, FreeSpace, NewSpace, Unowning, Room, FreeFrames;
    match op
    case ForkOp(s) => ForkGoes(m, held, s, c);
    case StoreOp(s, q, off, b) => StoreGoes(m, held, s, q, off, b);
    case LoadOp(s, q) => LoadGoes(m, held, s, q);
    case PutOp(s, q, e) => InstallGoes(m, held, s, q, e);
    case CopyOp(s, src, dst) => CopyGoes(m, held, s, src, dst);
    case SwapOp(s, a, b) => SwapGoes(m, held, s, a, b);
    case FreeOp(s) => FreeGoes(m, held, s);
    case NewOp =>
  }

  /** An operation halts the machine only if too few frames are free or a count can overflow. */
  lemma StepHalts(m: Memory, held: seq<nat>, op: Op)
    requires Accounted(m, held) && ValidOp(m, op) && Step(m, op).Panic?
    ensures FreeFrames(m) < FramesNeeded(m, op) || Full(m, op)
  {
    hide ZeroOk, Typed, Exact, TablesPrivate, Step, Unowning, Room, Full, FreeFrames, RowsOk;
    var c, d, l := SharesNeeded(m, op), if op.CopyOp? then 1 else 0, if op.ForkOp? then m.depth else m.depth - 1;
    if FreeFrames(m) >= FramesNeeded(m, op) && !Full(m, op) {
      if !op.FreeOp? && !op.NewOp? { NotFull(m, op, c, d, l); }
      StepGoes(m, held, op, c, d, l);
    }
  }

  /** A frame counts at least the entries of any one table that own it. */
  lemma RefsBelow(m: Memory, held: seq<nat>, y: nat, f: nat)
    requires Accounted(m, held) && y < |m.tab| && m.level[y] > 0 && Counted(m, f)
    ensures Refs(m, y, f) <= m.refs[f]
  {
    hide Typed, ZeroOk, TablesPrivate, RowRefs;
    OwnersNode(m.tab, m.level, f, |m.tab|, y);
    assert m.refs[f] == held[f] + Owners(m, f);
  }

  /** Frames in use a few times each and free frames enough: nothing halts the machine. (A PAE
      root has four entries.) */
  lemma FewReferences(m: Memory, held: seq<nat>, op: Op)
    requires Accounted(m, held) && ValidOp(m, op) && (m.pae ==> m.rootFan == 4)
    requires FreeFrames(m) >= 4 * m.depth && forall f: nat :: Counted(m, f) ==> m.refs[f] <= 50
    ensures Step(m, op).Ok?
  {
    if Step(m, op).Panic? {
      StepHalts(m, held, op);
      forall y: nat, f: nat | y < |m.tab| && m.level[y] > 0 && Counted(m, f)
        ensures m.refs[f] + 1 + SharesNeeded(m, op) * Refs(m, y, f) < RESERVED
      {
        RefsBelow(m, held, y, f);
        assert m.refs[f] <= 50;
      }
      assert false;
    }
  }

  /** Without PAE a fork takes no frame, and halts exactly if an entry of the root of `s` takes its
      frame to 255 references. */
  lemma ForkHalts(m: Memory, held: seq<nat>, s: nat)
    requires Accounted(m, held) && s < m.Spaces() && !m.pae
    ensures Fork(m, s).Panic? <==>
      exists f: nat :: Counted(m, f) && m.refs[f] > 0 && m.refs[f] + Refs(m, m.Root(s), f) >= RESERVED
  {
    hide Exact, TablesPrivate, RowRefs, ShareRow;
    var row := m.tab[m.Root(s)];
    if Fork(m, s).Ok? {
      ShareRowCounts(m.refs, m.zero, row, |row|);
    } else if forall f: nat :: Counted(m, f) && m.refs[f] > 0 ==> m.refs[f] + Refs(m, m.Root(s), f) < RESERVED {
      ShareRowGoes(m.refs, m.zero, row, |row|);
    }
  }
}
