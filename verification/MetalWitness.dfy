/** A machine that boots, and a run on it in which a store in one space shows in another:
    new space, store, fork, alias, store. */
module MetalWitness {
  import opened Outcomes
  import opened PhysMm
  import opened ArchContract
  import opened MetalMemory
  import opened MetalOps
  import opened MetalViews
  import opened MetalStore
  import opened MetalAlias
  import opened MetalExchange
  import opened MetalRuns
  import opened MetalTheorems

  const ZERO: nat := 255
  const TABLE: nat := 257
  const DATA: nat := 258
  const ROOT: nat := MAX_PAGES

  /** The first page of the space, and its neighbour. */
  const FIRST: seq<nat> := [0, 0]
  const SECOND: seq<nat> := [0, 1]

  function Blank(n: nat): (row: seq<Entry>)
    ensures |row| == n && forall i :: 0 <= i < n ==> row[i] == ABSENT
  {
    seq(n, _ => ABSENT)
  }

  /** Legacy paging right after boot: the low megabyte is reserved, every other frame is free. */
  function Boot(): (m: Memory)
    ensures |m.tab| == |m.dat| == |m.level| == |m.refs| == MAX_PAGES && m.next == TABLE && m.zero == ZERO
    ensures forall n: nat :: n < MAX_PAGES ==> m.tab[n] == Blank(1024) && m.dat[n] == Zeros() && m.level[n] == 0
    ensures forall p: nat :: p < MAX_PAGES ==> m.refs[p] == if p <= FIRST_PAGE then RESERVED else 0
    ensures m.depth == 2 && m.fan == 1024 && m.rootFan == 768 && !m.pae
  {
    Memory(
      seq(MAX_PAGES, _ => Blank(1024)), seq(MAX_PAGES, _ => Zeros()), seq(MAX_PAGES, _ => 0),
      seq(MAX_PAGES, p => if p <= FIRST_PAGE then RESERVED else 0), TABLE,
      ZERO, 2, 1024, 768, false)
  }

  lemma BootIsBooted()
    ensures Booted(Boot())
  {
    hide Boot, Blank;
  }

  /** One space, nothing mapped. */
  function Created(): (m: Memory) {
    Boot().(tab := Boot().tab + [Blank(768)], level := Boot().level + [2])
  }

  /** After the first half of a store's faults: the space has a page table. */
  function Tabled(): Memory {
    var m := Created();
    m.(tab := m.tab[ROOT := Blank(768)[0 := NewEntry(TABLE, true, true)]],
       level := m.level[TABLE := 1], refs := m.refs[TABLE := 1], next := DATA)
  }

  /** After all of them: the first page is mapped, writable. */
  function Mapped(): Memory {
    var m := Tabled();
    m.(tab := m.tab[TABLE := Blank(1024)[0 := NewEntry(DATA, true, true)]], refs := m.refs[DATA := 1], next := DATA + 1)
  }

  function Written(b: bv8): Memory {
    var m := Mapped();
    m.(dat := m.dat[DATA := Zeros()[0 := b]])
  }

  lemma CreatedStep()
    ensures Shape(Boot()) && Step(Boot(), NewOp) == Ok(Created()) && Shape(Created())
  {
    BootIsBooted();
    hide Boot, RowsOk;
    assert seq(768, _ => ABSENT) == Blank(768);
  }

  lemma {:induction false} ShareNothing(refs: seq<nat>, zero: nat, row: seq<Entry>, k: nat)
    requires k <= |row| && forall i :: 0 <= i < k ==> !Owns(row[i])
    ensures ShareRow(refs, zero, row, k) == Ok(refs)
  {
    if k > 0 { ShareNothing(refs, zero, row, k - 1); }
  }

  lemma {:induction false} ShareOne(refs: seq<nat>, zero: nat, row: seq<Entry>, k: nat)
    requires 0 < k <= |row| && Owns(row[0]) && forall i :: 0 < i < k ==> !Owns(row[i])
    ensures ShareRow(refs, zero, row, k) == IncRef(refs, zero, row[0].page)
  {
    if k > 1 { ShareOne(refs, zero, row, k - 1); }
  }

  lemma AllocNext(m: Memory)
    requires Shape(m) && m.next < |m.refs| && m.refs[m.next] == 0
    ensures Alloc(m) == Ok((m.(refs := m.refs[m.next := 1], next := m.next + 1), m.next))
  {
  }

  lemma BlankReadOnly(row: seq<Entry>)
    requires forall i :: 0 <= i < |row| ==> !Owns(row[i])
    ensures ReadOnlyRow(row) == row
  {
  }

  /** The root entry is missing: it is paged in, and the zero page copied into a table. */
  lemma TabledStep()
    ensures Shape(Created()) && Slot(Created(), ROOT, 0) && PrepSlot(Created(), ROOT, 0) == Ok(Tabled())
  {
    CreatedStep();
    hide Boot, RowsOk, ReadOnlyRow, ShareRow, Alloc, NextFit, Blank;
    var m := Created();
    var m1 := Demand(m, ROOT, 0);
    AllocNext(m1);
    var a := Alloc(m1).value;
    var blank := Blank(1024);
    assert a.0.tab[ZERO] == blank;
    ShareNothing(a.0.refs, ZERO, blank, 1024);
    BlankReadOnly(blank);
    var m2 := ShareInto(a.0, ZERO, TABLE, 1, a.0.refs);
    assert m2.tab == m1.tab;
    var m3 := SetEntry(m2, ROOT, 0, NewEntry(TABLE, true, true));
    assert m2.tab[ROOT][0 := NewEntry(TABLE, true, true)] == Blank(768)[0 := NewEntry(TABLE, true, true)];
    assert m3.tab == Tabled().tab;
    assert Release(m3, ZERO) == Ok(m3);
    assert CowTable(m1, ROOT, 0) == Ok(m3);
    assert m3 == Tabled();
  }

  lemma MappedStep()
    ensures Shape(Tabled()) && Slot(Tabled(), TABLE, 0) && PrepSlot(Tabled(), TABLE, 0) == Ok(Mapped())
  {
    TabledStep();
    hide Boot, RowsOk, ReadOnlyRow, ShareRow, Alloc, NextFit, Blank;
    var m := Tabled();
    var m1 := Demand(m, TABLE, 0);
    AllocNext(m1);
    var a := Alloc(m1).value;
    var m2 := a.0.(dat := m1.dat[DATA := m1.dat[ZERO]]);
    assert m2.dat == m1.dat;
    var m3 := SetEntry(m2, TABLE, 0, NewEntry(DATA, true, true));
    assert m2.tab[TABLE][0 := NewEntry(DATA, true, true)] == Blank(1024)[0 := NewEntry(DATA, true, true)];
    assert m3.tab == Mapped().tab;
    assert Release(m3, ZERO) == Ok(m3);
    assert m3 == Mapped();
  }

  lemma WrittenStep(b: bv8)
    ensures Shape(Created()) && ValidOp(Created(), StoreOp(0, FIRST, 0, b))
    ensures Step(Created(), StoreOp(0, FIRST, 0, b)) == Ok(Written(b)) && Shape(Written(b))
  {
    TabledStep();
    MappedStep();
    hide Boot, RowsOk, PrepSlot, Blank;
    var m := Created();
    assert m.Walk(0, FIRST, 0) == Some(ROOT) && m.Walk(0, FIRST, 1) == None;
    assert Prep(m, 0, FIRST, 0) == Ok(m);
    assert Prep(m, 0, FIRST, 1) == Ok(Tabled());
    assert Tabled().Walk(0, FIRST, 0) == Some(ROOT) && Tabled().Walk(0, FIRST, 1) == Some(TABLE);
    assert Prep(m, 0, FIRST, 2) == Ok(Mapped());
    assert Mapped().Walk(0, FIRST, 0) == Some(ROOT) && Mapped().Walk(0, FIRST, 1) == Some(TABLE);
    assert Mapped().Leaf(0, FIRST) == NewEntry(DATA, true, true);
    assert !HwOpen(m, 0, FIRST, 2);
  }

  /** The forked space, with `c` references on the data frame. */
  function Forked(b: bv8, c: nat): Memory {
    var m := Written(b);
    var row := Blank(768)[0 := NewEntry(TABLE, false, true)];
    m.(tab := m.tab[ROOT := row] + [row], level := m.level + [2], refs := m.refs[TABLE := 2][DATA := c])
  }

  lemma WrittenFacts(b: bv8)
    ensures var m := Written(b);
      && |m.tab| == MAX_PAGES + 1 && |m.refs| == MAX_PAGES && m.zero == ZERO && m.depth == 2 && !m.pae
      && m.tab[ROOT] == Blank(768)[0 := NewEntry(TABLE, true, true)] && m.refs[TABLE] == 1 && m.refs[DATA] == 1
  {
    hide Boot, Blank;
  }

  lemma ForkedStep(b: bv8)
    ensures Shape(Written(b)) && ValidOp(Written(b), ForkOp(0)) && Step(Written(b), ForkOp(0)) == Ok(Forked(b, 1))
    ensures Shape(Forked(b, 1))
  {
    WrittenStep(b);
    WrittenFacts(b);
    hide Written, RowsOk, ReadOnlyRow, ShareRow, Blank, Deshare;
    var m := Written(b);
    var row := m.tab[ROOT];
    ShareOne(m.refs, ZERO, row, 768);
    assert ReadOnlyRow(row) == Blank(768)[0 := NewEntry(TABLE, false, true)];
    assert IncRef(m.refs, ZERO, TABLE) == Ok(m.refs[TABLE := 2]);
    assert m.refs[TABLE := 2][DATA := 1] == m.refs[TABLE := 2];
  }

  lemma ForkedFacts(b: bv8, c: nat)
    ensures var m := Forked(b, c);
      && |m.tab| == |m.level| == MAX_PAGES + 2 && |m.refs| == |m.dat| == MAX_PAGES && m.zero == ZERO
      && m.next == DATA + 1
      && m.depth == 2 && m.fan == 1024 && m.rootFan == 768 && m.level[ROOT] == 2 && m.dat[DATA] == Zeros()[0 := b]
      && m.refs[TABLE] == 2 && m.refs[DATA] == c && m.refs[DATA + 1] == 0
      && m.tab[ROOT] == m.tab[ROOT + 1] == Blank(768)[0 := NewEntry(TABLE, false, true)]
      && m.tab[TABLE] == Blank(1024)[0 := NewEntry(DATA, true, true)]
  {
    hide Boot, Blank, Zeros;
  }

  /** The faults of a store into the shared table: the space gets a table of its own. */
  ghost predicate Split(m: Memory) {
    && Shape(m) && |m.tab| == MAX_PAGES + 2 && |m.refs| == MAX_PAGES && m.depth == 2 && m.fan == 1024
    && m.tab[ROOT] == Blank(768)[0 := NewEntry(DATA + 1, true, true)]
    && m.tab[DATA + 1] == Blank(1024)[0 := NewEntry(DATA, false, true)]
  }

  lemma ForkedShape(b: bv8, c: nat)
    requires 1 <= c <= 2
    ensures Shape(Forked(b, c))
  {
    ForkedStep(b);
    ForkedFacts(b, c);
    var m := Forked(b, c);
    assert m == Forked(b, 1).(refs := m.refs);
    assert forall p: nat :: p < |m.refs| ==> m.refs[p] == if p == DATA then c else Forked(b, 1).refs[p];
    hide Boot, Blank, Zeros;
  }

  lemma SplitStep(b: bv8, c: nat)
    requires 1 <= c <= 2
    ensures Shape(Forked(b, c)) && Slot(Forked(b, c), ROOT, 0)
    ensures PrepSlot(Forked(b, c), ROOT, 0).Ok? && Split(PrepSlot(Forked(b, c), ROOT, 0).value)
  {
    ForkedShape(b, c);
    ForkedFacts(b, c);
    hide Forked, RowsOk, ReadOnlyRow, ShareRow, Alloc, NextFit, Blank, Zeros;
    var m := Forked(b, c);
    AllocNext(m);
    var a := Alloc(m).value;
    var row := a.0.tab[TABLE];
    ShareOne(a.0.refs, ZERO, row, 1024);
    assert ReadOnlyRow(row) == Blank(1024)[0 := NewEntry(DATA, false, true)];
    var refs := a.0.refs[DATA := c + 1];
    assert ShareRow(a.0.refs, ZERO, row, 1024) == Ok(refs);
    var m2 := ShareInto(a.0, TABLE, DATA + 1, 1, refs);
    var m3 := SetEntry(m2, ROOT, 0, NewEntry(DATA + 1, true, true));
    assert m3.tab[ROOT] == Blank(768)[0 := NewEntry(DATA + 1, true, true)];
    assert Release(m3, TABLE).Ok?;
  }

  lemma ForkedLeaves(b: bv8, c: nat)
    requires 1 <= c <= 2
    ensures var m := Forked(b, c);
      && m.depth == 2 && m.Walk(0, FIRST, 1) == Some(TABLE) && m.Walk(0, SECOND, 1) == Some(TABLE)
      && m.Leaf(0, FIRST) == m.Leaf(1, FIRST) == NewEntry(DATA, true, true) && m.Leaf(0, SECOND) == ABSENT
  {
    ForkedFacts(b, c);
    hide Forked, Blank, Zeros;
    var m := Forked(b, c);
    assert m.Walk(0, FIRST, 0) == Some(ROOT) && m.Walk(0, SECOND, 0) == Some(ROOT);
    assert m.Walk(1, FIRST, 0) == Some(ROOT + 1);
    assert m.Walk(1, FIRST, 1) == Some(TABLE);
  }

  lemma ForkedTouch(b: bv8)
    ensures Shape(Forked(b, 1))
    ensures Touch(Forked(b, 1), 0, FIRST, 1) == Touch(Forked(b, 1), 0, SECOND, 1) == Ok(Forked(b, 1))
  {
    ForkedStep(b);
    hide Boot, RowsOk, Blank;
    var m := Forked(b, 1);
    assert m.Walk(0, FIRST, 0) == Some(ROOT) && m.Walk(0, SECOND, 0) == Some(ROOT);
    assert Touch(m, 0, FIRST, 0) == Touch(m, 0, SECOND, 0) == Ok(m);
  }

  lemma SplitPrep(b: bv8, c: nat, q: seq<nat>)
    requires 1 <= c <= 2 && q in {FIRST, SECOND}
    ensures Shape(Forked(b, c)) && Prep(Forked(b, c), 0, q, 1).Ok?
    ensures var m := Prep(Forked(b, c), 0, q, 1).value; Split(m) && m.Walk(0, q, 1) == Some(DATA + 1)
  {
    SplitStep(b, c);
    hide Boot, RowsOk, PrepSlot, Blank;
    var m := Forked(b, c);
    assert m.Walk(0, q, 0) == Some(ROOT);
    assert Prep(m, 0, q, 0) == Ok(m);
    var m' := Prep(m, 0, q, 1).value;
    assert m'.Walk(0, q, 0) == Some(ROOT);
  }

  lemma CopyGoesThrough(b: bv8)
    ensures Shape(Forked(b, 1)) && CopyPage(Forked(b, 1), 0, FIRST, SECOND).Ok?
  {
    ForkedTouch(b);
    ForkedLeaves(b, 1);
    SplitPrep(b, 2, SECOND);
    hide Boot, RowsOk, Blank, Touch, Prep;
    var m := Forked(b, 1);
    assert Forked(b, 2).refs == m.refs[DATA := 2];
    assert Retain(m, DATA) == Ok(Forked(b, 2));
    assert Install(Forked(b, 2), 0, SECOND, NewEntry(DATA, true, true)).Ok?;
  }

  lemma SwapGoesThrough(b: bv8)
    ensures Shape(Forked(b, 1)) && SwapPage(Forked(b, 1), 0, FIRST, SECOND).Ok?
  {
    ForkedTouch(b);
    ForkedLeaves(b, 1);
    SplitPrep(b, 1, FIRST);
    hide Boot, RowsOk, Blank, Touch;
    var m := Forked(b, 1);
    var m1 := Prep(m, 0, FIRST, 1).value;
    var m2 := SetEntry(m1, DATA + 1, 0, ABSENT);
    assert Poke(m, 0, FIRST, ABSENT) == Ok(m2);
    assert m2.Walk(0, SECOND, 0) == Some(ROOT) && m2.Walk(0, SECOND, 1) == Some(DATA + 1);
    assert Prep(m2, 0, SECOND, 0) == Ok(m2);
    assert Prep(m2, 0, SECOND, 1) == Ok(m2);
  }

  /** A new space, a store at its first page, a fork. */
  function Prelude(b: bv8): seq<Op> {
    [NewOp, StoreOp(0, FIRST, 0, b), ForkOp(0)]
  }

  lemma PreludeRuns(b: bv8)
    ensures Booted(Boot()) && Shape(Boot()) && Runs(Boot(), Prelude(b), Forked(b, 1))
    ensures Isolated(Forked(b, 1), Boot().refs)
  {
    BootIsBooted();
    CreatedStep();
    WrittenStep(b);
    ForkedStep(b);
    hide Boot, Created, Written, Forked, Step, RowsOk, Isolated, Unaliased;
    assert Runs(Boot(), [], Boot());
    RunsAppend(Boot(), [], Boot(), NewOp, Created());
    RunsAppend(Boot(), [] + [NewOp], Created(), StoreOp(0, FIRST, 0, b), Written(b));
    RunsAppend(Boot(), [] + [NewOp] + [StoreOp(0, FIRST, 0, b)], Written(b), ForkOp(0), Forked(b, 1));
    assert Prelude(b) == [] + [NewOp] + [StoreOp(0, FIRST, 0, b)] + [ForkOp(0)];
    BootIsolated(Boot());
    NothingAliased();
    OrdinaryRun(Boot(), Boot().refs, Prelude(b), Forked(b, 1));
    RunIsolated(Boot(), Boot().refs, Prelude(b), Forked(b, 1));
  }

  lemma NothingAliased()
    ensures Unaliased(Boot())
  {
  }

  /** A parent and a child that map the first page writable, in a table that they share. */
  ghost predicate Sharing(m: Memory, held: seq<nat>, b: bv8) {
    && Isolated(m, held) && m.depth == 2 && m.Spaces() == 2 && m.Path(FIRST) && m.Path(SECOND)
    && m.Leaf(0, FIRST) == m.Leaf(1, FIRST) == NewEntry(DATA, true, true)
    && DATA < |m.dat| && m.dat[DATA] == Zeros()[0 := b]
  }

  lemma ForkedSharing(b: bv8)
    ensures Sharing(Forked(b, 1), Boot().refs, b)
  {
    hide Boot, Forked, Isolated, Runs, Booted;
    PreludeRuns(b);
    ForkedLeaves(b, 1);
    ForkedFacts(b, 1);
  }

  lemma CopyLeaks(m: Memory, held: seq<nat>, b: bv8, m': Memory, c: bv8) returns (m'': Memory)
    requires Sharing(m, held, b) && CopyPage(m, 0, FIRST, SECOND) == Ok(m')
    ensures m'.Spaces() == 2 && m'.Path(SECOND) && Store(m', 0, SECOND, 0, c) == Ok(m'') && m''.depth == 2
    ensures View(m', 1, FIRST) == Ram(Zeros()[0 := b]) && View(m'', 1, FIRST) == Ram(Zeros()[0 := c])
  {
    hide CopyPage, Store, Exact, Typed, TablesPrivate, ZeroOk, LeavesPrivate, RowsOk, SameReserved, HwOpen;
    CopyAccounted(m, held, 0, FIRST, SECOND, m');
    assert HwEq(m.Leaf(1, FIRST), m'.Leaf(1, FIRST));
    WrittenLeaf(m', held, 0, SECOND);
    m'' := SharedWrite(m', held, 0, SECOND, 0, c, 1, FIRST);
    assert Zeros()[0 := b][0 := c] == Zeros()[0 := c];
  }

  lemma SwapLeaks(m: Memory, held: seq<nat>, b: bv8, m': Memory, c: bv8) returns (m'': Memory)
    requires Sharing(m, held, b) && SwapPage(m, 0, FIRST, SECOND) == Ok(m')
    ensures m'.Spaces() == 2 && m'.Path(SECOND) && Store(m', 0, SECOND, 0, c) == Ok(m'') && m''.depth == 2
    ensures View(m', 1, FIRST) == Ram(Zeros()[0 := b]) && View(m'', 1, FIRST) == Ram(Zeros()[0 := c])
  {
    hide SwapPage, Store, Accounted, LeavesPrivate, RowsOk, SameReserved, HwOpen, Traded;
    var m1, ta, ea, tb, eb := SwapTrades(m, held, 0, FIRST, SECOND, m');
    TradedLeaks(m, m1, held, 0, FIRST, ta, ea, SECOND, tb, eb, m', FIRST, SECOND, 1, FIRST);
    m'' := SharedWrite(m', held, 0, SECOND, 0, c, 1, FIRST);
    assert Zeros()[0 := b][0 := c] == Zeros()[0 := c];
  }

  /** After the fork, aliasing the page at its neighbour lets the parent write the child's memory. */
  lemma CopyAfterForkLeaks(b: bv8, c: bv8) returns (m': Memory, m'': Memory)
    ensures Booted(Boot()) && Runs(Boot(), Prelude(b) + [CopyOp(0, FIRST, SECOND)], m')
    ensures Runs(Boot(), Prelude(b) + [CopyOp(0, FIRST, SECOND)] + [StoreOp(0, SECOND, 0, c)], m'')
    ensures m'.depth == m''.depth == 2 && View(m', 1, FIRST) == Ram(Zeros()[0 := b])
    ensures View(m'', 1, FIRST) == Ram(Zeros()[0 := c])
  {
    PreludeRuns(b);
    ForkedSharing(b);
    CopyGoesThrough(b);
    hide Boot, Forked, CopyPage, Store, Accounted, LeavesPrivate, RowsOk, Runs, Booted;
    m' := CopyPage(Forked(b, 1), 0, FIRST, SECOND).value;
    m'' := CopyLeaks(Forked(b, 1), Boot().refs, b, m', c);
    RunsAppend(Boot(), Prelude(b), Forked(b, 1), CopyOp(0, FIRST, SECOND), m');
    RunsAppend(Boot(), Prelude(b) + [CopyOp(0, FIRST, SECOND)], m', StoreOp(0, SECOND, 0, c), m'');
  }

  /** So does swapping the two pages. */
  lemma SwapAfterForkLeaks(b: bv8, c: bv8) returns (m': Memory, m'': Memory)
    ensures Booted(Boot()) && Runs(Boot(), Prelude(b) + [SwapOp(0, FIRST, SECOND)], m')
    ensures Runs(Boot(), Prelude(b) + [SwapOp(0, FIRST, SECOND)] + [StoreOp(0, SECOND, 0, c)], m'')
    ensures m'.depth == m''.depth == 2 && View(m', 1, FIRST) == Ram(Zeros()[0 := b])
    ensures View(m'', 1, FIRST) == Ram(Zeros()[0 := c])
  {
    PreludeRuns(b);
    ForkedSharing(b);
    SwapGoesThrough(b);
    hide Boot, Forked, SwapPage, Store, Accounted, LeavesPrivate, RowsOk, Runs, Booted;
    m' := SwapPage(Forked(b, 1), 0, FIRST, SECOND).value;
    m'' := SwapLeaks(Forked(b, 1), Boot().refs, b, m', c);
    RunsAppend(Boot(), Prelude(b), Forked(b, 1), SwapOp(0, FIRST, SECOND), m');
    RunsAppend(Boot(), Prelude(b) + [SwapOp(0, FIRST, SECOND)], m', StoreOp(0, SECOND, 0, c), m'');
  }

  // ---- An alias that outlives a fork ----

  function Pair(): seq<Entry> {
    Blank(1024)[0 := NewEntry(DATA, true, true)][1 := NewEntry(DATA, true, true)]
  }

  /** The first two pages are one frame. */
  function Paired(b: bv8): Memory {
    var m := Written(b);
    m.(tab := m.tab[TABLE := Pair()], refs := m.refs[DATA := 2])
  }

  function PairForked(b: bv8): Memory {
    var m := Paired(b);
    var row := Blank(768)[0 := NewEntry(TABLE, false, true)];
    m.(tab := m.tab[ROOT := row] + [row], level := m.level + [2], refs := m.refs[TABLE := 2])
  }

  /** The child has freed its pages. */
  function Alone(b: bv8): Memory {
    var m := PairForked(b);
    m.(tab := m.tab[ROOT + 1 := Blank(768)], refs := m.refs[TABLE := 1])
  }

  /** A root entry that is open takes no fault. */
  lemma OpenRoot(m: Memory, q: seq<nat>)
    requires Shape(m) && |q| == 2 && Slot(m, |m.refs|, q[0])
    requires m.tab[|m.refs|][q[0]].present && m.tab[|m.refs|][q[0]].hw
    ensures Touch(m, 0, q, 1) == Ok(m) && Prep(m, 0, q, 1) == Ok(m)
    ensures m.Walk(0, q, 1) == Some(m.tab[|m.refs|][q[0]].page)
  {
    hide RowsOk;
    assert m.Walk(0, q, 0) == Some(|m.refs|);
    assert Touch(m, 0, q, 0) == Ok(m) && Prep(m, 0, q, 0) == Ok(m);
  }

  lemma PairedTouch(b: bv8)
    ensures Shape(Written(b)) && Touch(Written(b), 0, FIRST, 1) == Ok(Written(b))
    ensures Written(b).depth == 2 && Written(b).Leaf(0, FIRST) == NewEntry(DATA, true, true)
  {
    WrittenStep(b);
    WrittenFacts(b);
    WrittenTable(b);
    hide Written, RowsOk, Blank, Zeros, Touch, Prep, Step;
    OpenRoot(Written(b), FIRST);
  }

  lemma HeldShape(b: bv8)
    ensures Shape(Held(b))
  {
    WrittenStep(b);
    WrittenFacts(b);
    hide Written, Blank, Zeros, Step;
  }

  lemma PairedInstall(b: bv8)
    ensures Shape(Held(b)) && Install(Held(b), 0, SECOND, NewEntry(DATA, true, true)) == Ok(Paired(b))
  {
    HeldShape(b);
    WrittenFacts(b);
    WrittenTable(b);
    hide Written, RowsOk, Blank, Zeros, Touch, Prep;
    OpenRoot(Held(b), SECOND);
  }

  /** The copy has taken its reference. */
  function Held(b: bv8): Memory {
    Written(b).(refs := Written(b).refs[DATA := 2])
  }

  lemma PairedStep(b: bv8)
    ensures Shape(Written(b)) && ValidOp(Written(b), CopyOp(0, FIRST, SECOND)) && Shape(Paired(b))
    ensures Step(Written(b), CopyOp(0, FIRST, SECOND)) == Ok(Paired(b))
  {
    PairedTouch(b);
    PairedInstall(b);
    WrittenFacts(b);
    WrittenTable(b);
    hide Written, Paired, RowsOk, Blank, Zeros, Touch, Install;
    assert Retain(Written(b), DATA) == Ok(Held(b));
  }

  lemma WrittenTable(b: bv8)
    ensures var m := Written(b);
      && |m.dat| == MAX_PAGES && m.dat[DATA] == Zeros()[0 := b] && m.level[TABLE] == 1 && m.level[ROOT] == 2
      && m.tab[TABLE] == Blank(1024)[0 := NewEntry(DATA, true, true)] && m.fan == 1024 && m.rootFan == 768
  {
    hide Boot, Blank, Zeros;
  }

  lemma PairedFacts(b: bv8)
    ensures var m := Paired(b);
      && |m.tab| == |m.level| == MAX_PAGES + 1 && |m.refs| == |m.dat| == MAX_PAGES && m.zero == ZERO && m.depth == 2
      && !m.pae && m.fan == 1024 && m.rootFan == 768 && m.level[ROOT] == 2 && m.level[TABLE] == 1
      && m.tab[ROOT] == Blank(768)[0 := NewEntry(TABLE, true, true)] && m.tab[TABLE] == Pair()
      && m.refs[TABLE] == 1 && m.refs[DATA] == 2 && m.dat[DATA] == Zeros()[0 := b]
  {
    WrittenFacts(b);
    WrittenTable(b);
    WrittenSizes(b);
    hide Written, Blank, Zeros, Pair;
  }

  lemma WrittenSizes(b: bv8)
    ensures |Written(b).level| == MAX_PAGES + 1
  {
    hide Boot, Blank, Zeros;
  }

  lemma PairForkedStep(b: bv8)
    ensures Shape(Paired(b)) && ValidOp(Paired(b), ForkOp(0)) && Step(Paired(b), ForkOp(0)) == Ok(PairForked(b))
    ensures Shape(PairForked(b))
  {
    PairedStep(b);
    PairedFacts(b);
    hide Paired, RowsOk, ReadOnlyRow, ShareRow, Blank, Deshare, Zeros, Pair;
    var m := Paired(b);
    var row := m.tab[ROOT];
    ShareOne(m.refs, ZERO, row, 768);
    assert ReadOnlyRow(row) == Blank(768)[0 := NewEntry(TABLE, false, true)];
    assert IncRef(m.refs, ZERO, TABLE) == Ok(m.refs[TABLE := 2]);
  }

  /** Slots that are empty stay so. */
  lemma {:induction false} FreeRest(m: Memory, n: nat, k: nat, l: nat, m1: Memory)
    requires Shape(m) && n < |m.tab| && 1 <= k <= |m.tab[n]| && FreeRow(m, n, 1, l) == Ok(m1) && SameShape(m, m1)
    requires forall i :: 1 <= i < k ==> !m1.tab[n][i].present
    ensures FreeRow(m, n, k, l) == Ok(m1)
  {
    if k > 1 { FreeRest(m, n, k - 1, l, m1); }
  }

  lemma PairForkedFacts(b: bv8)
    ensures var m := PairForked(b);
      && |m.tab| == |m.level| == MAX_PAGES + 2 && |m.refs| == |m.dat| == MAX_PAGES && m.zero == ZERO && m.depth == 2
      && m.fan == 1024 && m.rootFan == 768 && m.level[TABLE] == 1 && m.level[ROOT] == 2 && m.tab[TABLE] == Pair()
      && m.tab[ROOT] == m.tab[ROOT + 1] == Blank(768)[0 := NewEntry(TABLE, false, true)]
      && m.refs[TABLE] == 2 && m.refs[DATA] == 2 && m.dat[DATA] == Zeros()[0 := b]
  {
    PairedFacts(b);
    hide Paired, Blank, Zeros, Pair;
  }

  lemma AloneStep(b: bv8)
    ensures Shape(PairForked(b)) && ValidOp(PairForked(b), FreeOp(1)) && Step(PairForked(b), FreeOp(1)) == Ok(Alone(b))
    ensures Shape(Alone(b))
  {
    PairForkedStep(b);
    PairForkedFacts(b);
    hide PairForked, RowsOk, Blank, Zeros, Pair;
    var m := PairForked(b);
    var n := ROOT + 1;
    var m1 := SetEntry(m, n, 0, ABSENT);
    assert m1.tab[n] == Blank(768);
    assert Replace(m, n, 0, ABSENT) == Ok(Alone(b));
    assert FreeRow(m, n, 0, 2) == Ok(m);
    assert FreeRow(m, n, 1, 2) == Ok(Alone(b));
    FreeRest(m, n, 768, 2, Alone(b));
  }

  lemma PairLeaves(b: bv8)
    ensures var m := PairForked(b);
      && m.depth == 2 && m.Leaf(0, FIRST) == m.Leaf(0, SECOND) == NewEntry(DATA, true, true)
      && View(m, 0, SECOND) == Ram(Zeros()[0 := b])
  {
    PairForkedFacts(b);
    hide PairForked, Blank, Zeros;
    var m := PairForked(b);
    assert m.Walk(0, FIRST, 0) == Some(ROOT) && m.Walk(0, SECOND, 0) == Some(ROOT);
    assert m.Walk(0, FIRST, 1) == Some(TABLE) && m.Walk(0, SECOND, 1) == Some(TABLE);
  }

  lemma AloneFacts(b: bv8)
    ensures var m := Alone(b);
      && |m.tab| == |m.level| == MAX_PAGES + 2 && |m.refs| == |m.dat| == MAX_PAGES && m.zero == ZERO && m.depth == 2
      && m.fan == 1024 && m.rootFan == 768 && m.tab[ROOT] == Blank(768)[0 := NewEntry(TABLE, false, true)]
      && m.tab[TABLE] == Pair() && m.refs[TABLE] == 1 && m.dat[DATA] == Zeros()[0 := b] && !m.pae
  {
    PairForkedFacts(b);
    PairedFacts(b);
    hide Paired, Blank, Zeros, Pair;
  }

  /** The parent's table is its own again: the faults only give the write bit back. */
  lemma AlonePrep(b: bv8) returns (m1: Memory)
    ensures Shape(Alone(b)) && !HwOpen(Alone(b), 0, FIRST, 2) && Prep(Alone(b), 0, FIRST, 2) == Ok(m1)
    ensures m1 == Alone(b).(tab := m1.tab) && |m1.tab| == MAX_PAGES + 2 && m1.tab[TABLE] == Pair()
    ensures m1.tab[ROOT] == Blank(768)[0 := NewEntry(TABLE, true, true)]
  {
    AloneStep(b);
    AloneFacts(b);
    hide Alone, RowsOk, Blank, Zeros;
    var m := Alone(b);
    assert m.Walk(0, FIRST, 0) == Some(ROOT);
    assert !HwOpen(m, 0, FIRST, 1);
    m1 := SetEntry(m, ROOT, 0, NewEntry(TABLE, true, true));
    assert Prep(m, 0, FIRST, 0) == Ok(m);
    assert Prep(m, 0, FIRST, 1) == Ok(m1);
    assert m1.Walk(0, FIRST, 0) == Some(ROOT) && m1.Walk(0, FIRST, 1) == Some(TABLE);
  }

  lemma AloneStore(b: bv8, c: bv8) returns (m': Memory)
    ensures Shape(Alone(b)) && ValidOp(Alone(b), StoreOp(0, FIRST, 0, c))
    ensures Step(Alone(b), StoreOp(0, FIRST, 0, c)) == Ok(m') && m'.depth == 2
    ensures View(m', 0, SECOND) == Ram(Zeros()[0 := c])
  {
    AloneFacts(b);
    var m1 := AlonePrep(b);
    hide Alone, RowsOk, Blank, Zeros, Prep, HwOpen, SameReserved;
    var m := Alone(b);
    assert m.Walk(0, FIRST, 0) == Some(ROOT) && m.Walk(0, FIRST, 1) == Some(TABLE);
    assert m1.Walk(0, FIRST, 0) == Some(ROOT) && m1.Walk(0, FIRST, 1) == Some(TABLE);
    m' := Write(m1, DATA, 0, c);
    assert m'.Walk(0, SECOND, 0) == Some(ROOT) && m'.Walk(0, SECOND, 1) == Some(TABLE);
    assert Zeros()[0 := b][0 := c] == Zeros()[0 := c];
  }

  function PairPrelude(b: bv8): seq<Op> {
    [NewOp, StoreOp(0, FIRST, 0, b), CopyOp(0, FIRST, SECOND), ForkOp(0)]
  }

  lemma PairRuns(b: bv8)
    ensures Booted(Boot()) && Shape(Boot()) && Runs(Boot(), PairPrelude(b), PairForked(b))
    ensures Isolated(Paired(b), Boot().refs)
  {
    BootIsBooted();
    CreatedStep();
    WrittenStep(b);
    PairedStep(b);
    PairForkedStep(b);
    OneSpaceSafe(b);
    hide Boot, Created, Written, Paired, PairForked, Step, RowsOk, Accounted, LeavesPrivate, Booted, SafeCopy;
    BootIsolated(Boot());
    StepIsolatesIff(Boot(), Boot().refs, NewOp, Created());
    StepIsolatesIff(Created(), Boot().refs, StoreOp(0, FIRST, 0, b), Written(b));
    StepIsolatesIff(Written(b), Boot().refs, CopyOp(0, FIRST, SECOND), Paired(b));
    RunsAppend(Boot(), [], Boot(), NewOp, Created());
    RunsAppend(Boot(), [] + [NewOp], Created(), StoreOp(0, FIRST, 0, b), Written(b));
    RunsAppend(Boot(), [] + [NewOp] + [StoreOp(0, FIRST, 0, b)], Written(b), CopyOp(0, FIRST, SECOND), Paired(b));
    var ops := [] + [NewOp] + [StoreOp(0, FIRST, 0, b)] + [CopyOp(0, FIRST, SECOND)];
    RunsAppend(Boot(), ops, Paired(b), ForkOp(0), PairForked(b));
    assert PairPrelude(b) == [] + [NewOp] + [StoreOp(0, FIRST, 0, b)] + [CopyOp(0, FIRST, SECOND)] + [ForkOp(0)];
  }

  lemma OneSpaceSafe(b: bv8)
    ensures Written(b).depth == 2 && SafeCopy(Written(b), 0, FIRST)
  {
    WrittenFacts(b);
    hide Written, Blank;
  }

  /** While the child lives, the store parts the two pages. */
  lemma PairParts(b: bv8, c: bv8, m': Memory)
    requires Shape(PairForked(b)) && PairForked(b).depth == 2 && Store(PairForked(b), 0, FIRST, 0, c) == Ok(m')
    ensures m'.depth == 2 && View(m', 0, SECOND) == Ram(Zeros()[0 := b])
  {
    PairRuns(b);
    PairForkedStep(b);
    PairLeaves(b);
    PairedFacts(b);
    hide Paired, PairForked, Fork, Store, Accounted, LeavesPrivate, RowsOk, Runs, View, Blank;
    ForkSeparates(Paired(b), Boot().refs, 0, PairForked(b), 0, FIRST, 0, c, m', SECOND);
  }

  /** After a fork a store parts two aliased pages while the child lives, and no longer once the
      child has freed its memory: what the parent sees depends on the child. */
  lemma AliasOutlivesFork(b: bv8, c: bv8) returns (m': Memory)
    ensures Booted(Boot()) && Runs(Boot(), PairPrelude(b), PairForked(b))
    ensures Shape(PairForked(b)) && PairForked(b).depth == 2
    ensures forall m: Memory :: Store(PairForked(b), 0, FIRST, 0, c) == Ok(m) ==>
      m.depth == 2 && View(m, 0, SECOND) == Ram(Zeros()[0 := b])
    ensures Runs(Boot(), PairPrelude(b) + [FreeOp(1)] + [StoreOp(0, FIRST, 0, c)], m') && m'.depth == 2
    ensures View(m', 0, SECOND) == Ram(Zeros()[0 := c])
  {
    PairRuns(b);
    AloneStep(b);
    PairLeaves(b);
    hide Boot, Paired, PairForked, Alone, Step, Store, Accounted, LeavesPrivate, RowsOk, Runs, View, Blank, Booted;
    m' := AloneStore(b, c);
    RunsAppend(Boot(), PairPrelude(b), PairForked(b), FreeOp(1), Alone(b));
    RunsAppend(Boot(), PairPrelude(b) + [FreeOp(1)], Alone(b), StoreOp(0, FIRST, 0, c), m');
    forall m: Memory | Store(PairForked(b), 0, FIRST, 0, c) == Ok(m)
      ensures m.depth == 2 && View(m, 0, SECOND) == Ram(Zeros()[0 := b])
    {
      PairParts(b, c, m);
    }
  }
}
