/** A guest that boots, and a run on it in which a page copied onto itself ends up as another
    space's memory: two new spaces, a page, the copy, a page of the other space, a store there. */
module InterpWitness {
  import opened Outcomes
  import opened ArchContract
  import opened InterpPhys
  import opened InterpMemory
  import opened InterpOps
  import opened InterpSteps
  import opened InterpEdits
  import opened InterpFork
  import opened InterpRuns
  import opened InterpTheorems
  import opened InterpHistory
  import opened InterpHost

  /** The first page after the null guard. */
  const PAGE: nat := 16

  /** Frame 0 is never handed out; every other frame is new. */
  function Boot(): (g: Guest)
    ensures |g.kind| == |g.tab| == |g.bytes| == FRAMES && g.dirs == [] && g.windows == [] && g.gen == 0
    ensures g.pool == Pool(1, [], map[])
    ensures forall f: nat :: f < FRAMES ==> g.kind[f] == (if f == 0 then Fixed else Unused) && g.bytes[f] == Zeros()
  {
    Guest(
      Pool(1, [], map[]), seq(FRAMES, f => if f == 0 then Fixed else Unused), seq(FRAMES, _ => []),
      seq(FRAMES, _ => Zeros()), [], [], 0)
  }

  lemma BootIsBooted()
    ensures Booted(Boot())
  {
    hide Boot;
  }

  function Row(e: Pte): seq<Pte> {
    Blanks(SLOTS)[PAGE := e]
  }

  function Directory(f: nat): seq<Pte> {
    Blanks(SLOTS)[0 := Mapping(f, true)]
  }

  function One(): Guest {
    var g := Boot();
    g.(pool := Pool(2, [], map[]), kind := g.kind[1 := Dir(0)], tab := g.tab[1 := Blanks(SLOTS)], dirs := [1])
  }

  function Two(): Guest {
    var g := One();
    g.(pool := Pool(3, [], map[]), kind := g.kind[2 := Dir(1)], tab := g.tab[2 := Blanks(SLOTS)], dirs := [1, 2])
  }

  /** Space 0 has a page, on frame 3. */
  function Backed(): Guest {
    var g := Two();
    g.(pool := Pool(5, [], map[]), kind := g.kind[3 := Data][4 := Table(0, 0)],
       tab := g.tab[1 := Directory(4)][4 := Row(Mapping(3, true))], gen := 2)
  }

  /** The page was copied onto itself: its frame is mapped, counted twice, and free. */
  function Copied(): Guest {
    var g := Backed();
    g.(pool := Pool(5, [3], map[3 := 2]), kind := g.kind[3 := Unused], gen := 3)
  }

  /** Space 1 got the same frame. */
  function Shared(): Guest {
    var g := Copied();
    g.(pool := Pool(6, [], map[3 := 2]), kind := g.kind[3 := Data][5 := Table(1, 0)],
       tab := g.tab[2 := Directory(5)][5 := Row(Mapping(3, true))], gen := 5)
  }

  lemma NewSteps()
    ensures Step(Boot(), NewOp) == Ok(One()) && Step(One(), NewOp) == Ok(Two())
  {
    hide Boot, Blanks;
    assert [] + [1] == [1] && [1] + [2] == [1, 2];
  }

  lemma HostStarts()
    ensures Framed(Boot()) && Started(Boot(), Host(One(), map[], 0))
  {
    BootIsBooted();
    NewSteps();
  }

  lemma BackedStep()
    ensures ValidOp(Two(), FreshOp(0, PAGE)) && Step(Two(), FreshOp(0, PAGE)) == Ok(Backed())
  {
    hide Boot, Blanks;
    var g := Two();
    var a := Alloc(g, Data).value;
    assert a.1 == 3;
    var g1 := AddTable(a.0, 0, PAGE).value;
    assert g1.tab[1] == Directory(4) && g1.tab[4] == Blanks(SLOTS);
    assert HasTable(g1, 0, PAGE);
    var g2 := SetPte(g1, 0, PAGE, Mapping(3, true));
    assert g2.tab == Backed().tab;
  }

  lemma BackedPage()
    ensures Backed().PteAt(0, PAGE) == Mapping(3, true) && HasTable(Backed(), 0, PAGE)
  {
    hide Boot, Blanks;
  }

  lemma CopiedStep()
    ensures ValidOp(Backed(), CopyOp(0, PAGE, PAGE)) && Step(Backed(), CopyOp(0, PAGE, PAGE)) == Ok(Copied())
  {
    BackedPage();
    hide Boot, Blanks;
    var g := Backed();
    var g1 := Release(g, 3);
    assert g1.pool == Pool(5, [3], map[]) && g1.bytes == g.bytes;
    assert HasTable(g1, 0, PAGE) && g1.PteAt(0, PAGE) == Mapping(3, true);
    var g2 := SetPte(g1, 0, PAGE, Mapping(3, true));
    assert g.tab[4][PAGE := Mapping(3, true)] == g.tab[4];
    assert g2.tab == g.tab;
    assert IncRef(g2, 3).pool == Copied().pool;
  }

  lemma SharedStep()
    ensures ValidOp(Copied(), FreshOp(1, PAGE)) && Step(Copied(), FreshOp(1, PAGE)) == Ok(Shared())
  {
    hide Boot, Blanks;
    var g := Copied();
    var a := Alloc(g, Data).value;
    assert a.1 == 3 && a.0.pool == Pool(5, [], map[3 := 2]);
    var g1 := AddTable(a.0, 1, PAGE).value;
    assert g1.tab[2] == Directory(5) && g1.tab[5] == Blanks(SLOTS);
    assert HasTable(g1, 1, PAGE);
    var g2 := SetPte(g1, 1, PAGE, Mapping(3, true));
    assert g2.tab == Shared().tab;
  }

  lemma {:induction false} RunsOn(g: Guest, ops: seq<Op>, g1: Guest, op: Op)
    requires Framed(g) && Runs(g, ops, g1) && Framed(g1) && ValidOp(g1, op) && Step(g1, op).Ok?
    ensures Runs(g, ops + [op], Step(g1, op).value)
    decreases |ops|
  {
    hide Step, ValidOp;
    if ops != [] {
      RunsOn(Step(g, ops[0]).value, ops[1..], g1, op);
      assert (ops + [op])[1..] == ops[1..] + [op];
    } else {
      assert ops + [op] == [op] && [op][1..] == [];
      assert Runs(g, [op], Step(g, op).value);
    }
  }

  function Prelude(): seq<Op> {
    [NewOp, NewOp, FreshOp(0, PAGE)]
  }

  lemma PreludeRuns()
    ensures Booted(Boot()) && Runs(Boot(), Prelude(), Backed()) && Sound(Backed(), map[])
  {
    PreludeSound();
    NewSteps();
    BackedStep();
    hide Boot, One, Two, Backed, Step, Sound, Booted, HeldAfter;
    RunsOn(Boot(), [], Boot(), NewOp);
    RunsOn(Boot(), [] + [NewOp], One(), NewOp);
    RunsOn(Boot(), [] + [NewOp] + [NewOp], Two(), FreshOp(0, PAGE));
    assert Prelude() == [] + [NewOp] + [NewOp] + [FreshOp(0, PAGE)];
  }

  lemma TwoSound()
    ensures Sound(Two(), map[])
  {
    hide Boot, One, Two, Step, Sound, Booted;
    OneSound();
    NewSteps();
    StepSound(One(), map[], NewOp, Two());
  }

  lemma NothingHeld()
    ensures HeldAfter(Two(), map[], FreshOp(0, PAGE)) == map[]
  {
    hide Boot, Blanks;
  }

  lemma PreludeSound()
    ensures Booted(Boot()) && Sound(Backed(), map[])
  {
    hide Boot, One, Two, Backed, Step, Sound, Booted, HeldAfter;
    OneSound();
    TwoSound();
    BackedStep();
    NothingHeld();
    StepSound(Two(), map[], FreshOp(0, PAGE), Backed());
  }

  lemma SelfCopyBreaksBooks()
    ensures Books(Backed(), map[]) && Step(Backed(), CopyOp(0, PAGE, PAGE)) == Ok(Copied()) && !Books(Copied(), map[])
  {
    PreludeRuns();
    CopiedStep();
    BackedPage();
    hide Books, CopyPage, Windowed, Apart, Runs;
    CopyBooksIff(Backed(), map[], 0, PAGE, PAGE, Copied());
  }

  lemma StoredStep(b: bv8) returns (g: Guest)
    ensures ValidOp(Shared(), StoreOp(1, PAGE, 0, b)) && Step(Shared(), StoreOp(1, PAGE, 0, b)) == Ok(g)
    ensures View(Shared(), 0, PAGE).cell == Ram(Zeros()) && View(g, 0, PAGE).cell == Ram(Zeros()[0 := b])
  {
    hide Boot, Blanks, Zeros;
    var g0 := Shared();
    assert g0.PteAt(0, PAGE) == Mapping(3, true) && g0.PteAt(1, PAGE) == Mapping(3, true);
    g := Fill(g0, 3, Zeros()[0 := b]);
    assert g.PteAt(0, PAGE) == Mapping(3, true);
  }

  /** After a page is copied onto itself, its frame can become another space's page as well. */
  lemma SelfCopyLeaks(b: bv8) returns (g: Guest)
    ensures Booted(Boot()) && Runs(Boot(), Prelude() + [CopyOp(0, PAGE, PAGE)] + [FreshOp(1, PAGE)], Shared())
    ensures Runs(Boot(), Prelude() + [CopyOp(0, PAGE, PAGE)] + [FreshOp(1, PAGE)] + [StoreOp(1, PAGE, 0, b)], g)
    ensures View(Shared(), 0, PAGE).cell == Ram(Zeros()) && View(g, 0, PAGE).cell == Ram(Zeros()[0 := b])
  {
    PreludeRuns();
    CopiedStep();
    SharedStep();
    hide Boot, Backed, Copied, Shared, Step, Sound, Booted, View;
    g := StoredStep(b);
    RunsOn(Boot(), Prelude(), Backed(), CopyOp(0, PAGE, PAGE));
    RunsOn(Boot(), Prelude() + [CopyOp(0, PAGE, PAGE)], Copied(), FreshOp(1, PAGE));
    RunsOn(Boot(), Prelude() + [CopyOp(0, PAGE, PAGE)] + [FreshOp(1, PAGE)], Shared(), StoreOp(1, PAGE, 0, b));
  }

  // ---- Departures from the plain contract, each at a guest reached from boot ----

  ghost function Picture(g: Guest): (v: seq<Image<int>>)
    ensures Shows(g, v)
  {
    seq(|g.dirs|, (s: nat) => imap p: int | IsPage(p) :: View(g, s, p))
  }

  /** For some byte if it is a store, the operation does not do what the contract says. */
  ghost predicate Departs(g: Guest, op: Op)
    requires Framed(g)
  {
    exists op': Op :: Akin(op, op') && !Conforms(g, op', Picture(g))
  }

  lemma DepartsWhen(g: Guest, held: map<nat, nat>, op: Op)
    requires Sound(g, held) && ValidOp(g, op) && SaneOp(g, op) && Framed(g) && Step(g, op).Ok? && !Faithful(g, op)
    ensures Departs(g, op)
  {
    hide Books, Windowed, Apart, Step, Faithful, Conforms, Shows, SaneOp, ValidOp;
    StepRefinesIff(g, held, op, Picture(g));
  }

  /** A store into the null guard is refused. */
  lemma NullGuardDeparts()
    ensures Booted(Boot()) && Runs(Boot(), [NewOp], One()) && Departs(One(), StoreOp(0, 0, 0, 0))
  {
    OneSound();
    hide Boot, Sound, Booted, Runs, Blanks;
    assert One().PteAt(0, 0) == NONE;
    DepartsWhen(One(), map[], StoreOp(0, 0, 0, 0));
  }

  lemma OneSound()
    ensures Booted(Boot()) && Runs(Boot(), [NewOp], One()) && Sound(One(), map[])
  {
    BootIsBooted();
    NewSteps();
    BootSound(Boot());
    hide Boot, One, Step, Sound, Booted;
    RunsOn(Boot(), [], Boot(), NewOp);
    assert [] + [NewOp] == [NewOp];
    StepSound(Boot(), map[], NewOp, One());
  }

  const NEXT: nat := PAGE + 1

  /** Two pages of space 0 on one frame. */
  lemma PairReached() returns (g: Guest)
    ensures Booted(Boot()) && Runs(Boot(), Prelude() + [CopyOp(0, PAGE, NEXT)], g) && Sound(g, map[]) && Framed(g)
    ensures |g.dirs| == 2 && g.PteAt(0, PAGE) == g.PteAt(0, NEXT) == Mapping(3, true) && |g.bytes[3]| == PAGE_SIZE
  {
    PreludeRuns();
    BackedNext();
    hide Boot, Backed, Sound, Booted, Runs, CopyPage;
    g := CopyPage(Backed(), 0, PAGE, NEXT).value;
    RunsOn(Boot(), Prelude(), Backed(), CopyOp(0, PAGE, NEXT));
    StepSound(Backed(), map[], CopyOp(0, PAGE, NEXT), g);
    PairPages(g);
  }

  lemma BackedNext()
    ensures |Backed().dirs| == 2 && Backed().PteAt(0, PAGE) == Mapping(3, true) && Backed().PteAt(0, NEXT) == NONE
    ensures Framed(Backed()) && CopyPage(Backed(), 0, PAGE, NEXT).Ok?
  {
    hide Boot, Blanks;
  }

  lemma PairPages(g: Guest)
    requires Sound(Backed(), map[]) && CopyPage(Backed(), 0, PAGE, NEXT) == Ok(g) && Sound(g, map[])
    ensures g.PteAt(0, PAGE) == g.PteAt(0, NEXT) == Mapping(3, true) && |g.bytes[3]| == PAGE_SIZE
  {
    BackedNext();
    hide Boot, Backed, Trees, Pooled, Leaves, Counted, Windowed, Apart, CopyPage;
    CopyEdit(Backed(), map[], 0, PAGE, NEXT, g);
  }

  /** A store shows on an alias. */
  lemma AliasStoreDeparts() returns (g: Guest)
    ensures Booted(Boot()) && Runs(Boot(), Prelude() + [CopyOp(0, PAGE, NEXT)], g) && Framed(g)
    ensures Departs(g, StoreOp(0, PAGE, 0, 0))
  {
    hide Boot, Sound, Booted, Runs, Departs;
    g := PairReached();
    assert Aliased(g, 0, PAGE, NEXT);
    DepartsWhen(g, map[], StoreOp(0, PAGE, 0, 0));
  }

  /** A device window, and nothing else. */
  function Trapped(): Guest {
    var g := One();
    g.(pool := Pool(3, [], map[]), kind := g.kind[2 := Table(0, 0)],
       tab := g.tab[1 := Directory(2)][2 := Row(TRAP)], gen := 2)
  }

  lemma TrapStep()
    ensures ValidOp(One(), TrapOp(0, PAGE)) && Step(One(), TrapOp(0, PAGE)) == Ok(Trapped())
  {
    hide Boot, Blanks;
    var g1 := AddTable(One(), 0, PAGE).value;
    assert g1.tab[1] == Directory(2) && g1.tab[2] == Blanks(SLOTS);
    assert HasTable(g1, 0, PAGE);
    assert SetPte(g1, 0, PAGE, TRAP).tab == Trapped().tab;
  }

  ghost predicate Unbacked(g: Guest, s: nat) {
    forall v: nat {:trigger g.PteAt(s, v)} :: v < ALL_PAGES ==> !g.PteAt(s, v).present
  }

  lemma ForkAbsent(g: Guest, s: nat, c: nat, v: nat)
    requires Framed(g) && s < |g.dirs| && c < |g.dirs| && !g.PteAt(s, v).present
    ensures ForkPage(g, s, c, v) == Ok(g)
  {
  }

  lemma ForkTurn(g: Guest, s: nat, c: nat, k: nat, g1: Guest, g': Guest)
    requires Framed(g) && s < |g.dirs| && c < |g.dirs|
    requires ForkPages(g, s, c, k) == Ok(g1) && ForkPage(g1, s, c, k) == Ok(g')
    ensures ForkPages(g, s, c, k + 1) == Ok(g')
  {
    hide ForkPage;
  }

  /** Pages that are not there add nothing to a fork. */
  lemma {:induction false} ForkRest(g: Guest, s: nat, c: nat, a: nat, k: nat, g': Guest)
    requires Framed(g) && s < |g.dirs| && c < |g.dirs| && a <= k && ForkPages(g, s, c, a) == Ok(g')
    requires forall v: nat {:trigger g'.PteAt(s, v)} :: a <= v < k ==> !g'.PteAt(s, v).present
    ensures ForkPages(g, s, c, k) == Ok(g')
  {
    hide ForkPage, ForkPages;
    if k > a {
      ForkRest(g, s, c, a, k - 1, g');
      ForkAbsent(g', s, c, k - 1);
      ForkTurn(g, s, c, k - 1, g', g');
    }
  }

  lemma ForkStart(g: Guest, s: nat, c: nat)
    requires Framed(g) && s < |g.dirs| && c < |g.dirs|
    ensures ForkPages(g, s, c, 0) == Ok(g)
  {
  }

  lemma {:induction false} ClearUnbacked(g: Guest, s: nat, k: nat)
    requires Framed(g) && s < |g.dirs| && Unbacked(g, s) && k <= ALL_PAGES
    ensures ClearPages(g, s, k) == Ok(g)
  {
    if k > 0 { ClearUnbacked(g, s, k - 1); }
  }

  lemma TrapPages()
    ensures |Trapped().dirs| == 1 && Trapped().PteAt(0, PAGE) == TRAP && Unbacked(Trapped(), 0)
  {
    hide Boot, Blanks;
  }

  lemma TrapForks()
    ensures ForkSpace(Trapped(), 0).Ok?
  {
    TrapPages();
    hide Boot, Blanks, ForkPages;
    var g := Trapped();
    var g1 := NewSpace(g).value;
    assert g1.tab == g.tab[3 := Blanks(SLOTS)] && g1.dirs == [1, 3];
    forall v: nat | v < ALL_PAGES ensures !g1.PteAt(0, v).present {
      assert g1.PteAt(0, v) == g.PteAt(0, v);
    }
    ForkStart(g1, 0, 1);
    ForkRest(g1, 0, 1, 0, ALL_PAGES, g1);
  }

  lemma TrapSound()
    ensures Booted(Boot()) && Runs(Boot(), [NewOp] + [TrapOp(0, PAGE)], Trapped()) && Sound(Trapped(), map[])
  {
    OneSound();
    TrapStep();
    hide Boot, One, Trapped, Step, Sound, Booted;
    RunsOn(Boot(), [NewOp], One(), TrapOp(0, PAGE));
    StepSound(One(), map[], TrapOp(0, PAGE), Trapped());
  }

  lemma TrapUnfaithful(op: Op)
    requires op in {ForkOp(0), ClearOp(0), CopyOp(0, PAGE, NEXT)}
    ensures Framed(Trapped()) && ValidOp(Trapped(), op) && SaneOp(Trapped(), op) && !Faithful(Trapped(), op)
  {
    TrapPages();
    hide Boot, Blanks, Unbacked;
    assert View(Trapped(), 0, PAGE).cell.Trap?;
  }

  lemma TrapSteps(op: Op)
    requires op in {ForkOp(0), ClearOp(0), CopyOp(0, PAGE, NEXT)}
    ensures Framed(Trapped()) && ValidOp(Trapped(), op) && Step(Trapped(), op).Ok?
  {
    TrapUnfaithful(op);
    TrapPages();
    hide Trapped, ForkPages, ClearPages;
    match op
    case ForkOp(_) => TrapForks();
    case ClearOp(_) => ClearUnbacked(Trapped(), 0, USER_PAGES);
    case CopyOp(_, _, _) =>
  }

  /** A fork drops the child's device windows, a clean keeps them, and a copy of one unmaps. */
  lemma WindowsDepart(op: Op)
    requires op in {ForkOp(0), ClearOp(0), CopyOp(0, PAGE, NEXT)}
    ensures Booted(Boot()) && Runs(Boot(), [NewOp] + [TrapOp(0, PAGE)], Trapped())
    ensures Framed(Trapped()) && Departs(Trapped(), op)
  {
    hide Boot, Trapped, Sound, Booted, Runs, Departs, Step, ValidOp, SaneOp, Faithful;
    TrapSound();
    TrapUnfaithful(op);
    TrapSteps(op);
    DepartsWhen(Trapped(), map[], op);
  }

  /** `Backed()` with an empty third space. */
  function Third(): Guest {
    var g := Backed();
    g.(pool := Pool(6, [], map[]), kind := g.kind[5 := Dir(2)], tab := g.tab[5 := Blanks(SLOTS)], dirs := [1, 2, 5])
  }

  lemma ThirdStep()
    ensures NewSpace(Backed()) == Ok(Third())
  {
    hide Boot, Blanks;
    assert [1, 2] + [5] == [1, 2, 5];
  }

  lemma ThirdPages()
    ensures Framed(Third()) && Third().PteAt(0, PAGE) == Mapping(3, true)
    ensures forall v: nat {:trigger Third().PteAt(0, v)} :: v < ALL_PAGES && v != PAGE ==> !Third().PteAt(0, v).present
  {
    hide Boot, Blanks;
  }

  lemma PageForks() returns (g: Guest)
    ensures ForkPage(Third(), 0, 2, PAGE) == Ok(g)
    ensures forall v: nat {:trigger g.PteAt(0, v)} :: v < ALL_PAGES && v != PAGE ==> !g.PteAt(0, v).present
  {
    ThirdPages();
    hide Boot, Blanks;
    var g0 := Third();
    var g1 := SetPte(g0, 0, PAGE, CowMapping(3));
    assert HasTable(g0, 0, PAGE) && !g0.PteAt(2, PAGE).present;
    var g2 := AddTable(g1, 2, PAGE).value;
    assert g2.tab[5] == Directory(6) && g2.tab[6] == Blanks(SLOTS);
    assert HasTable(g2, 2, PAGE);
    g := ForkPage(g0, 0, 2, PAGE).value;
    assert g.tab[1] == Directory(4) && g.tab[4] == g0.tab[4][PAGE := CowMapping(3)] && g.dirs == [1, 2, 5];
  }

  lemma BackedForks()
    ensures Framed(Backed()) && |Backed().dirs| == 2 && ForkSpace(Backed(), 0).Ok?
  {
    ThirdStep();
    ThirdPages();
    var g := PageForks();
    BackedNext();
    hide Third, Backed, ForkPage, ForkPages, NewSpace;
    ForkStart(Third(), 0, 2);
    ForkRest(Third(), 0, 2, 0, PAGE, Third());
    ForkTurn(Third(), 0, 2, PAGE, Third(), g);
    ForkRest(Third(), 0, 2, PAGE + 1, ALL_PAGES, g);
  }

  /** After a fork the page is copy-on-write, and a copy of it can be made. */
  lemma ForkedPages(g: Guest)
    requires Sound(Backed(), map[]) && Framed(Backed()) && |Backed().dirs| == 2 && ForkSpace(Backed(), 0) == Ok(g)
    requires Sound(g, map[])
    ensures |g.dirs| == 3 && g.PteAt(0, PAGE) == CowMapping(3) && Framed(g) && CopyPage(g, 0, PAGE, NEXT).Ok?
  {
    BackedNext();
    hide Boot, Backed, Pooled, Leaves, Counted, Windowed, Apart, ForkSpace;
    ForkBooks(Backed(), map[], 0, g);
    PresentHasTable(g, map[], 0, PAGE);
    assert g.PteAt(0, NEXT) == NONE && HasTable(g, 0, NEXT);
  }

  /** A copy of a copy-on-write page is read-only. */
  lemma CowCopyDeparts() returns (g: Guest)
    ensures Booted(Boot()) && Runs(Boot(), Prelude() + [ForkOp(0)], g) && Framed(g)
    ensures Departs(g, CopyOp(0, PAGE, NEXT))
  {
    PreludeRuns();
    BackedForks();
    hide Boot, Backed, Sound, Booted, Runs, Departs, ForkSpace, CopyPage;
    g := ForkSpace(Backed(), 0).value;
    RunsOn(Boot(), Prelude(), Backed(), ForkOp(0));
    StepSound(Backed(), map[], ForkOp(0), g);
    ForkedPages(g);
    DepartsWhen(g, map[], CopyOp(0, PAGE, NEXT));
  }
}
