/** The interpreter against the contract: exact counts, isolation, and where copy-on-write can be
    told from copying. */
module InterpTheorems {
  import opened Outcomes
  import opened ArchContract
  import opened InterpMemory
  import opened InterpOps
  import opened InterpSteps
  import opened InterpEdits
  import opened InterpFork
  import opened InterpRuns

  function ActOf(op: Op): Act<int> {
    match op
    case ForkOp(s) => DoFork(s)
    case StoreOp(s, v, off, b) => DoStore(s, v, off, b)
    case LoadOp(_, _) => DoNothing
    case FreshOp(s, v) => DoPut(s, v, BLANK)
    case UnmapOp(s, v) => DoPut(s, v, BLANK)
    case TrapOp(s, v) => DoPut(s, v, Page(Trap, false))
    case CopyOp(s, src, dst) => DoCopy(s, src, dst)
    case SwapOp(s, a, b) => DoSwap(s, a, b)
    case ClearOp(s) => DoClear(s)
    case NewOp => DoCreate
  }

  function ActsOf(ops: seq<Op>): (acts: seq<Act<int>>)
    ensures |acts| == |ops| && forall i :: 0 <= i < |ops| ==> acts[i] == ActOf(ops[i])
  {
    seq(|ops|, i requires 0 <= i < |ops| => ActOf(ops[i]))
  }

  predicate IsPage(p: int) {
    0 <= p < USER_PAGES
  }

  /** `v` is what the spaces of `g` see. */
  ghost predicate Shows(g: Guest, v: seq<Image<int>>) {
    && |v| == |g.dirs|
    && forall s: nat, p: int {:trigger p in v[s]} {:trigger v[s][p]} :: s < |v| ==>
         (p in v[s] <==> IsPage(p)) && (IsPage(p) ==> v[s][p] == View(g, s, p))
  }

  ghost function Pages(): iset<int> {
    iset p: int | IsPage(p)
  }

  ghost predicate NoTraps(g: Guest, s: nat) {
    forall v: nat {:trigger View(g, s, v)} :: v < USER_PAGES ==> !View(g, s, v).cell.Trap?
  }

  /** The operation does what the contract says. A fork and a teardown forget and keep device
      windows respectively; a copy forgets that its source is copy-on-write, or a device window;
      a store into a writable page shows on every alias of it, and a store never commits a page
      of the null guard. */
  ghost predicate Faithful(g: Guest, op: Op)
    requires ValidOp(g, op)
  {
    match op
    case ForkOp(s) => NoTraps(g, s)
    case ClearOp(s) => NoTraps(g, s)
    case CopyOp(s, src, _) =>
      !View(g, s, src).cell.Trap? && !(g.PteAt(s, src).present && g.PteAt(s, src).cow && !g.PteAt(s, src).writable)
    case StoreOp(s, v, _, _) =>
      && (g.PteAt(s, v).present || g.PteAt(s, v).pcd || v >= NULL_GUARD)
      && (g.PteAt(s, v).writable ==> Unaliased(g, s, v))
    case _ => true
  }

  ghost predicate Unaliased(g: Guest, s: nat, v: nat) {
    forall v': nat {:trigger Aliased(g, s, v, v')} :: v' < USER_PAGES && v' != v ==> !Aliased(g, s, v, v')
  }

  lemma ForkRefines(g: Guest, held: map<nat, nat>, s: nat, g': Guest, v: seq<Image<int>>)
    requires Books(g, held) && Windowed(g) && s < |g.dirs| && ForkSpace(g, s) == Ok(g') && Shows(g, v)
    ensures Shows(g', v + [v[s]]) <==> NoTraps(g, s)
  {
    hide Books, Windowed, ForkSpace, View;
    assert Framed(g) by { BooksFramed(g, held); }
    ForkBooks(g, held, s, g');
    var v' := v + [v[s]];
    forall s': nat, p: int | s' < |v'| ensures p in v'[s'] <==> IsPage(p) {
      assert p in v[if s' == |v| then s else s'] <==> IsPage(p);
    }
    forall s': nat, p: int | s' < |v'| && IsPage(p)
      ensures v'[s'][p] == View(g', s', p) <==> s' < |v| || !View(g, s, p).cell.Trap?
    {
      assert v[if s' == |v| then s else s'][p] == View(g, if s' == |v| then s else s', p);
      ForkViews(g, g', s, s', p);
    }
    if Shows(g', v') {
      forall p: int | IsPage(p) ensures !View(g, s, p).cell.Trap? {
        assert v'[|v|][p] == View(g', |v|, p);
      }
    }
  }

  lemma StoreRefines(g: Guest, held: map<nat, nat>, s: nat, q: nat, off: nat, b: bv8, g': Guest, v: seq<Image<int>>)
    requires Books(g, held) && Apart(g) && s < |g.dirs| && q < USER_PAGES && off < PAGE_SIZE
    requires Store(g, s, q, off, b) == Ok(g') && Shows(g, v) && Faithful(g, StoreOp(s, q, off, b))
    ensures q in v[s] && Shows(g', v[s := v[s][q := Stored(v[s][q], off, b)]])
  {
    hide Trees, Counted, Pooled, Leaves, Apart, Store, StoreReaches;
    assert q in v[s] && v[s][q] == View(g, s, q);
    var v' := v[s := v[s][q := Stored(v[s][q], off, b)]];
    var _ := StoreStep(g, held, s, q, off, b, g');
    forall s': nat, p: int | s' < |v'|
      ensures (p in v'[s'] <==> IsPage(p)) && (IsPage(p) ==> v'[s'][p] == View(g', s', p))
    {
      assert p in v[s'] <==> IsPage(p);
      if IsPage(p) {
        assert v[s'][p] == View(g, s', p);
        StoreViews(g, held, s, q, off, b, g', s', p);
        ReachesAlone(g, s, q, off, b, s', p);
      }
    }
  }

  lemma ReachesAlone(g: Guest, s: nat, q: nat, off: nat, b: bv8, s': nat, p: nat)
    requires s < |g.dirs| && q < USER_PAGES && p < USER_PAGES && off < PAGE_SIZE && Faithful(g, StoreOp(s, q, off, b))
    ensures StoreReaches(g, s, q, s', p) <==> s' == s && p == q && Takes(g, s, q)
    ensures !Takes(g, s, q) ==> Stored(View(g, s, q), off, b) == View(g, s, q)
  {
  }

  /** A store that shows on an alias, or is refused in the null guard, is not what the contract says. */
  lemma StoreDeparts(g: Guest, held: map<nat, nat>, s: nat, q: nat, v: seq<Image<int>>) returns (b: bv8, g': Guest)
    requires Books(g, held) && Apart(g) && s < |g.dirs| && q < USER_PAGES && Shows(g, v)
    requires !Faithful(g, StoreOp(s, q, 0, 0))
    ensures Store(g, s, q, 0, b) == Ok(g') && q in v[s] && !Shows(g', v[s := v[s][q := Stored(v[s][q], 0, b)]])
  {
    hide Trees, Counted, Pooled, Apart, StoreReaches;
    assert q in v[s] && v[s][q] == View(g, s, q);
    var e := g.PteAt(s, q);
    if !e.present && !e.pcd && q < NULL_GUARD {
      b, g' := 1, g;
      assert Refuses(g, s, q);
      var v': seq<Image<int>> := v[s := v[s][q := Stored(v[s][q], 0, b)]];
      assert v'[s][q].cell.bytes[0] == 1 && View(g', s, q).cell.bytes[0] == 0;
    } else {
      var p: nat :| p < USER_PAGES && p != q && Aliased(g, s, q, p);
      assert p in v[s] && v[s][p] == View(g, s, p);
      b := if View(g, s, p).cell.bytes[0] == 0 then 1 else 0;
      WritableStores(g, held, s, q, b);
      g' := Store(g, s, q, 0, b).value;
      StoreViews(g, held, s, q, 0, b, g', s, p);
      AliasReached(g, s, q, p);
      var v': seq<Image<int>> := v[s := v[s][q := Stored(v[s][q], 0, b)]];
      assert v'[s][p] == View(g, s, p) != View(g', s, p);
    }
  }

  lemma AliasReached(g: Guest, s: nat, q: nat, p: nat)
    requires Aliased(g, s, q, p) && g.PteAt(s, q).writable
    ensures StoreReaches(g, s, q, s, p)
  {
  }

  lemma WritableStores(g: Guest, held: map<nat, nat>, s: nat, q: nat, b: bv8)
    requires Books(g, held) && s < |g.dirs| && q < USER_PAGES && g.PteAt(s, q).present && g.PteAt(s, q).writable
    ensures Store(g, s, q, 0, b).Ok?
  {
    PresentHasTable(g, held, s, q);
  }

  /** One page was edited. */
  lemma PutShows(g: Guest, g': Guest, s: nat, q: nat, v: seq<Image<int>>, page: Page)
    requires OtherViews(g, g', s, q) && s < |g.dirs| && q < USER_PAGES && Shows(g, v)
    ensures Shows(g', v[s := v[s][q := page]]) <==> View(g', s, q) == page
  {
    hide View;
    var v' := v[s := v[s][q := page]];
    forall s': nat, p: int | s' < |v'|
      ensures (p in v'[s'] <==> IsPage(p)) && (IsPage(p) && (s' != s || p != q) ==> v'[s'][p] == View(g', s', p))
    {
      assert p in v[s'] <==> IsPage(p);
      if IsPage(p) { assert v[s'][p] == View(g, s', p); }
    }
    assert v'[s][q] == page;
  }

  lemma EditRefines(g: Guest, g': Guest, s: nat, q: nat, e: Pte, v: seq<Image<int>>)
    requires Edited(g, g', s, q, e) && !e.present && s < |g.dirs| && q < USER_PAGES && Shows(g, v)
    ensures Shows(g', v[s := v[s][q := if e.pcd then Page(Trap, false) else BLANK]])
  {
    assert g'.PteAt(s, q) == e;
    PutShows(g, g', s, q, v, View(g', s, q));
  }

  lemma CopyRefines(g: Guest, held: map<nat, nat>, s: nat, src: nat, dst: nat, g': Guest, v: seq<Image<int>>)
    requires Books(g, held) && s < |g.dirs| && src < USER_PAGES && dst < USER_PAGES
    requires CopyPage(g, s, src, dst) == Ok(g') && Shows(g, v)
    requires !SelfCopy(g, s, src, dst)
    ensures src in v[s] && (Shows(g', v[s := v[s][dst := v[s][src]]]) <==> Faithful(g, CopyOp(s, src, dst)))
  {
    hide Trees, Counted, Pooled, CopyPage;
    assert v[s][src] == View(g, s, src);
    CopyEdit(g, held, s, src, dst, g');
    PutShows(g, g', s, dst, v, v[s][src]);
    CopiedView(g, held, s, src, dst, g');
  }

  lemma CopiedView(g: Guest, held: map<nat, nat>, s: nat, src: nat, dst: nat, g': Guest)
    requires Books(g, held) && s < |g.dirs| && src < USER_PAGES && dst < USER_PAGES
    requires CopyPage(g, s, src, dst) == Ok(g') && !SelfCopy(g, s, src, dst)
    ensures View(g', s, dst) == View(g, s, src) <==> Faithful(g, CopyOp(s, src, dst))
  {
    hide Trees, Counted, Pooled, CopyPage;
    CopyEdit(g, held, s, src, dst, g');
    var e := g.PteAt(s, src);
    assert g'.PteAt(s, dst) == Copied(e);
    if e.present && src != dst {
      assert g'.PteAt(s, src) == e && View(g', s, src) == View(g, s, src);
    } else if e.present {
      CopySelfBytes(g, s, src, g');
    }
  }

  lemma CopySelfBytes(g: Guest, s: nat, v: nat, g': Guest)
    requires Framed(g) && s < |g.dirs| && g.PteAt(s, v).present && !SelfCopy(g, s, v, v)
    requires CopyPage(g, s, v, v) == Ok(g')
    ensures g'.bytes == g.bytes
  {
  }

  lemma SwapRefines(g: Guest, held: map<nat, nat>, s: nat, a: nat, b: nat, g': Guest, v: seq<Image<int>>)
    requires Books(g, held) && s < |g.dirs| && a < USER_PAGES && b < USER_PAGES && SwapPage(g, s, a, b) == Ok(g')
    requires Shows(g, v)
    ensures a in v[s] && b in v[s] && Shows(g', v[s := v[s][a := v[s][b]][b := v[s][a]]])
  {
    hide Trees, Counted, Pooled, Leaves, SwapPage, View;
    SwapEdit(g, held, s, a, b, g');
    assert v[s][a] == View(g, s, a) && v[s][b] == View(g, s, b);
    var v' := v[s := v[s][a := v[s][b]][b := v[s][a]]];
    forall s': nat, p: int | s' < |v'|
      ensures (p in v'[s'] <==> IsPage(p)) && (IsPage(p) ==> v'[s'][p] == View(g', s', p))
    {
      assert p in v[s'] <==> IsPage(p);
      if IsPage(p) {
        SwappedViews(g, g', s, a, b, s', p);
        assert v[s'][p] == View(g, s', p);
      }
    }
  }

  lemma ClearRefines(g: Guest, held: map<nat, nat>, s: nat, g': Guest, v: seq<Image<int>>)
    requires Books(g, held) && s < |g.dirs| && ClearSpace(g, s) == Ok(g') && Shows(g, v)
    ensures Shows(g', v[s := imap p | p in Pages() :: BLANK]) <==> NoTraps(g, s)
  {
    hide Trees, Counted, Pooled, Leaves, ClearPages;
    ClearEdit(g, held, s, USER_PAGES, g');
    var v' := v[s := imap p | p in Pages() :: BLANK];
    forall s': nat, p: int | s' < |v'| ensures p in v'[s'] <==> IsPage(p) { assert p in v[s'] <==> IsPage(p); }
    forall s': nat, p: int | s' < |v'| && IsPage(p)
      ensures v'[s'][p] == View(g', s', p) <==> s' != s || !View(g, s, p).cell.Trap?
    {
      assert v[s'][p] == View(g, s', p);
      assert View(g', s', p) == if s' == s && g.PteAt(s, p).present then BLANK else View(g, s', p);
    }
    if Shows(g', v') {
      forall p: int | IsPage(p) ensures !View(g, s, p).cell.Trap? { assert v'[s][p] == View(g', s, p); }
    }
  }

  lemma NewRefines(g: Guest, held: map<nat, nat>, g': Guest, v: seq<Image<int>>)
    requires Books(g, held) && Windowed(g) && NewSpace(g) == Ok(g') && Shows(g, v)
    ensures Shows(g', v + [imap p | p in Pages() :: BLANK])
  {
    hide Trees, Counted, Pooled, Leaves, Windowed, NewSpace;
    NewSpaceBooks(g, held, g');
    var v' := v + [imap p | p in Pages() :: BLANK];
    forall s': nat, p: int | s' < |v'|
      ensures (p in v'[s'] <==> IsPage(p)) && (IsPage(p) ==> v'[s'][p] == View(g', s', p))
    {
      if s' < |v| { assert p in v[s'] <==> IsPage(p); }
      if IsPage(p) {
        assert g'.PteAt(s', p) == if s' == |v| then NONE else g.PteAt(s', p);
        if s' < |v| { assert v[s'][p] == View(g, s', p); }
      }
    }
  }

  lemma ShowsSame(g: Guest, g': Guest, v: seq<Image<int>>)
    requires Shows(g, v) && SameViews(g, g')
    ensures Shows(g', v)
  {
    hide View;
    forall s: nat, p: int | s < |v| ensures (p in v[s] <==> IsPage(p)) && (IsPage(p) ==> v[s][p] == View(g', s, p)) {
      assert p in v[s] <==> IsPage(p);
      if IsPage(p) { assert v[s][p] == View(g, s, p); }
    }
  }

  lemma ActFollows(g: Guest, op: Op, v: seq<Image<int>>)
    requires ValidOp(g, op) && Shows(g, v)
    ensures ActValid(v, ActOf(op))
  {
  }

  lemma StepRefines(g: Guest, held: map<nat, nat>, op: Op, g': Guest, v: seq<Image<int>>)
    requires Books(g, held) && Windowed(g) && Apart(g) && ValidOp(g, op) && SaneOp(g, op) && Step(g, op) == Ok(g')
    requires Shows(g, v)
    ensures ActValid(v, ActOf(op))
    ensures Faithful(g, op) ==> Shows(g', NextImages(v, Pages(), ActOf(op)))
    ensures !op.StoreOp? && Shows(g', NextImages(v, Pages(), ActOf(op))) ==> Faithful(g, op)
  {
    hide Books, Windowed, Apart, Shows, Pages, View;
    ActFollows(g, op, v);
    hide ForkSpace, Store, Load, MapFresh, Unmap, MapTrap, CopyPage, SwapPage, ClearPages, NewSpace;
    match op
    case ForkOp(s) => ForkRefines(g, held, s, g', v);
    case StoreOp(s, q, off, b) => if Faithful(g, op) { StoreRefines(g, held, s, q, off, b, g', v); }
    case LoadOp(s, q) =>
      LoadEdit(g, held, s, q, g');
      ShowsSame(g, g', v);
    case FreshOp(s, q) =>
      var _ := MapFreshEdit(g, held, s, q, g');
      PutShows(g, g', s, q, v, BLANK);
    case UnmapOp(s, q) =>
      UnmapEdit(g, held, s, q, g');
      EditRefines(g, g', s, q, NONE, v);
    case TrapOp(s, q) =>
      MapTrapEdit(g, held, s, q, g');
      EditRefines(g, g', s, q, TRAP, v);
    case CopyOp(s, src, dst) => CopyRefines(g, held, s, src, dst, g', v);
    case SwapOp(s, a, b) => SwapRefines(g, held, s, a, b, g', v);
    case ClearOp(s) => ClearRefines(g, held, s, g', v);
    case NewOp => NewRefines(g, held, g', v);
  }

  /** The same operation; for a store, of any byte at any offset of the page. */
  predicate Akin(op: Op, op': Op) {
    if op.StoreOp? then op'.StoreOp? && op'.s == op.s && op'.v == op.v else op' == op
  }

  /** The step, if it goes through, does what the contract says. */
  ghost predicate Conforms(g: Guest, op: Op, v: seq<Image<int>>)
    requires Framed(g)
  {
    ValidOp(g, op) && Step(g, op).Ok? && ActValid(v, ActOf(op)) ==>
      Shows(Step(g, op).value, NextImages(v, Pages(), ActOf(op)))
  }

  /** An operation conforms to the contract, whatever a store writes, exactly when it is faithful. */
  lemma StepRefinesIff(g: Guest, held: map<nat, nat>, op: Op, v: seq<Image<int>>)
    requires Books(g, held) && Windowed(g) && Apart(g) && Framed(g) && ValidOp(g, op) && SaneOp(g, op)
    requires Step(g, op).Ok? && Shows(g, v)
    ensures (forall op': Op :: Akin(op, op') ==> Conforms(g, op', v)) <==> Faithful(g, op)
  {
    hide Books, Windowed, Apart, Shows, Pages, NextImages, Step, Faithful, Conforms;
    if Faithful(g, op) {
      forall op': Op | Akin(op, op') ensures Conforms(g, op', v) { AkinConforms(g, held, op, op', v); }
    } else {
      var op' := DepartsFrom(g, held, op, v);
      assert Akin(op, op') && !Conforms(g, op', v);
    }
  }

  lemma AkinConforms(g: Guest, held: map<nat, nat>, op: Op, op': Op, v: seq<Image<int>>)
    requires Books(g, held) && Windowed(g) && Apart(g) && Framed(g) && ValidOp(g, op) && SaneOp(g, op) && Shows(g, v)
    requires Faithful(g, op) && Akin(op, op')
    ensures Conforms(g, op', v)
  {
    hide Books, Windowed, Apart, Shows, Pages, NextImages, Step, ActValid;
    if ValidOp(g, op') && Step(g, op').Ok? { StepRefines(g, held, op', Step(g, op').value, v); }
  }

  lemma DepartsFrom(g: Guest, held: map<nat, nat>, op: Op, v: seq<Image<int>>) returns (op': Op)
    requires Books(g, held) && Windowed(g) && Apart(g) && Framed(g) && ValidOp(g, op) && SaneOp(g, op)
    requires Step(g, op).Ok? && Shows(g, v)
    requires !Faithful(g, op)
    ensures Akin(op, op') && !Conforms(g, op', v)
  {
    hide Books, Windowed, Apart, Shows, Pages, Store;
    if op.StoreOp? {
      var b, g' := StoreDeparts(g, held, op.s, op.v, v);
      op' := StoreOp(op.s, op.v, 0, b);
      ActFollows(g, op', v);
    } else {
      op' := op;
      StepRefines(g, held, op, Step(g, op).value, v);
    }
  }
}
