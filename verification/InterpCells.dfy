/** The contract with aliasing: each space is a sheet of its own, whose pages lie on cells. Pages
    aliased inside a space lie on one cell; no cell belongs to two spaces; a fork copies the sheet
    at once. The interpreter follows it in every step that keeps its counts. */
module InterpCells {
  import opened Outcomes
  import opened ArchContract
  import opened InterpMemory
  import opened InterpOps
  import opened InterpBooks
  import opened InterpSteps
  import opened InterpEdits
  import opened InterpFork
  import opened InterpRuns
  import InterpTheorems
  import opened InterpHistory

  /** What a space may do at a page. A `Guarded` page was writable before a fork: a store there
      moves the page to a cell of its own. */
  datatype Access = Empty | Trapped | Sealed | Guarded | Open {
    predicate Mapped() { Sealed? || Guarded? || Open? }
  }

  /** One space: the access and the cell of each page, the contents of each cell, and the next new cell. */
  datatype Sheet = Sheet(access: int -> Access, cell: int -> int, bytes: int -> Bytes, next: int)

  const BARE := Sheet(_ => Empty, _ => 0, _ => Zeros(), 0)

  function Set<T>(f: int -> T, k: int, x: T): int -> T {
    i => if i == k then x else f(i)
  }

  /** What a space sees. */
  function PageAt(h: Sheet, v: int): Page {
    match h.access(v)
    case Empty => BLANK
    case Trapped => Page(Trap, false)
    case Sealed => Page(Ram(h.bytes(h.cell(v))), true)
    case _ => Page(Ram(h.bytes(h.cell(v))), false)
  }

  // ---- Operations on one sheet ----

  /** Page `v` moves to a new cell. */
  function Renew(h: Sheet, v: int, b: Bytes): Sheet {
    Sheet(Set(h.access, v, Open), Set(h.cell, v, h.next), Set(h.bytes, h.next, b), h.next + 1)
  }

  function Put(b: Bytes, off: nat, x: bv8): Bytes {
    if off < |b| then b[off := x] else b
  }

  function Stored(h: Sheet, v: int, off: nat, x: bv8): Sheet {
    match h.access(v)
    case Empty => if v < NULL_GUARD then h else Renew(h, v, Put(Zeros(), off, x))
    case Guarded => Renew(h, v, Put(h.bytes(h.cell(v)), off, x))
    case Open => h.(bytes := Set(h.bytes, h.cell(v), Put(h.bytes(h.cell(v)), off, x)))
    case _ => h
  }

  function Loaded(h: Sheet, v: int): Sheet {
    if h.access(v).Empty? && v >= NULL_GUARD then Renew(h, v, Zeros()) else h
  }

  /** Page `dst` joins the cell of `src`. */
  function Joined(h: Sheet, src: int, dst: int): Sheet {
    if h.access(src).Mapped() then
      var a := if h.access(src).Open? then Open else Sealed;
      h.(access := Set(h.access, dst, a), cell := Set(h.cell, dst, h.cell(src)))
    else h.(access := Set(h.access, dst, Empty))
  }

  function Traded(h: Sheet, a: int, b: int): Sheet {
    h.(access := Set(Set(h.access, a, h.access(b)), b, h.access(a)),
       cell := Set(Set(h.cell, a, h.cell(b)), b, h.cell(a)))
  }

  function Wiped(h: Sheet): Sheet {
    h.(access := v => if h.access(v).Mapped() then Empty else h.access(v))
  }

  function Guard(a: Access): Access {
    if a.Open? then Guarded else a
  }

  /** After a fork: the parent keeps its device windows, the child starts without. */
  function Parent(h: Sheet): Sheet {
    h.(access := v => Guard(h.access(v)))
  }

  function Child(h: Sheet): Sheet {
    h.(access := v => if h.access(v).Trapped? then Empty else Guard(h.access(v)))
  }

  /** An operation changes the sheet of its own space; a new space has a sheet of its own. */
  function NextSheets(hs: seq<Sheet>, op: Op): seq<Sheet>
    requires op.NewOp? || op.s < |hs|
  {
    match op
    case ForkOp(s) => hs[s := Parent(hs[s])] + [Child(hs[s])]
    case StoreOp(s, v, off, b) => hs[s := Stored(hs[s], v, off, b)]
    case LoadOp(s, v) => hs[s := Loaded(hs[s], v)]
    case FreshOp(s, v) => hs[s := Renew(hs[s], v, Zeros())]
    case UnmapOp(s, v) => hs[s := hs[s].(access := Set(hs[s].access, v, Empty))]
    case TrapOp(s, v) => hs[s := hs[s].(access := Set(hs[s].access, v, Trapped))]
    case CopyOp(s, src, dst) => hs[s := Joined(hs[s], src, dst)]
    case SwapOp(s, a, b) => hs[s := Traded(hs[s], a, b)]
    case ClearOp(s) => hs[s := Wiped(hs[s])]
    case NewOp => hs + [BARE]
  }

  // ---- What the interpreter keeps ----

  function AccessOf(e: Pte): Access {
    if e.present then (if e.writable then Open else if e.cow then Guarded else Sealed)
    else if e.pcd then Trapped else Empty
  }

  /** Sheet `h` says of page `v` what space `s` has there. */
  predicate Matches(g: Guest, s: nat, h: Sheet, v: nat) {
    && h.access(v) == AccessOf(g.PteAt(s, v)) && PageAt(h, v) == View(g, s, v)
    && (g.PteAt(s, v).present ==> h.cell(v) < h.next)
  }

  /** Two pages of a space lie on one cell exactly when they map one frame. */
  predicate Agree(g: Guest, s: nat, h: Sheet, v: nat, w: nat) {
    g.PteAt(s, v).present && g.PteAt(s, w).present ==>
      (h.cell(v) == h.cell(w) <==> g.PteAt(s, v).frame == g.PteAt(s, w).frame)
  }

  ghost predicate Depicts(g: Guest, s: nat, h: Sheet) {
    && (forall v: nat {:trigger Matches(g, s, h, v)} :: v < USER_PAGES ==> Matches(g, s, h, v))
    && (forall v: nat, w: nat {:trigger Agree(g, s, h, v, w)} ::
          v < USER_PAGES && w < USER_PAGES ==> Agree(g, s, h, v, w))
  }

  ghost predicate Depicted(g: Guest, hs: seq<Sheet>) {
    |hs| == |g.dirs| && forall s: nat {:trigger hs[s]} :: s < |hs| ==> Depicts(g, s, hs[s])
  }

  /** A space whose entries and views stay is still depicted. */
  lemma SameDepicts(g: Guest, g': Guest, s: nat, h: Sheet)
    requires Depicts(g, s, h)
    requires forall v: nat {:trigger g'.PteAt(s, v)} :: v < USER_PAGES ==> g'.PteAt(s, v) == g.PteAt(s, v)
    requires forall v: nat {:trigger View(g', s, v)} :: v < USER_PAGES ==> View(g', s, v) == View(g, s, v)
    ensures Depicts(g', s, h)
  {
    forall v: nat | v < USER_PAGES ensures Matches(g', s, h, v) { assert Matches(g, s, h, v); }
    forall v: nat, w: nat | v < USER_PAGES && w < USER_PAGES ensures Agree(g', s, h, v, w) {
      assert Agree(g, s, h, v, w);
    }
  }

  /** A page moved to a frame that no other page of the space maps. */
  lemma RenewDepicts(g: Guest, g': Guest, s: nat, v: nat, e: Pte, h: Sheet, b: Bytes)
    requires Depicts(g, s, h) && s < |g.dirs| && v < USER_PAGES && LeafSet(g, g', s, v, e) && e.present && e.writable
    requires forall w: nat {:trigger g.PteAt(s, w)} ::
      w < USER_PAGES && w != v && g.PteAt(s, w).present ==> g.PteAt(s, w).frame != e.frame
    requires forall w: nat {:trigger View(g', s, w)} :: w < USER_PAGES && w != v ==> View(g', s, w) == View(g, s, w)
    requires View(g', s, v) == Page(Ram(b), false)
    ensures Depicts(g', s, Renew(h, v, b))
  {
    hide View;
    var h' := Renew(h, v, b);
    forall w: nat | w < USER_PAGES ensures Matches(g', s, h', w) {
      assert Matches(g, s, h, w) && g'.PteAt(s, w) == if w == v then e else g.PteAt(s, w);
    }
    forall w: nat, x: nat | w < USER_PAGES && x < USER_PAGES ensures Agree(g', s, h', w, x) {
      assert Agree(g, s, h, w, x) && Matches(g, s, h, w) && Matches(g, s, h, x);
      assert g'.PteAt(s, w) == if w == v then e else g.PteAt(s, w);
      assert g'.PteAt(s, x) == if x == v then e else g.PteAt(s, x);
    }
  }

  /** A page that maps nothing any more. */
  lemma BlankDepicts(g: Guest, g': Guest, s: nat, v: nat, e: Pte, h: Sheet)
    requires Depicts(g, s, h) && s < |g.dirs| && v < USER_PAGES && Edited(g, g', s, v, e) && e in {NONE, TRAP}
    ensures Depicts(g', s, h.(access := Set(h.access, v, AccessOf(e))))
  {
    var h' := h.(access := Set(h.access, v, AccessOf(e)));
    forall w: nat | w < USER_PAGES ensures Matches(g', s, h', w) {
      assert Matches(g, s, h, w) && g'.PteAt(s, w) == if w == v then e else g.PteAt(s, w);
      assert w != v ==> View(g', s, w) == View(g, s, w);
    }
    forall w: nat, x: nat | w < USER_PAGES && x < USER_PAGES ensures Agree(g', s, h', w, x) {
      assert Agree(g, s, h, w, x);
      assert g'.PteAt(s, w) == if w == v then e else g.PteAt(s, w);
      assert g'.PteAt(s, x) == if x == v then e else g.PteAt(s, x);
    }
  }

  /** A page that joins another: both map one frame afterwards, whatever either did before. */
  lemma JoinDepicts(g: Guest, g': Guest, s: nat, src: nat, dst: nat, h: Sheet)
    requires Depicts(g, s, h) && s < |g.dirs| && src < USER_PAGES && dst < USER_PAGES
    requires Edited(g, g', s, dst, Copied(g.PteAt(s, src))) && Frame(g', s, dst) == Frame(g, s, src)
    ensures Depicts(g', s, Joined(h, src, dst))
  {
    var e := g.PteAt(s, src);
    if e.present {
      var h' := Joined(h, src, dst);
      assert Matches(g, s, h, src);
      forall w: nat | w < USER_PAGES ensures Matches(g', s, h', w) {
        assert Matches(g, s, h, w) && g'.PteAt(s, w) == if w == dst then Copied(e) else g.PteAt(s, w);
        assert w != dst ==> View(g', s, w) == View(g, s, w);
      }
      forall w: nat, x: nat | w < USER_PAGES && x < USER_PAGES ensures Agree(g', s, h', w, x) {
        JoinAgrees(g, g', s, src, dst, h, w, x);
      }
    } else {
      assert Matches(g, s, h, src);
      BlankDepicts(g, g', s, dst, NONE, h);
    }
  }

  /** The contents of the frame behind a page. */
  function Frame(g: Guest, s: nat, v: nat): Bytes {
    var e := g.PteAt(s, v);
    if e.present && e.frame < |g.bytes| then g.bytes[e.frame] else Zeros()
  }

  lemma JoinAgrees(g: Guest, g': Guest, s: nat, src: nat, dst: nat, h: Sheet, w: nat, x: nat)
    requires Depicts(g, s, h) && s < |g.dirs| && src < USER_PAGES && dst < USER_PAGES && g.PteAt(s, src).present
    requires LeafSet(g, g', s, dst, Copied(g.PteAt(s, src))) && w < USER_PAGES && x < USER_PAGES
    ensures Agree(g', s, Joined(h, src, dst), w, x)
  {
    var w0, x0 := if w == dst then src else w, if x == dst then src else x;
    assert Matches(g, s, h, src) && Agree(g, s, h, w0, x0);
    assert g'.PteAt(s, w) == if w == dst then Copied(g.PteAt(s, src)) else g.PteAt(s, w);
    assert g'.PteAt(s, x) == if x == dst then Copied(g.PteAt(s, src)) else g.PteAt(s, x);
  }

  lemma TradeDepicts(g: Guest, g': Guest, s: nat, a: nat, b: nat, h: Sheet)
    requires Depicts(g, s, h) && s < |g.dirs| && a < USER_PAGES && b < USER_PAGES && Swapped(g, g', s, a, b)
    ensures Depicts(g', s, Traded(h, a, b))
  {
    var h' := Traded(h, a, b);
    forall w: nat | w < USER_PAGES ensures Matches(g', s, h', w) {
      assert Matches(g, s, h, Partner(w, a, b)) && g'.PteAt(s, w) == g.PteAt(s, Partner(w, a, b));
    }
    forall w: nat, x: nat | w < USER_PAGES && x < USER_PAGES ensures Agree(g', s, h', w, x) {
      assert Agree(g, s, h, Partner(w, a, b), Partner(x, a, b));
      assert g'.PteAt(s, w) == g.PteAt(s, Partner(w, a, b)) && g'.PteAt(s, x) == g.PteAt(s, Partner(x, a, b));
    }
  }

  lemma WipeDepicts(g: Guest, g': Guest, s: nat, h: Sheet)
    requires Depicts(g, s, h) && s < |g.dirs| && Cleared(g, g', s, USER_PAGES)
    ensures Depicts(g', s, Wiped(h))
  {
    var h' := Wiped(h);
    forall w: nat | w < USER_PAGES ensures Matches(g', s, h', w) {
      assert Matches(g, s, h, w) && g'.PteAt(s, w) == if g.PteAt(s, w).present then NONE else g.PteAt(s, w);
      assert View(g', s, w) == if g.PteAt(s, w).present then BLANK else View(g, s, w);
    }
    forall w: nat, x: nat | w < USER_PAGES && x < USER_PAGES ensures Agree(g', s, h', w, x) {
      assert g'.PteAt(s, w) == if g.PteAt(s, w).present then NONE else g.PteAt(s, w);
    }
  }

  /** Parent and child start with the same cells; every store of either moves a page off them. */
  lemma ForkDepicts(g: Guest, g': Guest, s: nat, h: Sheet)
    requires Depicts(g, s, h) && s < |g.dirs| && Forked(g, g', s)
    ensures Depicts(g', s, Parent(h)) && Depicts(g', |g.dirs|, Child(h))
  {
    var c := |g.dirs|;
    forall w: nat | w < USER_PAGES ensures Matches(g', s, Parent(h), w) && Matches(g', c, Child(h), w) {
      assert Matches(g, s, h, w);
      assert g'.PteAt(s, w) == ParentAfter(g.PteAt(s, w)) && g'.PteAt(c, w) == ChildAfter(g.PteAt(s, w));
    }
    forall w: nat, x: nat | w < USER_PAGES && x < USER_PAGES
      ensures Agree(g', s, Parent(h), w, x) && Agree(g', c, Child(h), w, x)
    {
      assert Agree(g, s, h, w, x);
      assert g'.PteAt(s, w) == ParentAfter(g.PteAt(s, w)) && g'.PteAt(c, w) == ChildAfter(g.PteAt(s, w));
      assert g'.PteAt(s, x) == ParentAfter(g.PteAt(s, x)) && g'.PteAt(c, x) == ChildAfter(g.PteAt(s, x));
    }
  }

  // ---- Steps ----

  /** A store at a page that is open shows on every page of its cell. */
  lemma OpenStoreDepicts(g: Guest, held: map<nat, nat>, s: nat, v: nat, off: nat, b: bv8, g': Guest, h: Sheet)
    requires Books(g, held) && Apart(g) && s < |g.dirs| && v < USER_PAGES && off < PAGE_SIZE
    requires Store(g, s, v, off, b) == Ok(g') && Depicts(g, s, h) && h.access(v).Open?
    ensures Depicts(g', s, Stored(h, v, off, b))
  {
    hide Trees, Counted, Pooled, Leaves, Apart, Store, View;
    var h' := Stored(h, v, off, b);
    var g1 := StoreStep(g, held, s, v, off, b, g');
    assert Matches(g, s, h, v);
    forall w: nat | w < USER_PAGES ensures Matches(g', s, h', w) {
      assert Matches(g, s, h, w) && Agree(g, s, h, v, w) && g'.PteAt(s, w) == g.PteAt(s, w);
      StoreViews(g, held, s, v, off, b, g', s, w);
    }
    forall w: nat, x: nat | w < USER_PAGES && x < USER_PAGES ensures Agree(g', s, h', w, x) {
      assert Agree(g, s, h, w, x) && g'.PteAt(s, w) == g.PteAt(s, w) && g'.PteAt(s, x) == g.PteAt(s, x);
    }
  }

  /** Any other store that goes through moves its page to a cell of its own. */
  lemma MovingStoreDepicts(g: Guest, held: map<nat, nat>, s: nat, v: nat, off: nat, b: bv8, g': Guest, h: Sheet)
    requires Books(g, held) && Apart(g) && s < |g.dirs| && v < USER_PAGES && off < PAGE_SIZE
    requires Store(g, s, v, off, b) == Ok(g') && Depicts(g, s, h) && Takes(g, s, v) && !h.access(v).Open?
    ensures Depicts(g', s, Stored(h, v, off, b))
  {
    hide Trees, Counted, Pooled, Leaves, Apart, Store, View, Depicts;
    var g1 := StoreStep(g, held, s, v, off, b, g');
    var e := g1.PteAt(s, v);
    assert Matches(g, s, h, v) by { DepictsPage(g, s, h, v); }
    FillLeaves(g1, e.frame, g1.bytes[e.frame][off := b]);
    forall s': nat, w: nat | s' < |g.dirs| && w < ALL_PAGES
      ensures g'.PteAt(s', w) == if s' == s && w == v then e else g.PteAt(s', w)
    {
      assert g'.PteAt(s', w) == g1.PteAt(s', w);
    }
    forall w: nat | w < USER_PAGES && w != v ensures View(g', s, w) == View(g, s, w) {
      StoreViews(g, held, s, v, off, b, g', s, w);
    }
    StoreViews(g, held, s, v, off, b, g', s, v);
    RenewDepicts(g, g', s, v, e, h, Put(View(g, s, v).cell.bytes, off, b));
  }

  lemma DepictsPage(g: Guest, s: nat, h: Sheet, v: nat)
    requires Depicts(g, s, h) && v < USER_PAGES
    ensures Matches(g, s, h, v)
  {
  }

  lemma StoreDepicts(g: Guest, held: map<nat, nat>, s: nat, v: nat, off: nat, b: bv8, g': Guest, h: Sheet)
    requires Books(g, held) && Apart(g) && s < |g.dirs| && v < USER_PAGES && off < PAGE_SIZE
    requires Store(g, s, v, off, b) == Ok(g') && Depicts(g, s, h)
    ensures Depicts(g', s, Stored(h, v, off, b))
  {
    hide Trees, Counted, Pooled, Leaves, Apart, Store, View, Depicts;
    DepictsPage(g, s, h, v);
    if h.access(v).Open? {
      OpenStoreDepicts(g, held, s, v, off, b, g', h);
    } else if Takes(g, s, v) {
      MovingStoreDepicts(g, held, s, v, off, b, g', h);
    } else {
      var _ := StoreStep(g, held, s, v, off, b, g');
    }
  }

  lemma CopyDepicts(g: Guest, held: map<nat, nat>, s: nat, src: nat, dst: nat, g': Guest, h: Sheet)
    requires Books(g, held) && s < |g.dirs| && src < USER_PAGES && dst < USER_PAGES
    requires CopyPage(g, s, src, dst) == Ok(g') && !SelfCopy(g, s, src, dst) && Depicts(g, s, h)
    ensures Depicts(g', s, Joined(h, src, dst))
  {
    hide Trees, Counted, Pooled, CopyPage, Depicts, Joined;
    CopyEdit(g, held, s, src, dst, g');
    var e := g.PteAt(s, src);
    assert g'.PteAt(s, dst) == Copied(e);
    if e.present && src != dst {
      assert g'.PteAt(s, src) == e && View(g', s, src) == View(g, s, src);
    } else if e.present {
      InterpTheorems.CopySelfBytes(g, s, src, g');
    }
    JoinDepicts(g, g', s, src, dst, h);
  }

  lemma LoadDepicts(g: Guest, held: map<nat, nat>, s: nat, v: nat, g': Guest, h: Sheet)
    requires Books(g, held) && s < |g.dirs| && v < USER_PAGES && Load(g, s, v) == Ok(g') && Depicts(g, s, h)
    ensures Depicts(g', s, Loaded(h, v))
  {
    hide Trees, Counted, Pooled, Leaves, MapFresh, View, Depicts;
    DepictsPage(g, s, h, v);
    if !g.PteAt(s, v).present && !Refuses(g, s, v) {
      FreshDepicts(g, held, s, v, g', h);
    }
  }

  lemma FreshDepicts(g: Guest, held: map<nat, nat>, s: nat, v: nat, g': Guest, h: Sheet)
    requires Books(g, held) && s < |g.dirs| && v < USER_PAGES && MapFresh(g, s, v) == Ok(g') && Depicts(g, s, h)
    ensures Depicts(g', s, Renew(h, v, Zeros()))
  {
    hide Trees, Counted, Pooled, Leaves, MapFresh, View, Depicts, Renew;
    var f := MapFreshEdit(g, held, s, v, g');
    RenewDepicts(g, g', s, v, Mapping(f, true), h, Zeros());
  }

  /** The entries of a space change only by its own operations. */
  lemma OtherEntries(g: Guest, held: map<nat, nat>, op: Op, g': Guest, s: nat, v: nat)
    requires Sound(g, held) && ValidOp(g, op) && SaneOp(g, op) && Step(g, op) == Ok(g')
    requires s < |g.dirs| && v < USER_PAGES && (op.NewOp? || op.s != s)
    ensures g'.PteAt(s, v) == g.PteAt(s, v)
  {
    hide Trees, Counted, Pooled, Leaves, Windowed, Apart, View, Store, ForkSpace, MapFresh, Unmap, MapTrap, CopyPage;
    hide SwapPage, ClearPages, NewSpace;
    match op
    case ForkOp(t) => ForkBooks(g, held, t, g');
    case StoreOp(t, w, off, b) =>
      var g1 := StoreStep(g, held, t, w, off, b, g');
      if Takes(g, t, w) {
        var f := g1.PteAt(t, w).frame;
        FillLeaves(g1, f, g1.bytes[f][off := b]);
        assert g'.PteAt(s, v) == g1.PteAt(s, v);
      }
    case LoadOp(t, w) => LoadEdit(g, held, t, w, g');
    case FreshOp(t, w) => var _ := MapFreshEdit(g, held, t, w, g');
    case UnmapOp(t, w) => UnmapEdit(g, held, t, w, g');
    case TrapOp(t, w) => MapTrapEdit(g, held, t, w, g');
    case CopyOp(t, src, dst) => CopyEdit(g, held, t, src, dst, g');
    case SwapOp(t, a, b) => SwapEdit(g, held, t, a, b, g');
    case ClearOp(t) => ClearEdit(g, held, t, USER_PAGES, g');
    case NewOp => NewSpaceBooks(g, held, g');
  }

  lemma OtherDepicts(g: Guest, held: map<nat, nat>, op: Op, g': Guest, s: nat, h: Sheet)
    requires Sound(g, held) && ValidOp(g, op) && SaneOp(g, op) && Step(g, op) == Ok(g')
    requires s < |g.dirs| && (op.NewOp? || op.s != s) && Depicts(g, s, h)
    ensures Depicts(g', s, h)
  {
    hide Sound, Step, View, Depicts, ValidOp, SaneOp;
    forall v: nat | v < USER_PAGES ensures g'.PteAt(s, v) == g.PteAt(s, v) && View(g', s, v) == View(g, s, v) {
      OtherEntries(g, held, op, g', s, v);
      StepPrivate(g, held, op, g', s, v);
    }
    SameDepicts(g, g', s, h);
  }

  /** What an operation does to the sheet of its own space. */
  lemma OwnDepicts(g: Guest, held: map<nat, nat>, op: Op, g': Guest, hs: seq<Sheet>)
    requires Sound(g, held) && ValidOp(g, op) && SaneOp(g, op) && Step(g, op) == Ok(g') && Depicted(g, hs) && !op.NewOp?
    ensures Depicts(g', op.s, NextSheets(hs, op)[op.s])
    ensures op.ForkOp? ==> Depicts(g', |g.dirs|, Child(hs[op.s]))
  {
    hide Trees, Counted, Pooled, Leaves, Windowed, Apart, View, Depicts, Store, Load, ForkSpace, MapFresh;
    hide Unmap, MapTrap, CopyPage, SwapPage, ClearPages, Stored, Loaded, Renew, Joined, Traded, Wiped, Parent, Child;
    match op
    case ForkOp(t) =>
      ForkBooks(g, held, t, g');
      ForkDepicts(g, g', t, hs[t]);
    case StoreOp(t, w, off, b) => StoreDepicts(g, held, t, w, off, b, g', hs[t]);
    case LoadOp(t, w) => LoadDepicts(g, held, t, w, g', hs[t]);
    case FreshOp(t, w) => FreshDepicts(g, held, t, w, g', hs[t]);
    case UnmapOp(t, w) =>
      UnmapEdit(g, held, t, w, g');
      BlankDepicts(g, g', t, w, NONE, hs[t]);
    case TrapOp(t, w) =>
      MapTrapEdit(g, held, t, w, g');
      BlankDepicts(g, g', t, w, TRAP, hs[t]);
    case CopyOp(t, src, dst) => CopyDepicts(g, held, t, src, dst, g', hs[t]);
    case SwapOp(t, a, b) =>
      SwapEdit(g, held, t, a, b, g');
      TradeDepicts(g, g', t, a, b, hs[t]);
    case ClearOp(t) =>
      ClearEdit(g, held, t, USER_PAGES, g');
      WipeDepicts(g, g', t, hs[t]);
  }

  lemma BareDepicts(g: Guest, held: map<nat, nat>, g': Guest)
    requires Sound(g, held) && Step(g, NewOp) == Ok(g')
    ensures |g'.dirs| == |g.dirs| + 1 && Depicts(g', |g.dirs|, BARE)
  {
    hide Books, Windowed, Apart, NewSpace;
    NewSpaceBooks(g, held, g');
    forall v: nat | v < USER_PAGES ensures Matches(g', |g.dirs|, BARE, v) {
      assert g'.PteAt(|g.dirs|, v) == NONE;
    }
    forall v: nat, w: nat | v < USER_PAGES && w < USER_PAGES ensures Agree(g', |g.dirs|, BARE, v, w) {
      assert g'.PteAt(|g.dirs|, v) == NONE;
    }
  }

  /** Every step that keeps the counts does to each space's sheet what the contract says. */
  lemma StepDepicts(g: Guest, held: map<nat, nat>, op: Op, g': Guest, hs: seq<Sheet>)
    requires Sound(g, held) && ValidOp(g, op) && SaneOp(g, op) && Step(g, op) == Ok(g') && Depicted(g, hs)
    ensures Depicted(g', NextSheets(hs, op))
  {
    hide Trees, Counted, Pooled, Leaves, Windowed, Apart, View, Depicts, Step, SaneOp;
    hide Stored, Loaded, Renew, Joined, Traded, Wiped, Parent, Child;
    StepSpaces(g, op, g');
    if op.NewOp? { BareDepicts(g, held, g'); } else { OwnDepicts(g, held, op, g', hs); }
    forall s: nat | s < |g'.dirs| ensures Depicts(g', s, NextSheets(hs, op)[s]) {
      if s < |g.dirs| && (op.NewOp? || op.s != s) { OtherDepicts(g, held, op, g', s, hs[s]); }
    }
  }

  lemma StepSpaces(g: Guest, op: Op, g': Guest)
    requires Framed(g) && ValidOp(g, op) && Step(g, op) == Ok(g')
    ensures |g'.dirs| == if op.NewOp? || op.ForkOp? then |g.dirs| + 1 else |g.dirs|
  {
    hide Store, Load, ForkSpace, MapFresh, Unmap, MapTrap, CopyPage, SwapPage, ClearPages, NewSpace;
  }

  function AfterOps(hs: seq<Sheet>, ops: seq<Op>): seq<Sheet>
    decreases |ops|
  {
    if ops == [] || !(ops[0].NewOp? || ops[0].s < |hs|) then hs else AfterOps(NextSheets(hs, ops[0]), ops[1..])
  }

  /** Over every run that copies no unshared page onto itself, with any aliasing, device windows and
      stores anywhere, each space sees exactly its own sheet of cells. */
  lemma {:induction false} RunDepicts(g: Guest, held: map<nat, nat>, ops: seq<Op>, g': Guest, hs: seq<Sheet>)
    requires Sound(g, held) && Runs(g, ops, g') && SaneRun(g, ops, g') && Depicted(g, hs)
    ensures Depicted(g', AfterOps(hs, ops))
    decreases |ops|
  {
    hide Trees, Counted, Pooled, Leaves, Windowed, Apart, Step, SaneOp, HeldAfter, Depicts, NextSheets;
    if ops != [] {
      var g1 := Step(g, ops[0]).value;
      StepSound(g, held, ops[0], g1);
      StepDepicts(g, held, ops[0], g1, hs);
      RunDepicts(g1, HeldAfter(g, held, ops[0]), ops[1..], g', NextSheets(hs, ops[0]));
    }
  }

  /** From boot, what a space sees is what its own sheet shows. */
  lemma SpacesAreSheets(g: Guest, ops: seq<Op>, g': Guest, s: nat, v: nat)
    requires Framed(g) && Booted(g) && Runs(g, ops, g') && SaneRun(g, ops, g') && s < |g'.dirs| && v < USER_PAGES
    ensures |AfterOps([], ops)| == |g'.dirs| && View(g', s, v) == PageAt(AfterOps([], ops)[s], v)
  {
    hide Runs, SaneRun, Sound, View, PageAt, AfterOps, Depicts;
    BootSound(g);
    RunDepicts(g, map[], ops, g', []);
    DepictsPage(g', s, AfterOps([], ops)[s], v);
  }
}
