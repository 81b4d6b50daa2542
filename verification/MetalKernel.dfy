/** The paging code itself: loops over table slots and page ranges, proved against the
    functions and runs of the other modules. */
module MetalKernel {
  import opened Outcomes
  import opened PhysMm
  import opened MetalMemory
  import opened MetalOps
  import opened MetalWalks
  import opened MetalViews
  import opened MetalFaults
  import opened MetalStore
  import opened MetalRetry
  import opened MetalRuns
  import opened MetalTheorems
  import opened MetalWindow

  lemma {:induction false} ShareRowHalts(refs: seq<nat>, zero: nat, row: seq<Entry>, j: nat, k: nat)
    requires j <= k <= |row| && ShareRow(refs, zero, row, j).Panic?
    ensures ShareRow(refs, zero, row, k).Panic?
    decreases k
  {
    if j < k { ShareRowHalts(refs, zero, row, j, k - 1); }
  }

  /** `share_and_copy`: both rows end up read-only and every owned frame gains one reference. */
  method ShareAndCopy(src: array<Entry>, dst: array<Entry>, counts: FrameAllocator) returns (halted: bool)
    requires src.Length == dst.Length && src != dst && counts.Valid()
    modifies src, dst, counts.refs
    ensures counts.Valid()
    ensures halted <==> ShareRow(old(counts.refs[..]), counts.zero, old(src[..]), src.Length).Panic?
    ensures !halted ==> src[..] == ReadOnlyRow(old(src[..])) && dst[..] == src[..]
    ensures !halted ==> counts.refs[..] == ShareRow(old(counts.refs[..]), counts.zero, old(src[..]), src.Length).value
  {
    ghost var was, refs := src[..], counts.refs[..];
    for i := 0 to src.Length
      invariant counts.Valid()
      invariant src[..i] == ReadOnlyRow(was)[..i] && dst[..i] == src[..i] && src[i..] == was[i..]
      invariant ShareRow(refs, counts.zero, was, i) == Ok(counts.refs[..])
    {
      var e := src[i];
      assert e == was[i];
      if Owns(e) {
        e := e.(hw := false);
        src[i] := e;
        halted := counts.Share(e.page);
        if halted {
          ShareRowHalts(refs, counts.zero, was, i + 1, |was|);
          return;
        }
      }
      dst[i] := e;
    }
    return false;
  }

  /** The path of a page number: its digits, the root slot first. */
  function PathOf(m: Memory, page: nat): (q: seq<nat>)
    requires m.fan >= 1
    ensures |q| == m.depth
  {
    Digits(m.fan, m.depth, page)
  }

  function Digits(fan: nat, depth: nat, page: nat): (q: seq<nat>)
    requires fan >= 1
    ensures |q| == depth
  {
    if depth == 0 then [] else if depth == 1 then [page] else Digits(fan, depth - 1, page / fan) + [page % fan]
  }

  lemma TwoDigits(fan: nat, page: nat)
    requires fan >= 1
    ensures Digits(fan, 2, page) == [page / fan, page % fan]
    ensures Digits(fan, 3, page) == [page / fan / fan, page / fan % fan, page % fan]
  {
    assert Digits(fan, 1, page / fan) == [page / fan] && Digits(fan, 1, page / fan / fan) == [page / fan / fan];
    assert Digits(fan, 2, page / fan) == [page / fan / fan] + [page / fan % fan];
  }

  lemma LegacyPath(page: nat)
    ensures EntryIndex(Legacy, [page / 1024, page % 1024], 2) == page
    ensures page < BASE ==> UserPath(Legacy, [page / 1024, page % 1024])
  {
  }

  lemma DeepPath(mode: Mode, page: nat)
    requires !mode.Legacy?
    ensures EntryIndex(mode, [page / 512 / 512, page / 512 % 512, page % 512], 3) == page
    ensures page < BASE ==> UserPath(mode, [page / 512 / 512, page / 512 % 512, page % 512])
  {
  }

  /** The path of a page is the one whose entry stands at that page's number in the recursive window. */
  lemma PathIsPage(mode: Mode, m: Memory, page: nat)
    requires m.depth == mode.Depth() && m.fan == mode.Epp()
    ensures EntryIndex(mode, PathOf(m, page), mode.Depth()) == page
    ensures page < BASE ==> UserPath(mode, PathOf(m, page))
    ensures page < BASE ==>
      forall q :: UserPath(mode, q) && EntryIndex(mode, q, mode.Depth()) == page ==> q == PathOf(m, page)
  {
    hide EntryIndex, Digits;
    TwoDigits(m.fan, page);
    if mode.Legacy? { LegacyPath(page); } else { DeepPath(mode, page); }
    if page < BASE {
      forall q | UserPath(mode, q) && EntryIndex(mode, q, mode.Depth()) == page ensures q == PathOf(m, page) {
        LeafIndexInjective(mode, q, PathOf(m, page));
      }
    }
  }

  lemma RunsNext(m: Memory, ops: seq<Op>, i: nat, m1: Memory, m': Memory)
    requires Shape(m) && i < |ops| && Runs(m, ops[..i], m1) && Shape(m1) && ValidOp(m1, ops[i])
    requires Step(m1, ops[i]) == Ok(m')
    ensures Runs(m, ops[..i + 1], m')
  {
    hide Step, ValidOp, RowsOk;
    RunsAppend(m, ops[..i], m1, ops[i], m');
    assert ops[..i + 1] == ops[..i] + [ops[i]];
  }

  /** The machine halts at operation `i`, having got to `m'`. */
  ghost predicate HaltsAt(m: Memory, ops: seq<Op>, i: nat, m': Memory)
    requires Shape(m)
  {
    && i < |ops| && Runs(m, ops[..i], m')
    && Shape(m') && ValidOp(m', ops[i]) && Step(m', ops[i]).Panic?
  }

  /** The two memories have the same sizes and paging mode. */
  ghost predicate Alike(m: Memory, m': Memory) {
    && Shape(m') && |m'.tab| == |m.tab| && |m'.refs| == |m.refs|
    && m'.depth == m.depth && m'.fan == m.fan && m'.rootFan == m.rootFan && m'.pae == m.pae
  }

  lemma RowSize(m: Memory, n: nat)
    requires Shape(m) && n < |m.tab|
    ensures |m.tab[n]| == if n < |m.refs| then m.fan else m.rootFan
  {
  }

  /** The range operations, page by page. */
  function Copies(m: Memory, s: nat, src: nat, dst: nat, count: nat): (ops: seq<Op>)
    requires m.fan >= 1
  {
    seq(count, i requires 0 <= i < count => CopyOp(s, PathOf(m, src + i), PathOf(m, dst + i)))
  }

  function Swaps(m: Memory, s: nat, a: nat, b: nat, count: nat): (ops: seq<Op>)
    requires m.fan >= 1
  {
    seq(count, i requires 0 <= i < count => SwapOp(s, PathOf(m, a + i), PathOf(m, b + i)))
  }

  function Unmaps(m: Memory, s: nat, base: nat, count: nat): (ops: seq<Op>)
    requires m.fan >= 1
  {
    seq(count, i requires 0 <= i < count => PutOp(s, PathOf(m, base + i), ABSENT))
  }

  /** The pages `[base, base + count)` are user pages. */
  predicate UserRange(m: Memory, base: nat, count: nat)
    requires m.fan >= 1
  {
    forall p: nat {:trigger PathOf(m, p)} :: base <= p < base + count ==> m.Path(PathOf(m, p))
  }

  class Paging {
    var mem: Memory

    constructor (m: Memory)
      ensures mem == m
    {
      mem := m;
    }

    /** `fork_generic`: share the root, then, under PAE, unshare what it points at. */
    method Fork(s: nat) returns (halted: bool)
      requires Shape(mem) && s < mem.Spaces()
      modifies this
      ensures MetalOps.Fork(old(mem), s) == if halted then Panic else Ok(mem)
    {
      hide CowEntry, ShareRow, RowsOk, SameReserved;
      ghost var m0 := mem;
      RowSize(mem, mem.Root(s));
      var shared := ShareRoot(mem, s);
      if shared.Panic? { return true; }
      var root := mem.Root(s);
      mem := shared.value;
      ghost var m1 := mem;
      RowSize(m1, root);
      if mem.pae {
        for i := 0 to mem.rootFan
          invariant Alike(m1, mem) && |mem.tab[root]| == |m1.tab[root]| && Deshare(m1, root, i) == Ok(mem)
        {
          var e := mem.tab[root][i];
          if e.present && !e.hw {
            var r := CowEntry(mem, root, i);
            if r.Panic? {
              DeshareHalts(m1, root, i + 1, m0.rootFan);
              return true;
            }
            mem := r.value;
            RowSize(mem, root);
          }
        }
      }
      return false;
    }

    /** `free_subtree` on slot `i` of a level-`l` node. */
    method FreeSubtree(n: nat, i: nat, l: nat) returns (halted: bool)
      requires Shape(mem) && Slot(mem, n, i)
      modifies this
      ensures FreeSlot(old(mem), n, i, l) == if halted then Panic else Ok(mem)
      decreases l
    {
      hide Replace, RowsOk, SameReserved;
      ghost var m0 := mem;
      var e := mem.tab[n][i];
      if !e.present { return false; }
      if l >= 2 && RefCount(mem.refs, mem.zero, e.page) == 1 {
        RowSize(mem, e.page);
        for j := 0 to mem.fan
          invariant Alike(m0, mem) && |mem.tab[e.page]| == |m0.tab[e.page]| && FreeRow(m0, e.page, j, l - 1) == Ok(mem)
        {
          halted := FreeSubtree(e.page, j, l - 1);
          if halted {
            FreeRowHalts(m0, e.page, j + 1, m0.fan, l - 1);
            return;
          }
          RowSize(mem, e.page);
        }
      }
      RowSize(m0, n);
      RowSize(mem, n);
      var r := Replace(mem, n, i, ABSENT);
      if r.Panic? { return true; }
      mem := r.value;
      return false;
    }

    /** `free_user_pages`. */
    method FreeUserPages(s: nat) returns (halted: bool)
      requires Shape(mem) && s < mem.Spaces()
      modifies this
      ensures FreeSpace(old(mem), s) == if halted then Panic else Ok(mem)
    {
      hide FreeSlot, RowsOk, SameReserved;
      ghost var m0 := mem;
      var root := mem.Root(s);
      RowSize(mem, root);
      for i := 0 to mem.rootFan
        invariant Alike(m0, mem) && |mem.tab[root]| == |m0.tab[root]| && FreeRow(m0, root, i, m0.depth) == Ok(mem)
      {
        halted := FreeSubtree(root, i, mem.depth);
        if halted {
          FreeRowHalts(m0, root, i + 1, m0.rootFan, m0.depth);
          return;
        }
        RowSize(mem, root);
      }
      return false;
    }

    /** `copy_page_entries`: a run of single copies. */
    method CopyPageEntries(s: nat, src: nat, dst: nat, count: nat) returns (halted: bool)
      requires Shape(mem) && s < mem.Spaces() && UserRange(mem, src, count) && UserRange(mem, dst, count)
      modifies this
      ensures !halted ==> Runs(old(mem), Copies(old(mem), s, src, dst, count), mem)
      ensures halted ==> exists i: nat :: HaltsAt(old(mem), Copies(old(mem), s, src, dst, count), i, mem)
    {
      hide CopyPage, RowsOk, SameReserved, Digits;
      ghost var m0, ops := mem, Copies(mem, s, src, dst, count);
      for i := 0 to count
        invariant Alike(m0, mem) && Runs(m0, ops[..i], mem)
      {
        var a, b := PathOf(mem, src + i), PathOf(mem, dst + i);
        assert m0.Path(PathOf(m0, src + i)) && m0.Path(PathOf(m0, dst + i));
        var r := CopyPage(mem, s, a, b);
        if r.Panic? {
          assert HaltsAt(m0, ops, i, mem);
          return true;
        }
        RunsNext(m0, ops, i, mem, r.value);
        mem := r.value;
      }
      assert ops[..count] == ops;
      return false;
    }

    /** `swap_page_entries`: a run of single swaps. */
    method SwapPageEntries(s: nat, a: nat, b: nat, count: nat) returns (halted: bool)
      requires Shape(mem) && s < mem.Spaces() && UserRange(mem, a, count) && UserRange(mem, b, count)
      modifies this
      ensures !halted ==> Runs(old(mem), Swaps(old(mem), s, a, b, count), mem)
      ensures halted ==> exists i: nat :: HaltsAt(old(mem), Swaps(old(mem), s, a, b, count), i, mem)
    {
      hide SwapPage, RowsOk, SameReserved, Digits;
      ghost var m0, ops := mem, Swaps(mem, s, a, b, count);
      for i := 0 to count
        invariant Alike(m0, mem) && Runs(m0, ops[..i], mem)
      {
        var qa, qb := PathOf(mem, a + i), PathOf(mem, b + i);
        assert m0.Path(PathOf(m0, a + i)) && m0.Path(PathOf(m0, b + i));
        var r := SwapPage(mem, s, qa, qb);
        if r.Panic? {
          assert HaltsAt(m0, ops, i, mem);
          return true;
        }
        RunsNext(m0, ops, i, mem, r.value);
        mem := r.value;
      }
      assert ops[..count] == ops;
      return false;
    }

    /** `unmap_range`: a run of single unmappings. */
    method UnmapRange(s: nat, base: nat, count: nat) returns (halted: bool)
      requires Shape(mem) && s < mem.Spaces() && UserRange(mem, base, count)
      modifies this
      ensures !halted ==> Runs(old(mem), Unmaps(old(mem), s, base, count), mem)
      ensures halted ==> exists i: nat :: HaltsAt(old(mem), Unmaps(old(mem), s, base, count), i, mem)
    {
      hide Install, RowsOk, SameReserved, Digits;
      ghost var m0, ops := mem, Unmaps(mem, s, base, count);
      for i := 0 to count
        invariant Alike(m0, mem) && Runs(m0, ops[..i], mem)
      {
        var q := PathOf(mem, base + i);
        assert m0.Path(PathOf(m0, base + i));
        var r := Install(mem, s, q, ABSENT);
        if r.Panic? {
          assert HaltsAt(m0, ops, i, mem);
          return true;
        }
        RunsNext(m0, ops, i, mem, r.value);
        mem := r.value;
      }
      assert ops[..count] == ops;
      return false;
    }

    /** `handle_protection_fault` for a write: from the leaf upwards, remember the outermost
        read-only entry and give up on a sealed one; then COW what was found. */
    method HandleProtectionFault(s: nat, q: seq<nat>, ghost held: seq<nat>) returns (served: bool, halted: bool)
      requires Accounted(mem, held) && s < mem.Spaces() && mem.Path(q) && mem.Walk(s, q, mem.depth).Some?
      modifies this
      ensures served <==> Grantable(old(mem.Leaf(s, q))) && old(Blocked(mem, s, q, mem.depth)).Some?
      ensures !served ==> mem == old(mem) && !halted
      ensures served ==>
        var j := old(Blocked(mem, s, q, mem.depth)).value; var n := old(mem.Walk(s, q, j)).value;
        Slot(old(mem), n, q[j]) && CowEntry(old(mem), n, q[j]) == if halted then Panic else Ok(mem)
    {
      var k := mem.depth;
      var cow: Option<nat> := None;
      LeafPresent(mem, s, q);
      forall j: nat | j <= mem.depth ensures mem.Walk(s, q, j).Some? { WalkBack(mem, s, q, j, mem.depth); }
      while k > 0
        invariant 0 <= k <= mem.depth && mem == old(mem)
        invariant forall j: nat {:trigger mem.Walk(s, q, j)} :: j <= mem.depth ==> mem.Walk(s, q, j).Some?
        invariant k < mem.depth ==> Grantable(mem.Leaf(s, q))
        invariant cow.Some? ==> k <= cow.value < mem.depth && !StepEntry(mem, s, q, cow.value).hw
        invariant forall j: nat {:trigger StepEntry(mem, s, q, j)} ::
          k <= j < (if cow.Some? then cow.value else mem.depth) ==> StepEntry(mem, s, q, j).hw
      {
        k := k - 1;
        var e := StepEntry(mem, s, q, k);
        StepPlain(mem, held, s, q, k);
        if e.present && !e.hw {
          if e.softRo { return false, false; }
          cow := Some(k);
        }
      }
      BlockedIs(mem, s, q, mem.depth, cow);
      if cow.None? { return false, false; }
      var n := mem.Walk(s, q, cow.value).value;
      WalkTyped(mem, s, q, cow.value);
      var r := CowEntry(mem, n, q[cow.value]);
      if r.Panic? { return true, true; }
      mem := r.value;
      return true, false;
    }

    /** A store is retried until the processor lets it through. The faults on the way number at
        most the levels of the tree, and leave exactly what one preparation leaves. */
    method Retry(s: nat, q: seq<nat>, ghost held: seq<nat>) returns (faults: nat, halted: bool)
      requires Accounted(mem, held) && s < mem.Spaces() && mem.Path(q) && Grantable(mem.Leaf(s, q))
      modifies this
      ensures halted ==> Prep(old(mem), s, q, old(mem.depth)).Panic?
      ensures !halted ==> faults <= mem.depth == old(mem.depth) && HwOpen(mem, s, q, mem.depth)
      ensures !halted ==> (if faults == 0 then mem == old(mem) else Prep(old(mem), s, q, mem.depth) == Ok(mem))
    {
      hide Exact, LeavesPrivate, Typed, ZeroOk, TablesPrivate, RowsOk, SameReserved, CowEntry, SameViews, Prep, PageIn;
      hide HwOpen, Blocked, Open, Grantable;
      ghost var m0 := mem;
      faults := 0;
      while !HwOpen(mem, s, q, mem.depth)
        invariant Accounted(mem, held) && s < mem.Spaces() && mem.Path(q) && mem.depth == m0.depth
        invariant Grantable(mem.Leaf(s, q)) && Prep(mem, s, q, mem.depth) == Prep(m0, s, q, m0.depth)
        invariant faults == 0 ==> mem == m0
        invariant faults > 0 ==> mem.Walk(s, q, mem.depth).Some?
        invariant faults > 0 && Blocked(mem, s, q, mem.depth).Some? ==> Blocked(mem, s, q, mem.depth).value >= faults
        invariant faults <= mem.depth
        decreases mem.depth - faults
      {
        LeafPresent(mem, s, q);
        if !mem.Leaf(s, q).present {
          var r := PageIn(mem, s, q, mem.depth);
          if r.Panic? {
            PageInHalts(mem, s, q);
            return faults, true;
          }
          PageInProgress(mem, held, s, q, r.value);
          mem := r.value;
        } else {
          ghost var m1 := mem;
          var served;
          ShutMeansBlocked(mem, s, q, mem.depth);
          served, halted := HandleProtectionFault(s, q, held);
          ghost var j := Blocked(m1, s, q, m1.depth).value;
          if halted {
            FaultHalts(m1, s, q, j);
            return faults, true;
          }
          FaultProgress(m1, held, s, q, j, mem);
        }
        faults := faults + 1;
      }
      if faults > 0 {
        OpenMeansClear(mem, s, q, mem.depth);
        PrepIdle(mem, s, q, mem.depth);
      }
      return faults, false;
    }
  }

  lemma PageInHalts(m: Memory, s: nat, q: seq<nat>)
    requires Shape(m) && |q| == m.depth && PageIn(m, s, q, m.depth).Panic?
    ensures Prep(m, s, q, m.depth).Panic?
  {
    hide PrepSlot, RowsOk;
  }

  lemma FaultHalts(m: Memory, s: nat, q: seq<nat>, j: nat)
    requires Shape(m) && ZeroOk(m) && Typed(m) && s < m.Spaces() && m.Path(q) && m.Walk(s, q, m.depth).Some?
    requires Blocked(m, s, q, m.depth) == Some(j)
    requires Slot(m, m.Walk(s, q, j).value, q[j]) && CowEntry(m, m.Walk(s, q, j).value, q[j]).Panic?
    ensures Prep(m, s, q, m.depth).Panic?
  {
    hide CowEntry, RowsOk, Typed, ZeroOk;
    BlockedAt(m, s, q, j, m.depth);
    PrepIdle(m, s, q, j);
    PrepHalts(m, s, q, j + 1, m.depth);
  }

  lemma {:induction false} PrepHalts(m: Memory, s: nat, q: seq<nat>, j: nat, k: nat)
    requires Shape(m) && j <= k <= |q| && Prep(m, s, q, j).Panic?
    ensures Prep(m, s, q, k).Panic?
    decreases k
  {
    hide PrepSlot, RowsOk;
    if j < k { PrepHalts(m, s, q, j, k - 1); }
  }

  /** A present path the processor refuses has a read-only entry on it. */
  lemma {:induction false} ShutMeansBlocked(m: Memory, s: nat, q: seq<nat>, k: nat)
    requires k <= |q| && m.Walk(s, q, k).Some? && !HwOpen(m, s, q, k)
    ensures Blocked(m, s, q, k).Some?
  {
    if k > 0 && !HwOpen(m, s, q, k - 1) { ShutMeansBlocked(m, s, q, k - 1); }
  }

  /** Once the root entry is writable, what the processor lets through has none. */
  lemma {:induction false} OpenMeansClear(m: Memory, s: nat, q: seq<nat>, k: nat)
    requires k <= |q| && m.Walk(s, q, k).Some? && HwOpen(m, s, q, k)
    requires (Blocked(m, s, q, k).Some? ==> Blocked(m, s, q, k).value > 0)
    ensures Blocked(m, s, q, k).None?
  {
    if k > 0 { OpenMeansClear(m, s, q, k - 1); }
  }

  lemma {:induction false} DeshareHalts(m: Memory, n: nat, j: nat, k: nat)
    requires Shape(m) && n < |m.tab| && j <= k <= |m.tab[n]| && Deshare(m, n, j).Panic?
    ensures Deshare(m, n, k).Panic?
    decreases k
  {
    hide CowEntry;
    if j < k { DeshareHalts(m, n, j, k - 1); }
  }

  lemma {:induction false} FreeRowHalts(m: Memory, n: nat, j: nat, k: nat, l: nat)
    requires Shape(m) && n < |m.tab| && j <= k <= |m.tab[n]| && FreeRow(m, n, j, l).Panic?
    ensures FreeRow(m, n, k, l).Panic?
    decreases k
  {
    hide FreeSlot;
    if j < k { FreeRowHalts(m, n, j, k - 1, l); }
  }

  /** The entry that step `j` of the walk takes. */
  function StepEntry(m: Memory, s: nat, q: seq<nat>, j: nat): Entry
    requires j < |q|
  {
    if m.Walk(s, q, j).Some? then m.At(m.Walk(s, q, j).value, q[j]) else ABSENT
  }

  /** Above the leaf nothing is sealed, and every entry of the path is present. */
  lemma StepPlain(m: Memory, held: seq<nat>, s: nat, q: seq<nat>, j: nat)
    requires Accounted(m, held) && s < m.Spaces() && m.Path(q) && j < m.depth && m.Walk(s, q, j).Some?
    requires m.Walk(s, q, j + 1).Some?
    ensures StepEntry(m, s, q, j).present && (j + 1 < m.depth ==> !StepEntry(m, s, q, j).softRo)
    ensures j + 1 == m.depth ==> StepEntry(m, s, q, j) == m.Leaf(s, q)
    ensures StepEntry(m, s, q, j).softRo ==> !StepEntry(m, s, q, j).hw
  {
    WalkTyped(m, s, q, j);
    var n := m.Walk(s, q, j).value;
    assert EntryOk(m, m.level[n], m.tab[n][q[j]]);
  }

  lemma {:induction false} BlockedIs(m: Memory, s: nat, q: seq<nat>, k: nat, r: Option<nat>)
    requires k <= |q| && m.Walk(s, q, k).Some? && (r.Some? ==> r.value < k && !StepEntry(m, s, q, r.value).hw)
    requires forall j: nat {:trigger StepEntry(m, s, q, j)} :: j < (if r.Some? then r.value else k) ==>
      StepEntry(m, s, q, j).hw
    ensures Blocked(m, s, q, k) == r
  {
    if k > 0 {
      assert m.Walk(s, q, k - 1).Some?;
      assert StepEntry(m, s, q, k - 1) == m.At(m.Walk(s, q, k - 1).value, q[k - 1]);
      BlockedIs(m, s, q, k - 1, if r == Some(k - 1) then None else r);
    }
  }
}
