/** Page tables as the metal backend sees them: frames that hold entries, roots that hold
    each space's user entries, and the walk from a root to a data frame. */
module MetalMemory {
  import opened Outcomes
  import opened PhysMm
  import opened ArchContract

  /** One page-table entry: the frame and the flag bits that ownership and COW depend on. */
  datatype Entry = Entry(
    page: nat, present: bool, hw: bool, user: bool,
    softRo: bool, cacheDisable: bool, foreign: bool, redirected: bool)

  const ABSENT := Entry(0, false, false, false, false, false, false, false)

  function NewEntry(page: nat, hw: bool, user: bool): Entry {
    Entry(page, true, hw, user, false, false, false, false)
  }

  /** `owns_frame`: the mapping holds a reference on its frame. */
  predicate Owns(e: Entry) {
    e.present && (e.redirected || (!e.cacheDisable && !e.foreign))
  }

  /** `share_and_copy` on one entry: what both the source and the copy hold afterwards. */
  function ReadOnly(e: Entry): Entry {
    if Owns(e) then e.(hw := false) else e
  }

  function ReadOnlyRow(row: seq<Entry>): (r: seq<Entry>)
    ensures |r| == |row|
    ensures forall i :: 0 <= i < |row| ==> r[i] == ReadOnly(row[i])
  {
    seq(|row|, i requires 0 <= i < |row| => ReadOnly(row[i]))
  }

  /** Memory and allocator state. Nodes below `|refs|` are frames; node `|refs| + s` is the
      root of space `s` (live or parked). `level` says what a node is used for: 0 data or
      unused, k a table whose entries lead to level k-1 nodes, `depth` a root. */
  datatype Memory = Memory(
    tab: seq<seq<Entry>>, dat: seq<Bytes>, level: seq<nat>,
    refs: seq<nat>, next: nat,
    zero: nat, depth: nat, fan: nat, rootFan: nat, pae: bool)
  {
    function Spaces(): nat { if |tab| < |refs| then 0 else |tab| - |refs| }
    function Root(s: nat): nat { |refs| + s }

    /** The entry in slot `i` of node `n`, `ABSENT` outside the tables. */
    function At(n: nat, i: nat): Entry {
      if n < |tab| && i < |tab[n]| then tab[n][i] else ABSENT
    }

    /** The node reached from space `s` after following `k` entries of `q`. */
    function Walk(s: nat, q: seq<nat>, k: nat): (r: Option<nat>)
      requires k <= |q|
    {
      if k == 0 then Some(Root(s))
      else
        var up := Walk(s, q, k - 1);
        if up.Some? && At(up.value, q[k - 1]).present then Some(At(up.value, q[k - 1]).page) else None
    }

    predicate Path(q: seq<nat>) {
      && |q| == depth
      && forall k :: 0 <= k < |q| ==> q[k] < if k == 0 then rootFan else fan
    }

    /** The leaf entry for `q`, `ABSENT` when a table on the way is missing. */
    function Leaf(s: nat, q: seq<nat>): Entry
      requires |q| == depth && depth >= 1
    {
      var t := Walk(s, q, depth - 1);
      if t.Some? then At(t.value, q[depth - 1]) else ABSENT
    }
  }

  /** What a space observes at a page. */
  function View(m: Memory, s: nat, q: seq<nat>): Cell
    requires |q| == m.depth && m.depth >= 1
  {
    var e := m.Leaf(s, q);
    if !e.present then (if e.cacheDisable then Trap else Ram(Zeros()))
    else if !Owns(e) then Device(e.page)
    else Ram(if e.page < |m.dat| then m.dat[e.page] else Zeros())
  }

  // ---- Counting owning entries ----

  function Holds(e: Entry, p: nat): nat {
    if Owns(e) && e.page == p then 1 else 0
  }

  /** How many of the first `k` entries of a row own frame `p`. */
  function RowRefs(row: seq<Entry>, p: nat, k: nat): nat
    requires k <= |row|
  {
    if k == 0 then 0 else RowRefs(row, p, k - 1) + Holds(row[k - 1], p)
  }

  function NodeRefs(tab: seq<seq<Entry>>, level: seq<nat>, p: nat, n: nat): nat
    requires n < |tab| && |level| == |tab|
  {
    if level[n] > 0 then RowRefs(tab[n], p, |tab[n]|) else 0
  }

  /** How many entries of the first `k` nodes in use as tables or roots own frame `p`. */
  function OwnersUpTo(tab: seq<seq<Entry>>, level: seq<nat>, p: nat, k: nat): nat
    requires k <= |tab| == |level|
  {
    if k == 0 then 0 else OwnersUpTo(tab, level, p, k - 1) + NodeRefs(tab, level, p, k - 1)
  }

  function Owners(m: Memory, p: nat): nat
    requires |m.tab| == |m.level|
  {
    OwnersUpTo(m.tab, m.level, p, |m.tab|)
  }

  // ---- Invariants ----

  ghost predicate Shape(m: Memory) {
    && |m.dat| == |m.refs| <= |m.tab|
    && |m.level| == |m.tab|
    && m.depth >= 2 && m.fan >= 1 && m.rootFan >= 1
    && HintOk(m.next, |m.refs|)
    && m.zero < |m.refs|
    && RowsOk(m)
  }

  /** Row sizes, node levels, page sizes and counts are in range. */
  ghost predicate RowsOk(m: Memory)
    requires |m.level| == |m.tab|
  {
    && (forall n: nat {:trigger |m.tab[n]|} :: n < |m.tab| ==> |m.tab[n]| == if n < |m.refs| then m.fan else m.rootFan)
    && (forall n: nat {:trigger m.level[n]} :: n < |m.tab| ==>
         (m.level[n] == m.depth <==> n >= |m.refs|) && m.level[n] <= m.depth)
    && (forall p: nat {:trigger |m.dat[p]|} :: p < |m.dat| ==> |m.dat[p]| == PAGE_SIZE)
    && (forall p: nat {:trigger m.refs[p]} :: p < |m.refs| ==> m.refs[p] <= RESERVED)
  }

  /** The zero page is never counted, never a table of its own, and always reads as nothing. */
  ghost predicate ZeroOk(m: Memory)
    requires m.zero < |m.tab| && m.zero < |m.dat| && m.zero < |m.level| && m.zero < |m.refs|
  {
    && m.level[m.zero] == 0
    && m.refs[m.zero] != 0
    && m.dat[m.zero] == Zeros()
    && forall i: nat {:trigger m.tab[m.zero][i]} :: i < |m.tab[m.zero]| ==> m.tab[m.zero][i] == ABSENT
  }

  /** A frame whose references are counted. */
  predicate Counted(m: Memory, p: nat) {
    p < |m.refs| && p != m.zero && m.refs[p] != RESERVED
  }

  /** What an entry of a level-`k` node may be. */
  predicate EntryOk(m: Memory, k: nat, e: Entry)
    requires |m.level| >= |m.refs|
  {
    e.present ==>
      && !(e.hw && e.softRo)
      && if Owns(e) then
        && e.page < |m.refs|
        && (k >= 2 ==> !e.softRo)
        && (Counted(m, e.page) ==> m.refs[e.page] >= 1 && k >= 1 && m.level[e.page] == k - 1)
        && (!Counted(m, e.page) ==> !e.hw && (e.page == m.zero || k == 1))
      else
        && k == 1
        && (e.hw || e.softRo)
        && e.page != m.zero
        && (e.page < |m.refs| ==> m.refs[e.page] == RESERVED)
  }

  ghost predicate Typed(m: Memory)
    requires |m.tab| == |m.level| >= |m.refs|
  {
    && (forall n: nat, i: nat {:trigger EntryOk(m, m.level[n], m.tab[n][i])} ::
          n < |m.tab| && m.level[n] > 0 && i < |m.tab[n]| ==> EntryOk(m, m.level[n], m.tab[n][i]))
    && (forall p: nat {:trigger m.level[p]} :: p < |m.refs| && m.level[p] > 0 ==> Counted(m, p) && m.refs[p] >= 1)
  }

  /** `PAGE_REFS` is exact: the count of a frame is the number of entries that own it in the
      tables and roots in use, plus `held`: the references the kernel itself holds (its own
      frames, and a frame between its allocation and its installation). */
  ghost predicate Exact(m: Memory, held: seq<nat>)
    requires |m.tab| == |m.level|
  {
    && |held| == |m.refs|
    && forall p: nat {:trigger Owners(m, p)} :: Counted(m, p) ==> m.refs[p] == held[p] + Owners(m, p)
  }

  /** `held` plus the reference that comes with entry `e`. */
  function Hold(held: seq<nat>, e: Entry): seq<nat> {
    if Owns(e) && e.page < |held| then held[e.page := held[e.page] + 1] else held
  }

  /** A hardware-writable entry above the leaves is the only reference to its table; under
      PAE, where the processor ignores the write bit of a root entry, so is every root entry. */
  predicate PrivateOk(m: Memory, n: nat, e: Entry)
    requires n < |m.level|
  {
    && (Owns(e) && m.level[n] >= 2 && e.hw ==> e.page < |m.refs| && m.refs[e.page] == 1)
    && (Owns(e) && m.pae && n >= |m.refs| ==> e.page == m.zero || (e.page < |m.refs| && m.refs[e.page] == 1))
  }

  ghost predicate TablesPrivate(m: Memory)
    requires |m.tab| == |m.level|
  {
    forall n: nat, i: nat {:trigger PrivateOk(m, n, m.tab[n][i])} ::
      n < |m.tab| && m.level[n] > 0 && i < |m.tab[n]| ==> PrivateOk(m, n, m.tab[n][i])
  }

  /** Frame accounting: everything that holds in every run, whatever the operations. */
  ghost predicate Accounted(m: Memory, held: seq<nat>) {
    && Shape(m) && ZeroOk(m) && Typed(m) && Exact(m, held) && TablesPrivate(m)
  }

  /** Space `s` reaches node `t` as a last-level table. */
  ghost predicate Reaches(m: Memory, s: nat, t: nat)
    requires m.depth >= 1
  {
    s < m.Spaces() && exists q :: m.Path(q) && m.Walk(s, q, m.depth - 1) == Some(t)
  }

  /** Slot `i` of last-level table `t` is hardware-writable and maps the frame that slot `j` of `u` maps. */
  predicate SharesWritable(m: Memory, t: nat, i: nat, u: nat, j: nat)
    requires |m.tab| == |m.level|
  {
    && t < |m.tab| && m.level[t] == 1 && i < |m.tab[t]| && Owns(m.tab[t][i]) && m.tab[t][i].hw
    && u < |m.tab| && m.level[u] == 1 && j < |m.tab[u]| && Owns(m.tab[u][j])
    && m.tab[t][i].page == m.tab[u][j].page
  }

  /** Whoever maps a frame that table `t` maps hardware-writable can also reach `t`. Together
      with `TablesPrivate` this keeps a frame that can be written without a fault inside one
      space, even when that space maps it twice. */
  ghost predicate LeavesPrivate(m: Memory)
    requires |m.tab| == |m.level| && m.depth >= 1
  {
    forall t: nat, i: nat, u: nat, j: nat, s: nat {:trigger SharesWritable(m, t, i, u, j), Reaches(m, s, u)} ::
      SharesWritable(m, t, i, u, j) && Reaches(m, s, u) ==> Reaches(m, s, t)
  }

  ghost predicate Isolated(m: Memory, held: seq<nat>) {
    Accounted(m, held) && LeavesPrivate(m)
  }

  /** A step from `m` to `m'` keeps the accounts, and the isolation of the spaces if there was any. */
  ghost predicate Kept(m: Memory, m': Memory, held: seq<nat>)
    requires |m.tab| == |m.level| && m.depth >= 1
  {
    Accounted(m', held) && (LeavesPrivate(m) ==> LeavesPrivate(m'))
  }
}
