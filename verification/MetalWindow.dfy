/** The recursive window: all entries of the current space as one array, in which going up a
    level is one division. */
module MetalWindow {
  const BASE: nat := 0xC0000
  const NUM_PAGES: nat := 0x100000

  datatype Mode = Legacy | Pae | Compat
  {
    function Epp(): nat { if Legacy? then 1024 else 512 }
    function Levels(): nat { match this case Legacy => 2 case Pae => 3 case Compat => 4 }
    /** Levels of the user tree that the window reaches. */
    function Depth(): nat { if Legacy? then 2 else 3 }
    function Fixed(): nat { if Legacy? then 0xC0300 else 0xC0603 }
  }

  /** `parent_index` */
  function Parent(mode: Mode, idx: nat): nat {
    BASE + idx / mode.Epp()
  }

  function Climb(mode: Mode, idx: nat, k: nat): nat {
    if k == 0 then idx else Parent(mode, Climb(mode, idx, k - 1))
  }

  /** `recursive_idx`: the loop stops at the fixed point of `Parent`, and there is only one. */
  method RecursiveIndex(mode: Mode) returns (idx: nat)
    ensures idx == mode.Fixed() && Parent(mode, idx) == idx
    ensures forall other: nat :: Parent(mode, other) == other ==> other == idx
  {
    var epp := mode.Epp();
    idx := BASE;
    var i := 1;
    while i < mode.Levels()
      invariant 1 <= i <= mode.Levels()
      invariant idx == Climb(mode, BASE, i - 1)
      invariant i == mode.Levels() ==> idx == mode.Fixed()
    {
      idx := BASE + idx / epp;
      i := i + 1;
      Climbs(mode, BASE);
    }
  }

  lemma Climbs(mode: Mode, idx: nat)
    ensures Climb(mode, idx, 0) == idx && Climb(mode, idx, 1) == Parent(mode, idx)
    ensures Climb(mode, idx, 2) == Parent(mode, Parent(mode, idx))
    ensures Climb(mode, idx, 3) == Parent(mode, Parent(mode, Parent(mode, idx)))
  {
    assert Climb(mode, idx, 1) == Parent(mode, Climb(mode, idx, 0));
    assert Climb(mode, idx, 2) == Parent(mode, Climb(mode, idx, 1));
    assert Climb(mode, idx, 3) == Parent(mode, Climb(mode, idx, 2));
  }

  /** The upward walk of a fault handler ends, in every mode and from every index of the window. */
  lemma UpwardWalkEnds(mode: Mode, idx: nat)
    requires idx < NUM_PAGES
    ensures Climb(mode, idx, mode.Depth()) == mode.Fixed() && Parent(mode, mode.Fixed()) == mode.Fixed()
  {
    Climbs(mode, idx);
    if mode.Legacy? { assert BASE <= Parent(mode, idx) < BASE + 1024; }
    else { assert BASE <= Parent(mode, idx) < BASE + 2048; }
  }

  /** The window index of the entry that the `k`-th step of path `q` takes. */
  function EntryIndex(mode: Mode, q: seq<nat>, k: nat): nat
    requires 0 < k <= mode.Depth() == |q|
  {
    match mode
    case Legacy => if k == 1 then BASE + q[0] else q[0] * 1024 + q[1]
    case _ => if k == 1 then 0xC0600 + q[0] else if k == 2 then BASE + q[0] * 512 + q[1]
      else (q[0] * 512 + q[1]) * 512 + q[2]
  }

  predicate UserPath(mode: Mode, q: seq<nat>) {
    && |q| == mode.Depth()
    && q[0] < mode.Fixed() - (mode.Fixed() - BASE) * mode.Epp()
    && forall k :: 0 < k < |q| ==> q[k] < mode.Epp()
  }

  /** Climbing from a page's own entry visits the entries of its path, innermost first, and
      no other user entry. */
  lemma ClimbFollowsPath(mode: Mode, q: seq<nat>, k: nat)
    requires UserPath(mode, q) && k < mode.Depth()
    ensures EntryIndex(mode, q, mode.Depth()) < BASE
    ensures Climb(mode, EntryIndex(mode, q, mode.Depth()), k) == EntryIndex(mode, q, mode.Depth() - k) < mode.Fixed()
    ensures Climb(mode, EntryIndex(mode, q, mode.Depth()), mode.Depth()) == mode.Fixed()
  {
    var leaf := EntryIndex(mode, q, mode.Depth());
    Climbs(mode, leaf);
    UpwardWalkEnds(mode, leaf);
  }

  lemma LeafIndexInjective(mode: Mode, q: seq<nat>, q': seq<nat>)
    requires UserPath(mode, q) && UserPath(mode, q')
    requires EntryIndex(mode, q, mode.Depth()) == EntryIndex(mode, q', mode.Depth())
    ensures q == q'
  {
  }

  lemma ChildrenAre(mode: Mode, q: seq<nat>, k: nat)
    requires UserPath(mode, q) && 0 < k < mode.Depth()
    ensures EntryIndex(mode, q, k) >= BASE
    ensures EntryIndex(mode, q, k + 1) == (EntryIndex(mode, q, k) - BASE) * mode.Epp() + q[k]
  {
  }

  /** The window is the tree: a page's entry is found under its own number only, the handler's climb
      from it meets exactly the entries above it and then stands still, and the children that
      `cow_entry` and `free_subtree` compute for an entry are the entries one step further. */
  lemma WindowIsTheTree(mode: Mode, q: seq<nat>, q': seq<nat>, k: nat)
    requires UserPath(mode, q) && UserPath(mode, q') && 0 < k < mode.Depth()
    ensures EntryIndex(mode, q, mode.Depth()) == EntryIndex(mode, q', mode.Depth()) <==> q == q'
    ensures Climb(mode, EntryIndex(mode, q, mode.Depth()), mode.Depth() - k) == EntryIndex(mode, q, k)
    ensures Climb(mode, EntryIndex(mode, q, mode.Depth()), mode.Depth()) == mode.Fixed() == Parent(mode, mode.Fixed())
    ensures EntryIndex(mode, q, k + 1) == (EntryIndex(mode, q, k) - BASE) * mode.Epp() + q[k]
  {
    if EntryIndex(mode, q, mode.Depth()) == EntryIndex(mode, q', mode.Depth()) { LeafIndexInjective(mode, q, q'); }
    ClimbFollowsPath(mode, q, mode.Depth() - k);
    ChildrenAre(mode, q, k);
    UpwardWalkEnds(mode, EntryIndex(mode, q, mode.Depth()));
  }
}
