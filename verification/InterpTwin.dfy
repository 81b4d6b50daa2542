/** The four-level twin of a two-level tree: built page by page, it translates every 32-bit
    address as the original does. */
module InterpTwin {
  import opened Outcomes
  import opened InterpPhys
  import opened InterpMemory
  import opened InterpOps
  import opened InterpBooks
  import opened InterpSteady

  const SLOTS64: nat := 512
  const PD_REACH: nat := 0x40000

  /** The four-level walk of page `v`; the top index of a 32-bit address is 0. */
  function Leaf64(g: Guest, top: nat, v: nat): Pte {
    var d0 := g.At(top, 0);
    if !d0.present then NONE
    else
      var d1 := g.At(d0.frame, v / PD_REACH);
      if !d1.present then NONE
      else
        var d2 := g.At(d1.frame, v / SLOTS64 % SLOTS64);
        if !d2.present then NONE else g.At(d2.frame, v % SLOTS64)
  }

  function Translate64(g: Guest, top: nat, v: nat): Option<nat> {
    if Leaf64(g, top, v).present then Some(Leaf64(g, top, v).frame) else None
  }

  /** `translate`, in pages. */
  function Translate(g: Guest, s: nat, v: nat): Option<nat> {
    if g.PteAt(s, v).present then Some(g.PteAt(s, v).frame) else None
  }

  // ---- The builder ----

  /** `write_entry64`: no generation is moved. */
  function Write64(g: Guest, f: nat, i: nat, e: Pte): Guest
    requires f < |g.tab| && i < |g.tab[f]|
  {
    g.(tab := g.tab[f := g.tab[f][i := e]])
  }

  /** The table behind slot `i` of table `f`, made if missing; the new frames are reported.
      (The bounds test never fails.) */
  function Slot64(g: Guest, f: nat, i: nat, k: Kind): (r: Halting<(Guest, nat, seq<nat>)>)
    requires Framed(g)
    ensures r.Ok? ==> Framed(r.value.0) && r.value.0.dirs == g.dirs
  {
    if g.At(f, i).present then Ok((g, g.At(f, i).frame, []))
    else
      var a :- AllocTable(g, k, SLOTS64);
      if f < FRAMES && i < |a.0.tab[f]| then Ok((Write64(a.0, f, i, Mapping(a.1, true)), a.1, [a.1])) else Panic
  }

  function Put64(g: Guest, s: nat, pdpt: nat, v: nat, e: Pte): (r: Halting<(Guest, seq<nat>)>)
    requires Framed(g)
    ensures r.Ok? ==> Framed(r.value.0) && r.value.0.dirs == g.dirs
  {
    var a :- Slot64(g, pdpt, v / PD_REACH, Pd64(s, v / PD_REACH));
    var b :- Slot64(a.0, a.1, v / SLOTS64 % SLOTS64, Pt64(s, v / SLOTS64));
    if b.1 < FRAMES && v % SLOTS64 < |b.0.tab[b.1]| then Ok((Write64(b.0, b.1, v % SLOTS64, e), a.2 + b.2)) else Panic
  }

  /** The loop of `build_long_twin` over the first `k` pages: every non-zero entry is mirrored. */
  function MirrorPages(g: Guest, s: nat, pdpt: nat, k: nat): (r: Halting<(Guest, seq<nat>)>)
    requires Framed(g)
    ensures r.Ok? ==> Framed(r.value.0) && r.value.0.dirs == g.dirs
  {
    if k == 0 then Ok((g, []))
    else
      var a :- MirrorPages(g, s, pdpt, k - 1);
      var e := a.0.PteAt(s, k - 1);
      if e == NONE then Ok(a)
      else
        var b :- Put64(a.0, s, pdpt, k - 1, e);
        Ok((b.0, a.1 + b.1))
  }

  datatype Twin = Twin(pml4: nat, frames: seq<nat>, builtAt: nat)

  /** `build_long_twin` */
  function BuildTwin(g: Guest, s: nat): (r: Halting<(Guest, Twin)>)
    requires Framed(g)
    ensures r.Ok? ==> Framed(r.value.0) && r.value.0.dirs == g.dirs
  {
    var a :- AllocTable(g, Pml4(s), SLOTS64);
    var b :- AllocTable(a.0, Pdpt(s), SLOTS64);
    if a.1 >= FRAMES || |b.0.tab[a.1]| == 0 then Panic
    else
      var c :- MirrorPages(Write64(b.0, a.1, 0, Mapping(b.1, true)), s, b.1, ALL_PAGES);
      Ok((c.0, Twin(a.1, [a.1, b.1] + c.1, g.gen)))
  }

  // ---- Changes that leave the two-level tables alone ----

  /** Only unused frames and the twin of space `s` change. */
  ghost predicate Aside(g: Guest, g': Guest, s: nat) {
    && Framed(g) && Framed(g') && g'.dirs == g.dirs && g'.windows == g.windows && g'.gen == g.gen && g'.bytes == g.bytes
    && g'.pool.shared == g.pool.shared
    && forall f: nat {:trigger g'.kind[f]} {:trigger g'.tab[f]} :: f < FRAMES ==>
         if g.kind[f].Unused? then g'.kind[f].Unused? || (IsTwin(g'.kind[f]) && g'.kind[f].s == s)
         else g'.kind[f] == g.kind[f] && (g'.tab[f] == g.tab[f] || (IsTwin(g.kind[f]) && g.kind[f].s == s))
  }

  lemma AsideTrans(g: Guest, g1: Guest, g': Guest, s: nat)
    requires Aside(g, g1, s) && Aside(g1, g', s)
    ensures Aside(g, g', s)
  {
    forall f: nat | f < FRAMES
      ensures if g.kind[f].Unused? then g'.kind[f].Unused? || (IsTwin(g'.kind[f]) && g'.kind[f].s == s)
              else g'.kind[f] == g.kind[f] && (g'.tab[f] == g.tab[f] || (IsTwin(g.kind[f]) && g.kind[f].s == s))
    {
      assert g.kind[f].Unused? || g1.kind[f] == g.kind[f];
    }
  }

  lemma AsideTrees(g: Guest, g': Guest, s: nat)
    requires Wooded(g) && Sized(g') && Aside(g, g', s)
    ensures Trees(g') && SameLeaves(g, g')
  {
    forall t: nat | t < |g.dirs|
      ensures g'.dirs[t] < FRAMES && g'.kind[g'.dirs[t]] == Dir(t) && g'.tab[g'.dirs[t]] == g.tab[g.dirs[t]]
    {
      assert g.kind[g.dirs[t]] == Dir(t);
    }
    forall t: nat, i: nat | t < |g.dirs| && i < SLOTS ensures g'.PdeAt(t, i) == g.PdeAt(t, i) {
      assert g'.tab[g'.dirs[t]] == g.tab[g.dirs[t]];
    }
    forall t: nat, i: nat | t < |g.dirs| && i < SLOTS && g'.PdeAt(t, i).present
      ensures g'.PdeAt(t, i).frame < FRAMES && g'.kind[g'.PdeAt(t, i).frame] == Table(t, i)
      ensures g'.tab[g'.PdeAt(t, i).frame] == g.tab[g.PdeAt(t, i).frame] && |g'.tab[g'.PdeAt(t, i).frame]| == SLOTS
    {
      assert g'.PdeAt(t, i) == g.PdeAt(t, i) && g.kind[g.PdeAt(t, i).frame] == Table(t, i);
    }
    forall t: nat, v: nat | t < |g.dirs| && v < ALL_PAGES ensures g'.PteAt(t, v) == g.PteAt(t, v) {
      assert g'.PdeAt(t, v / SLOTS) == g.PdeAt(t, v / SLOTS);
    }
  }

  lemma AsideBooks(g: Guest, held: map<nat, nat>, g': Guest, s: nat)
    requires Books(g, held) && Sized(g') && Pooled(g') && Aside(g, g', s)
    ensures Books(g', held) && SameLeaves(g, g')
  {
    hide Trees, Pooled, Leaves, Counted;
    AsideTrees(g, g', s);
    SameLeavesBooks(g, held, g');
  }

  lemma TwinFrameAside(g: Guest, k: Kind)
    requires Sized(g) && Pooled(g) && IsTwin(k) && AllocTable(g, k, SLOTS64).Ok?
    ensures var (g', f) := AllocTable(g, k, SLOTS64).value;
      && 0 < f < FRAMES && g.kind[f].Unused? && g'.kind == g.kind[f := k] && g'.tab == g.tab[f := Blanks(SLOTS64)]
      && Sized(g') && Pooled(g') && Aside(g, g', k.s)
  {
    AllocExact(g, k);
  }

  lemma Write64Aside(g: Guest, f: nat, i: nat, e: Pte)
    requires Sized(g) && Pooled(g) && f < FRAMES && i < |g.tab[f]| && IsTwin(g.kind[f])
    ensures var g' := Write64(g, f, i, e); Sized(g') && Pooled(g') && Aside(g, g', g.kind[f].s)
  {
  }

  // ---- The tree ----

  ghost predicate Tree64(g: Guest, s: nat, top: nat, pdpt: nat) {
    && Framed(g) && top < FRAMES && g.kind[top] == Pml4(s) && |g.tab[top]| == SLOTS64
    && g.At(top, 0) == Mapping(pdpt, true)
    && pdpt < FRAMES && g.kind[pdpt] == Pdpt(s) && |g.tab[pdpt]| == SLOTS64
    && (forall i: nat {:trigger g.At(pdpt, i)} :: i < SLOTS64 && g.At(pdpt, i).present ==>
          g.At(pdpt, i).frame < FRAMES && g.kind[g.At(pdpt, i).frame] == Pd64(s, i) &&
            |g.tab[g.At(pdpt, i).frame]| == SLOTS64)
    && (forall i: nat, j: nat {:trigger g.At(g.At(pdpt, i).frame, j)} ::
          i < SLOTS64 && j < SLOTS64 && g.At(pdpt, i).present && g.At(g.At(pdpt, i).frame, j).present ==>
            var f := g.At(g.At(pdpt, i).frame, j).frame;
            f < FRAMES && g.kind[f] == Pt64(s, i * SLOTS64 + j) && |g.tab[f]| == SLOTS64)
  }

  /** The second-level slot of a page. */
  lemma Indices(v: nat)
    requires v < ALL_PAGES
    ensures v / PD_REACH < SLOTS64 && v / SLOTS64 / SLOTS64 == v / PD_REACH
    ensures v / PD_REACH * SLOTS64 + v / SLOTS64 % SLOTS64 == v / SLOTS64
  {
  }

  lemma EnsurePd(g: Guest, s: nat, top: nat, pdpt: nat, i: nat, r: (Guest, nat, seq<nat>))
    requires Sized(g) && Pooled(g) && Tree64(g, s, top, pdpt) && i < SLOTS64 && Slot64(g, pdpt, i, Pd64(s, i)) == Ok(r)
    ensures Sized(r.0) && Pooled(r.0) && Aside(g, r.0, s) && Tree64(r.0, s, top, pdpt)
    ensures r.0.At(pdpt, i).present && r.0.At(pdpt, i).frame == r.1
    ensures forall v: nat {:trigger Leaf64(r.0, top, v)} :: v < ALL_PAGES ==> Leaf64(r.0, top, v) == Leaf64(g, top, v)
    ensures Added(g, r.0, s, r.2)
  {
    if !g.At(pdpt, i).present {
      var k := Pd64(s, i);
      TwinFrameAside(g, k);
      var a := AllocTable(g, k, SLOTS64).value;
      Write64Aside(a.0, pdpt, i, Mapping(a.1, true));
      AsideTrans(g, a.0, r.0, s);
      forall j: nat | j < SLOTS64 ensures r.0.At(pdpt, j) == if j == i then Mapping(a.1, true) else g.At(pdpt, j) { }
      forall j: nat | j < SLOTS64 && j != i && g.At(pdpt, j).present
        ensures r.0.tab[g.At(pdpt, j).frame] == g.tab[g.At(pdpt, j).frame]
      {
        assert g.kind[g.At(pdpt, j).frame] == Pd64(s, j);
      }
      EnsurePdTree(g, s, top, pdpt, i, a.1, r.0);
    }
  }

  lemma EnsurePdTree(g: Guest, s: nat, top: nat, pdpt: nat, i: nat, n: nat, g': Guest)
    requires Tree64(g, s, top, pdpt) && Framed(g') && i < SLOTS64 && !g.At(pdpt, i).present && n < FRAMES
    requires g.kind[n].Unused?
    requires g'.kind == g.kind[n := Pd64(s, i)]
    requires g'.tab == g.tab[n := Blanks(SLOTS64)][pdpt := g.tab[pdpt][i := Mapping(n, true)]]
    ensures Tree64(g', s, top, pdpt)
    ensures forall v: nat {:trigger Leaf64(g', top, v)} :: v < ALL_PAGES ==> Leaf64(g', top, v) == Leaf64(g, top, v)
  {
    forall j: nat | j < SLOTS64 ensures g'.At(pdpt, j) == if j == i then Mapping(n, true) else g.At(pdpt, j) { }
    forall j: nat, l: nat | j < SLOTS64 && l < SLOTS64 && g'.At(pdpt, j).present
      ensures g'.At(g'.At(pdpt, j).frame, l) == if j == i then NONE else g.At(g.At(pdpt, j).frame, l)
    {
      if j != i { assert g.kind[g.At(pdpt, j).frame] == Pd64(s, j); }
    }
    forall j: nat, l: nat |
      j < SLOTS64 && l < SLOTS64 && g'.At(pdpt, j).present && g'.At(g'.At(pdpt, j).frame, l).present
      ensures var f := g'.At(g'.At(pdpt, j).frame, l).frame;
        f < FRAMES && g'.kind[f] == Pt64(s, j * SLOTS64 + l) && g'.tab[f] == g.tab[f]
    {
      var f := g.At(g.At(pdpt, j).frame, l).frame;
      assert g.kind[f] == Pt64(s, j * SLOTS64 + l);
    }
    forall v: nat | v < ALL_PAGES ensures Leaf64(g', top, v) == Leaf64(g, top, v) {
      Indices(v);
      var j, l := v / PD_REACH, v / SLOTS64 % SLOTS64;
      assert g'.At(pdpt, j) == if j == i then Mapping(n, true) else g.At(pdpt, j);
      if g'.At(pdpt, j).present {
        assert g'.At(g'.At(pdpt, j).frame, l) == if j == i then NONE else g.At(g.At(pdpt, j).frame, l);
      }
    }
  }

  lemma EnsurePtTree(g: Guest, s: nat, top: nat, pdpt: nat, i: nat, j: nat, n: nat, g': Guest)
    requires Tree64(g, s, top, pdpt) && Framed(g') && i < SLOTS64 && j < SLOTS64 && g.At(pdpt, i).present && n < FRAMES
    requires g.kind[n].Unused?
    requires !g.At(g.At(pdpt, i).frame, j).present && g'.kind == g.kind[n := Pt64(s, i * SLOTS64 + j)]
    requires var d := g.At(pdpt, i).frame;
      d < FRAMES && g'.tab == g.tab[n := Blanks(SLOTS64)][d := g.tab[d][j := Mapping(n, true)]]
    ensures Tree64(g', s, top, pdpt) && g'.At(pdpt, i) == g.At(pdpt, i)
    ensures forall v: nat {:trigger Leaf64(g', top, v)} :: v < ALL_PAGES ==> Leaf64(g', top, v) == Leaf64(g, top, v)
  {
    var d := g.At(pdpt, i).frame;
    assert g.kind[d] == Pd64(s, i);
    forall a: nat | a < SLOTS64 ensures g'.At(pdpt, a) == g.At(pdpt, a) { }
    forall a: nat, b: nat | a < SLOTS64 && b < SLOTS64 && g.At(pdpt, a).present
      ensures g'.At(g.At(pdpt, a).frame, b) == if a == i && b == j then Mapping(n, true)
        else g.At(g.At(pdpt, a).frame, b)
    {
      assert g.kind[g.At(pdpt, a).frame] == Pd64(s, a);
    }
    forall a: nat, b: nat | a < SLOTS64 && b < SLOTS64 && g.At(pdpt, a).present && g.At(g.At(pdpt, a).frame, b).present
      ensures var f := g.At(g.At(pdpt, a).frame, b).frame;
        f < FRAMES && g'.kind[f] == Pt64(s, a * SLOTS64 + b) && g'.tab[f] == g.tab[f]
    {
      assert g.kind[g.At(g.At(pdpt, a).frame, b).frame] == Pt64(s, a * SLOTS64 + b);
    }
    forall v: nat | v < ALL_PAGES ensures Leaf64(g', top, v) == Leaf64(g, top, v) {
      Indices(v);
      var a, b := v / PD_REACH, v / SLOTS64 % SLOTS64;
      assert g'.At(pdpt, a) == g.At(pdpt, a);
      if g.At(pdpt, a).present {
        assert g'.At(g.At(pdpt, a).frame, b) == if a == i && b == j then Mapping(n, true)
          else g.At(g.At(pdpt, a).frame, b);
      }
    }
  }

  lemma EnsurePt(g: Guest, s: nat, top: nat, pdpt: nat, i: nat, j: nat, r: (Guest, nat, seq<nat>))
    requires Sized(g) && Pooled(g) && Tree64(g, s, top, pdpt) && i < SLOTS64 && j < SLOTS64 && g.At(pdpt, i).present
    requires Slot64(g, g.At(pdpt, i).frame, j, Pt64(s, i * SLOTS64 + j)) == Ok(r)
    ensures Sized(r.0) && Pooled(r.0) && Aside(g, r.0, s) && Tree64(r.0, s, top, pdpt)
    ensures r.0.At(pdpt, i) == g.At(pdpt, i)
    ensures r.0.At(g.At(pdpt, i).frame, j).present && r.0.At(g.At(pdpt, i).frame, j).frame == r.1
    ensures forall v: nat {:trigger Leaf64(r.0, top, v)} :: v < ALL_PAGES ==> Leaf64(r.0, top, v) == Leaf64(g, top, v)
    ensures Added(g, r.0, s, r.2)
  {
    var d := g.At(pdpt, i).frame;
    assert g.kind[d] == Pd64(s, i);
    if !g.At(d, j).present {
      var k := Pt64(s, i * SLOTS64 + j);
      TwinFrameAside(g, k);
      var a := AllocTable(g, k, SLOTS64).value;
      Write64Aside(a.0, d, j, Mapping(a.1, true));
      AsideTrans(g, a.0, r.0, s);
      EnsurePtTree(g, s, top, pdpt, i, j, a.1, r.0);
    }
  }

  /** Writing a leaf entry changes the translation of that page only. */
  lemma WriteLeaf(g: Guest, s: nat, top: nat, pdpt: nat, v: nat, f: nat, e: Pte)
    requires Sized(g) && Pooled(g) && Tree64(g, s, top, pdpt) && v < ALL_PAGES
    requires v / PD_REACH < SLOTS64 && g.At(pdpt, v / PD_REACH).present
    requires var d := g.At(g.At(pdpt, v / PD_REACH).frame, v / SLOTS64 % SLOTS64); d.present && d.frame == f
    ensures f < FRAMES && v % SLOTS64 < |g.tab[f]|
    ensures var g' := Write64(g, f, v % SLOTS64, e);
      && Sized(g') && Pooled(g') && Aside(g, g', s) && Tree64(g', s, top, pdpt)
      && forall v': nat {:trigger Leaf64(g', top, v')} :: v' < ALL_PAGES ==>
           Leaf64(g', top, v') == if v' == v then e else Leaf64(g, top, v')
  {
    Indices(v);
    var i, j := v / PD_REACH, v / SLOTS64 % SLOTS64;
    assert g.kind[f] == Pt64(s, i * SLOTS64 + j);
    Write64Aside(g, f, v % SLOTS64, e);
    var g' := Write64(g, f, v % SLOTS64, e);
    forall a: nat | a < SLOTS64 ensures g'.At(pdpt, a) == g.At(pdpt, a) { }
    forall a: nat, b: nat | a < SLOTS64 && b < SLOTS64 && g.At(pdpt, a).present
      ensures g'.At(g.At(pdpt, a).frame, b) == g.At(g.At(pdpt, a).frame, b)
    {
      assert g.kind[g.At(pdpt, a).frame] == Pd64(s, a);
    }
    forall v': nat | v' < ALL_PAGES ensures Leaf64(g', top, v') == if v' == v then e else Leaf64(g, top, v') {
      Indices(v');
      var a, b := v' / PD_REACH, v' / SLOTS64 % SLOTS64;
      if g.At(pdpt, a).present {
        assert g'.At(g.At(pdpt, a).frame, b) == g.At(g.At(pdpt, a).frame, b);
        if g.At(g.At(pdpt, a).frame, b).present {
          assert g.kind[g.At(g.At(pdpt, a).frame, b).frame] == Pt64(s, a * SLOTS64 + b);
        }
      }
    }
  }

  /** `added` are distinct frames that were unused in `g` and belong to the twin of `s` in `g'`. */
  ghost predicate Added(g: Guest, g': Guest, s: nat, added: seq<nat>) {
    && |g.kind| == |g'.kind| == FRAMES
    && (forall i :: 0 <= i < |added| ==>
         added[i] < FRAMES && g.kind[added[i]].Unused? && IsTwin(g'.kind[added[i]]) && g'.kind[added[i]].s == s)
    && (forall i, j :: 0 <= i < j < |added| ==> added[i] != added[j])
  }

  lemma AddedTrans(g: Guest, g1: Guest, g': Guest, s: nat, a: seq<nat>, b: seq<nat>)
    requires Aside(g, g1, s) && Aside(g1, g', s) && Added(g, g1, s, a) && Added(g1, g', s, b)
    ensures Added(g, g', s, a + b)
  {
    var c := a + b;
    forall i | 0 <= i < |c|
      ensures c[i] < FRAMES && g.kind[c[i]].Unused? && IsTwin(g'.kind[c[i]]) && g'.kind[c[i]].s == s
    {
      if i < |a| {
        assert c[i] == a[i] && g'.kind[a[i]] == g1.kind[a[i]];
      } else {
        assert c[i] == b[i - |a|] && g1.kind[c[i]].Unused?;
      }
    }
    forall i, j | 0 <= i < j < |c| ensures c[i] != c[j] {
      if i < |a| <= j { assert !g1.kind[a[i]].Unused? && g1.kind[b[j - |a|]].Unused?; }
    }
  }

  lemma Put64Step(g: Guest, s: nat, top: nat, pdpt: nat, v: nat, e: Pte, r: (Guest, seq<nat>))
    requires Sized(g) && Pooled(g) && Tree64(g, s, top, pdpt) && v < ALL_PAGES && Put64(g, s, pdpt, v, e) == Ok(r)
    ensures Sized(r.0) && Pooled(r.0) && Aside(g, r.0, s) && Tree64(r.0, s, top, pdpt) && Added(g, r.0, s, r.1)
    ensures forall v': nat {:trigger Leaf64(r.0, top, v')} :: v' < ALL_PAGES ==>
      Leaf64(r.0, top, v') == if v' == v then e else Leaf64(g, top, v')
  {
    hide Pooled, Slot64, Leaf64;
    Indices(v);
    var i, j := v / PD_REACH, v / SLOTS64 % SLOTS64;
    var a := Slot64(g, pdpt, i, Pd64(s, i)).value;
    EnsurePd(g, s, top, pdpt, i, a);
    var b := Slot64(a.0, a.1, j, Pt64(s, v / SLOTS64)).value;
    EnsurePt(a.0, s, top, pdpt, i, j, b);
    WriteLeaf(b.0, s, top, pdpt, v, b.1, e);
    AddedTrans(g, a.0, b.0, s, a.2, b.2);
    AsideTrans(g, a.0, b.0, s);
    AddedTrans(g, b.0, r.0, s, a.2 + b.2, []);
    AsideTrans(g, b.0, r.0, s);
    assert a.2 + b.2 + [] == a.2 + b.2;
    forall v': nat | v' < ALL_PAGES ensures Leaf64(r.0, top, v') == if v' == v then e else Leaf64(g, top, v') {
      assert Leaf64(b.0, top, v') == Leaf64(a.0, top, v') && Leaf64(a.0, top, v') == Leaf64(g, top, v');
    }
  }

  /** The first `k` pages are mirrored, the others not yet. */
  ghost predicate Mirrors(g: Guest, s: nat, top: nat, k: nat) {
    forall v: nat {:trigger Leaf64(g, top, v)} :: v < ALL_PAGES ==>
      Leaf64(g, top, v) == if v < k then g.PteAt(s, v) else NONE
  }

  lemma AsideMirrors(g: Guest, g': Guest, s: nat, top: nat, k: nat, e: Pte)
    requires s < |g.dirs| && SameLeaves(g, g') && k < ALL_PAGES && Mirrors(g, s, top, k) && e == g.PteAt(s, k)
    requires forall v: nat {:trigger Leaf64(g', top, v)} :: v < ALL_PAGES ==>
      Leaf64(g', top, v) == if v == k then e else Leaf64(g, top, v)
    ensures Mirrors(g', s, top, k + 1)
  {
    hide Leaf64;
    forall v: nat | v < ALL_PAGES ensures Leaf64(g', top, v) == if v < k + 1 then g'.PteAt(s, v) else NONE {
      assert g'.PteAt(s, v) == g.PteAt(s, v);
      assert Leaf64(g, top, v) == if v < k then g.PteAt(s, v) else NONE;
    }
  }

  lemma {:induction false} MirrorStep(g: Guest, held: map<nat, nat>, s: nat, top: nat, pdpt: nat, k: nat,
                                      r: (Guest, seq<nat>))
    requires Books(g, held) && s < |g.dirs| && Tree64(g, s, top, pdpt) && Mirrors(g, s, top, 0) && k <= ALL_PAGES
    requires MirrorPages(g, s, pdpt, k) == Ok(r)
    ensures Books(r.0, held) && Aside(g, r.0, s) && Tree64(r.0, s, top, pdpt) && Mirrors(r.0, s, top, k)
    ensures Added(g, r.0, s, r.1)
  {
    hide Trees, Pooled, Leaves, Counted, Put64, Tree64;
    if k > 0 {
      var a := MirrorPages(g, s, pdpt, k - 1).value;
      MirrorStep(g, held, s, top, pdpt, k - 1, a);
      var e := a.0.PteAt(s, k - 1);
      if e == NONE {
        MirrorsSkip(a.0, s, top, k - 1);
      } else {
        var b := Put64(a.0, s, pdpt, k - 1, e).value;
        Put64Step(a.0, s, top, pdpt, k - 1, e, b);
        AsideBooks(a.0, held, b.0, s);
        AsideMirrors(a.0, b.0, s, top, k - 1, e);
        AddedTrans(g, a.0, b.0, s, a.1, b.1);
        AsideTrans(g, a.0, b.0, s);
      }
    }
  }

  lemma MirrorsSkip(g: Guest, s: nat, top: nat, k: nat)
    requires Mirrors(g, s, top, k) && k < ALL_PAGES && g.PteAt(s, k) == NONE
    ensures Mirrors(g, s, top, k + 1)
  {
    hide Leaf64;
  }

  /** The twin of space `s` rooted at `top` translates every page as the space does. */
  ghost predicate Agrees(g: Guest, s: nat, top: nat) {
    (exists pdpt :: Tree64(g, s, top, pdpt)) && Mirrors(g, s, top, ALL_PAGES)
  }

  /** The two frames every twin begins with. */
  lemma TwinRoot(g: Guest, s: nat, a: (Guest, nat), b: (Guest, nat), g': Guest)
    requires Sized(g) && Pooled(g) && AllocTable(g, Pml4(s), SLOTS64) == Ok(a)
    requires AllocTable(a.0, Pdpt(s), SLOTS64) == Ok(b)
    requires a.1 < FRAMES && |b.0.tab[a.1]| != 0 && g' == Write64(b.0, a.1, 0, Mapping(b.1, true))
    ensures Sized(g') && Pooled(g') && Aside(g, g', s) && Tree64(g', s, a.1, b.1) && Mirrors(g', s, a.1, 0)
    ensures Added(g, g', s, [a.1, b.1])
  {
    hide AllocTable;
    TwinFrameAside(g, Pml4(s));
    TwinFrameAside(a.0, Pdpt(s));
    Write64Aside(b.0, a.1, 0, Mapping(b.1, true));
    AsideTrans(g, a.0, b.0, s);
    AsideTrans(g, b.0, g', s);
  }

  /** `build_long_twin` yields an agreeing tree, from frames nobody used. */
  lemma BuildTwinStep(g: Guest, held: map<nat, nat>, s: nat, r: (Guest, Twin))
    requires Books(g, held) && s < |g.dirs| && BuildTwin(g, s) == Ok(r)
    ensures Books(r.0, held) && Aside(g, r.0, s) && Agrees(r.0, s, r.1.pml4) && Added(g, r.0, s, r.1.frames)
    ensures r.1.builtAt == g.gen
  {
    hide Trees, Pooled, Leaves, Counted, MirrorPages, AllocTable, Tree64, Mirrors;
    var a := AllocTable(g, Pml4(s), SLOTS64).value;
    var b := AllocTable(a.0, Pdpt(s), SLOTS64).value;
    var g1 := Write64(b.0, a.1, 0, Mapping(b.1, true));
    TwinRoot(g, s, a, b, g1);
    AsideBooks(g, held, g1, s);
    var c := MirrorPages(g1, s, b.1, ALL_PAGES).value;
    MirrorStep(g1, held, s, a.1, b.1, ALL_PAGES, c);
    AsideTrans(g, g1, c.0, s);
    AddedTrans(g, g1, c.0, s, [a.1, b.1], c.1);
  }

  /** An agreeing tree translates alike, and present entries are alike bit for bit. */
  lemma AgreesTranslates(g: Guest, s: nat, top: nat, v: nat)
    requires Agrees(g, s, top) && v < ALL_PAGES
    ensures Translate64(g, top, v) == Translate(g, s, v) && Leaf64(g, top, v) == g.PteAt(s, v)
  {
    assert Leaf64(g, top, v) == g.PteAt(s, v);
  }

  /** Whatever leaves the tables of a twin and the leaves of its space alone keeps the agreement. */
  lemma AgreesKept(g: Guest, g': Guest, s: nat, top: nat)
    requires Agrees(g, s, top) && Framed(g') && s < |g.dirs|
    requires forall f: nat {:trigger g'.tab[f]} {:trigger g'.kind[f]} ::
      f < FRAMES && IsTwin(g.kind[f]) && g.kind[f].s == s ==> g'.tab[f] == g.tab[f] && g'.kind[f] == g.kind[f]
    requires forall v: nat {:trigger g'.PteAt(s, v)} :: v < ALL_PAGES ==> g'.PteAt(s, v) == g.PteAt(s, v)
    ensures Agrees(g', s, top)
  {
    var pdpt :| Tree64(g, s, top, pdpt);
    KeptTree(g, g', s, top, pdpt);
    forall v: nat | v < ALL_PAGES ensures Leaf64(g', top, v) == g'.PteAt(s, v) {
      assert Leaf64(g', top, v) == Leaf64(g, top, v) && Leaf64(g, top, v) == g.PteAt(s, v);
      assert g'.PteAt(s, v) == g.PteAt(s, v);
    }
  }

  lemma KeptTree(g: Guest, g': Guest, s: nat, top: nat, pdpt: nat)
    requires Tree64(g, s, top, pdpt) && Framed(g')
    requires forall f: nat {:trigger g'.tab[f]} {:trigger g'.kind[f]} ::
      f < FRAMES && IsTwin(g.kind[f]) && g.kind[f].s == s ==> g'.tab[f] == g.tab[f] && g'.kind[f] == g.kind[f]
    ensures Tree64(g', s, top, pdpt)
    ensures forall v: nat {:trigger Leaf64(g', top, v)} :: v < ALL_PAGES ==> Leaf64(g', top, v) == Leaf64(g, top, v)
  {
    forall a: nat | a < SLOTS64 ensures g'.At(pdpt, a) == g.At(pdpt, a) { }
    forall a: nat, b: nat | a < SLOTS64 && b < SLOTS64 && g.At(pdpt, a).present
      ensures g'.At(g.At(pdpt, a).frame, b) == g.At(g.At(pdpt, a).frame, b)
    {
      assert g.kind[g.At(pdpt, a).frame] == Pd64(s, a);
    }
    forall v: nat | v < ALL_PAGES ensures Leaf64(g', top, v) == Leaf64(g, top, v) {
      Indices(v);
      var a, b := v / PD_REACH, v / SLOTS64 % SLOTS64;
      if g.At(pdpt, a).present {
        assert g'.At(g.At(pdpt, a).frame, b) == g.At(g.At(pdpt, a).frame, b);
        if g.At(g.At(pdpt, a).frame, b).present {
          assert g.kind[g.At(g.At(pdpt, a).frame, b).frame] == Pt64(s, a * SLOTS64 + b);
        }
      }
    }
  }

  // ---- Giving a twin back ----

  function FreeAll(g: Guest, frames: seq<nat>, k: nat): (r: Guest)
    requires Framed(g) && k <= |frames|
    ensures Framed(r) && r.dirs == g.dirs && r.windows == g.windows && r.tab == g.tab && r.gen == g.gen
  {
    if k == 0 then g else Release(FreeAll(g, frames, k - 1), frames[k - 1])
  }

  /** The frames are those of a twin of `s`, each once. */
  ghost predicate TwinFrames(g: Guest, s: nat, frames: seq<nat>) {
    && |g.kind| == FRAMES
    && (forall i :: 0 <= i < |frames| ==> frames[i] < FRAMES && IsTwin(g.kind[frames[i]]) && g.kind[frames[i]].s == s)
    && (forall i, j :: 0 <= i < j < |frames| ==> frames[i] != frames[j])
  }

  lemma FreeTwinFrame(g: Guest, held: map<nat, nat>, f: nat)
    requires Books(g, held) && f < FRAMES && IsTwin(g.kind[f])
    ensures Books(Release(g, f), held) && Release(g, f).kind == g.kind[f := Unused] && SameLeaves(g, Release(g, f))
  {
    var g' := Release(g, f);
    DropExact(g.pool, f);
    FreeTwinTrees(g, f);
    forall h: nat | h < FRAMES && g'.kind[h].Data? ensures Refs(g'.pool, h) == Mapped(g', h) + Held(held, h) {
      MapsSame(g, g', h, |g.dirs|);
      assert Refs(g.pool, h) == Mapped(g, h) + Held(held, h);
    }
    forall s: nat, v: nat | s < |g'.dirs| && v < USER_PAGES && g'.PteAt(s, v).present
      ensures g'.PteAt(s, v).frame < FRAMES && g'.kind[g'.PteAt(s, v).frame].Data?
    {
      assert g'.PteAt(s, v) == g.PteAt(s, v);
    }
  }

  lemma FreeTwinTrees(g: Guest, f: nat)
    requires Wooded(g) && Pooled(g) && f < FRAMES && IsTwin(g.kind[f])
    ensures LastRef(g.pool, f) && Sized(Release(g, f)) && Trees(Release(g, f)) && SameLeaves(g, Release(g, f))
  {
    var g' := Release(g, f);
    forall t: nat | t < |g.dirs|
      ensures g'.dirs[t] < FRAMES && g'.kind[g'.dirs[t]] == Dir(t)
    {
      assert g.kind[g.dirs[t]] == Dir(t);
    }
    forall t: nat, i: nat | t < |g.dirs| && i < SLOTS && g'.PdeAt(t, i).present
      ensures g'.PdeAt(t, i).frame < FRAMES && g'.kind[g'.PdeAt(t, i).frame] == Table(t, i)
      ensures |g'.tab[g'.PdeAt(t, i).frame]| == SLOTS
    {
      assert g'.PdeAt(t, i) == g.PdeAt(t, i) && g.kind[g.PdeAt(t, i).frame] == Table(t, i);
    }
  }

  lemma {:induction false} FreeAllStep(g: Guest, held: map<nat, nat>, s: nat, frames: seq<nat>, k: nat)
    requires Books(g, held) && TwinFrames(g, s, frames) && k <= |frames|
    ensures Books(FreeAll(g, frames, k), held) && SameLeaves(g, FreeAll(g, frames, k))
    ensures forall f: nat {:trigger FreeAll(g, frames, k).kind[f]} :: f < FRAMES ==>
      FreeAll(g, frames, k).kind[f] == if f in frames[..k] then Unused else g.kind[f]
  {
    hide Trees, Pooled, Leaves, Counted, Release;
    if k > 0 {
      FreeAllStep(g, held, s, frames, k - 1);
      var g1 := FreeAll(g, frames, k - 1);
      var f := frames[k - 1];
      assert g1.kind[f] == g.kind[f];
      FreeTwinFrame(g1, held, f);
      assert frames[..k] == frames[..k - 1] + [f];
      forall s': nat, v: nat | s' < |g.dirs| && v < ALL_PAGES
        ensures FreeAll(g, frames, k).PteAt(s', v) == g.PteAt(s', v)
      {
        assert g1.PteAt(s', v) == g.PteAt(s', v);
      }
    }
  }
}
