/** The two backends show the same memory: after corresponding operations, every page of every
    space looks the same on metal and under the interpreter. */
module Backends {
  import opened ArchContract
  import MetalMemory
  import MetalImages
  import MetalRuns
  import MetalTheorems
  import InterpMemory
  import InterpOps
  import InterpRuns
  import InterpTheorems
  import InterpHistory

  type Path = seq<nat>

  /** A user page of 32-bit paging without PAE: a directory slot and a table slot. */
  predicate IsPath(q: Path) {
    |q| == 2 && q[0] < 768 && q[1] < 1024
  }

  function Number(q: Path): int
    requires IsPath(q)
  {
    q[0] * 1024 + q[1]
  }

  lemma NumberOnto(q: Path, q': Path)
    requires IsPath(q) && IsPath(q')
    ensures InterpTheorems.IsPage(Number(q)) && (Number(q) == Number(q') ==> q == q')
  {
    if Number(q) == Number(q') {
      assert q[0] == q'[0] && q[1] == q'[1];
    }
  }

  /** The same act, page for page. */
  predicate SameAct(a: Act<Path>, b: Act<int>) {
    match a
    case DoFork(s) => b == DoFork(s)
    case DoStore(s, q, off, byte) => IsPath(q) && b == DoStore(s, Number(q), off, byte)
    case DoNothing => b == DoNothing
    case DoPut(s, q, page) => IsPath(q) && b == DoPut(s, Number(q), page)
    case DoCopy(s, src, dst) => IsPath(src) && IsPath(dst) && b == DoCopy(s, Number(src), Number(dst))
    case DoSwap(s, src, dst) => IsPath(src) && IsPath(dst) && b == DoSwap(s, Number(src), Number(dst))
    case DoClear(s) => b == DoClear(s)
    case DoCreate => b == DoCreate
  }

  ghost function Paths(): iset<Path> {
    iset q: Path | IsPath(q)
  }

  /** The same image, page for page. */
  ghost predicate SameImage(x: Image<Path>, y: Image<int>) {
    && (forall q: Path {:trigger q in x} :: q in x <==> IsPath(q))
    && (forall p: int {:trigger p in y} :: p in y <==> InterpTheorems.IsPage(p))
    && (forall q: Path {:trigger x[q]} :: IsPath(q) ==> InterpTheorems.IsPage(Number(q)) && x[q] == y[Number(q)])
  }

  ghost predicate Same(v: seq<Image<Path>>, w: seq<Image<int>>) {
    |v| == |w| && forall s: nat {:trigger v[s]} {:trigger w[s]} :: s < |v| ==> SameImage(v[s], w[s])
  }

  lemma SameLookup(v: seq<Image<Path>>, w: seq<Image<int>>, s: nat, q: Path)
    requires Same(v, w) && s < |v| && IsPath(q)
    ensures q in v[s] && Number(q) in w[s] && v[s][q] == w[s][Number(q)]
  {
    NumberOnto(q, q);
    assert SameImage(v[s], w[s]);
    assert q in v[s];
    assert Number(q) in w[s];
  }

  lemma SameValid(v: seq<Image<Path>>, w: seq<Image<int>>, a: Act<Path>, b: Act<int>)
    requires Same(v, w) && SameAct(a, b)
    ensures ActValid(v, a) <==> ActValid(w, b)
  {
    if a.DoStore? || a.DoPut? { if a.s < |v| { SameLookup(v, w, a.s, a.q); } }
    if a.DoCopy? || a.DoSwap? { if a.s < |v| { SameLookup(v, w, a.s, a.src); SameLookup(v, w, a.s, a.dst); } }
  }

  /** One page of one image is replaced on both sides. */
  lemma PutImage(x: Image<Path>, y: Image<int>, q: Path, page: Page)
    requires SameImage(x, y) && IsPath(q)
    ensures SameImage(x[q := page], y[Number(q) := page])
  {
    var x', y' := x[q := page], y[Number(q) := page];
    NumberOnto(q, q);
    forall r: Path ensures r in x' <==> IsPath(r) { assert r in x <==> IsPath(r); }
    forall p: int ensures p in y' <==> InterpTheorems.IsPage(p) { assert p in y <==> InterpTheorems.IsPage(p); }
    forall r: Path | IsPath(r) ensures InterpTheorems.IsPage(Number(r)) && x'[r] == y'[Number(r)] {
      NumberOnto(q, r);
      assert r in x && x[r] == y[Number(r)];
    }
  }

  lemma SamePut(v: seq<Image<Path>>, w: seq<Image<int>>, s: nat, q: Path, page: Page)
    requires Same(v, w) && s < |v| && IsPath(q)
    ensures Same(v[s := v[s][q := page]], w[s := w[s][Number(q) := page]])
  {
    PutImage(v[s], w[s], q, page);
  }

  lemma BlankImages()
    ensures SameImage(imap q | q in Paths() :: BLANK, imap p | p in InterpTheorems.Pages() :: BLANK)
  {
    forall q: Path | IsPath(q) ensures InterpTheorems.IsPage(Number(q)) { NumberOnto(q, q); }
  }

  lemma SameNext(v: seq<Image<Path>>, w: seq<Image<int>>, a: Act<Path>, b: Act<int>)
    requires Same(v, w) && SameAct(a, b) && ActValid(v, a) && ActValid(w, b)
    ensures Same(NextImages(v, Paths(), a), NextImages(w, InterpTheorems.Pages(), b))
  {
    hide SameImage;
    match a
    case DoFork(s) =>
    case DoStore(s, q, off, byte) =>
      SameLookup(v, w, s, q);
      SamePut(v, w, s, q, Stored(v[s][q], off, byte));
    case DoNothing =>
    case DoPut(s, q, page) => SamePut(v, w, s, q, page);
    case DoCopy(s, src, dst) =>
      SameLookup(v, w, s, src);
      SamePut(v, w, s, dst, v[s][src]);
    case DoSwap(s, x, y) =>
      SameLookup(v, w, s, x);
      SameLookup(v, w, s, y);
      PutImage(v[s], w[s], x, v[s][y]);
      PutImage(v[s][x := v[s][y]], w[s][Number(x) := w[s][Number(y)]], y, v[s][x]);
    case DoClear(s) => BlankImages();
    case DoCreate => BlankImages();
  }

  ghost predicate SameActs(a: seq<Act<Path>>, b: seq<Act<int>>) {
    |a| == |b| && forall i :: 0 <= i < |a| ==> SameAct(a[i], b[i])
  }

  /** The contract does not care what pages are called. */
  lemma {:induction false} SameAfter(v: seq<Image<Path>>, w: seq<Image<int>>, a: seq<Act<Path>>, b: seq<Act<int>>)
    requires Same(v, w) && SameActs(a, b)
    ensures Same(AfterActs(v, Paths(), a), AfterActs(w, InterpTheorems.Pages(), b))
    decreases |a|
  {
    hide Same;
    if a != [] {
      SameValid(v, w, a[0], b[0]);
      if ActValid(v, a[0]) {
        SameNext(v, w, a[0], b[0]);
        SameAfter(NextImages(v, Paths(), a[0]), NextImages(w, InterpTheorems.Pages(), b[0]), a[1..], b[1..]);
      }
    }
  }

  lemma LegacyPages(m: MetalMemory.Memory)
    requires m.depth == 2 && m.fan == 1024 && m.rootFan == 768
    ensures MetalImages.Pages(m) == Paths()
  {
    forall r: Path ensures m.Path(r) <==> IsPath(r) { }
  }

  /** From boot, whatever interleaving of ordinary operations both backends go through, a page
      looks the same to its space on either. */
  lemma BackendsAgree(m: MetalMemory.Memory, mops: seq<MetalRuns.Op>, m': MetalMemory.Memory, g: InterpMemory.Guest,
                      iops: seq<InterpRuns.Op>, g': InterpMemory.Guest)
    requires MetalTheorems.Booted(m) && m.depth == 2 && m.fan == 1024 && m.rootFan == 768
    requires MetalTheorems.Runs(m, mops, m') && forall i :: 0 <= i < |mops| ==> MetalTheorems.Ordinary(mops[i])
    requires InterpHistory.Booted(g) && InterpOps.Framed(g)
    requires InterpHistory.Runs(g, iops, g') && forall i :: 0 <= i < |iops| ==> InterpHistory.Ordinary(iops[i])
    requires SameActs(MetalImages.ActsOf(mops), InterpTheorems.ActsOf(iops))
    ensures m'.depth == 2 && m'.Spaces() == |g'.dirs|
    ensures forall s: nat, q: Path {:trigger MetalImages.PageOf(m', s, q)} :: s < |g'.dirs| && IsPath(q) ==>
      MetalImages.PageOf(m', s, q) == InterpMemory.View(g', s, Number(q))
  {
    hide MetalTheorems.Runs, InterpHistory.Runs, AfterActs, MetalImages.PageOf, InterpMemory.View;
    hide MetalTheorems.Ordinary, InterpHistory.Ordinary, SameActs;
    MetalTheorems.RunPages(m, mops, m');
    MetalTheorems.LazyForkIsEager(m, mops, m');
    InterpHistory.LazyForkIsEager(g, iops, g');
    LegacyPages(m);
    SameAfter([], [], MetalImages.ActsOf(mops), InterpTheorems.ActsOf(iops));
    PagesAgree(m', g', AfterActs([], Paths(), MetalImages.ActsOf(mops)),
      AfterActs([], InterpTheorems.Pages(), InterpTheorems.ActsOf(iops)));
  }

  lemma PagesAgree(m: MetalMemory.Memory, g: InterpMemory.Guest, v: seq<Image<Path>>, w: seq<Image<int>>)
    requires m.depth >= 1 && MetalImages.Shows(m, v) && InterpTheorems.Shows(g, w) && Same(v, w)
    ensures m.Spaces() == |g.dirs|
    ensures forall s: nat, q: Path {:trigger MetalImages.PageOf(m, s, q)} ::
      s < |g.dirs| && IsPath(q) && |q| == m.depth ==>
      MetalImages.PageOf(m, s, q) == InterpMemory.View(g, s, Number(q))
  {
    hide MetalImages.PageOf, InterpMemory.View;
    forall s: nat, q: Path | s < |g.dirs| && IsPath(q) && |q| == m.depth
      ensures MetalImages.PageOf(m, s, q) == InterpMemory.View(g, s, Number(q))
    {
      SameLookup(v, w, s, q);
    }
  }
}
