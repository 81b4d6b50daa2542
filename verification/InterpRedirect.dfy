/** Redirecting every alias of a physical range onto shadow pages, and taking it back. */
module InterpRedirect {
  import opened Outcomes
  import opened InterpPhys
  import opened InterpMemory
  import opened InterpOps
  import opened InterpBooks

  /** The physical range `[base, base + |shadow|)`, and the entries of the shadow pages from `lo` on. */
  datatype Range = Range(base: nat, lo: nat, shadow: seq<Pte>)
  {
    predicate IsShadowPage(v: nat) { lo <= v < lo + |shadow| }
    predicate Covers(frame: nat) { base <= frame < base + |shadow| }
  }

  /** The first shadow page on frame `f`. */
  function Position(shadow: seq<Pte>, f: nat, k: nat): (r: Option<nat>)
    requires k <= |shadow|
    ensures r.Some? ==> k <= r.value < |shadow| && shadow[r.value].present && shadow[r.value].frame == f
    ensures r.Some? ==> forall i :: k <= i < r.value ==> !(shadow[i].present && shadow[i].frame == f)
    ensures r.None? ==> forall i :: k <= i < |shadow| ==> !(shadow[i].present && shadow[i].frame == f)
    decreases |shadow| - k
  {
    if k == |shadow| then None
    else if shadow[k].present && shadow[k].frame == f then Some(k)
    else Position(shadow, f, k + 1)
  }

  /** The entry is one to redirect. */
  predicate Redirects(r: Range, v: nat, e: Pte) {
    !r.IsShadowPage(v) && e.present && r.Covers(e.frame) && r.shadow[e.frame - r.base].present
  }

  function Target(r: Range, e: Pte): nat
    requires r.Covers(e.frame)
  {
    r.shadow[e.frame - r.base].frame
  }

  function Redirected(r: Range, v: nat, e: Pte): Pte {
    if Redirects(r, v, e) then e.(frame := Target(r, e), redirected := true) else e
  }

  /** The entry is one to restore. */
  predicate Restores(r: Range, v: nat, e: Pte) {
    !r.IsShadowPage(v) && e.present && e.redirected && Position(r.shadow, e.frame, 0).Some?
  }

  function Restored(r: Range, v: nat, e: Pte): Pte {
    if Restores(r, v, e) then e.(frame := r.base + Position(r.shadow, e.frame, 0).value, redirected := false) else e
  }

  // ---- The two loops ----

  function RedirectPage(g: Guest, s: nat, r: Range, v: nat): Halting<Guest> {
    var e := g.PteAt(s, v);
    if !Redirects(r, v, e) then Ok(g)
    else
      var g1 := IncRef(g, Target(r, e));
      if HasTable(g1, s, v) then Ok(SetPte(g1, s, v, Redirected(r, v, e))) else Panic
  }

  function RedirectPages(g: Guest, s: nat, r: Range, k: nat): Halting<Guest> {
    if k == 0 then Ok(g)
    else
      var g1 :- RedirectPages(g, s, r, k - 1);
      RedirectPage(g1, s, r, k - 1)
  }

  function RestorePage(g: Guest, s: nat, r: Range, v: nat): Halting<Guest> {
    var e := g.PteAt(s, v);
    if !Restores(r, v, e) then Ok(g)
    else if HasTable(g, s, v) && Framed(SetPte(g, s, v, Restored(r, v, e))) then
      Ok(Release(SetPte(g, s, v, Restored(r, v, e)), e.frame))
    else Panic
  }

  function RestorePages(g: Guest, s: nat, r: Range, k: nat): Halting<Guest> {
    if k == 0 then Ok(g)
    else
      var g1 :- RestorePages(g, s, r, k - 1);
      RestorePage(g1, s, r, k - 1)
  }

  /** The shadow entries as both loops read them first. */
  function Shadow(g: Guest, s: nat, lo: nat, count: nat): (shadow: seq<Pte>)
    ensures |shadow| == count && forall i: nat :: i < count ==> shadow[i] == g.PteAt(s, lo + i)
  {
    seq(count, (i: nat) requires i < count => g.PteAt(s, lo + i))
  }

  /** `space_redirect_physical_aliases` */
  function Redirect(g: Guest, s: nat, base: nat, lo: nat, count: nat, redirect: bool): Halting<Guest> {
    var r := Range(base, lo, Shadow(g, s, lo, count));
    if redirect then RedirectPages(g, s, r, USER_PAGES) else RestorePages(g, s, r, USER_PAGES)
  }

  // ---- One entry ----

  /** An untagged entry comes back exactly when no earlier shadow page is on the same frame. */
  lemma EntryComesBackIff(r: Range, v: nat, e: Pte)
    requires e.present ==> !e.redirected
    ensures Restored(r, v, Redirected(r, v, e)) == e <==>
      (Redirects(r, v, e) ==> Position(r.shadow, Target(r, e), 0) == Some(e.frame - r.base))
  {
  }

  /** Shadow pages that are present are on different frames, none of them frame 0. */
  ghost predicate DistinctShadow(shadow: seq<Pte>) {
    && (forall i :: 0 <= i < |shadow| && shadow[i].present ==> shadow[i].frame != 0)
    && (forall i, j :: 0 <= i < j < |shadow| && shadow[i].present && shadow[j].present ==>
         shadow[i].frame != shadow[j].frame)
  }

  lemma EntryComesBack(r: Range, v: nat, e: Pte)
    requires DistinctShadow(r.shadow) && (e.present && !r.IsShadowPage(v) ==> !e.redirected)
    ensures Restored(r, v, Redirected(r, v, e)) == e
    ensures Restores(r, v, Redirected(r, v, e)) <==> Redirects(r, v, e)
  {
    if Redirects(r, v, e) {
      var p := Position(r.shadow, Target(r, e), 0);
      assert p == Some(e.frame - r.base);
    }
  }

  // ---- References ----

  /** How many of the first `k` pages of `s` are redirected onto frame `f`. */
  function Moved(g: Guest, s: nat, r: Range, f: nat, k: nat): nat {
    if k == 0 then 0
    else
      var moves := Redirects(r, k - 1, g.PteAt(s, k - 1)) && Target(r, g.PteAt(s, k - 1)) == f;
      Moved(g, s, r, f, k - 1) + if moves then 1 else 0
  }

  lemma {:induction false} MovedGrows(g: Guest, s: nat, r: Range, f: nat, j: nat, k: nat)
    requires j <= k
    ensures Moved(g, s, r, f, j) <= Moved(g, s, r, f, k)
  {
    if j < k { MovedGrows(g, s, r, f, j, k - 1); }
  }

  /** Recorded counts are real. */
  ghost predicate Canonical(p: Pool) {
    forall f :: f in p.shared ==> p.shared[f] >= 2
  }

  lemma CanonicalUnique(p: Pool, p': Pool)
    requires Canonical(p) && Canonical(p') && p'.next == p.next && p'.free == p.free && forall f: nat ::
      Refs(p', f) == Refs(p, f)
    ensures p' == p
  {
    forall f: nat ensures (f in p'.shared <==> f in p.shared) && (f in p.shared ==> p'.shared[f] == p.shared[f]) {
      assert Refs(p', f) == Refs(p, f);
    }
    assert p'.shared == p.shared;
  }

  /** After the first `k` pages of a redirection. */
  ghost predicate HalfRedirected(g: Guest, g': Guest, s: nat, r: Range, k: nat) {
    && Wooded(g') && g'.dirs == g.dirs && g'.kind == g.kind && g'.bytes == g.bytes && g'.windows == g.windows
    && g'.pool.next == g.pool.next && g'.pool.free == g.pool.free && Canonical(g'.pool)
    && (forall f: nat {:trigger Refs(g'.pool, f)} :: Refs(g'.pool, f) == Refs(g.pool, f) + Moved(g, s, r, f, k))
    && (forall s': nat, v: nat {:trigger g'.PteAt(s', v)} :: s' < |g.dirs| && v < ALL_PAGES ==>
          g'.PteAt(s', v) == if s' == s && v < k then Redirected(r, v, g.PteAt(s, v)) else g.PteAt(s', v))
  }

  lemma {:induction false} RedirectLoop(g: Guest, s: nat, r: Range, k: nat, g': Guest)
    requires Wooded(g) && Canonical(g.pool) && s < |g.dirs| && k <= USER_PAGES && RedirectPages(g, s, r, k) == Ok(g')
    ensures HalfRedirected(g, g', s, r, k)
  {
    hide Trees, HalfRedirected, RedirectPage;
    if k > 0 {
      var g1 := RedirectPages(g, s, r, k - 1).value;
      RedirectLoop(g, s, r, k - 1, g1);
      RedirectOne(g, s, r, k - 1, g1, g');
    } else {
      NothingRedirected(g, s, r);
    }
  }

  lemma NothingRedirected(g: Guest, s: nat, r: Range)
    requires Wooded(g) && Canonical(g.pool)
    ensures HalfRedirected(g, g, s, r, 0)
  {
    forall f: nat ensures Refs(g.pool, f) == Refs(g.pool, f) + Moved(g, s, r, f, 0) { }
  }

  lemma RedirectOne(g: Guest, s: nat, r: Range, v: nat, g1: Guest, g': Guest)
    requires s < |g.dirs| && v < USER_PAGES && HalfRedirected(g, g1, s, r, v) && RedirectPage(g1, s, r, v) == Ok(g')
    ensures HalfRedirected(g, g', s, r, v + 1)
  {
    hide Trees;
    var e := g.PteAt(s, v);
    assert g1.PteAt(s, v) == e;
    if Redirects(r, v, e) {
      var g2 := IncRef(g1, Target(r, e));
      SamePtes(g1, g2);
      SetPteLeaf(g2, s, v, Redirected(r, v, e));
      forall s': nat, v': nat | s' < |g.dirs| && v' < ALL_PAGES
        ensures g'.PteAt(s', v') == if s' == s && v' < v + 1 then Redirected(r, v', g.PteAt(s, v')) else g.PteAt(s', v')
      {
        assert g2.PteAt(s', v') == g1.PteAt(s', v');
      }
    }
    forall f: nat ensures Refs(g'.pool, f) == Refs(g.pool, f) + Moved(g, s, r, f, v + 1) {
      assert Refs(g1.pool, f) == Refs(g.pool, f) + Moved(g, s, r, f, v);
    }
  }

  /** After the first `k` pages of the restoration, on what a whole redirection of `g` left. */
  ghost predicate HalfRestored(g: Guest, g': Guest, s: nat, r: Range, k: nat)
    requires k <= USER_PAGES
  {
    && Wooded(g') && g'.dirs == g.dirs && g'.kind == g.kind && g'.bytes == g.bytes && g'.windows == g.windows
    && g'.pool.next == g.pool.next && g'.pool.free == g.pool.free && Canonical(g'.pool)
    && (forall f: nat {:trigger Refs(g'.pool, f)} ::
         Refs(g'.pool, f) + Moved(g, s, r, f, k) == Refs(g.pool, f) + Moved(g, s, r, f, USER_PAGES))
    && (forall s': nat, v: nat {:trigger g'.PteAt(s', v)} :: s' < |g.dirs| && v < ALL_PAGES ==>
          g'.PteAt(s', v) == if s' == s && k <= v < USER_PAGES then Redirected(r, v, g.PteAt(s, v)) else g.PteAt(s', v))
  }

  lemma RestoreOne(g: Guest, s: nat, r: Range, v: nat, g1: Guest, g': Guest)
    requires s < |g.dirs| && v < USER_PAGES && HalfRestored(g, g1, s, r, v) && RestorePage(g1, s, r, v) == Ok(g')
    requires Canonical(g.pool) && DistinctShadow(r.shadow)
    requires (g.PteAt(s, v).present && !r.IsShadowPage(v) ==> !g.PteAt(s, v).redirected)
    ensures HalfRestored(g, g', s, r, v + 1)
  {
    hide Trees;
    var e := g.PteAt(s, v);
    assert g1.PteAt(s, v) == Redirected(r, v, e);
    EntryComesBack(r, v, e);
    if Redirects(r, v, e) {
      var t := Target(r, e);
      assert Refs(g1.pool, t) + Moved(g, s, r, t, v) == Refs(g.pool, t) + Moved(g, s, r, t, USER_PAGES);
      MovedGrows(g, s, r, t, v + 1, USER_PAGES);
      RefsPositive(g.pool, t);
      assert t in g1.pool.shared && t != 0;
      RestoreReferences(g, s, r, v, g1, g', t);
      SetPteLeaf(g1, s, v, e);
      var g2 := SetPte(g1, s, v, e);
      SamePtes(g2, g');
      forall s': nat, v': nat | s' < |g.dirs| && v' < ALL_PAGES
        ensures g'.PteAt(s', v') == if s' == s && v + 1 <= v' < USER_PAGES then Redirected(r, v', g.PteAt(s, v'))
          else g.PteAt(s', v')
      {
        assert g'.PteAt(s', v') == g2.PteAt(s', v');
        assert g2.PteAt(s', v') == if s' == s && v' == v then e else g1.PteAt(s', v');
      }
    }
  }

  lemma RefsPositive(p: Pool, f: nat)
    requires Canonical(p)
    ensures Refs(p, f) >= 1
  {
  }

  lemma RestoreReferences(g: Guest, s: nat, r: Range, v: nat, g1: Guest, g': Guest, t: nat)
    requires s < |g.dirs| && v < USER_PAGES && HalfRestored(g, g1, s, r, v) && t != 0 && t in g1.pool.shared
    requires Redirects(r, v, g.PteAt(s, v)) && Target(r, g.PteAt(s, v)) == t && g'.pool == Drop(g1.pool, t)
    ensures Canonical(g'.pool) && g'.pool.next == g.pool.next && g'.pool.free == g.pool.free
    ensures forall f: nat {:trigger Refs(g'.pool, f)} ::
      Refs(g'.pool, f) + Moved(g, s, r, f, v + 1) == Refs(g.pool, f) + Moved(g, s, r, f, USER_PAGES)
  {
    hide Trees;
    forall f: nat
      ensures Refs(g'.pool, f) + Moved(g, s, r, f, v + 1) == Refs(g.pool, f) + Moved(g, s, r, f, USER_PAGES)
    {
      assert Refs(g1.pool, f) + Moved(g, s, r, f, v) == Refs(g.pool, f) + Moved(g, s, r, f, USER_PAGES);
    }
  }

  lemma {:induction false} RestoreLoop(g: Guest, g0: Guest, s: nat, r: Range, k: nat, g': Guest)
    requires s < |g.dirs| && k <= USER_PAGES && HalfRestored(g, g0, s, r, 0) && RestorePages(g0, s, r, k) == Ok(g')
    requires Canonical(g.pool) && DistinctShadow(r.shadow) && Untagged(g, s, r)
    ensures HalfRestored(g, g', s, r, k)
  {
    hide Trees, HalfRestored, RestorePage;
    if k > 0 {
      var g1 := RestorePages(g0, s, r, k - 1).value;
      RestoreLoop(g, g0, s, r, k - 1, g1);
      RestoreOne(g, s, r, k - 1, g1, g');
    }
  }

  /** No entry outside the shadow pages carries the tag. */
  ghost predicate Untagged(g: Guest, s: nat, r: Range) {
    forall v: nat {:trigger g.PteAt(s, v)} :: v < USER_PAGES && g.PteAt(s, v).present && !r.IsShadowPage(v) ==>
      !g.PteAt(s, v).redirected
  }

  /** Frame `f` is the one at some place of the range, and the shadow page at that place is present. */
  predicate HasShadow(g: Guest, s: nat, base: nat, lo: nat, count: nat, f: nat) {
    base <= f < base + count && g.PteAt(s, lo + f - base).present
  }

  function ShadowOf(g: Guest, s: nat, base: nat, lo: nat, f: nat): nat
    requires base <= f
  {
    g.PteAt(s, lo + f - base).frame
  }

  predicate Outside(lo: nat, count: nat, v: nat) {
    v < USER_PAGES && !(lo <= v < lo + count)
  }

  /** What a redirection makes of one page: outside the shadow, a page on a frame with a shadow gets
      the frame of that shadow and the tag; every other leaf of every space stands. */
  lemma RedirectMoves(g: Guest, s: nat, base: nat, lo: nat, count: nat, g': Guest, s': nat, v: nat)
    requires Wooded(g) && Canonical(g.pool) && s < |g.dirs| && Redirect(g, s, base, lo, count, true) == Ok(g')
    requires s' < |g.dirs| && v < ALL_PAGES
    ensures var e := g.PteAt(s', v);
      g'.PteAt(s', v) ==
        if s' == s && Outside(lo, count, v) && e.present && HasShadow(g, s, base, lo, count, e.frame)
        then e.(frame := ShadowOf(g, s, base, lo, e.frame), redirected := true) else e
  {
    hide Trees, RedirectPages;
    var r := Range(base, lo, Shadow(g, s, lo, count));
    RedirectLoop(g, s, r, USER_PAGES, g');
    forall t: nat | t == s || t == s'
      ensures t == s && v < USER_PAGES ==> g'.PteAt(t, v) == Redirected(r, v, g.PteAt(t, v))
      ensures t != s || v >= USER_PAGES ==> g'.PteAt(t, v) == g.PteAt(t, v)
    {
    }
    var f := g.PteAt(s, v).frame;
    if base <= f < base + count { ShadowAt(g, s, base, lo, count, f); }
  }

  /** If no frame of a shadow page has a shadow itself, no page outside the shadow is left on a frame
      that has one. */
  lemma NoneLeft(g: Guest, s: nat, base: nat, lo: nat, count: nat, g': Guest, v: nat)
    requires Wooded(g) && Canonical(g.pool) && s < |g.dirs| && Redirect(g, s, base, lo, count, true) == Ok(g')
    requires forall f: nat :: HasShadow(g, s, base, lo, count, f) ==>
      !HasShadow(g, s, base, lo, count, ShadowOf(g, s, base, lo, f))
    ensures Outside(lo, count, v) && g'.PteAt(s, v).present ==> !HasShadow(g, s, base, lo, count, g'.PteAt(s, v).frame)
  {
    hide Trees, Redirect, ShadowOf;
    if Outside(lo, count, v) {
      RedirectMoves(g, s, base, lo, count, g', s, v);
      var f := g.PteAt(s, v).frame;
      assert HasShadow(g, s, base, lo, count, f) ==> !HasShadow(g, s, base, lo, count, ShadowOf(g, s, base, lo, f));
    }
  }

  lemma ShadowAt(g: Guest, s: nat, base: nat, lo: nat, count: nat, f: nat)
    requires base <= f < base + count
    ensures Shadow(g, s, lo, count)[f - base] == g.PteAt(s, lo + f - base)
  {
    assert lo + (f - base) == lo + f - base;
  }

  /** Redirecting and then restoring leaves no trace but the generation: every leaf entry of every
      space and every reference count is what it was. */
  lemma RedirectRestoreCancel(g: Guest, s: nat, base: nat, lo: nat, count: nat, g1: Guest, g': Guest)
    requires Wooded(g) && Canonical(g.pool) && s < |g.dirs| && lo + count <= ALL_PAGES
    requires DistinctShadow(Shadow(g, s, lo, count)) && Untagged(g, s, Range(base, lo, Shadow(g, s, lo, count)))
    requires Redirect(g, s, base, lo, count, true) == Ok(g1) && Redirect(g1, s, base, lo, count, false) == Ok(g')
    ensures SameLeaves(g, g') && g'.pool == g.pool && g'.kind == g.kind && g'.bytes == g.bytes && g'.dirs == g.dirs
  {
    hide Trees, RedirectPages, RestorePages;
    var r := Range(base, lo, Shadow(g, s, lo, count));
    RedirectLoop(g, s, r, USER_PAGES, g1);
    assert Shadow(g1, s, lo, count) == r.shadow by {
      forall i | 0 <= i < count ensures Shadow(g1, s, lo, count)[i] == r.shadow[i] {
        assert g1.PteAt(s, lo + i) == if lo + i < USER_PAGES then Redirected(r, lo + i, g.PteAt(s, lo + i))
          else g.PteAt(s, lo + i);
      }
    }
    RestoreLoop(g, g1, s, r, USER_PAGES, g');
    forall f: nat ensures Refs(g'.pool, f) == Refs(g.pool, f) {
      assert Refs(g'.pool, f) + Moved(g, s, r, f, USER_PAGES) == Refs(g.pool, f) + Moved(g, s, r, f, USER_PAGES);
    }
    CanonicalUnique(g.pool, g'.pool);
  }
}
