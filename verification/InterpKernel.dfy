/** The interpreter's loops over directory and table slots. */
module InterpKernel {
  import opened Outcomes
  import opened InterpPhys
  import opened InterpMemory
  import opened InterpOps
  import opened InterpTwin

  lemma ForkNothing(g: Guest, s: nat, c: nat, v: nat)
    requires Framed(g) && s < |g.dirs| && c < |g.dirs| && !g.PdeAt(s, v / SLOTS).present
    ensures ForkPage(g, s, c, v) == Ok(g)
  {
  }

  /** Under an absent directory slot there is nothing to share. */
  lemma {:induction false} ForkSkips(g: Guest, s: nat, c: nat, i: nat, j: nat, g': Guest)
    requires Framed(g) && s < |g.dirs| && c < |g.dirs| && j <= SLOTS && ForkPages(g, s, c, i * SLOTS) == Ok(g')
    requires !g'.PdeAt(s, i).present
    ensures ForkPages(g, s, c, i * SLOTS + j) == Ok(g')
  {
    hide ForkPage;
    if j > 0 {
      ForkSkips(g, s, c, i, j - 1, g');
      ForkNothing(g', s, c, i * SLOTS + j - 1);
    }
  }

  lemma {:induction false} ClearSkips(g: Guest, s: nat, i: nat, j: nat, g': Guest)
    requires Framed(g) && s < |g.dirs| && j <= SLOTS && ClearPages(g, s, i * SLOTS) == Ok(g') && !g'.PdeAt(s, i).present
    ensures ClearPages(g, s, i * SLOTS + j) == Ok(g')
  {
    if j > 0 {
      ClearSkips(g, s, i, j - 1, g');
      assert (i * SLOTS + j - 1) / SLOTS == i;
    }
  }

  lemma {:induction false} MirrorSkips(g: Guest, s: nat, pdpt: nat, i: nat, j: nat, r: (Guest, seq<nat>))
    requires Framed(g) && j <= SLOTS && MirrorPages(g, s, pdpt, i * SLOTS) == Ok(r) && !r.0.PdeAt(s, i).present
    ensures MirrorPages(g, s, pdpt, i * SLOTS + j) == Ok(r)
  {
    if j > 0 {
      MirrorSkips(g, s, pdpt, i, j - 1, r);
      assert (i * SLOTS + j - 1) / SLOTS == i;
    }
  }

  lemma {:induction false} ForkHalts(g: Guest, s: nat, c: nat, j: nat, k: nat)
    requires Framed(g) && s < |g.dirs| && c < |g.dirs| && j <= k && ForkPages(g, s, c, j).Panic?
    ensures ForkPages(g, s, c, k).Panic?
  {
    hide ForkPage;
    if j < k { ForkHalts(g, s, c, j, k - 1); }
  }

  lemma {:induction false} ClearHalts(g: Guest, s: nat, j: nat, k: nat)
    requires Framed(g) && s < |g.dirs| && j <= k && ClearPages(g, s, j).Panic?
    ensures ClearPages(g, s, k).Panic?
  {
    hide ClearPage;
    if j < k { ClearHalts(g, s, j, k - 1); }
  }

  lemma MirrorNone(g: Guest, s: nat, pdpt: nat)
    requires Framed(g)
    ensures MirrorPages(g, s, pdpt, 0) == Ok((g, []))
  {
  }

  /** One more page of the twin. */
  lemma MirrorTurn(g: Guest, s: nat, pdpt: nat, v: nat, a: (Guest, seq<nat>))
    requires Framed(g) && MirrorPages(g, s, pdpt, v) == Ok(a)
    ensures var e := a.0.PteAt(s, v);
      MirrorPages(g, s, pdpt, v + 1) ==
        if e == NONE then Ok(a)
        else match Put64(a.0, s, pdpt, v, e)
          case Panic => Panic
          case Ok(b) => Ok((b.0, a.1 + b.1))
  {
  }

  lemma {:induction false} MirrorHalts(g: Guest, s: nat, pdpt: nat, j: nat, k: nat)
    requires Framed(g) && j <= k && MirrorPages(g, s, pdpt, j).Panic?
    ensures MirrorPages(g, s, pdpt, k).Panic?
  {
    hide Put64;
    if j < k { MirrorHalts(g, s, pdpt, j, k - 1); }
  }

  class Spaces {
    var guest: Guest

    constructor (g: Guest)
      ensures guest == g
    {
      guest := g;
    }

    /** `space_fork`; the child is the space with the next number. */
    method Fork(src: nat) returns (dst: nat, halted: bool)
      requires Framed(guest) && src < |guest.dirs|
      modifies this
      ensures ForkSpace(old(guest), src) == if halted then Panic else Ok(guest)
      ensures dst == |old(guest).dirs|
    {
      hide ForkPage, NewSpace;
      dst := |guest.dirs|;
      var made := NewSpace(guest);
      if made.Panic? { return dst, true; }
      guest := made.value;
      ghost var g1 := guest;
      for pde := 0 to SLOTS
        invariant Framed(guest) && |guest.dirs| == |g1.dirs| && ForkPages(g1, src, dst, pde * SLOTS) == Ok(guest)
      {
        if guest.PdeAt(src, pde).present {
          for pte := 0 to SLOTS
            invariant Framed(guest) && |guest.dirs| == |g1.dirs|
            invariant ForkPages(g1, src, dst, pde * SLOTS + pte) == Ok(guest)
          {
            var r := ForkPage(guest, src, dst, pde * SLOTS + pte);
            if r.Panic? {
              ForkHalts(g1, src, dst, pde * SLOTS + pte + 1, ALL_PAGES);
              return dst, true;
            }
            guest := r.value;
          }
        } else {
          ForkSkips(g1, src, dst, pde, SLOTS, guest);
        }
      }
      return dst, false;
    }

    /** `free_user_frames` */
    method FreeUserFrames(s: nat) returns (halted: bool)
      requires Framed(guest) && s < |guest.dirs|
      modifies this
      ensures ClearSpace(old(guest), s) == if halted then Panic else Ok(guest)
    {
      hide ClearPage;
      ghost var g1 := guest;
      for pde := 0 to USER_PAGES / SLOTS
        invariant Framed(guest) && |guest.dirs| == |g1.dirs| && ClearPages(g1, s, pde * SLOTS) == Ok(guest)
      {
        if guest.PdeAt(s, pde).present {
          for pte := 0 to SLOTS
            invariant Framed(guest) && |guest.dirs| == |g1.dirs| && ClearPages(g1, s, pde * SLOTS + pte) == Ok(guest)
          {
            var r := ClearPage(guest, s, pde * SLOTS + pte);
            if r.Panic? {
              ClearHalts(g1, s, pde * SLOTS + pte + 1, USER_PAGES);
              return true;
            }
            guest := r.value;
          }
        } else {
          ClearSkips(g1, s, pde, SLOTS, guest);
        }
      }
      return false;
    }

    /** The loops of `build_long_twin`; the frames they add are returned. */
    method Mirror(s: nat, pdpt: nat) returns (added: seq<nat>, halted: bool)
      requires Framed(guest)
      modifies this
      ensures !halted ==> MirrorPages(old(guest), s, pdpt, ALL_PAGES) == Ok((guest, added))
      ensures halted ==> MirrorPages(old(guest), s, pdpt, ALL_PAGES).Panic?
    {
      hide Put64, MirrorPages;
      assert MirrorPages(guest, s, pdpt, 0) == Ok((guest, [])) by { MirrorNone(guest, s, pdpt); }
      ghost var g1 := guest;
      added := [];
      for pde := 0 to SLOTS
        invariant Framed(guest) && MirrorPages(g1, s, pdpt, pde * SLOTS) == Ok((guest, added))
      {
        if guest.PdeAt(s, pde).present {
          for pte := 0 to SLOTS
            invariant Framed(guest) && MirrorPages(g1, s, pdpt, pde * SLOTS + pte) == Ok((guest, added))
          {
            var v := pde * SLOTS + pte;
            var e := guest.PteAt(s, v);
            MirrorTurn(g1, s, pdpt, v, (guest, added));
            if e != NONE {
              var r := Put64(guest, s, pdpt, v, e);
              if r.Panic? {
                MirrorHalts(g1, s, pdpt, v + 1, ALL_PAGES);
                return added, true;
              }
              guest := r.value.0;
              added := added + r.value.1;
            }
          }
        } else {
          MirrorSkips(g1, s, pdpt, pde, SLOTS, (guest, added));
        }
      }
      return added, false;
    }

    /** `build_long_twin`; the twin's root and all its frames are returned. */
    method BuildLongTwin(s: nat) returns (twin: Twin, halted: bool)
      requires Framed(guest)
      modifies this
      ensures !halted ==> BuildTwin(old(guest), s) == Ok((guest, twin))
      ensures halted ==> BuildTwin(old(guest), s).Panic?
    {
      hide AllocTable, MirrorPages;
      var none := Twin(0, [], 0);
      var gen := guest.gen;
      var a := AllocTable(guest, Pml4(s), SLOTS64);
      if a.Panic? { return none, true; }
      var b := AllocTable(a.value.0, Pdpt(s), SLOTS64);
      if b.Panic? { return none, true; }
      var pml4, pdpt := a.value.1, b.value.1;
      if pml4 >= FRAMES || |b.value.0.tab[pml4]| == 0 { return none, true; }
      guest := Write64(b.value.0, pml4, 0, Mapping(pdpt, true));
      var added;
      added, halted := Mirror(s, pdpt);
      if halted { return none, true; }
      return Twin(pml4, [pml4, pdpt] + added, gen), false;
    }
  }
}
