/** The physical frame allocator: one reference count per frame and a next-fit hint.
    Counts are bytes: 0 is free, 255 is reserved for ever, 1..254 count mappings. */
module PhysMm {
  import opened Outcomes

  const MAX_PAGES: nat := 65536
  const FIRST_PAGE: nat := 256
  const RESERVED: nat := 255

  /** The smallest free frame in `[lo, hi)`. */
  function FirstFree(refs: seq<nat>, lo: nat, hi: nat): (r: Option<nat>)
    requires hi <= |refs|
    ensures r.Some? ==> lo <= r.value < hi && refs[r.value] == 0
    ensures r.Some? ==> forall p :: lo <= p < r.value ==> refs[p] != 0
    ensures r.None? ==> forall p :: lo <= p < hi ==> refs[p] != 0
    decreases hi - lo
  {
    if lo >= hi then None
    else if refs[lo] == 0 then Some(lo)
    else FirstFree(refs, lo + 1, hi)
  }

  predicate HintOk(next: nat, count: nat) {
    FIRST_PAGE < next <= count
  }

  /** Next fit: the first free frame at or after the hint, else the first one before it. */
  function NextFit(refs: seq<nat>, next: nat): (r: Option<nat>)
    requires HintOk(next, |refs|)
    ensures r.Some? <==> exists p :: FIRST_PAGE <= p < |refs| && refs[p] == 0
    ensures r.Some? ==> FIRST_PAGE <= r.value < |refs| && refs[r.value] == 0
    ensures r.Some? ==> HintOk(r.value + 1, |refs|)
  {
    var up := FirstFree(refs, next, |refs|);
    if up.Some? then up else FirstFree(refs, FIRST_PAGE, next)
  }

  /** `get_ref_count`: the zero page and untracked frames always look shared. */
  function RefCount(refs: seq<nat>, zero: nat, page: nat): nat {
    if page == zero || page >= |refs| then RESERVED else refs[page]
  }

  /** `inc_shared_count`: silent on frames that are not counted, a panic on overflow. */
  function IncRef(refs: seq<nat>, zero: nat, page: nat): Halting<seq<nat>> {
    if page == zero || page >= |refs| || refs[page] == 0 || refs[page] == RESERVED then Ok(refs)
    else if refs[page] + 1 == RESERVED then Panic
    else Ok(refs[page := refs[page] + 1])
  }

  /** `free_phys_page`: drops one reference; freeing a free frame panics. */
  function DecRef(refs: seq<nat>, zero: nat, page: nat): Halting<seq<nat>> {
    if page >= |refs| then Panic
    else if page == zero then Ok(refs)
    else if refs[page] == 0 then Panic
    else if refs[page] == RESERVED then Ok(refs)
    else Ok(refs[page := refs[page] - 1])
  }

  /** The frame the scan looks at after `page`. */
  function ScanStep(page: nat): nat {
    if page + 1 >= MAX_PAGES then FIRST_PAGE else page + 1
  }

  /** The k-th frame the scan looks at when it begins at `start` and finds nothing. */
  function ScanAt(start: nat, k: nat): nat {
    if k == 0 then (if start >= MAX_PAGES then FIRST_PAGE else start) else ScanStep(ScanAt(start, k - 1))
  }

  /** With no free frame the scan meets its exit test exactly when it began above frame 256;
      a hint of 256 or less would make it spin for ever. */
  lemma {:induction false} ScanExits(start: nat)
    requires start <= MAX_PAGES
    ensures (exists k :: ScanAt(start, k) + 1 == start) <==> start > FIRST_PAGE
  {
    if start <= FIRST_PAGE {
      forall k: nat ensures ScanAt(start, k) + 1 != start {
        ScanStaysAbove(start, k);
      }
    } else if start == MAX_PAGES {
      ScanClimbs(MAX_PAGES, MAX_PAGES - 1 - FIRST_PAGE);
    } else {
      ScanClimbs(start, MAX_PAGES - 1 - start);
      ScanWraps(start, start - 1 - FIRST_PAGE);
      assert ScanAt(start, MAX_PAGES - start + (start - 1 - FIRST_PAGE)) + 1 == start;
    }
  }

  lemma {:induction false} ScanStaysAbove(start: nat, k: nat)
    requires start <= FIRST_PAGE
    ensures ScanAt(start, k) >= start
  {
    if k > 0 { ScanStaysAbove(start, k - 1); }
  }

  lemma {:induction false} ScanClimbs(start: nat, k: nat)
    requires ScanAt(start, 0) + k < MAX_PAGES
    ensures ScanAt(start, k) == ScanAt(start, 0) + k
  {
    if k > 0 { ScanClimbs(start, k - 1); }
  }

  lemma {:induction false} ScanWraps(start: nat, k: nat)
    requires start < MAX_PAGES && FIRST_PAGE + k < MAX_PAGES
    ensures ScanAt(start, MAX_PAGES - start + k) == FIRST_PAGE + k
  {
    if k == 0 { ScanClimbs(start, MAX_PAGES - 1 - start); } else { ScanWraps(start, k - 1); }
  }

  /** `PAGE_REFS` and `NEXT_FREE`. */
  class FrameAllocator {
    const refs: array<nat>
    const zero: nat
    var nextFree: nat

    ghost predicate Valid() reads this, refs {
      && refs.Length == MAX_PAGES
      && HintOk(nextFree, refs.Length)
    }

    constructor (refs: array<nat>, zero: nat, next: nat)
      requires refs.Length == MAX_PAGES && HintOk(next, MAX_PAGES)
      ensures Valid() && this.refs == refs && this.zero == zero && nextFree == next
    {
      this.refs := refs;
      this.zero := zero;
      nextFree := next;
    }

    /** `alloc_phys_page`: halts, finds a frame exactly when one is free, and changes only its count. */
    method Alloc() returns (r: Option<nat>)
      requires Valid()
      modifies `nextFree, refs
      ensures Valid()
      ensures r == NextFit(old(refs[..]), old(nextFree))
      ensures r.None? ==> refs[..] == old(refs[..]) && nextFree == old(nextFree)
      ensures r.Some? ==> refs[..] == old(refs[..])[r.value := 1] && nextFree == r.value + 1
    {
      var start := nextFree;
      var page := start;
      ghost var wrapped := false;
      while true
        invariant !wrapped ==>
          start <= page <= MAX_PAGES && FirstFree(refs[..], start, MAX_PAGES) == FirstFree(refs[..], page, MAX_PAGES)
        invariant wrapped ==> FIRST_PAGE <= page < start && FirstFree(refs[..], start, MAX_PAGES).None?
        invariant wrapped ==> FirstFree(refs[..], FIRST_PAGE, start) == FirstFree(refs[..], page, start)
        invariant refs[..] == old(refs[..])
        decreases !wrapped, MAX_PAGES - page
      {
        if page >= MAX_PAGES {
          page := FIRST_PAGE;
          wrapped := true;
        }
        if refs[page] == 0 {
          refs[page] := 1;
          nextFree := page + 1;
          return Some(page);
        }
        page := page + 1;
        if page == start {
          return None;
        }
      }
    }

    /** `free_phys_page`; `halted` stands for the two assertions that stop the machine. */
    method Free(page: nat) returns (halted: bool)
      requires Valid()
      modifies refs
      ensures Valid()
      ensures halted <==> page >= MAX_PAGES || (page != zero && old(refs[page]) == 0)
      ensures page < MAX_PAGES && page != zero && 0 < old(refs[page]) < 255 ==> refs[page] == old(refs[page]) - 1
      ensures forall p :: 0 <= p < MAX_PAGES && (p != page || page == zero || old(refs[p]) in {0, 255}) ==>
        refs[p] == old(refs[p])
      ensures halted <==> DecRef(old(refs[..]), zero, page).Panic?
      ensures refs[..] == if halted then old(refs[..]) else DecRef(old(refs[..]), zero, page).value
    {
      if page >= MAX_PAGES { return true; }
      if page == zero { return false; }
      var count := refs[page];
      if count == 0 { return true; }
      if count == RESERVED { return false; }
      refs[page] := count - 1;
      return false;
    }

    /** `inc_shared_count`; `halted` stands for the overflow panic. */
    method Share(page: nat) returns (halted: bool)
      requires Valid()
      modifies refs
      ensures Valid()
      ensures halted <==> page != zero && page < MAX_PAGES && old(refs[page]) == 254
      ensures page < MAX_PAGES && page != zero && 0 < old(refs[page]) < 254 ==> refs[page] == old(refs[page]) + 1
      ensures forall p :: 0 <= p < MAX_PAGES && (p != page || page == zero || old(refs[p]) in {0, 254, 255}) ==>
        refs[p] == old(refs[p])
      ensures halted <==> IncRef(old(refs[..]), zero, page).Panic?
      ensures refs[..] == if halted then old(refs[..]) else IncRef(old(refs[..]), zero, page).value
    {
      if page == zero || page >= MAX_PAGES { return false; }
      var count := refs[page];
      if count == 0 || count == RESERVED { return false; }
      if count + 1 == RESERVED { return true; }
      refs[page] := count + 1;
      return false;
    }
  }
}
