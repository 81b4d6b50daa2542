/** The interpreter's guest memory: two-level page tables that live in guest frames, next to the
    data frames they map. */
module InterpMemory {
  import opened ArchContract
  import opened InterpPhys

  const SLOTS: nat := 1024
  const ALL_PAGES: nat := 0x100000
  /** Pages below 0xC000_0000 belong to the program; the kernel's windows lie above. */
  const USER_PAGES: nat := 0xC0000

  /** A 32-bit page-table entry; `rest` are the flag bits nobody here looks at. */
  datatype Pte = Pte(
    frame: nat, present: bool, writable: bool, user: bool,
    cow: bool, redirected: bool, pcd: bool, rest: nat)

  const NONE := Pte(0, false, false, false, false, false, false, 0)
  /** A device window: not present, but never to be backed by memory. */
  const TRAP := NONE.(pcd := true)

  function Mapping(frame: nat, writable: bool): Pte {
    Pte(frame, true, writable, true, false, false, false, 0)
  }

  function CowMapping(frame: nat): Pte {
    Mapping(frame, false).(cow := true)
  }

  /** What a frame is used for. (Bookkeeping of the model; the code has no such tag.) */
  datatype Kind =
    | Unused
    | Data
    | Fixed
    | Dir(s: nat)
    | Table(s: nat, i: nat)
    | Pml4(s: nat)
    | Pdpt(s: nat)
    | Pd64(s: nat, i: nat)
    | Pt64(s: nat, i: nat)

  /** A kernel window page, present in every space. */
  datatype Window = Window(page: nat, frame: nat)

  datatype Guest = Guest(
    pool: Pool, kind: seq<Kind>, tab: seq<seq<Pte>>, bytes: seq<Bytes>,
    dirs: seq<nat>, windows: seq<Window>, gen: nat)
  {
    function At(f: nat, i: nat): Pte {
      if f < |tab| && i < |tab[f]| then tab[f][i] else NONE
    }

    function PdeAt(s: nat, i: nat): Pte {
      if s < |dirs| then At(dirs[s], i) else NONE
    }

    /** `pte_raw`: the leaf entry, all zero when its table is missing. */
    function PteAt(s: nat, v: nat): Pte {
      var d := PdeAt(s, v / SLOTS);
      if d.present then At(d.frame, v % SLOTS) else NONE
    }
  }

  /** What space `s` observes at page `v`. */
  function View(g: Guest, s: nat, v: nat): Page {
    var e := g.PteAt(s, v);
    if e.present then Page(Ram(if e.frame < |g.bytes| then g.bytes[e.frame] else Zeros()), !e.writable && !e.cow)
    else if e.pcd then Page(Trap, false)
    else BLANK
  }

  // ---- Invariants ----

  ghost predicate Sized(g: Guest) {
    && |g.kind| == |g.tab| == |g.bytes| == FRAMES
    && forall f: nat {:trigger |g.bytes[f]|} :: f < FRAMES ==> |g.bytes[f]| == PAGE_SIZE
  }

  /** The directory of a space, and the table behind each present slot of it, are its alone. */
  ghost predicate Trees(g: Guest)
    requires Sized(g)
  {
    && (forall s: nat {:trigger g.dirs[s]} :: s < |g.dirs| ==>
         g.dirs[s] < FRAMES && g.kind[g.dirs[s]] == Dir(s) && |g.tab[g.dirs[s]]| == SLOTS)
    && (forall s: nat, i: nat {:trigger g.PdeAt(s, i)} :: s < |g.dirs| && i < SLOTS && g.PdeAt(s, i).present ==>
          g.PdeAt(s, i).frame < FRAMES && g.kind[g.PdeAt(s, i).frame] == Table(s, i) &&
            |g.tab[g.PdeAt(s, i).frame]| == SLOTS)
  }

  /** The allocator knows exactly the frames in use; the others read as zero. */
  ghost predicate Pooled(g: Guest)
    requires Sized(g)
  {
    && PoolOk(g.pool)
    && g.kind[0] == Fixed
    && (forall f: nat {:trigger g.kind[f]} :: f < FRAMES ==> (g.kind[f].Unused? <==> !InUse(g.pool, f)))
    && (forall f: nat {:trigger g.bytes[f]} :: f < FRAMES && g.kind[f].Unused? ==> g.bytes[f] == Zeros())
    && (forall f: nat {:trigger f in g.pool.shared} :: f in g.pool.shared ==> f < FRAMES && g.kind[f].Data?)
  }

  predicate IsWindow(g: Guest, v: nat) {
    exists w :: 0 <= w < |g.windows| && g.windows[w].page == v
  }

  /** Program pages map data frames; windows lie above them, on frames of their own. */
  ghost predicate Leaves(g: Guest)
    requires Sized(g)
  {
    && (forall s: nat, v: nat {:trigger g.PteAt(s, v)} :: s < |g.dirs| && v < USER_PAGES && g.PteAt(s, v).present ==>
          g.PteAt(s, v).frame < FRAMES && g.kind[g.PteAt(s, v).frame].Data?)
    && (forall w {:trigger g.windows[w]} :: 0 <= w < |g.windows| ==>
          USER_PAGES <= g.windows[w].page < ALL_PAGES && g.windows[w].frame < FRAMES &&
            g.kind[g.windows[w].frame] == Fixed)
  }

  /** Every space has all the windows, and nothing else above the program's half. */
  ghost predicate Windowed(g: Guest) {
    forall s: nat, v: nat {:trigger g.PteAt(s, v)} :: s < |g.dirs| && USER_PAGES <= v < ALL_PAGES ==>
      (g.PteAt(s, v).present <==> IsWindow(g, v))
  }

  // ---- Counting mappings ----

  function Maps(e: Pte, f: nat): nat {
    if e.present && e.frame == f then 1 else 0
  }

  function SpaceMaps(g: Guest, s: nat, f: nat, k: nat): nat {
    if k == 0 then 0 else SpaceMaps(g, s, f, k - 1) + Maps(g.PteAt(s, k - 1), f)
  }

  function MapsUpTo(g: Guest, f: nat, n: nat): nat {
    if n == 0 then 0 else MapsUpTo(g, f, n - 1) + SpaceMaps(g, n - 1, f, USER_PAGES)
  }

  /** How many program pages, over all spaces, map frame `f`. */
  function Mapped(g: Guest, f: nat): nat {
    MapsUpTo(g, f, |g.dirs|)
  }

  /** A data frame has one reference for each mapping, plus those in the kernel's hands: held for
      the moment, or leaked by an edit that overwrote a mapping without giving it up. */
  ghost predicate Counted(g: Guest, held: map<nat, nat>)
    requires |g.kind| == FRAMES
  {
    && (forall f: nat {:trigger Mapped(g, f)} :: f < FRAMES && g.kind[f].Data? ==>
         Refs(g.pool, f) == Mapped(g, f) + Held(held, f))
    && (forall f: nat {:trigger f in held} :: f in held && held[f] > 0 ==> f < FRAMES && g.kind[f].Data?)
  }

  function Held(held: map<nat, nat>, f: nat): nat {
    if f in held then held[f] else 0
  }

  function Hold(held: map<nat, nat>, f: nat): map<nat, nat> {
    held[f := Held(held, f) + 1]
  }

  ghost predicate Books(g: Guest, held: map<nat, nat>) {
    Sized(g) && Trees(g) && Pooled(g) && Leaves(g) && Counted(g, held)
  }

  /** A frame that one space can write is mapped by no other. */
  ghost predicate Apart(g: Guest) {
    forall s: nat, v: nat, s': nat, v': nat {:trigger g.PteAt(s, v), g.PteAt(s', v')} ::
      s < |g.dirs| && v < USER_PAGES && s' < |g.dirs| && v' < USER_PAGES
      && g.PteAt(s, v).present && g.PteAt(s, v).writable && g.PteAt(s', v').present
      && g.PteAt(s', v').frame == g.PteAt(s, v).frame
      ==> s' == s
  }
}
