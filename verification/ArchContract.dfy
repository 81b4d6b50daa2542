/** The contract that both memory backends share: each address space is its own private array
    of pages, and a fork copies the whole array at once. `K` names a page of a space. */
module ArchContract {
  type Bytes = seq<bv8>

  const PAGE_SIZE: nat := 4096

  function Zeros(): (z: Bytes)
    ensures |z| == PAGE_SIZE
  {
    seq(PAGE_SIZE, _ => 0 as bv8)
  }

  /** What a space observes at a page. */
  datatype Cell =
    | Ram(bytes: Bytes)
    | Trap
    | Device(page: nat)

  /** A page as a space sees it: its contents, and whether it refuses stores. */
  datatype Page = Page(cell: Cell, sealed: bool)

  const BLANK := Page(Ram(Zeros()), false)

  type Image<!K> = imap<K, Page>

  datatype Act<K> =
    | DoFork(s: nat)
    | DoStore(s: nat, q: K, off: nat, byte: bv8)
    | DoNothing
    | DoPut(s: nat, q: K, page: Page)
    | DoCopy(s: nat, src: K, dst: K)
    | DoSwap(s: nat, src: K, dst: K)
    | DoClear(s: nat)
    | DoCreate

  function Stored(p: Page, off: nat, b: bv8): Page {
    if p.cell.Ram? && !p.sealed && off < |p.cell.bytes| then p.(cell := Ram(p.cell.bytes[off := b])) else p
  }

  ghost predicate ActValid<K>(v: seq<Image<K>>, act: Act<K>) {
    && (!act.DoCreate? && !act.DoNothing? ==> act.s < |v|)
    && (act.DoStore? || act.DoPut? ==> act.q in v[act.s])
    && (act.DoCopy? || act.DoSwap? ==> act.src in v[act.s] && act.dst in v[act.s])
  }

  /** What every operation does to the arrays. */
  ghost function NextImages<K>(v: seq<Image<K>>, pages: iset<K>, act: Act<K>): seq<Image<K>>
    requires ActValid(v, act)
  {
    match act
    case DoFork(s) => v + [v[s]]
    case DoStore(s, q, off, b) => v[s := v[s][q := Stored(v[s][q], off, b)]]
    case DoNothing => v
    case DoPut(s, q, p) => v[s := v[s][q := p]]
    case DoCopy(s, src, dst) => v[s := v[s][dst := v[s][src]]]
    case DoSwap(s, a, b) => v[s := v[s][a := v[s][b]][b := v[s][a]]]
    case DoClear(s) => v[s := imap q | q in pages :: BLANK]
    case DoCreate => v + [imap q | q in pages :: BLANK]
  }

  ghost function AfterActs<K>(v: seq<Image<K>>, pages: iset<K>, acts: seq<Act<K>>): seq<Image<K>>
    decreases |acts|
  {
    if acts == [] || !ActValid(v, acts[0]) then v else AfterActs(NextImages(v, pages, acts[0]), pages, acts[1..])
  }
}
