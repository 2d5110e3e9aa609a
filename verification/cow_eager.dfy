/** The memory a fork that copies at once would give: every process has its own
    pages, a store changes them in place, and fork copies all of them. No
    roots, counts, borrows or faults appear here. */
module Eager {
  import opened Wrappers
  import opened CowState
  import opened CowView

  type World = map<Ctx, Memory>

  /** What user programs and the kernel may do to process memory, with the
      outcomes of the allocators they call (`r`, `id`, `frames`, `ids`). */
  datatype Label =
    | NewProcess(c: Ctx)
    | Segment(c: Ctx, v: nat, prot: Prot, kind: RootKind, r: Id, id: Id, frames: seq<Frame>, init: seq<Page>)
    | AddThread(c: Ctx, v: nat)
    | Fork(c: Ctx, child: Ctx, ids: seq<(Id, Id)>)
    | Store(c: Ctx, v: nat, off: nat, b: int, r: Id, id: Id, frames: seq<Frame>)
    | Unmap(c: Ctx, v: nat, n: nat)
    | Exit(c: Ctx)
    // Memory the kernel keeps a handle on, such as its own image: made, lent to a
    // process with what it holds at that moment, and given up.
    | Keep(r: Id, kind: RootKind, frames: seq<Frame>, init: seq<Page>)
    | LendKept(c: Ctx, v: nat, prot: Prot, r: Id, id: Id, pages: seq<Page>)
    | LetGo(r: Id)

  predicate Pages(v: nat, n: nat, p: nat) { v <= p < v + n }

  function NewCells(v: nat, prot: Prot, r: Id, init: seq<Page>): Memory {
    map p: nat | v <= p < v + |init| && Pages(v, |init|, p) ::
      Cell(init[p - v], prot, if prot.shared then Some(Place(r, p - v)) else None)
  }

  function Poke(cell: Cell, off: nat, b: int): Cell {
    cell.(data := cell.data[off := b])
  }

  function PokePage(m: Memory, v: nat, off: nat, b: int): Memory {
    map p | p in m :: if p == v then Poke(m[p], off, b) else m[p]
  }

  /** A store to shared memory shows through every window on the object. */
  function PokeObject(m: Memory, obj: Place, off: nat, b: int): Memory {
    map p | p in m :: if m[p].obj == Some(obj) then Poke(m[p], off, b) else m[p]
  }

  function StoreAt(w: World, c: Ctx, v: nat, off: nat, b: int): World
    requires c in w && v in w[c]
  {
    if w[c][v].obj.None? then w[c := PokePage(w[c], v, off, b)]
    else map d | d in w :: PokeObject(w[d], w[c][v].obj.value, off, b)
  }

  function Step(w: World, a: Label): World {
    match a
    case NewProcess(c) => w[c := map[]]
    case Segment(c, v, prot, kind, r, id, frames, init) =>
      if c in w then w[c := w[c] + NewCells(v, prot, r, init)] else w
    case AddThread(c, v) => w
    case Fork(c, child, ids) => if c in w then w[child := w[c]] else w
    case Store(c, v, off, b, r, id, frames) =>
      if c in w && v in w[c] && w[c][v].prot.write then StoreAt(w, c, v, off, b) else w
    case Unmap(c, v, n) => if c in w then w[c := map p | p in w[c] && !Pages(v, n, p) :: w[c][p]] else w
    case Exit(c) => w - {c}
    case Keep(_, _, _, _) => w
    case LendKept(c, v, prot, r, id, pages) => if c in w then w[c := w[c] + NewCells(v, prot, r, pages)] else w
    case LetGo(_) => w
  }

  function Run(w: World, labels: seq<Label>): World
    decreases labels
  {
    if labels == [] then w else Run(Step(w, labels[0]), labels[1..])
  }
}
