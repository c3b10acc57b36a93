// The arena of back_edges structures (backgraph.c:46-118) on values: chunks linked through
// `cont`, a free list, and the header word of every object. The ghost parts say who owns
// each chunk; nothing in the program reads them.
module Arena {
  import opened Options
  import opened Heights

  const MAX_IN := 10
  const MAX_BACK_EDGE_STRUCTS := 100000

  // The number of edges that k chunks hold; edge i is in chunk ChunkOf(i), slot SlotOf(i).
  function Capacity(k: nat): nat {
    10 * k
  }

  function ChunkOf(i: nat): nat {
    i / 10
  }

  function SlotOf(i: nat): (slot: nat)
    ensures slot < MAX_IN
  {
    i % 10
  }

  type Slots = s: seq<Obj> | |s| == MAX_IN witness seq(MAX_IN, _ => 0)

  // struct back_edges_struct. `retain` is the RETAIN bit, the only flag there is.
  datatype BackEdges = BackEdges(nEdges: nat, retain: bool, heightGcNo: nat, height: Height, edges: Slots, cont: Option<nat>)

  const ZEROED_CHUNK := BackEdges(0, false, 0, 0, seq(MAX_IN, _ => 0), None)

  // oh_bg_ptr: nothing, one bare predecessor, or a tagged structure.
  datatype BackPtr = Null | One(pred: Obj) | Many(be: nat)

  // Free(k): place k of the free list, counted from its end; Owned(q, k): link k of the chain
  // of q; Loose: neither.
  datatype Owner = Free(place: nat) | Owned(obj: Obj, link: nat) | Loose

  // space  the chunks         n      GC_n_back_edge_structs     avail  avail_back_edges
  // bgPtr  the header word of every object with debug info
  // free   the free list, last chunk first      chains  the chunks of every object with a structure
  // cycle  the full number of the collection whose low bits are in heightGcNo
  datatype Store = Store(space: seq<BackEdges>, n: nat, avail: Option<nat>, bgPtr: map<Obj, BackPtr>,
                         free: seq<nat>, chains: map<Obj, seq<nat>>, owner: map<nat, Owner>, cycle: map<Obj, int>)

  // ----- Invariant -----

  function LinkAfter(chain: seq<nat>, k: nat): Option<nat> {
    if k + 1 < |chain| then Some(chain[k + 1]) else None
  }

  function LinkBelow(free: seq<nat>, k: nat): Option<nat>
    requires k <= |free|
  {
    if k > 0 then Some(free[k - 1]) else None
  }

  ghost predicate ChainOk(st: Store, q: Obj, chain: seq<nat>) {
    && |chain| > 0
    && (forall k :: 0 <= k < |chain| ==>
          chain[k] < st.n <= |st.space| && chain[k] in st.owner && st.owner[chain[k]] == Owned(q, k))
    && (forall k {:trigger LinkAfter(chain, k)} :: 0 <= k < |chain| ==> st.space[chain[k]].cont == LinkAfter(chain, k))
  }

  ghost predicate FreeOk(st: Store) {
    && st.avail == LinkBelow(st.free, |st.free|)
    && (forall k :: 0 <= k < |st.free| ==>
          st.free[k] < st.n <= |st.space| && st.free[k] in st.owner && st.owner[st.free[k]] == Free(k))
    && (forall k {:trigger LinkBelow(st.free, k)} :: 0 <= k < |st.free| ==>
          st.space[st.free[k]].cont == LinkBelow(st.free, k))
  }

  // Chunk c is where its owner says.
  ghost predicate Placed(st: Store, c: nat)
    requires c in st.owner
  {
    match st.owner[c]
    case Free(k) => k < |st.free| && st.free[k] == c
    case Owned(q, k) => q in st.chains && k < |st.chains[q]| && st.chains[q][k] == c
    case Loose => true
  }

  ghost predicate OwnersOk(st: Store) {
    && (forall c :: c in st.owner <==> 0 <= c < st.n)
    && (forall c {:trigger Placed(st, c)} :: c in st.owner ==> Placed(st, c))
  }

  // Chunks beyond GC_n_back_edge_structs have never been used and are still zeroed.
  ghost predicate UnusedOk(st: Store) {
    && |st.space| == MAX_BACK_EDGE_STRUCTS && st.n < MAX_BACK_EDGE_STRUCTS
    && (forall c :: st.n <= c < |st.space| ==> st.space[c].cont == None)
  }

  ghost predicate ArenaOk(st: Store) {
    && UnusedOk(st) && OwnersOk(st) && FreeOk(st)
    && (forall q :: q in st.chains ==> ChainOk(st, q, st.chains[q]))
  }

  // k chunks hold n edges with none to spare; one chunk is kept even without edges.
  predicate Fits(n: nat, k: nat) {
    n <= Capacity(k) && k > 0 && (k == 1 || Capacity(k - 1) < n)
  }

  // The header word and the chain of q agree, and the chain is as long as its edges need.
  ghost predicate ObjectReadable(st: Store, q: Obj) {
    && (q in st.chains <==> q in st.bgPtr && st.bgPtr[q].Many?)
    && (q in st.cycle <==> q in st.chains)
    && (q in st.chains ==>
          && |st.chains[q]| > 0 && st.bgPtr[q] == Many(st.chains[q][0])
          && (forall k :: 0 <= k < |st.chains[q]| ==> st.chains[q][k] < |st.space|)
          && Fits(st.space[st.chains[q][0]].nEdges, |st.chains[q]|))
  }

  ghost predicate Readable(st: Store) {
    forall q :: q in st.bgPtr || q in st.chains || q in st.cycle ==> ObjectReadable(st, q)
  }

  ghost function Head(st: Store, q: Obj): BackEdges
    requires ObjectReadable(st, q) && q in st.chains
  {
    st.space[st.chains[q][0]]
  }

  // The stamp in the chunk is the low half of the full cycle number.
  ghost predicate StampsMatch(st: Store)
    requires Readable(st)
  {
    forall q :: q in st.chains ==> Head(st, q).heightGcNo == Low16(st.cycle[q])
  }

  ghost predicate StoreOk(st: Store) {
    ArenaOk(st) && Readable(st) && StampsMatch(st)
  }

  // ----- The graph that a store represents -----

  function Just(p: Obj): seq<Obj> {
    seq(1, _ => p)
  }

  lemma JustOne(p: Obj)
    ensures Just(p) == [p]
  {
  }

  // The first n edges along a chain.
  ghost function ChainEdges(space: seq<BackEdges>, chain: seq<nat>, n: nat): (ps: seq<Obj>)
    requires n <= Capacity(|chain|) && (forall k :: 0 <= k < |chain| ==> chain[k] < |space|)
    ensures |ps| == n
  {
    seq(n, i requires 0 <= i < n => space[chain[ChunkOf(i)]].edges[SlotOf(i)])
  }

  ghost function PredsOf(st: Store, q: Obj): (ps: seq<Obj>)
    requires ObjectReadable(st, q) && q in st.bgPtr
  {
    match st.bgPtr[q]
    case Null => []
    case One(p) => Just(p)
    case Many(c) => ChainEdges(st.space, st.chains[q], st.space[c].nEdges)
  }

  ghost function GraphPreds(st: Store): Preds
    requires Readable(st)
  {
    map q | q in st.bgPtr :: PredsOf(st, q)
  }

  ghost function CellOf(st: Store, q: Obj): Cell
    requires ObjectReadable(st, q) && q in st.chains
  {
    Cell(Head(st, q).height, st.cycle[q])
  }

  ghost function GraphCells(st: Store): (cells: Cells)
    requires Readable(st)
    ensures cells.Keys == st.chains.Keys
  {
    map q | q in st.chains :: CellOf(st, q)
  }

  ghost function GraphRetain(st: Store): set<Obj>
    requires Readable(st)
  {
    set q | q in st.chains && Head(st, q).retain
  }

  // The chunks that nothing leads to any more.
  ghost function Lost(owner: map<nat, Owner>): set<nat> {
    set c | c in owner && owner[c] == Loose
  }
}
