/** The chunk objects both managers juggle, and the list operations of their
    shared updateChunkGrid loop, as functions on values. A chunk game object is
    a record in an arena (`seq<Chunk>`); the active list, the inactive pool and
    the grid hold arena indices, so that one object appears in several
    containers exactly as a reference does in the engine. */
module ChunkPool {
  import opened Geometry
  import opened ChunkGrid
  import opened VoxelMesh

  /** One chunk game object: its transform position, whether it is active in
      the scene, and the mesh last assigned to it. */
  datatype Chunk = Chunk(pos: Vec3, active: bool, mesh: Option<MeshData>)

  /** What a frame's grid computations hold fixed: the grid size, the chunk
      size, the offset and the quantised player position. */
  datatype Frame = Frame(chunkCount: int, chunkSize: int, offset: Vec3, playerPos: Vec3)
  {
    predicate Wf() { chunkSize > 0 }

    function Cell(pos: Vec3): (int, int)
      requires Wf()
    {
      CellIndex(pos, offset, playerPos, chunkSize)
    }

    /** checkBounds applied to the cell of pos. */
    predicate Covers(pos: Vec3)
      requires Wf()
    {
      CheckBounds(chunkCount, Cell(pos).0, Cell(pos).1)
    }

    function CellPos(x: int, z: int): Vec3 {
      CellWorldPos(x, z, chunkSize, offset, playerPos)
    }
  }

  predicate NoDup<T(==)>(s: seq<T>) {
    forall i, j | 0 <= i < j < |s| :: s[i] != s[j]
  }

  predicate IdsBelow(ids: seq<nat>, n: int) {
    forall i | 0 <= i < |ids| :: ids[i] < n
  }

  /** The chunk with this id falls inside the grid. */
  predicate Stays(f: Frame, chunks: seq<Chunk>, id: nat)
    requires f.Wf()
  {
    id < |chunks| && f.Covers(chunks[id].pos)
  }

  /** Stays as a function value, the test updateChunkGrid applies to each chunk. */
  function StaysIn(f: Frame, chunks: seq<Chunk>): nat -> bool {
    (id: nat) => f.Wf() && Stays(f, chunks, id)
  }

  /** The ids, in order, that pass the test p. */
  function Filter(p: nat -> bool, ids: seq<nat>): seq<nat> {
    if |ids| == 0 then []
    else
      var id := ids[|ids| - 1];
      Filter(p, ids[..|ids| - 1]) + (if p(id) then [id] else [])
  }

  /** The ids, in order, that fail the test p. */
  function Reject(p: nat -> bool, ids: seq<nat>): seq<nat> {
    if |ids| == 0 then []
    else
      var id := ids[|ids| - 1];
      Reject(p, ids[..|ids| - 1]) + (if p(id) then [] else [id])
  }

  /** The chunks of ids, in order, that updateChunkGrid leaves in the active list. */
  function Kept(f: Frame, chunks: seq<Chunk>, ids: seq<nat>): seq<nat> {
    Filter(StaysIn(f, chunks), ids)
  }

  /** The chunks of ids, in order, that updateChunkGrid moves to the inactive pool. */
  function Evicted(f: Frame, chunks: seq<Chunk>, ids: seq<nat>): seq<nat> {
    Reject(StaysIn(f, chunks), ids)
  }

  /** The chunk the grid ends up holding in cell (x, z) when the chunks of ids
      are written in order: the last one whose cell it is. */
  function Placed(f: Frame, chunks: seq<Chunk>, ids: seq<nat>, x: int, z: int): Option<nat>
    requires f.Wf()
  {
    if |ids| == 0 then None
    else
      var id := ids[|ids| - 1];
      if id < |chunks| && f.Cell(chunks[id].pos) == (x, z) then Some(id)
      else Placed(f, chunks, ids[..|ids| - 1], x, z)
  }

  /** A grid cell after a write of w, if there is one. */
  function Over(old_: Option<nat>, w: Option<nat>): Option<nat> {
    if w.Some? then w else old_
  }

  /** SetActive(false) on each chunk of ids. */
  function Deactivate(chunks: seq<Chunk>, ids: seq<nat>): seq<Chunk> {
    if |ids| == 0 then chunks
    else
      var c := Deactivate(chunks, ids[..|ids| - 1]);
      var id := ids[|ids| - 1];
      if id < |c| then c[id := c[id].(active := false)] else c
  }

  /** Every id either passes or fails, none is lost or duplicated: the two
      lists together are a permutation of the input. */
  lemma {:induction false} FilterRejectSplit(p: nat -> bool, ids: seq<nat>)
    ensures multiset(Filter(p, ids)) + multiset(Reject(p, ids)) == multiset(ids)
  {
    if |ids| > 0 {
      var q := ids[..|ids| - 1];
      var id := ids[|ids| - 1];
      FilterRejectSplit(p, q);
      assert ids == q + [id];
    }
  }

  lemma {:induction false} FilterPasses(p: nat -> bool, ids: seq<nat>)
    ensures forall i | 0 <= i < |Filter(p, ids)| :: p(Filter(p, ids)[i])
  {
    if |ids| > 0 {
      FilterPasses(p, ids[..|ids| - 1]);
    }
  }

  lemma {:induction false} RejectFails(p: nat -> bool, ids: seq<nat>)
    ensures forall i | 0 <= i < |Reject(p, ids)| :: !p(Reject(p, ids)[i])
  {
    if |ids| > 0 {
      RejectFails(p, ids[..|ids| - 1]);
    }
  }

  /** updateChunkGrid's split of the active list: the kept and the evicted
      chunks are together a permutation of the list, so |active| + |inactive|
      is unchanged; every kept chunk lies in the grid and every evicted one
      outside it. */
  lemma KeptEvictedSplit(f: Frame, chunks: seq<Chunk>, ids: seq<nat>)
    requires f.Wf()
    ensures multiset(Kept(f, chunks, ids)) + multiset(Evicted(f, chunks, ids)) == multiset(ids)
    ensures |Kept(f, chunks, ids)| + |Evicted(f, chunks, ids)| == |ids|
    ensures forall i | 0 <= i < |Kept(f, chunks, ids)| :: Stays(f, chunks, Kept(f, chunks, ids)[i])
    ensures forall i | 0 <= i < |Evicted(f, chunks, ids)| :: !Stays(f, chunks, Evicted(f, chunks, ids)[i])
  {
    var p := StaysIn(f, chunks);
    FilterRejectSplit(p, ids);
    FilterPasses(p, ids);
    RejectFails(p, ids);
    assert |multiset(Kept(f, chunks, ids)) + multiset(Evicted(f, chunks, ids))| == |multiset(ids)|;
  }

  /** A cell holds only a chunk of the list whose computed cell it is. */
  lemma {:induction false} PlacedSound(f: Frame, chunks: seq<Chunk>, ids: seq<nat>, x: int, z: int)
    requires f.Wf() && Placed(f, chunks, ids, x, z).Some?
    ensures var id := Placed(f, chunks, ids, x, z).value;
            id in ids && id < |chunks| && f.Cell(chunks[id].pos) == (x, z)
  {
    var id := ids[|ids| - 1];
    if !(id < |chunks| && f.Cell(chunks[id].pos) == (x, z)) {
      PlacedSound(f, chunks, ids[..|ids| - 1], x, z);
    }
  }

  /** The cell of every listed chunk is occupied after the writes. */
  lemma {:induction false} PlacedComplete(f: Frame, chunks: seq<Chunk>, ids: seq<nat>, i: int)
    requires f.Wf() && 0 <= i < |ids| && ids[i] < |chunks|
    ensures Placed(f, chunks, ids, f.Cell(chunks[ids[i]].pos).0, f.Cell(chunks[ids[i]].pos).1).Some?
  {
    var c := f.Cell(chunks[ids[i]].pos);
    if i < |ids| - 1 && Placed(f, chunks, ids, c.0, c.1) != Some(ids[|ids| - 1]) {
      PlacedComplete(f, chunks, ids[..|ids| - 1], i);
    }
  }

  /** One more id: the kept and the evicted lists grow by it on their side,
      and a cell is taken over by it exactly when its cell is that one. */
  lemma StepLists(f: Frame, chunks: seq<Chunk>, ids: seq<nat>, id: nat)
    requires f.Wf()
    ensures Kept(f, chunks, ids + [id]) == Kept(f, chunks, ids) + (if Stays(f, chunks, id) then [id] else [])
    ensures Evicted(f, chunks, ids + [id]) == Evicted(f, chunks, ids) + (if Stays(f, chunks, id) then [] else [id])
  {
    assert (ids + [id])[..|ids|] == ids;
  }

  lemma DeactivateSnoc(chunks: seq<Chunk>, ids: seq<nat>, id: nat)
    ensures Deactivate(chunks, ids + [id]) ==
      (var c := Deactivate(chunks, ids); if id < |c| then c[id := c[id].(active := false)] else c)
  {
    assert (ids + [id])[..|ids|] == ids;
  }

  lemma PlacedStep(f: Frame, chunks: seq<Chunk>, ids: seq<nat>, id: nat)
    requires f.Wf()
    ensures forall x, z ::
      Placed(f, chunks, ids + [id], x, z) == (if id < |chunks| && f.Cell(chunks[id].pos) == (x, z) then Some(id) else Placed(f, chunks, ids, x, z))
  {
    assert (ids + [id])[..|ids|] == ids;
  }

  /** One turn of updateChunkGrid's loop, on values: with K the chunks kept
      and E those evicted among the first j, and the active list K followed
      by the unvisited rest, visiting id = ids[j] either keeps it in place
      (its cell is in bounds) or removes it from the active list, appends it
      to the evicted ones and deactivates it; and the grid cell of id now
      holds id. */
  lemma UpdateStep(f: Frame, chunks: seq<Chunk>, ids: seq<nat>, j: nat)
    requires f.Wf() && j < |ids| && IdsBelow(ids, |chunks|)
    ensures var K, E, id := Kept(f, chunks, ids[..j]), Evicted(f, chunks, ids[..j]), ids[j];
            var A, D := K + ids[j..], Deactivate(chunks, E);
            id < |chunks| && |D| == |chunks| && D[id].pos == chunks[id].pos && |K| < |A| && A[|K|] == id &&
            (Stays(f, chunks, id) ==>
               Kept(f, chunks, ids[..j + 1]) == K + [id] && Kept(f, chunks, ids[..j + 1]) + ids[j + 1..] == A &&
               Evicted(f, chunks, ids[..j + 1]) == E) &&
            (!Stays(f, chunks, id) ==>
               Kept(f, chunks, ids[..j + 1]) == K && Kept(f, chunks, ids[..j + 1]) + ids[j + 1..] == A[..|K|] + A[|K| + 1..] &&
               Evicted(f, chunks, ids[..j + 1]) == E + [id] &&
               Deactivate(chunks, E + [id]) == D[id := D[id].(active := false)])
    ensures forall x, z ::
      Placed(f, chunks, ids[..j + 1], x, z) ==
        (if f.Cell(chunks[ids[j]].pos) == (x, z) then Some(ids[j]) else Placed(f, chunks, ids[..j], x, z))
  {
    var K, E, id := Kept(f, chunks, ids[..j]), Evicted(f, chunks, ids[..j]), ids[j];
    var A := K + ids[j..];
    assert ids[..j + 1] == ids[..j] + [id];
    assert ids[j..] == [id] + ids[j + 1..];
    assert A[..|K|] == K && A[|K| + 1..] == ids[j + 1..];
    DeactivateEffect(chunks, E, id);
    StepLists(f, chunks, ids[..j], id);
    DeactivateSnoc(chunks, E, id);
    PlacedStep(f, chunks, ids[..j], id);
  }

  /** Deactivation touches only the active flag, and clears it exactly on the
      listed chunks. */
  lemma {:induction false} DeactivateEffect(chunks: seq<Chunk>, ids: seq<nat>, id: nat)
    requires id < |chunks|
    ensures |Deactivate(chunks, ids)| == |chunks|
    ensures Deactivate(chunks, ids)[id].pos == chunks[id].pos
    ensures Deactivate(chunks, ids)[id].mesh == chunks[id].mesh
    ensures Deactivate(chunks, ids)[id].active == (chunks[id].active && id !in ids)
  {
    if |ids| > 0 {
      var p := ids[..|ids| - 1];
      DeactivateEffect(chunks, p, id);
      assert ids == p + [ids[|ids| - 1]];
    }
  }

  /** Deactivation keeps the length of the arena. */
  lemma {:induction false} DeactivateLength(chunks: seq<Chunk>, ids: seq<nat>)
    ensures |Deactivate(chunks, ids)| == |chunks|
  {
    if |ids| > 0 {
      DeactivateLength(chunks, ids[..|ids| - 1]);
    }
  }

  /** A rearrangement of a duplicate-free list of ids below n is again one. */
  lemma PoolPerm(a: seq<nat>, b: seq<nat>, n: int)
    requires multiset(a) == multiset(b) && NoDup(a) && IdsBelow(a, n)
    ensures NoDup(b) && IdsBelow(b, n)
  {
    forall i | 0 <= i < |b|
      ensures b[i] < n
    {
      assert b[i] in multiset(a);
    }
    forall i, j | 0 <= i < j < |b|
      ensures b[i] != b[j]
    {
      if b[i] == b[j] {
        TwiceCounted(b, i, j);
        OnceCounted(a, b[i]);
        assert false;
      }
    }
  }

  /** In a duplicate-free list every value occurs at most once. */
  lemma {:induction false} OnceCounted(a: seq<nat>, v: nat)
    requires NoDup(a)
    ensures multiset(a)[v] <= 1
  {
    if |a| > 0 {
      var p := a[..|a| - 1];
      assert a == p + [a[|a| - 1]];
      assert NoDup(p);
      OnceCounted(p, v);
    }
  }

  /** A value at two positions occurs at least twice. */
  lemma TwiceCounted(b: seq<nat>, i: int, j: int)
    requires 0 <= i < j < |b| && b[i] == b[j]
    ensures multiset(b)[b[i]] >= 2
  {
    assert b == b[..j] + [b[j]] + b[j + 1..];
    assert b[..j][i] == b[i];
    assert multiset(b[..j])[b[i]] >= 1;
  }

  /** A slice of a duplicate-free list of ids below n is again one. */
  lemma SlicePool(s: seq<nat>, lo: int, hi: int, n: int)
    requires 0 <= lo <= hi <= |s| && NoDup(s) && IdsBelow(s, n)
    ensures NoDup(s[lo..hi]) && IdsBelow(s[lo..hi], n)
  {
    forall i | 0 <= i < hi - lo ensures s[lo..hi][i] == s[lo + i] && s[lo + i] < n {
    }
  }

  /** Two duplicate-free lists with no value in common concatenate to one. */
  lemma NoDupConcat<T>(a: seq<T>, b: seq<T>)
    requires NoDup(a) && NoDup(b)
    requires forall i, j | 0 <= i < |a| && 0 <= j < |b| :: a[i] != b[j]
    ensures NoDup(a + b)
  {
    forall i, j | 0 <= i < j < |a + b| ensures (a + b)[i] != (a + b)[j] {
      if j < |a| {
      } else if i >= |a| {
        assert (a + b)[i] == b[i - |a|] && (a + b)[j] == b[j - |a|];
      } else {
        assert (a + b)[j] == b[j - |a|];
      }
    }
  }

  /** Appending an id above all pooled ids keeps the pool duplicate-free. */
  lemma PoolAppendFresh(a: seq<nat>, id: nat)
    requires NoDup(a) && IdsBelow(a, id)
    ensures NoDup(a + [id]) && IdsBelow(a + [id], id + 1)
  {
  }

  /** The ids lo, lo + 1, ..., hi - 1. */
  function Ids(lo: nat, hi: nat): (r: seq<nat>)
    requires lo <= hi
    ensures |r| == hi - lo && forall i | 0 <= i < |r| :: lo <= r[i] < hi
    decreases hi - lo
  {
    if lo == hi then [] else Ids(lo, hi - 1) + [hi - 1]
  }

  lemma {:induction false} IdsAppend(lo: nat, mid: nat, hi: nat)
    requires lo <= mid <= hi
    ensures Ids(lo, mid) + Ids(mid, hi) == Ids(lo, hi)
    decreases hi - mid
  {
    if mid < hi {
      IdsAppend(lo, mid, hi - 1);
    }
  }

  /** Appending the fresh ids lo .. hi - 1 to a pool whose ids are all below
      lo keeps it free of duplicates. */
  lemma PoolAppendIds(a: seq<nat>, lo: nat, hi: nat)
    requires lo <= hi && NoDup(a) && IdsBelow(a, lo)
    ensures NoDup(a + Ids(lo, hi)) && IdsBelow(a + Ids(lo, hi), hi)
  {
    IdsNoDup(lo, hi);
    NoDupConcat(a, Ids(lo, hi));
  }

  lemma {:induction false} IdsNoDup(lo: nat, hi: nat)
    requires lo <= hi
    ensures NoDup(Ids(lo, hi))
    decreases hi - lo
  {
    if lo < hi {
      IdsNoDup(lo, hi - 1);
    }
  }

  /** The world positions of cells (x, 0), ..., (x, z - 1). */
  function RowCells(f: Frame, x: int, z: int): seq<Vec3>
    decreases z
  {
    if z <= 0 then [] else RowCells(f, x, z - 1) + [f.CellPos(x, z - 1)]
  }

  /** The world positions of rows 0 .. x - 1, in the x-major then z order of
      the managers' nested loops. */
  function GridCells(f: Frame, x: int): seq<Vec3>
    decreases x
  {
    if x <= 0 then [] else GridCells(f, x - 1) + RowCells(f, x - 1, f.chunkCount)
  }

  /** chunkCount rows of chunkCount cells: chunkCount * chunkCount positions. */
  lemma {:induction false} GridCellsLength(f: Frame, x: nat)
    requires f.chunkCount >= 0
    ensures |GridCells(f, x)| == x * f.chunkCount
  {
    if x > 0 {
      GridCellsLength(f, x - 1);
      RowCellsLength(f, x - 1, f.chunkCount);
    }
  }

  lemma {:induction false} RowCellsLength(f: Frame, x: int, z: nat)
    ensures |RowCells(f, x, z)| == z
  {
    if z > 0 {
      RowCellsLength(f, x, z - 1);
    }
  }

  /** The chunks createChunk makes for a list of positions (active, no mesh). */
  function NewChunks(ps: seq<Vec3>): (r: seq<Chunk>)
    ensures |r| == |ps|
  {
    if |ps| == 0 then [] else NewChunks(ps[..|ps| - 1]) + [Chunk(ps[|ps| - 1], true, None)]
  }

  lemma {:induction false} NewChunksAppend(a: seq<Vec3>, b: seq<Vec3>)
    ensures NewChunks(a + b) == NewChunks(a) + NewChunks(b)
    decreases |b|
  {
    if |b| > 0 {
      var b0 := b[..|b| - 1];
      assert (a + b)[..|a + b| - 1] == a + b0;
      assert (a + b)[|a + b| - 1] == b[|b| - 1];
      NewChunksAppend(a, b0);
      assert NewChunks(a + b) == NewChunks(a + b0) + [Chunk(b[|b| - 1], true, None)];
      assert NewChunks(b) == NewChunks(b0) + [Chunk(b[|b| - 1], true, None)];
      assert NewChunks(a) + NewChunks(b) == (NewChunks(a) + NewChunks(b0)) + [Chunk(b[|b| - 1], true, None)];
    } else {
      assert a + b == a && NewChunks(a) + NewChunks(b) == NewChunks(a);
    }
  }

  /** The i-th new chunk stands at the i-th position. */
  lemma {:induction false} NewChunksAt(ps: seq<Vec3>, i: int)
    requires 0 <= i < |ps|
    ensures NewChunks(ps)[i] == Chunk(ps[i], true, None)
  {
    if i < |ps| - 1 {
      NewChunksAt(ps[..|ps| - 1], i);
    }
  }

  /** The chunk objects with the two containers that own them: the active
      list and the inactive list (the stream-era manager uses it as a stack
      whose top is the last element). */
  datatype Pools = Pools(chunks: seq<Chunk>, active: seq<nat>, inactive: seq<nat>)
  {
    /** Every pooled id names a chunk, and no chunk is pooled twice. */
    predicate Wf() {
      IdsBelow(active + inactive, |chunks|) && NoDup(active + inactive)
    }

    lemma Members()
      requires Wf()
      ensures IdsBelow(active, |chunks|) && IdsBelow(inactive, |chunks|)
    {
      SlicePool(active + inactive, 0, |active|, |chunks|);
      SlicePool(active + inactive, |active|, |active + inactive|, |chunks|);
      assert (active + inactive)[..|active|] == active;
      assert (active + inactive)[|active|..] == inactive;
    }
  }

  /** A grid's contents as a value: g[x][z] is cell (x, z). */
  type Grid = seq<seq<Option<nat>>>

  /** Cell (a, b) of g; a cell outside g reads as empty. */
  function At(g: Grid, a: int, b: int): Option<nat> {
    if 0 <= a < |g| && 0 <= b < |g[a]| then g[a][b] else None
  }

  /** The contents of the array grid g. */
  function Snap(g: array2<Option<nat>>): (r: Grid)
    reads g
    ensures forall a, b | 0 <= a < g.Length0 && 0 <= b < g.Length1 :: At(r, a, b) == g[a, b]
  {
    seq(g.Length0, a reads g => seq(g.Length1, b reads g => if 0 <= a < g.Length0 && 0 <= b < g.Length1 then g[a, b] else None))
  }
}
