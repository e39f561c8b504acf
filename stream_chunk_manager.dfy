/** The stream-era chunk manager (WorldGen/ChunkManager.cs): each frame it
    clears the grid, re-buckets the active chunks by cell and pools the ones
    that left the grid, orders the positions of empty cells from the world
    generation workers, and launches up to a budget of finished results into
    pooled chunks. The workers and their queues' locking are outside the
    model: the order and result queues are plain sequences. */
module StreamChunks {
  import opened Geometry
  import opened ChunkGrid
  import opened ChunkPool
  import opened VoxelMesh

  /** A worker's answer for one ordered position: ChunkVoxelData's chunkPos
      and the mesh built from it. */
  datatype ChunkResult = ChunkResult(chunkPos: Vec3, mesh: MeshData)

  /** The pools when updateChunkGrid has visited the first j chunks of the
      active list a0 (inactive stack i0, arena c0 at the start): the kept ones
      and the unvisited rest are active, the evicted ones pushed and
      deactivated. */
  function Visited(f: Frame, c0: seq<Chunk>, a0: seq<nat>, i0: seq<nat>, j: nat): Pools
    requires f.Wf() && j <= |a0|
  {
    var E := Evicted(f, c0, a0[..j]);
    Pools(Deactivate(c0, E), Kept(f, c0, a0[..j]) + a0[j..], i0 + E)
  }

  /** Visiting the next chunk: it sits at position |kept| of the active list;
      if it stays nothing changes, and otherwise it leaves the active list,
      is pushed onto the stack and deactivated. */
  lemma VisitedStep(f: Frame, c0: seq<Chunk>, a0: seq<nat>, i0: seq<nat>, j: nat)
    requires f.Wf() && j < |a0| && IdsBelow(a0, |c0|)
    ensures var p, id, k := Visited(f, c0, a0, i0, j), a0[j], |Kept(f, c0, a0[..j])|;
            k < |p.active| && p.active[k] == id && id < |p.chunks| && p.chunks[id].pos == c0[id].pos &&
            |Kept(f, c0, a0[..j + 1])| == (if Stays(f, c0, id) then k + 1 else k) &&
            Visited(f, c0, a0, i0, j + 1) ==
              if Stays(f, c0, id) then p
              else p.(chunks := p.chunks[id := p.chunks[id].(active := false)],
                      active := p.active[..k] + p.active[k + 1..], inactive := p.inactive + [id])
    ensures forall x, z ::
      Placed(f, c0, a0[..j + 1], x, z) ==
        (if f.Cell(c0[a0[j]].pos) == (x, z) then Some(a0[j]) else Placed(f, c0, a0[..j], x, z))
  {
    UpdateStep(f, c0, a0, j);
  }

  /** After the whole list: the kept chunks are active, the evicted ones
      pushed in order and deactivated, and the pools are still well formed. */
  lemma VisitedDone(f: Frame, c0: seq<Chunk>, a0: seq<nat>, i0: seq<nat>)
    requires f.Wf() && Pools(c0, a0, i0).Wf()
    ensures var p := Visited(f, c0, a0, i0, |a0|);
            p.Wf() && p.active == Kept(f, c0, a0) && p.inactive == i0 + Evicted(f, c0, a0) &&
            p.chunks == Deactivate(c0, Evicted(f, c0, a0))
  {
    var p := Visited(f, c0, a0, i0, |a0|);
    assert a0[..|a0|] == a0 && a0[|a0|..] == [];
    KeptEvictedSplit(f, c0, a0);
    DeactivateLength(c0, Evicted(f, c0, a0));
    calc {
      multiset(p.active + p.inactive);
      multiset(Kept(f, c0, a0)) + multiset(i0) + multiset(Evicted(f, c0, a0));
      multiset(a0 + i0);
    }
    PoolPerm(a0 + i0, p.active + p.inactive, |c0|);
  }

  /** The pools after updateChunkGrid: the chunks still in the grid stay
      active in their order, the others are deactivated and pushed on the
      inactive stack in the order they were found; no chunk is lost or
      duplicated. */
  function Updated(f: Frame, p: Pools): (r: Pools)
    requires f.Wf() && p.Wf()
    ensures r.Wf()
  {
    VisitedDone(f, p.chunks, p.active, p.inactive);
    var e := Evicted(f, p.chunks, p.active);
    Pools(Deactivate(p.chunks, e), Kept(f, p.chunks, p.active), p.inactive + e)
  }

  /** getChunk: pops and reactivates the top of the inactive stack when there
      is one, and otherwise creates a new chunk at the origin. */
  function TakeChunk(p: Pools): (r: (Pools, nat))
    requires IdsBelow(p.inactive, |p.chunks|)
    ensures |p.inactive| > 0 ==>
      r.1 == p.inactive[|p.inactive| - 1] && r.0.inactive == p.inactive[..|p.inactive| - 1] &&
      r.0.chunks == p.chunks[r.1 := p.chunks[r.1].(active := true)]
    ensures |p.inactive| == 0 ==>
      r.1 == |p.chunks| && r.0.inactive == [] && r.0.chunks == p.chunks + [Chunk(Zero3, true, None)]
    ensures r.0.active == p.active && r.1 < |r.0.chunks| && r.0.chunks[r.1].active
  {
    if |p.inactive| > 0 then
      var id := p.inactive[|p.inactive| - 1];
      (p.(chunks := p.chunks[id := p.chunks[id].(active := true)], inactive := p.inactive[..|p.inactive| - 1]), id)
    else
      (p.(chunks := p.chunks + [Chunk(Zero3, true, None)]), |p.chunks|)
  }

  /** One turn of launchOrderedChunks' loop: a chunk from getChunk, moved to
      the result's position, given its mesh and appended to the active list. */
  function LaunchOne(p: Pools, res: ChunkResult): Pools
    requires IdsBelow(p.inactive, |p.chunks|)
  {
    var (q, id) := TakeChunk(p);
    q.(chunks := q.chunks[id := q.chunks[id].(pos := res.chunkPos, mesh := Some(res.mesh))], active := q.active + [id])
  }

  /** The pools after launching the results rs in order. */
  function LaunchAll(p: Pools, rs: seq<ChunkResult>): (r: Pools)
    requires p.Wf()
    ensures r.Wf() && IdsBelow(r.active, |r.chunks|) && IdsBelow(r.inactive, |r.chunks|)
  {
    if |rs| == 0 then p.Members(); p
    else
      var q := LaunchAll(p, rs[..|rs| - 1]);
      LaunchOneWf(q, rs[|rs| - 1]);
      var r := LaunchOne(q, rs[|rs| - 1]);
      r.Members();
      r
  }

  /** Launching keeps the pools duplicate-free: the chunk taken leaves the
      inactive stack (or is new) and joins the active list. */
  lemma LaunchOneWf(p: Pools, res: ChunkResult)
    requires p.Wf()
    ensures IdsBelow(p.inactive, |p.chunks|) && LaunchOne(p, res).Wf()
  {
    p.Members();
    var (q, id) := TakeChunk(p);
    var r := LaunchOne(p, res);
    if |p.inactive| > 0 {
      var n := |p.inactive| - 1;
      assert p.active + p.inactive == p.active + p.inactive[..n] + [id];
      assert r.active + r.inactive == p.active + [id] + p.inactive[..n];
      assert multiset(p.active + p.inactive[..n] + [id]) == multiset(p.active + [id] + p.inactive[..n]);
      PoolPerm(p.active + p.inactive, r.active + r.inactive, |p.chunks|);
    } else {
      assert p.active + p.inactive == p.active;
      PoolAppendFresh(p.active, |p.chunks|);
    }
  }

  /** The ordered results launched so far: the active list grows by one entry
      per result, old entries stay in front, and the k-th new entry is a chunk
      at the k-th result's position, active, carrying its mesh. */
  lemma {:induction false} LaunchAllEffect(p: Pools, rs: seq<ChunkResult>)
    requires p.Wf()
    ensures |LaunchAll(p, rs).active| == |p.active| + |rs|
    ensures LaunchAll(p, rs).active[..|p.active|] == p.active
    ensures forall k | 0 <= k < |rs| ::
      var id := LaunchAll(p, rs).active[|p.active| + k];
      LaunchAll(p, rs).chunks[id] == Chunk(rs[k].chunkPos, true, Some(rs[k].mesh))
  {
    if |rs| > 0 {
      var rs0 := rs[..|rs| - 1];
      var q := LaunchAll(p, rs0);
      LaunchAllEffect(p, rs0);
      LaunchOneWf(q, rs[|rs| - 1]);
      var r := LaunchOne(q, rs[|rs| - 1]);
      var (q1, id) := TakeChunk(q);
      assert r.active == q.active + [id];
      forall k | 0 <= k < |rs|
        ensures r.chunks[r.active[|p.active| + k]] == Chunk(rs[k].chunkPos, true, Some(rs[k].mesh))
      {
        if k < |rs| - 1 {
          var idk := q.active[|p.active| + k];
          assert r.active[|p.active| + k] == idk;
          assert idk != id by {
            if |q.inactive| > 0 {
              var last := |q.inactive| - 1;
              assert idk == (q.active + q.inactive)[|p.active| + k];
              assert id == (q.active + q.inactive)[|q.active| + last];
            }
          }
          assert r.chunks[idk] == q1.chunks[idk] == q.chunks[idk];
        }
      }
    }
  }

  /** getChunk creates a chunk only when the stack is empty: launching rs
      creates exactly the results the inactive stack cannot serve. */
  lemma {:induction false} LaunchAllCreates(p: Pools, rs: seq<ChunkResult>)
    requires p.Wf()
    ensures |LaunchAll(p, rs).chunks| == |p.chunks| + (if |rs| > |p.inactive| then |rs| - |p.inactive| else 0)
    ensures |LaunchAll(p, rs).inactive| == (if |rs| > |p.inactive| then 0 else |p.inactive| - |rs|)
  {
    if |rs| > 0 {
      var q := LaunchAll(p, rs[..|rs| - 1]);
      LaunchAllCreates(p, rs[..|rs| - 1]);
      LaunchOneWf(q, rs[|rs| - 1]);
      var (q1, id) := TakeChunk(q);
      assert |LaunchAll(p, rs).chunks| == |q1.chunks| && LaunchAll(p, rs).inactive == q1.inactive;
    }
  }

  /** The number of results one launchOrderedChunks call handles. */
  function LaunchBudget(available: nat, maxLaunches: int): (n: nat)
    ensures n <= available && (maxLaunches > 0 ==> n <= maxLaunches) && (maxLaunches <= 0 ==> n == 0)
    ensures n == available || n == maxLaunches || maxLaunches <= 0
  {
    if maxLaunches <= 0 then 0 else if available < maxLaunches then available else maxLaunches
  }

  /** The positions of a sequence of results. */
  function Positions(rs: seq<ChunkResult>): set<Vec3> {
    set i | 0 <= i < |rs| :: rs[i].chunkPos
  }

  /** The positions orderNewChunks enqueues for cells (x, 0) .. (x, z - 1):
      those of empty cells that are not pending. */
  function RowOrders(g: array2<Option<nat>>, f: Frame, pend: set<Vec3>, x: int, z: int): seq<Vec3>
    requires 0 <= x < g.Length0 && 0 <= z <= g.Length1
    reads g
    decreases z
  {
    if z == 0 then []
    else
      RowOrders(g, f, pend, x, z - 1) +
      (if g[x, z - 1].None? && f.CellPos(x, z - 1) !in pend then [f.CellPos(x, z - 1)] else [])
  }

  /** The positions orderNewChunks enqueues for rows 0 .. x - 1. */
  function GridOrders(g: array2<Option<nat>>, f: Frame, pend: set<Vec3>, x: int): seq<Vec3>
    requires 0 <= x <= g.Length0
    reads g
    decreases x
  {
    if x == 0 then [] else GridOrders(g, f, pend, x - 1) + RowOrders(g, f, pend, x - 1, g.Length1)
  }

  /** Each ordered position was not pending, and lies in a cell (x, b) with b < z. */
  lemma {:induction false} RowOrdersBefore(g: array2<Option<nat>>, f: Frame, pend: set<Vec3>, x: int, z: int)
    requires f.Wf() && 0 <= x < g.Length0 && 0 <= z <= g.Length1
    ensures forall i | 0 <= i < |RowOrders(g, f, pend, x, z)| ::
      RowOrders(g, f, pend, x, z)[i] !in pend &&
      f.Cell(RowOrders(g, f, pend, x, z)[i]).0 == x && f.Cell(RowOrders(g, f, pend, x, z)[i]).1 < z
  {
    if z > 0 {
      RowOrdersBefore(g, f, pend, x, z - 1);
      CellRoundTrip(x, z - 1, f.chunkSize, f.offset, f.playerPos);
    }
  }

  lemma {:induction false} GridOrdersBefore(g: array2<Option<nat>>, f: Frame, pend: set<Vec3>, x: int)
    requires f.Wf() && 0 <= x <= g.Length0
    ensures forall i | 0 <= i < |GridOrders(g, f, pend, x)| ::
      GridOrders(g, f, pend, x)[i] !in pend && f.Cell(GridOrders(g, f, pend, x)[i]).0 < x
  {
    if x > 0 {
      GridOrdersBefore(g, f, pend, x - 1);
      RowOrdersBefore(g, f, pend, x - 1, g.Length1);
    }
  }

  /** No position is ordered twice in one call (distinct cells have distinct
      positions). */
  lemma {:induction false} GridOrdersNoDup(g: array2<Option<nat>>, f: Frame, pend: set<Vec3>, x: int)
    requires f.Wf() && 0 <= x <= g.Length0
    ensures NoDup(GridOrders(g, f, pend, x))
  {
    if x > 0 {
      var a, b := GridOrders(g, f, pend, x - 1), RowOrders(g, f, pend, x - 1, g.Length1);
      GridOrdersNoDup(g, f, pend, x - 1);
      RowOrdersNoDup(g, f, pend, x - 1, g.Length1);
      GridOrdersBefore(g, f, pend, x - 1);
      RowOrdersBefore(g, f, pend, x - 1, g.Length1);
      NoDupConcat(a, b);
    }
  }

  lemma {:induction false} RowOrdersNoDup(g: array2<Option<nat>>, f: Frame, pend: set<Vec3>, x: int, z: int)
    requires f.Wf() && 0 <= x < g.Length0 && 0 <= z <= g.Length1
    ensures NoDup(RowOrders(g, f, pend, x, z))
  {
    if z > 0 {
      RowOrdersNoDup(g, f, pend, x, z - 1);
      RowOrdersBefore(g, f, pend, x, z - 1);
      CellRoundTrip(x, z - 1, f.chunkSize, f.offset, f.playerPos);
    }
  }

  /** With an empty grid and nothing pending, orderNewChunks orders every
      cell: this is the first frame after init, which pools every chunk it
      creates instead of placing it. */
  lemma {:induction false} EmptyGridOrdersAll(g: array2<Option<nat>>, f: Frame, x: int)
    requires f.Wf() && 0 <= x <= g.Length0 && g.Length1 == f.chunkCount
    requires forall a, b | 0 <= a < g.Length0 && 0 <= b < g.Length1 :: g[a, b].None?
    ensures GridOrders(g, f, {}, x) == GridCells(f, x)
  {
    if x > 0 {
      EmptyGridOrdersAll(g, f, x - 1);
      EmptyRowOrdersAll(g, f, x - 1, g.Length1);
    }
  }

  lemma {:induction false} EmptyRowOrdersAll(g: array2<Option<nat>>, f: Frame, x: int, z: int)
    requires 0 <= x < g.Length0 && 0 <= z <= g.Length1
    requires forall b | 0 <= b < g.Length1 :: g[x, b].None?
    ensures RowOrders(g, f, {}, x, z) == RowCells(f, x, z)
  {
    if z > 0 {
      EmptyRowOrdersAll(g, f, x, z - 1);
    }
  }

  /** A sequence of n stop sentinels. */
  function Sentinels(n: nat): (r: seq<Vec3>)
    ensures |r| == n && forall i | 0 <= i < |r| :: r[i] == Down
  {
    if n == 0 then [] else Sentinels(n - 1) + [Down]
  }

  /** The elements of a sequence of positions, as a set. */
  function Elems(s: seq<Vec3>): set<Vec3> {
    set e | e in s
  }

  /** Soundness of orderNewChunks: every position ordered for rows below x
      is that of an empty cell in those rows, and was not pending. */
  lemma {:induction false} GridOrdersSound(g: array2<Option<nat>>, f: Frame, pend: set<Vec3>, x: int)
    requires f.Wf() && 0 <= x <= g.Length0
    ensures forall i | 0 <= i < |GridOrders(g, f, pend, x)| ::
      var e := GridOrders(g, f, pend, x)[i];
      0 <= f.Cell(e).0 < x && 0 <= f.Cell(e).1 < g.Length1 && g[f.Cell(e).0, f.Cell(e).1].None? &&
      e == f.CellPos(f.Cell(e).0, f.Cell(e).1) && e !in pend
  {
    GridOrdersBefore(g, f, pend, x);
    if x > 0 {
      GridOrdersSound(g, f, pend, x - 1);
      RowOrdersSound(g, f, pend, x - 1, g.Length1);
    }
  }

  /** Soundness for one row: a position ordered for cells (x, 0) .. (x, z - 1)
      is that of one of those cells, and that cell is empty. */
  lemma {:induction false} RowOrdersSound(g: array2<Option<nat>>, f: Frame, pend: set<Vec3>, x: int, z: int)
    requires f.Wf() && 0 <= x < g.Length0 && 0 <= z <= g.Length1
    ensures forall i | 0 <= i < |RowOrders(g, f, pend, x, z)| ::
      var e := RowOrders(g, f, pend, x, z)[i];
      f.Cell(e) == (x, f.Cell(e).1) && 0 <= f.Cell(e).1 < z && g[x, f.Cell(e).1].None? && e == f.CellPos(x, f.Cell(e).1)
  {
    if z > 0 {
      RowOrdersSound(g, f, pend, x, z - 1);
      CellRoundTrip(x, z - 1, f.chunkSize, f.offset, f.playerPos);
    }
  }

  /** Completeness of orderNewChunks: an empty cell in the rows below x whose
      position is not pending gets ordered. */
  lemma {:induction false} GridOrdersComplete(g: array2<Option<nat>>, f: Frame, pend: set<Vec3>, x: int, a: int, b: int)
    requires 0 <= a < x <= g.Length0 && 0 <= b < g.Length1 && g[a, b].None? && f.CellPos(a, b) !in pend
    ensures f.CellPos(a, b) in GridOrders(g, f, pend, x)
  {
    if a < x - 1 {
      GridOrdersComplete(g, f, pend, x - 1, a, b);
    } else {
      RowOrdersComplete(g, f, pend, a, g.Length1, b);
    }
  }

  /** After ordering, nothing is missing: the position of every empty cell
      of the grid is pending, either from before or as a new order. */
  lemma PendingCoversEmpty(g: array2<Option<nat>>, f: Frame, pend: set<Vec3>)
    ensures forall a, b | 0 <= a < g.Length0 && 0 <= b < g.Length1 && g[a, b].None? ::
      f.CellPos(a, b) in pend + Elems(GridOrders(g, f, pend, g.Length0))
  {
    forall a, b | 0 <= a < g.Length0 && 0 <= b < g.Length1 && g[a, b].None?
      ensures f.CellPos(a, b) in pend + Elems(GridOrders(g, f, pend, g.Length0))
    {
      if f.CellPos(a, b) !in pend {
        GridOrdersComplete(g, f, pend, g.Length0, a, b);
      }
    }
  }

  /** Completeness for one row. */
  lemma {:induction false} RowOrdersComplete(g: array2<Option<nat>>, f: Frame, pend: set<Vec3>, x: int, z: int, b: int)
    requires 0 <= x < g.Length0 && 0 <= b < z <= g.Length1 && g[x, b].None? && f.CellPos(x, b) !in pend
    ensures f.CellPos(x, b) in RowOrders(g, f, pend, x, z)
  {
    if b < z - 1 {
      RowOrdersComplete(g, f, pend, x, z - 1, b);
    }
  }

  /** One cell of orderNewChunks' inner loop. The pending set it tests has
      grown by the orders of the cells before (x, z), none of which has the
      position of (x, z); so testing it is testing the set the loops started
      with. */
  lemma OrderStep(g: array2<Option<nat>>, f: Frame, pend0: set<Vec3>, x: int, z: int, pend: set<Vec3>)
    requires f.Wf() && 0 <= x < g.Length0 && 0 <= z < g.Length1
    requires pend == pend0 + Elems(GridOrders(g, f, pend0, x)) + Elems(RowOrders(g, f, pend0, x, z))
    ensures f.CellPos(x, z) in pend <==> f.CellPos(x, z) in pend0
    ensures var e := f.CellPos(x, z);
            var added := if g[x, z].None? && e !in pend0 then [e] else [];
            RowOrders(g, f, pend0, x, z + 1) == RowOrders(g, f, pend0, x, z) + added &&
            Elems(RowOrders(g, f, pend0, x, z + 1)) == Elems(RowOrders(g, f, pend0, x, z)) + Elems(added)
  {
    var e := f.CellPos(x, z);
    GridOrdersSound(g, f, pend0, x);
    RowOrdersSound(g, f, pend0, x, z);
    CellRoundTrip(x, z, f.chunkSize, f.offset, f.playerPos);
    assert e !in Elems(GridOrders(g, f, pend0, x));
    assert e !in Elems(RowOrders(g, f, pend0, x, z));
  }

  /** The positions of the first k results, one more at a time. */
  lemma PositionsStep(rs: seq<ChunkResult>, k: int)
    requires 0 <= k < |rs|
    ensures Positions(rs[..k + 1]) == Positions(rs[..k]) + {rs[k].chunkPos}
  {
    var a, b := rs[..k + 1], rs[..k];
    assert forall i | 0 <= i < k :: a[i] == b[i];
    assert a[k] == rs[k];
  }

  /** Launching one more result extends the fold by one step. */
  lemma LaunchAllStep(p: Pools, rs: seq<ChunkResult>, k: int)
    requires p.Wf() && 0 <= k < |rs|
    ensures LaunchAll(p, rs[..k + 1]) == LaunchOne(LaunchAll(p, rs[..k]), rs[k])
  {
    assert rs[..k + 1][..k] == rs[..k];
  }

  class ChunkManager {
    /** ChunkConfig.chunkCount, ChunkConfig.chunkSize. */
    const chunkCount: int
    const chunkSize: int
    /** Settings.MaxChunkLaunchesPerUpdate. */
    const maxLaunches: int
    /** Settings.WorldGenThreads: the length of the worker array. */
    const workerCount: nat
    /** player.position, which the engine moves between frames. */
    var player: Vec3
    var offset: Vec3
    var chunks: seq<Chunk>
    var active: seq<nat>
    var inactive: seq<nat>
    var grid: array2<Option<nat>>
    var pending: set<Vec3>
    var orders: seq<Vec3>
    var results: seq<ChunkResult>

    predicate Valid()
      reads this
    {
      chunkSize > 0 && chunkCount >= 0 &&
      grid.Length0 == chunkCount && grid.Length1 == chunkCount &&
      Pools(chunks, active, inactive).Wf()
    }

    /** The quantities the grid computations of one frame share. */
    function CurrentFrame(): (f: Frame)
      reads this`offset, this`player
      ensures f.chunkCount == chunkCount && f.chunkSize == chunkSize
    {
      Frame(chunkCount, chunkSize, offset, if chunkSize > 0 then PlayerPos(player, chunkSize) else Zero3)
    }

    function CurrentPools(): Pools
      reads this`chunks, this`active, this`inactive
    {
      Pools(chunks, active, inactive)
    }

    /** Start, without the worker threads: settings in, then init. */
    constructor (chunkCount: int, chunkSize: int, maxLaunches: int, workerCount: nat, player: Vec3)
      requires chunkSize > 0 && chunkCount >= 0
      ensures Valid() && fresh(grid)
      ensures this.chunkCount == chunkCount && this.chunkSize == chunkSize
      ensures this.maxLaunches == maxLaunches && this.workerCount == workerCount && this.player == player
      ensures offset == GridOffset(chunkCount, chunkSize)
      ensures chunks == NewChunks(GridCells(CurrentFrame(), chunkCount))
      ensures active == [] && inactive == Ids(0, |chunks|)
      ensures pending == {} && orders == [] && results == []
      ensures forall x, z | 0 <= x < chunkCount && 0 <= z < chunkCount :: grid[x, z].None?
    {
      this.chunkCount, this.chunkSize := chunkCount, chunkSize;
      this.maxLaunches, this.workerCount := maxLaunches, workerCount;
      this.player := player;
      offset := Zero3;
      chunks, active, inactive := [], [], [];
      pending, orders, results := {}, [], [];
      grid := new Option<nat>[chunkCount, chunkCount]((x, z) => None);
      new;
      Init();
    }

    /** init: a fresh empty grid around the player, and one new chunk per
        cell, at the cell's world position, pushed onto the inactive stack. */
    method Init()
      requires Valid()
      modifies this`offset, this`grid, this`chunks, this`inactive
      ensures Valid() && fresh(grid)
      ensures offset == GridOffset(chunkCount, chunkSize)
      ensures forall x, z | 0 <= x < chunkCount && 0 <= z < chunkCount :: grid[x, z].None?
      ensures chunks == old(chunks) + NewChunks(GridCells(CurrentFrame(), chunkCount))
      ensures inactive == old(inactive) + Ids(|old(chunks)|, |chunks|)
    {
      offset := GridOffset(chunkCount, chunkSize);
      grid := new Option<nat>[chunkCount, chunkCount]((x, z) => None);
      InitChunks();
    }

    /** init's loops: the chunks of rows 0 .. chunkCount - 1. */
    method InitChunks()
      requires Valid()
      modifies this`chunks, this`inactive
      ensures Valid()
      ensures chunks == old(chunks) + NewChunks(GridCells(CurrentFrame(), chunkCount))
      ensures inactive == old(inactive) + Ids(|old(chunks)|, |chunks|)
    {
      ghost var f := CurrentFrame();
      var x := 0;
      while x < chunkCount
        invariant 0 <= x <= chunkCount && Valid()
        invariant chunks == old(chunks) + NewChunks(GridCells(f, x))
        invariant inactive == old(inactive) + Ids(|old(chunks)|, |chunks|)
      {
        ghost var c1 := chunks;
        InitRow(x);
        NewChunksAppend(GridCells(f, x), RowCells(f, x, chunkCount));
        IdsAppend(|old(chunks)|, |c1|, |chunks|);
        x := x + 1;
      }
    }

    /** init's inner loop over z for row x. */
    method InitRow(x: int)
      requires Valid()
      modifies this`chunks, this`inactive
      ensures Valid()
      ensures chunks == old(chunks) + NewChunks(RowCells(CurrentFrame(), x, chunkCount))
      ensures inactive == old(inactive) + Ids(|old(chunks)|, |chunks|)
    {
      ghost var f, c0, i0 := CurrentFrame(), chunks, inactive;
      var z := 0;
      while z < chunkCount
        invariant 0 <= z <= chunkCount
        invariant chunks == c0 + NewChunks(RowCells(f, x, z))
        invariant inactive == i0 + Ids(|c0|, |chunks|)
      {
        var chunkPos := IntVec(x, 0, z).Scale(chunkSize as real).Plus(offset).Plus(PlayerPos(player, chunkSize));
        assert chunkPos == f.CellPos(x, z);
        var id := CreateChunk(chunkPos);
        inactive := inactive + [id];
        assert Ids(|c0|, |chunks|) == Ids(|c0|, id) + [id];
        z := z + 1;
      }
      PoolAppendIds(active + i0, |c0|, |chunks|);
      assert active + inactive == (active + i0) + Ids(|c0|, |chunks|);
    }

    /** getChunk: the top of the inactive stack, reactivated, or else a new
        chunk at the origin. */
    method GetChunk() returns (id: nat)
      requires IdsBelow(inactive, |chunks|)
      modifies this`chunks, this`inactive
      ensures (CurrentPools(), id) == TakeChunk(old(CurrentPools()))
    {
      if |inactive| > 0 {
        id := inactive[|inactive| - 1];
        inactive := inactive[..|inactive| - 1];
        chunks := chunks[id := chunks[id].(active := true)];
      } else {
        id := CreateChunk(Zero3);
      }
    }

    /** createChunk: a new chunk object at pos. */
    method CreateChunk(pos: Vec3) returns (id: nat)
      modifies this`chunks
      ensures id == |old(chunks)| && chunks == old(chunks) + [Chunk(pos, true, None)]
    {
      id := |chunks|;
      chunks := chunks + [Chunk(pos, true, None)];
    }

    /** clear: drains the result queue, waits until no order is pending, and
        destroys every pooled chunk. */
    method Clear()
      requires Valid()
      modifies this`pending, this`results, this`active, this`inactive
      ensures Valid()
      ensures pending == {} && results == [] && active == [] && inactive == []
    {
      while |results| > 0
        invariant Valid()
      {
        var r := results[0];
        results := results[1..];
        pending := pending - {r.chunkPos};
      }
      // The workers deliver every pending order while clear waits.
      pending := {};
      while |active| > 0
        invariant Valid() && results == [] && pending == {}
      {
        ghost var s := active + inactive;
        SlicePool(s, 1, |s|, |chunks|);
        active := active[1..];
        assert active + inactive == s[1..];
      }
      while |inactive| > 0
        invariant Valid() && results == [] && pending == {} && active == []
      {
        ghost var s := inactive;
        assert active + inactive == s;
        SlicePool(s, 0, |s| - 1, |chunks|);
        inactive := inactive[..|inactive| - 1];
        assert active + inactive == s[..|s| - 1];
      }
    }

    /** clearChunkGrid: every cell becomes empty. */
    method ClearChunkGrid()
      requires Valid()
      modifies grid
      ensures forall x, z | 0 <= x < chunkCount && 0 <= z < chunkCount :: grid[x, z].None?
    {
      var x := 0;
      while x < chunkCount
        invariant 0 <= x <= chunkCount
        invariant forall a, b | 0 <= a < x && 0 <= b < chunkCount :: grid[a, b].None?
      {
        var z := 0;
        while z < chunkCount
          invariant 0 <= z <= chunkCount
          invariant forall a, b | 0 <= a < x && 0 <= b < chunkCount :: grid[a, b].None?
          invariant forall b | 0 <= b < z :: grid[x, b].None?
        {
          grid[x, z] := None;
          z := z + 1;
        }
        x := x + 1;
      }
    }

    /** orderNewChunks: the position of every empty cell that is not pending
        is sent to the workers and marked pending, in the loops' order. */
    method OrderNewChunks()
      requires Valid()
      modifies this`orders, this`pending
      ensures orders == old(orders) + GridOrders(grid, CurrentFrame(), old(pending), chunkCount)
      ensures pending == old(pending) + Elems(GridOrders(grid, CurrentFrame(), old(pending), chunkCount))
      ensures forall a, b | 0 <= a < chunkCount && 0 <= b < chunkCount && grid[a, b].None? ::
        CurrentFrame().CellPos(a, b) in pending
    {
      ghost var f, pend0 := CurrentFrame(), pending;
      var x := 0;
      while x < chunkCount
        invariant 0 <= x <= chunkCount
        invariant orders == old(orders) + GridOrders(grid, f, pend0, x)
        invariant pending == pend0 + Elems(GridOrders(grid, f, pend0, x))
      {
        OrderRow(x, pend0);
        assert Elems(GridOrders(grid, f, pend0, x + 1)) ==
               Elems(GridOrders(grid, f, pend0, x)) + Elems(RowOrders(grid, f, pend0, x, chunkCount));
        x := x + 1;
      }
      PendingCoversEmpty(grid, f, pend0);
    }

    /** orderNewChunks' inner loop over z for row x; pend0 is the pending set
        before the outer loop, which the earlier rows' orders have grown. */
    method OrderRow(x: int, ghost pend0: set<Vec3>)
      requires Valid() && 0 <= x < chunkCount
      requires pending == pend0 + Elems(GridOrders(grid, CurrentFrame(), pend0, x))
      modifies this`orders, this`pending
      ensures orders == old(orders) + RowOrders(grid, CurrentFrame(), pend0, x, chunkCount)
      ensures pending == old(pending) + Elems(RowOrders(grid, CurrentFrame(), pend0, x, chunkCount))
    {
      ghost var f := CurrentFrame();
      var z := 0;
      while z < chunkCount
        invariant 0 <= z <= chunkCount
        invariant orders == old(orders) + RowOrders(grid, f, pend0, x, z)
        invariant pending == old(pending) + Elems(RowOrders(grid, f, pend0, x, z))
      {
        var chunkPos := IntVec(x, 0, z).Scale(chunkSize as real).Plus(offset).Plus(PlayerPos(player, chunkSize));
        assert chunkPos == f.CellPos(x, z);
        OrderStep(grid, f, pend0, x, z, pending);
        if grid[x, z].None? && chunkPos !in pending {
          orders := orders + [chunkPos];
          pending := pending + {chunkPos};
        }
        z := z + 1;
      }
    }

    /** launchOrderedChunks: up to maxLaunches finished results, oldest first,
        each leaving the pending set and put into a chunk from getChunk. */
    method LaunchOrderedChunks()
      requires Valid()
      modifies this`results, this`pending, this`chunks, this`active, this`inactive
      ensures Valid()
      ensures var n := LaunchBudget(|old(results)|, maxLaunches);
              results == old(results)[n..] &&
              pending == old(pending) - Positions(old(results)[..n]) &&
              CurrentPools() == LaunchAll(old(CurrentPools()), old(results)[..n])
    {
      ghost var p0, r0 := CurrentPools(), results;
      var launchCount := 0;
      assert r0[..0] == [];
      while |results| > 0 && launchCount < maxLaunches
        invariant 0 <= launchCount <= |r0| && results == r0[launchCount..]
        invariant maxLaunches > 0 ==> launchCount <= maxLaunches
        invariant maxLaunches <= 0 ==> launchCount == 0
        invariant pending == old(pending) - Positions(r0[..launchCount])
        invariant CurrentPools() == LaunchAll(p0, r0[..launchCount])
        decreases |results|
      {
        var res := results[0];
        assert res == r0[launchCount];
        results := results[1..];
        pending := pending - {res.chunkPos};
        PositionsStep(r0, launchCount);
        LaunchAllStep(p0, r0, launchCount);
        LaunchOneWf(CurrentPools(), res);
        var id := GetChunk();
        chunks := chunks[id := chunks[id].(pos := res.chunkPos, mesh := Some(res.mesh))];
        active := active + [id];
        launchCount := launchCount + 1;
      }
    }

    /** stopThreads: one stop sentinel (Vector3.down) per worker. */
    method StopThreads()
      modifies this`orders
      ensures orders == old(orders) + Sentinels(workerCount)
    {
      var i := 0;
      while i < workerCount
        invariant 0 <= i <= workerCount && orders == old(orders) + Sentinels(i)
      {
        orders := orders + [Down];
        i := i + 1;
      }
    }

    /** One turn of updateChunkGrid's loop on active[i], the j-th chunk of
        the active list a0 the loop started from (arena c0, inactive list
        i0): a chunk whose cell is in bounds is written to it; any other is
        pushed onto the inactive stack, deactivated and removed from the
        active list. */
    method VisitChunk(i: int, ghost j: nat, ghost f: Frame, ghost c0: seq<Chunk>, ghost a0: seq<nat>, ghost i0: seq<nat>, ghost g0: Grid)
      returns (stays: bool)
      requires f == CurrentFrame() && f.Wf() && grid.Length0 == chunkCount && grid.Length1 == chunkCount
      requires IdsBelow(a0, |c0|) && j < |a0| && i == |Kept(f, c0, a0[..j])|
      requires CurrentPools() == Visited(f, c0, a0, i0, j)
      requires forall x, z | 0 <= x < chunkCount && 0 <= z < chunkCount ::
        grid[x, z] == Over(At(g0, x, z), Placed(f, c0, a0[..j], x, z))
      modifies this`active, this`inactive, this`chunks, grid
      ensures CurrentPools() == Visited(f, c0, a0, i0, j + 1)
      ensures |Kept(f, c0, a0[..j + 1])| == if stays then i + 1 else i
      ensures forall x, z | 0 <= x < chunkCount && 0 <= z < chunkCount ::
        grid[x, z] == Over(At(g0, x, z), Placed(f, c0, a0[..j + 1], x, z))
    {
      VisitedStep(f, c0, a0, i0, j);
      var id := active[i];
      var chunkPos := chunks[id].pos;
      var c := CellIndex(chunkPos, offset, PlayerPos(player, chunkSize), chunkSize);
      stays := CheckBounds(chunkCount, c.0, c.1);
      if stays {
        grid[c.0, c.1] := Some(id);
      } else {
        inactive := inactive + [id];
        chunks := chunks[id := chunks[id].(active := false)];
        active := active[..i] + active[i + 1..];
      }
    }

    /** updateChunkGrid: the chunks still inside the grid stay active, in
        order, and are written to their cells; the others are pushed onto the
        inactive stack, in order, and deactivated. */
    method UpdateChunkGrid()
      requires Valid()
      modifies this`active, this`inactive, this`chunks, grid
      ensures Valid() && CurrentPools() == Updated(CurrentFrame(), old(CurrentPools()))
      ensures forall x, z | 0 <= x < chunkCount && 0 <= z < chunkCount ::
        grid[x, z] == Over(old(grid[x, z]), Placed(CurrentFrame(), old(chunks), old(active), x, z))
    {
      ghost var f := CurrentFrame();
      ghost var a0, c0 := active, chunks;
      CurrentPools().Members();
      UpdateLoop(f, c0, a0);
      VisitedDone(f, c0, a0, old(inactive));
      assert a0[..|a0|] == a0;
    }

    /** Update, once per frame: clear the grid, re-place the active chunks
        (deactivating those that left it), order the missing chunks and
        launch the finished ones. */
    method Tick()
      requires Valid()
      modifies grid, this`active, this`inactive, this`chunks, this`orders, this`pending, this`results
      ensures Valid()
      ensures var n := LaunchBudget(|old(results)|, maxLaunches);
              CurrentPools() == LaunchAll(Updated(CurrentFrame(), old(CurrentPools())), old(results)[..n]) &&
              results == old(results)[n..] &&
              pending == (old(pending) + Elems(GridOrders(grid, CurrentFrame(), old(pending), chunkCount))) -
                         Positions(old(results)[..n])
      ensures forall x, z | 0 <= x < chunkCount && 0 <= z < chunkCount ::
        grid[x, z] == Placed(CurrentFrame(), old(chunks), old(active), x, z)
      ensures orders == old(orders) + GridOrders(grid, CurrentFrame(), old(pending), chunkCount)
    {
      ClearChunkGrid();
      UpdateChunkGrid();
      OrderNewChunks();
      LaunchOrderedChunks();
    }

    /** updateChunkGrid's loop, visiting the active list a0 of arena c0. */
    method UpdateLoop(ghost f: Frame, ghost c0: seq<Chunk>, ghost a0: seq<nat>)
      requires f == CurrentFrame() && f.Wf() && grid.Length0 == chunkCount && grid.Length1 == chunkCount
      requires a0 == active && c0 == chunks && IdsBelow(a0, |c0|)
      modifies this`active, this`inactive, this`chunks, grid
      ensures CurrentPools() == Visited(f, c0, a0, old(inactive), |a0|)
      ensures forall x, z | 0 <= x < chunkCount && 0 <= z < chunkCount ::
        grid[x, z] == Over(old(grid[x, z]), Placed(f, c0, a0[..|a0|], x, z))
    {
      ghost var g0 := Snap(grid);
      assert a0[..0] == [] && a0[0..] == a0;
      var i := 0;
      ghost var j := 0;
      while i < |active|
        invariant 0 <= j <= |a0| && i == |Kept(f, c0, a0[..j])| && |active| == i + |a0| - j
        invariant CurrentPools() == Visited(f, c0, a0, old(inactive), j)
        invariant forall x, z | 0 <= x < chunkCount && 0 <= z < chunkCount ::
          grid[x, z] == Over(At(g0, x, z), Placed(f, c0, a0[..j], x, z))
        decreases |active| - i
      {
        var stays := VisitChunk(i, j, f, c0, a0, old(inactive), g0);
        if !stays {
          i := i - 1;
        }
        i := i + 1;
        j := j + 1;
      }
    }
  }
}
