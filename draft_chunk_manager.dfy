/** The first-draft chunk manager (Assets/Scripts/ChunkManager.cs): Start
    creates one chunk per grid cell; each frame it clears the grid, re-buckets
    the active chunks by cell, moving the ones outside the grid to the end of
    the inactive list, and redeploys inactive chunks, front first, into the
    empty cells in x-major order. No chunk is created after Start or ever
    destroyed, so the pool keeps chunkCount * chunkCount chunks. */
module DraftChunks {
  import opened Geometry
  import opened ChunkGrid
  import opened ChunkPool

  /** offset as the first draft writes it: minus half of chunkSize cells,
      where the stream-era manager takes half of chunkCount cells. */
  function DraftOffset(chunkSize: int): Vec3 {
    var h := (-chunkSize) as real / 2.0 * chunkSize as real;
    Vec3(h, 0.0, h)
  }

  /** getPlayerPos of the first draft: x and z quantised down to multiples of
      10, whatever the chunk size, and y dropped. */
  function DraftPlayerPos(player: Vec3): (r: Vec3)
    ensures r.y == 0.0
    ensures r.x <= player.x < r.x + 10.0 && r.z <= player.z < r.z + 10.0
  {
    Vec3(Quantise(player.x, 10.0), 0.0, Quantise(player.z, 10.0))
  }

  /** With chunkSize 16 and chunkCount 3, the player standing at the origin
      falls in cell (8, 8), outside the grid: the grid is not laid out around
      the player. */
  lemma DraftOffsetMissesPlayer()
    ensures var c := CellIndex(Zero3, DraftOffset(16), DraftPlayerPos(Zero3), 16);
            c == (8, 8) && !CheckBounds(3, c.0, c.1)
  {
    QuantiseUnique(0.0, 10.0, 0);
    FloorOfMultiple(8, 16.0, 128.0);
  }

  /** With chunkSize 16, a chunk placed at cell (1, 1) while the player is at
      the origin is, once the player has walked to x = 10, no longer at the
      position of the cell it is filed under: chunks and cells drift apart. */
  lemma DraftPlayerPosMisaligns()
    ensures var off, p2 := DraftOffset(16), DraftPlayerPos(Vec3(10.0, 0.0, 0.0));
            var pos := CellWorldPos(1, 1, 16, off, DraftPlayerPos(Zero3));
            var c := CellIndex(pos, off, p2, 16);
            CellWorldPos(c.0, c.1, 16, off, p2) != pos
  {
    QuantiseUnique(0.0, 10.0, 0);
    QuantiseUnique(10.0, 10.0, 1);
    FloorDiv(6.0, 16.0, 0);
  }

  /** The empty cells (x, 0) .. (x, z - 1) of g, in order. */
  function RowEmpty(g: Grid, x: int, z: int): seq<(int, int)>
    decreases z
  {
    if z <= 0 then [] else RowEmpty(g, x, z - 1) + (if At(g, x, z - 1).None? then [(x, z - 1)] else [])
  }

  /** The empty cells of rows 0 .. x - 1 of the n by n grid g, in
      deployInactiveChunks' order. */
  function EmptyCells(g: Grid, n: int, x: int): seq<(int, int)>
    decreases x
  {
    if x <= 0 then [] else EmptyCells(g, n, x - 1) + RowEmpty(g, x - 1, n)
  }

  /** Every listed cell of row x lies before column z and is empty. */
  lemma {:induction false} RowEmptySound(g: Grid, x: int, z: int)
    ensures forall i | 0 <= i < |RowEmpty(g, x, z)| ::
      var c := RowEmpty(g, x, z)[i];
      c.0 == x && 0 <= c.1 < z && At(g, x, c.1).None?
    decreases z
  {
    if z > 0 {
      RowEmptySound(g, x, z - 1);
    }
  }

  /** Every listed cell lies in a row before x, in a column before n, and is
      empty. */
  lemma {:induction false} EmptyCellsSound(g: Grid, n: int, x: int)
    ensures forall i | 0 <= i < |EmptyCells(g, n, x)| ::
      var c := EmptyCells(g, n, x)[i];
      0 <= c.0 < x && 0 <= c.1 < n && At(g, c.0, c.1).None?
    decreases x
  {
    if x > 0 {
      EmptyCellsSound(g, n, x - 1);
      RowEmptySound(g, x - 1, n);
    }
  }

  /** Every empty cell of rows 0 .. x - 1 is listed. */
  lemma {:induction false} EmptyCellsComplete(g: Grid, n: int, x: int, a: int, b: int)
    requires 0 <= a < x && 0 <= b < n && At(g, a, b).None?
    ensures (a, b) in EmptyCells(g, n, x)
    decreases x
  {
    if a < x - 1 {
      EmptyCellsComplete(g, n, x - 1, a, b);
    } else {
      RowEmptyComplete(g, a, n, b);
    }
  }

  lemma {:induction false} RowEmptyComplete(g: Grid, x: int, z: int, b: int)
    requires 0 <= b < z && At(g, x, b).None?
    ensures (x, b) in RowEmpty(g, x, z)
    decreases z
  {
    if b < z - 1 {
      RowEmptyComplete(g, x, z - 1, b);
    }
  }

  /** The cells of row x up to column z come first among those up to n. */
  lemma {:induction false} RowEmptyPrefix(g: Grid, x: int, z: int, n: int)
    requires 0 <= z <= n
    ensures |RowEmpty(g, x, z)| <= |RowEmpty(g, x, n)|
    ensures RowEmpty(g, x, z) == RowEmpty(g, x, n)[..|RowEmpty(g, x, z)|]
    decreases n
  {
    if z < n {
      RowEmptyPrefix(g, x, z, n - 1);
      var r := RowEmpty(g, x, n - 1);
      assert RowEmpty(g, x, n)[..|r|] == r;
    }
  }

  function Min(a: int, b: int): int {
    if a < b then a else b
  }

  /** The chunk deployInactiveChunks gives to cell c when the empty cells E are
      filled, in order, from the front of the list ids: the i-th listed cell
      receives ids[i], while ids last. */
  function Filled(E: seq<(int, int)>, ids: seq<nat>, c: (int, int)): Option<nat>
    decreases |E|
  {
    if |E| == 0 || |ids| == 0 then None
    else if E[0] == c then Some(ids[0])
    else Filled(E[1..], ids[1..], c)
  }

  /** A cell receives a chunk exactly when it is among the first
      min(|E|, |ids|) listed cells. */
  lemma {:induction false} FilledIff(E: seq<(int, int)>, ids: seq<nat>, c: (int, int))
    ensures Filled(E, ids, c).Some? <==> c in E[..Min(|E|, |ids|)]
    decreases |E|
  {
    if |E| > 0 && |ids| > 0 && E[0] != c {
      FilledIff(E[1..], ids[1..], c);
      var k := Min(|E|, |ids|);
      assert E[..k] == [E[0]] + E[1..][..k - 1];
    }
  }

  /** The chunk a cell receives is one of the first min(|E|, |ids|) of ids. */
  lemma {:induction false} FilledFrom(E: seq<(int, int)>, ids: seq<nat>, c: (int, int))
    requires Filled(E, ids, c).Some?
    ensures Filled(E, ids, c).value in ids[..Min(|E|, |ids|)]
    decreases |E|
  {
    if E[0] != c {
      FilledFrom(E[1..], ids[1..], c);
      var k := Min(|E|, |ids|);
      assert ids[..k] == [ids[0]] + ids[1..][..k - 1];
    }
  }

  lemma {:induction false} FilledSnoc(E: seq<(int, int)>, ids: seq<nat>, e: (int, int))
    requires e !in E
    ensures forall c :: Filled(E + [e], ids, c) == if c == e && |E| < |ids| then Some(ids[|E|]) else Filled(E, ids, c)
    decreases |E|
  {
    if |E| > 0 && |ids| > 0 {
      assert (E + [e])[1..] == E[1..] + [e];
      FilledSnoc(E[1..], ids[1..], e);
    }
  }

  /** Once ids has run out, further cells receive nothing. */
  lemma {:induction false} FilledSaturated(E1: seq<(int, int)>, E2: seq<(int, int)>, ids: seq<nat>)
    requires |E1| <= |E2| && E1 == E2[..|E1|] && |ids| <= |E1|
    ensures forall c :: Filled(E2, ids, c) == Filled(E1, ids, c)
    decreases |E1|
  {
    if |E1| > 0 && |ids| > 0 {
      FilledSaturated(E1[1..], E2[1..], ids[1..]);
    }
  }

  /** chunk.transform.position = p on chunk id. */
  function SetPos(chunks: seq<Chunk>, id: nat, p: Vec3): (r: seq<Chunk>)
    ensures |r| == |chunks|
  {
    if id < |chunks| then chunks[id := chunks[id].(pos := p)] else chunks
  }

  /** The chunks after the i-th listed cell's chunk ids[i] has been moved to
      that cell's world position, for each i below min(|E|, |ids|). */
  function Moved(chunks: seq<Chunk>, f: Frame, E: seq<(int, int)>, ids: seq<nat>): (r: seq<Chunk>)
    ensures |r| == |chunks|
    decreases |E|
  {
    if |E| == 0 || |ids| == 0 then chunks
    else Moved(SetPos(chunks, ids[0], f.CellPos(E[0].0, E[0].1)), f, E[1..], ids[1..])
  }

  lemma {:induction false} MovedSnoc(chunks: seq<Chunk>, f: Frame, E: seq<(int, int)>, ids: seq<nat>, e: (int, int))
    ensures Moved(chunks, f, E + [e], ids) ==
      if |E| < |ids| then SetPos(Moved(chunks, f, E, ids), ids[|E|], f.CellPos(e.0, e.1)) else Moved(chunks, f, E, ids)
    decreases |E|
  {
    if |E| > 0 && |ids| > 0 {
      assert (E + [e])[1..] == E[1..] + [e];
      MovedSnoc(SetPos(chunks, ids[0], f.CellPos(E[0].0, E[0].1)), f, E[1..], ids[1..], e);
    }
  }

  lemma {:induction false} MovedSaturated(chunks: seq<Chunk>, f: Frame, E1: seq<(int, int)>, E2: seq<(int, int)>, ids: seq<nat>)
    requires |E1| <= |E2| && E1 == E2[..|E1|] && |ids| <= |E1|
    ensures Moved(chunks, f, E2, ids) == Moved(chunks, f, E1, ids)
    decreases |E1|
  {
    if |E1| > 0 && |ids| > 0 {
      MovedSaturated(SetPos(chunks, ids[0], f.CellPos(E1[0].0, E1[0].1)), f, E1[1..], E2[1..], ids[1..]);
    }
  }

  /** A chunk that is not deployed keeps its position. */
  lemma {:induction false} MovedOther(chunks: seq<Chunk>, f: Frame, E: seq<(int, int)>, ids: seq<nat>, id: nat)
    requires id < |chunks| && id !in ids
    ensures Moved(chunks, f, E, ids)[id] == chunks[id]
    decreases |E|
  {
    if |E| > 0 && |ids| > 0 {
      assert ids[0] != id && id !in ids[1..];
      MovedOther(SetPos(chunks, ids[0], f.CellPos(E[0].0, E[0].1)), f, E[1..], ids[1..], id);
    }
  }

  /** The chunk a cell receives is moved to that cell's world position. */
  lemma {:induction false} MovedAt(chunks: seq<Chunk>, f: Frame, E: seq<(int, int)>, ids: seq<nat>, c: (int, int))
    requires NoDup(ids) && IdsBelow(ids, |chunks|) && Filled(E, ids, c).Some?
    ensures Filled(E, ids, c).value < |chunks|
    ensures Moved(chunks, f, E, ids)[Filled(E, ids, c).value].pos == f.CellPos(c.0, c.1)
    decreases |E|
  {
    var c1 := SetPos(chunks, ids[0], f.CellPos(E[0].0, E[0].1));
    assert NoDup(ids[1..]) && IdsBelow(ids[1..], |c1|) by {
      SlicePool(ids, 1, |ids|, |chunks|);
    }
    if E[0] == c {
      assert ids[0] !in ids[1..];
      MovedOther(c1, f, E[1..], ids[1..], ids[0]);
    } else {
      MovedAt(c1, f, E[1..], ids[1..], c);
    }
  }

  /** The pools after deployInactiveChunks has filled the empty cells E from
      the front of the inactive list: the chunks used are moved to their
      cells and join the end of the active list, and every chunk stays in
      exactly one of the two lists. */
  function Deployed(f: Frame, p: Pools, E: seq<(int, int)>): (r: Pools)
    ensures r.active + r.inactive == p.active + p.inactive && |r.chunks| == |p.chunks|
    ensures p.Wf() ==> r.Wf()
  {
    var k := Min(|E|, |p.inactive|);
    assert p.active + p.inactive[..k] + p.inactive[k..] == p.active + p.inactive;
    Pools(Moved(p.chunks, f, E, p.inactive), p.active + p.inactive[..k], p.inactive[k..])
  }

  /** One more empty cell, with chunks left: the front inactive chunk is
      moved to it and appended to the active list. */
  lemma DeployedSnoc(f: Frame, p: Pools, E: seq<(int, int)>, e: (int, int))
    requires |E| < |p.inactive|
    ensures var q, id := Deployed(f, p, E), p.inactive[|E|];
            |q.inactive| > 0 && q.inactive[0] == id &&
            Deployed(f, p, E + [e]) ==
              q.(chunks := SetPos(q.chunks, id, f.CellPos(e.0, e.1)), active := q.active + [id], inactive := q.inactive[1..])
  {
    MovedSnoc(p.chunks, f, E, p.inactive, e);
    var k := |E|;
    assert p.inactive[..k + 1] == p.inactive[..k] + [p.inactive[k]];
    assert p.inactive[k + 1..] == p.inactive[k..][1..];
  }

  lemma DeployedSaturated(f: Frame, p: Pools, E1: seq<(int, int)>, E2: seq<(int, int)>)
    requires |E1| <= |E2| && E1 == E2[..|E1|] && |p.inactive| <= |E1|
    ensures Deployed(f, p, E2) == Deployed(f, p, E1)
  {
    MovedSaturated(p.chunks, f, E1, E2, p.inactive);
  }

  /** After a deployment every chunk a cell received is at that cell's world
      position, so the cell computation of the same frame files it under that
      cell. A later frame whose DraftPlayerPos differs may not (see
      DraftPlayerPosMisaligns). */
  lemma DeployedInCell(f: Frame, p: Pools, E: seq<(int, int)>, c: (int, int))
    requires f.Wf() && p.Wf() && Filled(E, p.inactive, c).Some?
    ensures var id := Filled(E, p.inactive, c).value;
            id < |p.chunks| && Deployed(f, p, E).chunks[id].pos == f.CellPos(c.0, c.1) &&
            f.Cell(Deployed(f, p, E).chunks[id].pos) == c
  {
    p.Members();
    SlicePool(p.active + p.inactive, |p.active|, |p.active + p.inactive|, |p.chunks|);
    assert (p.active + p.inactive)[|p.active|..] == p.inactive;
    MovedAt(p.chunks, f, E, p.inactive, c);
    CellRoundTrip(c.0, c.1, f.chunkSize, f.offset, f.playerPos);
  }

  /** With enough inactive chunks every empty cell receives one, so a
      deployment then leaves no cell empty. */
  lemma DeployFillsAll(g: Grid, n: int, ids: seq<nat>)
    requires |EmptyCells(g, n, n)| <= |ids|
    ensures forall a, b | 0 <= a < n && 0 <= b < n :: Over(At(g, a, b), Filled(EmptyCells(g, n, n), ids, (a, b))).Some?
  {
    var E := EmptyCells(g, n, n);
    forall a, b | 0 <= a < n && 0 <= b < n
      ensures Over(At(g, a, b), Filled(E, ids, (a, b))).Some?
    {
      if At(g, a, b).None? {
        EmptyCellsComplete(g, n, n, a, b);
        FilledIff(E, ids, (a, b));
        assert E[..Min(|E|, |ids|)] == E;
      }
    }
  }

  /** One cell of deployInactiveChunks' inner loop with chunks left: the cell
      has not been written yet, and if it is empty the next chunk in the
      inactive list goes to it. */
  lemma DeployStep(f: Frame, p0: Pools, g0: Grid, n: int, x: int, z: int)
    requires 0 <= z < n
    requires |Deployed(f, p0, EmptyCells(g0, n, x) + RowEmpty(g0, x, z)).inactive| > 0
    ensures var Ez := EmptyCells(g0, n, x) + RowEmpty(g0, x, z);
            var q := Deployed(f, p0, Ez);
            (x, z) !in Ez && Filled(Ez, p0.inactive, (x, z)) == None && |Ez| < |p0.inactive| &&
            q.inactive[0] == p0.inactive[|Ez|]
    ensures var Ez := EmptyCells(g0, n, x) + RowEmpty(g0, x, z);
            var q, id := Deployed(f, p0, Ez), p0.inactive[|Ez|];
            var Ez1 := EmptyCells(g0, n, x) + RowEmpty(g0, x, z + 1);
            if At(g0, x, z).None? then
              Ez1 == Ez + [(x, z)] &&
              Deployed(f, p0, Ez1) ==
                q.(chunks := SetPos(q.chunks, id, f.CellPos(x, z)), active := q.active + [id], inactive := q.inactive[1..]) &&
              forall c :: Filled(Ez1, p0.inactive, c) == if c == (x, z) then Some(id) else Filled(Ez, p0.inactive, c)
            else Ez1 == Ez
  {
    var E0, R := EmptyCells(g0, n, x), RowEmpty(g0, x, z);
    var Ez := E0 + R;
    EmptyCellsSound(g0, n, x);
    RowEmptySound(g0, x, z);
    assert (x, z) !in E0;
    assert (x, z) !in R;
    FilledIff(Ez, p0.inactive, (x, z));
    if At(g0, x, z).None? {
      assert E0 + RowEmpty(g0, x, z + 1) == Ez + [(x, z)];
      DeployedSnoc(f, p0, Ez, (x, z));
      FilledSnoc(Ez, p0.inactive, (x, z));
    }
  }

  /** The end of row x once the inactive list is empty: the rest of the row
      changes nothing. */
  lemma DeployRowDone(f: Frame, p0: Pools, g0: Grid, n: int, x: int, z: int)
    requires 0 <= x && 0 <= z <= n
    requires |Deployed(f, p0, EmptyCells(g0, n, x) + RowEmpty(g0, x, z)).inactive| == 0
    ensures var Ez := EmptyCells(g0, n, x) + RowEmpty(g0, x, z);
            Deployed(f, p0, EmptyCells(g0, n, x + 1)) == Deployed(f, p0, Ez) &&
            forall c :: Filled(EmptyCells(g0, n, x + 1), p0.inactive, c) == Filled(Ez, p0.inactive, c)
  {
    var E0, R := EmptyCells(g0, n, x), RowEmpty(g0, x, z);
    var Rn := RowEmpty(g0, x, n);
    RowEmptyPrefix(g0, x, z, n);
    assert (E0 + Rn)[..|E0 + R|] == E0 + Rn[..|R|];
    DeployedSaturated(f, p0, E0 + R, E0 + Rn);
    FilledSaturated(E0 + R, E0 + Rn, p0.inactive);
  }

  /** Start's outer loop step: the chunks of rows 0 .. x - 1 followed by
      those of row x are the chunks of rows 0 .. x, with consecutive ids. */
  lemma RowsAppend(f: Frame, x: nat, c1: seq<Chunk>, a1: seq<nat>, c2: seq<Chunk>, a2: seq<nat>)
    requires c1 == NewChunks(GridCells(f, x)) && a1 == Ids(0, |c1|)
    requires c2 == c1 + NewChunks(RowCells(f, x, f.chunkCount)) && a2 == a1 + Ids(|c1|, |c2|)
    ensures c2 == NewChunks(GridCells(f, x + 1)) && a2 == Ids(0, |c2|)
  {
    NewChunksAppend(GridCells(f, x), RowCells(f, x, f.chunkCount));
    IdsAppend(0, |c1|, |c2|);
  }

  /** The pools when updateChunkGrid has visited the first j chunks of the
      active list a0 (inactive list i0, arena c0): the kept ones and the
      unvisited rest are active, the evicted ones appended to the inactive
      list; no chunk is changed. */
  function Visited(f: Frame, c0: seq<Chunk>, a0: seq<nat>, i0: seq<nat>, j: nat): Pools
    requires f.Wf() && j <= |a0|
  {
    Pools(c0, Kept(f, c0, a0[..j]) + a0[j..], i0 + Evicted(f, c0, a0[..j]))
  }

  lemma VisitedStep(f: Frame, c0: seq<Chunk>, a0: seq<nat>, i0: seq<nat>, j: nat)
    requires f.Wf() && j < |a0| && IdsBelow(a0, |c0|)
    ensures var p, id, k := Visited(f, c0, a0, i0, j), a0[j], |Kept(f, c0, a0[..j])|;
            k < |p.active| && p.active[k] == id && id < |c0| &&
            |Kept(f, c0, a0[..j + 1])| == (if Stays(f, c0, id) then k + 1 else k) &&
            Visited(f, c0, a0, i0, j + 1) ==
              if Stays(f, c0, id) then p
              else p.(active := p.active[..k] + p.active[k + 1..], inactive := p.inactive + [id])
    ensures forall x, z ::
      Placed(f, c0, a0[..j + 1], x, z) ==
        (if f.Cell(c0[a0[j]].pos) == (x, z) then Some(a0[j]) else Placed(f, c0, a0[..j], x, z))
  {
    UpdateStep(f, c0, a0, j);
  }

  lemma VisitedDone(f: Frame, c0: seq<Chunk>, a0: seq<nat>, i0: seq<nat>)
    requires f.Wf() && Pools(c0, a0, i0).Wf()
    ensures var p := Visited(f, c0, a0, i0, |a0|);
            p.Wf() && |p.active| + |p.inactive| == |a0| + |i0| &&
            p.active == Kept(f, c0, a0) && p.inactive == i0 + Evicted(f, c0, a0)
  {
    var p := Visited(f, c0, a0, i0, |a0|);
    assert a0[..|a0|] == a0 && a0[|a0|..] == [];
    KeptEvictedSplit(f, c0, a0);
    calc {
      multiset(p.active + p.inactive);
      multiset(Kept(f, c0, a0)) + multiset(i0) + multiset(Evicted(f, c0, a0));
      multiset(a0 + i0);
    }
    PoolPerm(a0 + i0, p.active + p.inactive, |c0|);
  }

  /** The pools after updateChunkGrid: the chunks still in the grid stay
      active in their order, the others move, in the order found, to the end
      of the inactive list; no chunk is lost, duplicated or changed. */
  function Updated(f: Frame, p: Pools): (r: Pools)
    requires f.Wf() && p.Wf()
    ensures r.Wf() && r.chunks == p.chunks && |r.active| + |r.inactive| == |p.active| + |p.inactive|
  {
    VisitedDone(f, p.chunks, p.active, p.inactive);
    Pools(p.chunks, Kept(f, p.chunks, p.active), p.inactive + Evicted(f, p.chunks, p.active))
  }

  /** The grid updateChunkGrid leaves behind a cleared grid. */
  function PlacedGrid(f: Frame, chunks: seq<Chunk>, ids: seq<nat>, n: nat): (g: Grid)
    requires f.Wf()
    ensures forall a, b | 0 <= a < n && 0 <= b < n :: At(g, a, b) == Placed(f, chunks, ids, a, b)
  {
    seq(n, a => seq(n, b => Placed(f, chunks, ids, a, b)))
  }

  class ChunkManager {
    const chunkCount: int
    const chunkSize: int
    const offset: Vec3
    /** The number of chunks Start makes: chunkCount * chunkCount. */
    ghost const poolSize: nat
    var player: Vec3
    var chunks: seq<Chunk>
    var active: seq<nat>
    var inactive: seq<nat>
    const grid: array2<Option<nat>>

    /** The pools hold exactly the poolSize chunks Start made, each in one
        list. */
    ghost predicate Full(p: Pools) {
      p.Wf() && |p.active| + |p.inactive| == |p.chunks| == poolSize
    }

    ghost predicate Valid()
      reads this
    {
      chunkSize > 0 && chunkCount >= 0 && offset == DraftOffset(chunkSize) &&
      grid.Length0 == chunkCount && grid.Length1 == chunkCount && Full(CurrentPools())
    }

    function CurrentFrame(): (f: Frame)
      reads this`player
      ensures f.chunkCount == chunkCount && f.chunkSize == chunkSize && f.offset == offset
    {
      Frame(chunkCount, chunkSize, offset, DraftPlayerPos(player))
    }

    function CurrentPools(): Pools
      reads this`chunks, this`active, this`inactive
    {
      Pools(chunks, active, inactive)
    }

    /** Start: an empty grid and one new active chunk per cell, at the cell's
        world position. */
    constructor (chunkCount: int, chunkSize: int, player: Vec3)
      requires chunkSize > 0 && chunkCount >= 0
      ensures Valid() && fresh(grid)
      ensures this.chunkCount == chunkCount && this.chunkSize == chunkSize && this.player == player
      ensures poolSize == chunkCount * chunkCount
      ensures chunks == NewChunks(GridCells(CurrentFrame(), chunkCount))
      ensures active == Ids(0, |chunks|) && inactive == []
      ensures forall x, z | 0 <= x < chunkCount && 0 <= z < chunkCount :: grid[x, z].None?
    {
      this.chunkCount, this.chunkSize := chunkCount, chunkSize;
      offset := DraftOffset(chunkSize);
      poolSize := chunkCount * chunkCount;
      this.player := player;
      chunks, active, inactive := [], [], [];
      grid := new Option<nat>[chunkCount, chunkCount]((x, z) => None);
      new;
      StartChunks();
      GridCellsLength(CurrentFrame(), chunkCount);
      IdsNoDup(0, |chunks|);
      assert active + inactive == Ids(0, |chunks|);
    }

    /** Start's loops: the chunks of rows 0 .. chunkCount - 1. */
    method StartChunks()
      requires chunkCount >= 0 && chunks == [] && active == []
      modifies this`chunks, this`active
      ensures chunks == NewChunks(GridCells(CurrentFrame(), chunkCount))
      ensures active == Ids(0, |chunks|)
    {
      ghost var f := CurrentFrame();
      var x := 0;
      while x < chunkCount
        invariant 0 <= x <= chunkCount
        invariant chunks == NewChunks(GridCells(f, x))
        invariant active == Ids(0, |chunks|)
      {
        ghost var c1, a1 := chunks, active;
        StartRow(x, f);
        RowsAppend(f, x, c1, a1, chunks, active);
        x := x + 1;
      }
    }

    /** Start's inner loop over z for row x. */
    method StartRow(x: int, ghost f: Frame)
      requires chunkCount >= 0 && f == CurrentFrame()
      modifies this`chunks, this`active
      ensures chunks == old(chunks) + NewChunks(RowCells(f, x, chunkCount))
      ensures active == old(active) + Ids(|old(chunks)|, |chunks|)
    {
      var z := 0;
      assert Ids(|chunks|, |chunks|) == [];
      while z < chunkCount
        invariant 0 <= z <= chunkCount
        invariant chunks == old(chunks) + NewChunks(RowCells(f, x, z))
        invariant active == old(active) + Ids(|old(chunks)|, |chunks|)
      {
        var chunkPos := IntVec(x, 0, z).Scale(chunkSize as real).Plus(offset).Plus(DraftPlayerPos(player));
        assert chunkPos == f.CellPos(x, z);
        ghost var c1 := chunks;
        var id := CreateChunk(chunkPos);
        active := active + [id];
        assert Ids(|old(chunks)|, |chunks|) == Ids(|old(chunks)|, |c1|) + [id];
        z := z + 1;
      }
    }

    /** createChunk: a new cube chunk at pos. */
    method CreateChunk(pos: Vec3) returns (id: nat)
      modifies this`chunks
      ensures id == |old(chunks)| && chunks == old(chunks) + [Chunk(pos, true, None)]
    {
      id := |chunks|;
      chunks := chunks + [Chunk(pos, true, None)];
    }

    /** Update, once per frame: clear the grid, re-place the active chunks
        (moving those that left it to the inactive list), then fill the
        empty cells from the inactive list. */
    method Tick()
      requires Valid()
      modifies grid, this`chunks, this`active, this`inactive
      ensures Valid()
      ensures var f := CurrentFrame();
              var p := Updated(f, old(CurrentPools()));
              var E := EmptyCells(PlacedGrid(f, old(chunks), old(active), chunkCount), chunkCount, chunkCount);
              CurrentPools() == Deployed(f, p, E) &&
              forall x, z | 0 <= x < chunkCount && 0 <= z < chunkCount ::
                grid[x, z] == Over(Placed(f, old(chunks), old(active), x, z), Filled(E, p.inactive, (x, z)))
    {
      ghost var f := CurrentFrame();
      ClearChunkGrid();
      UpdateChunkGrid();
      ghost var g1 := PlacedGrid(f, old(chunks), old(active), chunkCount);
      assert Snap(grid) == g1 by {
        assert forall a | 0 <= a < chunkCount :: Snap(grid)[a] == g1[a];
      }
      DeployInactiveChunks();
    }

    /** clearChunkGrid: every cell becomes empty. */
    method ClearChunkGrid()
      requires Valid()
      modifies grid
      ensures forall x, z | 0 <= x < chunkCount && 0 <= z < chunkCount :: grid[x, z].None?
    {
      var x := 0;
      while x < chunkCount
        invariant 0 <= x <= chunkCount
        invariant forall a, b | 0 <= a < x && 0 <= b < chunkCount :: grid[a, b].None?
      {
        var z := 0;
        while z < chunkCount
          invariant 0 <= z <= chunkCount
          invariant forall a, b | 0 <= a < x && 0 <= b < chunkCount :: grid[a, b].None?
          invariant forall b | 0 <= b < z :: grid[x, b].None?
        {
          grid[x, z] := None;
          z := z + 1;
        }
        x := x + 1;
      }
    }

    /** updateChunkGrid: the chunks still inside the grid stay active, in
        order, and are written to their cells; the others are appended, in
        order, to the inactive list. */
    method UpdateChunkGrid()
      requires Valid()
      modifies this`active, this`inactive, grid
      ensures Valid() && CurrentPools() == Updated(CurrentFrame(), old(CurrentPools()))
      ensures forall x, z | 0 <= x < chunkCount && 0 <= z < chunkCount ::
        grid[x, z] == Over(old(grid[x, z]), Placed(CurrentFrame(), chunks, old(active), x, z))
    {
      ghost var f := CurrentFrame();
      ghost var a0 := active;
      CurrentPools().Members();
      UpdateLoop(f, chunks, a0);
      VisitedDone(f, chunks, a0, old(inactive));
      assert a0[..|a0|] == a0;
    }

    /** updateChunkGrid's loop, visiting the active list a0 of arena c0. */
    method UpdateLoop(ghost f: Frame, ghost c0: seq<Chunk>, ghost a0: seq<nat>)
      requires f == CurrentFrame() && f.Wf() && grid.Length0 == chunkCount && grid.Length1 == chunkCount
      requires a0 == active && c0 == chunks && IdsBelow(a0, |c0|)
      modifies this`active, this`inactive, grid
      ensures CurrentPools() == Visited(f, c0, a0, old(inactive), |a0|)
      ensures forall x, z | 0 <= x < chunkCount && 0 <= z < chunkCount ::
        grid[x, z] == Over(old(grid[x, z]), Placed(f, c0, a0[..|a0|], x, z))
    {
      ghost var g0 := Snap(grid);
      assert a0[..0] == [] && a0[0..] == a0;
      var i := 0;
      ghost var j := 0;
      while i < |active|
        invariant 0 <= j <= |a0| && i == |Kept(f, c0, a0[..j])| && |active| == i + |a0| - j
        invariant CurrentPools() == Visited(f, c0, a0, old(inactive), j)
        invariant forall x, z | 0 <= x < chunkCount && 0 <= z < chunkCount ::
          grid[x, z] == Over(At(g0, x, z), Placed(f, c0, a0[..j], x, z))
        decreases |active| - i
      {
        var stays := VisitChunk(i, j, f, c0, a0, old(inactive), g0);
        if !stays {
          i := i - 1;
        }
        i := i + 1;
        j := j + 1;
      }
    }

    /** One turn of updateChunkGrid's loop on active[i], the j-th chunk of
        the active list a0 the loop started from: an in-bounds chunk is
        written to its cell, any other one is appended to the inactive list
        and removed from the active list. */
    method VisitChunk(i: int, ghost j: nat, ghost f: Frame, ghost c0: seq<Chunk>, ghost a0: seq<nat>, ghost i0: seq<nat>, ghost g0: Grid)
      returns (stays: bool)
      requires f == CurrentFrame() && f.Wf() && grid.Length0 == chunkCount && grid.Length1 == chunkCount
      requires c0 == chunks && IdsBelow(a0, |c0|) && j < |a0| && i == |Kept(f, c0, a0[..j])|
      requires CurrentPools() == Visited(f, c0, a0, i0, j)
      requires forall x, z | 0 <= x < chunkCount && 0 <= z < chunkCount ::
        grid[x, z] == Over(At(g0, x, z), Placed(f, c0, a0[..j], x, z))
      modifies this`active, this`inactive, grid
      ensures CurrentPools() == Visited(f, c0, a0, i0, j + 1)
      ensures |Kept(f, c0, a0[..j + 1])| == if stays then i + 1 else i
      ensures forall x, z | 0 <= x < chunkCount && 0 <= z < chunkCount ::
        grid[x, z] == Over(At(g0, x, z), Placed(f, c0, a0[..j + 1], x, z))
    {
      VisitedStep(f, c0, a0, i0, j);
      var id := active[i];
      var chunkPos := chunks[id].pos;
      var c := CellIndex(chunkPos, offset, DraftPlayerPos(player), chunkSize);
      stays := CheckBounds(chunkCount, c.0, c.1);
      if stays {
        grid[c.0, c.1] := Some(id);
      } else {
        inactive := inactive + [id];
        active := active[..i] + active[i + 1..];
      }
    }

    /** deployInactiveChunks: the empty cells, in x-major order, receive the
        inactive chunks from the front of the list, each moved to its cell's
        world position and appended to the active list, until the list runs
        out. */
    method DeployInactiveChunks()
      requires Valid()
      modifies grid, this`chunks, this`active, this`inactive
      ensures Valid()
      ensures var E := EmptyCells(old(Snap(grid)), chunkCount, chunkCount);
              CurrentPools() == Deployed(CurrentFrame(), old(CurrentPools()), E) &&
              forall x, z | 0 <= x < chunkCount && 0 <= z < chunkCount ::
                grid[x, z] == Over(old(grid[x, z]), Filled(E, old(inactive), (x, z)))
    {
      ghost var g0, p0, f := Snap(grid), CurrentPools(), CurrentFrame();
      var x := 0;
      while x < chunkCount
        invariant 0 <= x <= chunkCount
        invariant CurrentPools() == Deployed(f, p0, EmptyCells(g0, chunkCount, x))
        invariant forall a, b | 0 <= a < chunkCount && 0 <= b < chunkCount ::
          grid[a, b] == Over(At(g0, a, b), Filled(EmptyCells(g0, chunkCount, x), p0.inactive, (a, b)))
      {
        DeployRow(x, g0, p0);
        x := x + 1;
      }
      assert Full(CurrentPools());
    }

    /** deployInactiveChunks' inner loop over z for row x; it stops as soon as
        the inactive list is empty. */
    method DeployRow(x: int, ghost g0: Grid, ghost p0: Pools)
      requires chunkSize > 0 && grid.Length0 == chunkCount && grid.Length1 == chunkCount
      requires 0 <= x < chunkCount && p0.Wf()
      requires CurrentPools() == Deployed(CurrentFrame(), p0, EmptyCells(g0, chunkCount, x))
      requires forall a, b | 0 <= a < chunkCount && 0 <= b < chunkCount ::
        grid[a, b] == Over(At(g0, a, b), Filled(EmptyCells(g0, chunkCount, x), p0.inactive, (a, b)))
      modifies grid, this`chunks, this`active, this`inactive
      ensures CurrentPools() == Deployed(CurrentFrame(), p0, EmptyCells(g0, chunkCount, x + 1))
      ensures forall a, b | 0 <= a < chunkCount && 0 <= b < chunkCount ::
        grid[a, b] == Over(At(g0, a, b), Filled(EmptyCells(g0, chunkCount, x + 1), p0.inactive, (a, b)))
    {
      ghost var f, E0 := CurrentFrame(), EmptyCells(g0, chunkCount, x);
      assert E0 + RowEmpty(g0, x, 0) == E0;
      var z := 0;
      while z < chunkCount
        invariant 0 <= z <= chunkCount
        invariant CurrentPools() == Deployed(f, p0, E0 + RowEmpty(g0, x, z))
        invariant forall a, b | 0 <= a < chunkCount && 0 <= b < chunkCount ::
          grid[a, b] == Over(At(g0, a, b), Filled(E0 + RowEmpty(g0, x, z), p0.inactive, (a, b)))
      {
        if |inactive| == 0 {
          DeployRowDone(f, p0, g0, chunkCount, x, z);
          return;
        }
        DeployCell(x, z, f, g0, p0);
        z := z + 1;
      }
    }

    /** One cell (x, z) of deployInactiveChunks with chunks left: an empty
        cell takes the chunk at the front of the inactive list, which moves
        to the cell's world position and to the end of the active list. The
        ghost parameters say which cells the loop has seen so far. */
    method DeployCell(x: int, z: int, ghost f: Frame, ghost g0: Grid, ghost p0: Pools)
      requires chunkSize > 0 && grid.Length0 == chunkCount && grid.Length1 == chunkCount && f == CurrentFrame()
      requires 0 <= x < chunkCount && 0 <= z < chunkCount && |inactive| > 0 && p0.Wf()
      requires CurrentPools() == Deployed(f, p0, EmptyCells(g0, chunkCount, x) + RowEmpty(g0, x, z))
      requires forall a, b | 0 <= a < chunkCount && 0 <= b < chunkCount ::
        grid[a, b] == Over(At(g0, a, b), Filled(EmptyCells(g0, chunkCount, x) + RowEmpty(g0, x, z), p0.inactive, (a, b)))
      modifies grid, this`chunks, this`active, this`inactive
      ensures CurrentPools() == Deployed(f, p0, EmptyCells(g0, chunkCount, x) + RowEmpty(g0, x, z + 1))
      ensures forall a, b | 0 <= a < chunkCount && 0 <= b < chunkCount ::
        grid[a, b] == Over(At(g0, a, b), Filled(EmptyCells(g0, chunkCount, x) + RowEmpty(g0, x, z + 1), p0.inactive, (a, b)))
    {
      DeployStep(f, p0, g0, chunkCount, x, z);
      CurrentPools().Members();
      if grid[x, z].None? {
        var chunk := inactive[0];
        inactive := inactive[1..];
        grid[x, z] := Some(chunk);
        var chunkPos := IntVec(x, 0, z).Scale(chunkSize as real).Plus(offset).Plus(DraftPlayerPos(player));
        chunks := chunks[chunk := chunks[chunk].(pos := chunkPos)];
        active := active + [chunk];
      }
    }
  }
}
