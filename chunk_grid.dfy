/** Grid arithmetic shared by both chunk managers: the bounds test, the
    player position quantised to the chunk lattice, the world position of a
    grid cell and the cell a world position falls in. Positions are exact
    reals; the engine's Mathf.Floor and FloorToInt are Dafny's Floor. */
module ChunkGrid {
  import opened Geometry

  /** checkBounds: both indices lie in [0, chunkCount). */
  predicate CheckBounds(chunkCount: int, x: int, z: int) {
    0 <= x < chunkCount && 0 <= z < chunkCount
  }

  /** Mathf.Floor(p / step) * step: the largest multiple of step not above p. */
  function Quantise(p: real, step: real): (r: real)
    requires step > 0.0
    ensures r <= p < r + step
  {
    FloorStep(p, step);
    (p / step).Floor as real * step
  }

  /** The lattice point below p is unique: if k * step <= p < (k + 1) * step
      then Quantise gives k * step. */
  lemma QuantiseUnique(p: real, step: real, k: int)
    requires step > 0.0 && k as real * step <= p < k as real * step + step
    ensures Quantise(p, step) == k as real * step
  {
    FloorDiv(p, step, k);
  }

  /** A lattice point quantises to itself, so quantising twice changes nothing. */
  lemma QuantiseIdempotent(p: real, step: real)
    requires step > 0.0
    ensures Quantise(Quantise(p, step), step) == Quantise(p, step)
  {
    var k := (p / step).Floor;
    assert Quantise(p, step) == k as real * step;
    QuantiseUnique(k as real * step, step, k);
  }

  /** getPlayerPos of the stream-era manager: x and z quantised to the chunk
      size, y dropped. */
  function PlayerPos(player: Vec3, chunkSize: int): (r: Vec3)
    requires chunkSize > 0
    ensures r.y == 0.0
    ensures r.x <= player.x < r.x + chunkSize as real
    ensures r.z <= player.z < r.z + chunkSize as real
  {
    Vec3(Quantise(player.x, chunkSize as real), 0.0, Quantise(player.z, chunkSize as real))
  }

  /** offset of the stream-era manager: minus half the grid, in world units,
      on x and z. */
  function GridOffset(chunkCount: int, chunkSize: int): Vec3 {
    var h := (-chunkCount) as real / 2.0 * chunkSize as real;
    Vec3(h, 0.0, h)
  }

  /** new Vector3(x, 0, z) * chunkSize + offset + playerPos. */
  function CellWorldPos(x: int, z: int, chunkSize: int, offset: Vec3, playerPos: Vec3): Vec3 {
    IntVec(x, 0, z).Scale(chunkSize as real).Plus(offset).Plus(playerPos)
  }

  /** FloorToInt of (pos - offset - playerPos) / chunkSize, on x and z. */
  function CellIndex(pos: Vec3, offset: Vec3, playerPos: Vec3, chunkSize: int): (int, int)
    requires chunkSize > 0
  {
    var s := chunkSize as real;
    (((pos.x - offset.x - playerPos.x) / s).Floor, ((pos.z - offset.z - playerPos.z) / s).Floor)
  }

  /** The position built for cell (x, z) maps back to (x, z). */
  lemma CellRoundTrip(x: int, z: int, chunkSize: int, offset: Vec3, playerPos: Vec3)
    requires chunkSize > 0
    ensures CellIndex(CellWorldPos(x, z, chunkSize, offset, playerPos), offset, playerPos, chunkSize) == (x, z)
  {
    var s := chunkSize as real;
    var p := CellWorldPos(x, z, chunkSize, offset, playerPos);
    FloorOfMultiple(x, s, p.x - offset.x - playerPos.x);
    FloorOfMultiple(z, s, p.z - offset.z - playerPos.z);
  }

  /** Distinct cells have distinct world positions. */
  lemma CellWorldPosInjective(x1: int, z1: int, x2: int, z2: int, chunkSize: int, offset: Vec3, playerPos: Vec3)
    requires chunkSize > 0
    requires CellWorldPos(x1, z1, chunkSize, offset, playerPos) == CellWorldPos(x2, z2, chunkSize, offset, playerPos)
    ensures x1 == x2 && z1 == z2
  {
    CellRoundTrip(x1, z1, chunkSize, offset, playerPos);
    CellRoundTrip(x2, z2, chunkSize, offset, playerPos);
  }

  /** With the grid offset by half its width, the player's own position lies
      in a cell of the grid whenever the grid has at least two cells a side. */
  lemma PlayerCellInGrid(player: Vec3, chunkCount: int, chunkSize: int)
    requires chunkSize > 0 && chunkCount >= 2
    ensures var c := CellIndex(player, GridOffset(chunkCount, chunkSize), PlayerPos(player, chunkSize), chunkSize);
            CheckBounds(chunkCount, c.0, c.1)
  {
    var s := chunkSize as real;
    var off := GridOffset(chunkCount, chunkSize);
    var pp := PlayerPos(player, chunkSize);
    var h := chunkCount as real / 2.0;
    assert off.x == -(h * s);
    AxisInGrid(player.x - pp.x, h, s, chunkCount);
    AxisInGrid(player.z - pp.z, h, s, chunkCount);
  }

  /** One axis of PlayerCellInGrid: d in [0, s) shifted by h * s lands in
      [0, 2h) after division by s. */
  lemma AxisInGrid(d: real, h: real, s: real, n: int)
    requires s > 0.0 && 0.0 <= d < s && h == n as real / 2.0 && n >= 2
    ensures 0 <= ((d - -(h * s)) / s).Floor < n
  {
    MulMono(0.0, h, s);
    Distrib(h, s);
    DivBounds(d - -(h * s), s, 0.0, h + 1.0);
  }

  /** Two player positions on the same lattice move every cell position by a
      whole number of cells: a chunk at a cell position for one player
      position is, after any move, again at the position of the cell the
      manager computes for it. */
  lemma CellAligned(x: int, z: int, chunkSize: int, offset: Vec3, p1: Vec3, p2: Vec3)
    requires chunkSize > 0
    ensures var pos := CellWorldPos(x, z, chunkSize, offset, PlayerPos(p1, chunkSize));
            var c := CellIndex(pos, offset, PlayerPos(p2, chunkSize), chunkSize);
            CellWorldPos(c.0, c.1, chunkSize, offset, PlayerPos(p2, chunkSize)) == pos
  {
    var s := chunkSize as real;
    var a, b := PlayerPos(p1, chunkSize), PlayerPos(p2, chunkSize);
    var pos := CellWorldPos(x, z, chunkSize, offset, a);
    var ax, az, bx, bz := (p1.x / s).Floor, (p1.z / s).Floor, (p2.x / s).Floor, (p2.z / s).Floor;
    Lattice(x, ax, bx, s, offset.x);
    Lattice(z, az, bz, s, offset.z);
    AxisAligned(pos.x, offset.x, b.x, s, x + ax - bx);
    AxisAligned(pos.z, offset.z, b.z, s, z + az - bz);
  }

  /** One axis of CellAligned: a coordinate m cells from o + bx maps to cell
      m, whose position it is. */
  lemma AxisAligned(px: real, o: real, bx: real, s: real, m: int)
    requires s > 0.0 && px - o - bx == m as real * s
    ensures ((px - o - bx) / s).Floor == m && s * m as real + o + bx == px
  {
    FloorOfMultiple(m, s, px - o - bx);
  }

  lemma Lattice(x: int, a: int, b: int, s: real, o: real)
    ensures s * x as real + o + a as real * s - o - b as real * s == (x + a - b) as real * s
  {
  }

  // Real arithmetic the solver does not find on its own.

  lemma FloorStep(p: real, step: real)
    requires step > 0.0
    ensures (p / step).Floor as real * step <= p < (p / step).Floor as real * step + step
  {
    var q := p / step;
    var k := q.Floor as real;
    FloorBounds(q);
    MulDivCancel(p, step);
    if p < k * step {
      MulMono(k, q, step);
      assert false;
    }
    if p >= k * step + step {
      MulMonoStrict(q, k + 1.0, step);
      Distrib(k, step);
      assert false;
    }
  }

  lemma Distrib(k: real, s: real)
    ensures (k + 1.0) * s == k * s + s
  {
  }


  /** Dividing by a positive s keeps bounds that are multiples of s. */
  lemma DivBounds(e: real, s: real, lo: real, hi: real)
    requires s > 0.0 && lo * s <= e < hi * s
    ensures lo <= e / s < hi
  {
    var q := e / s;
    MulDivCancel(e, s);
    if q < lo {
      MulMonoStrict(q, lo, s);
      assert false;
    }
    if q >= hi {
      MulMono(hi, q, s);
      assert false;
    }
  }

  lemma FloorUnique(q: real, k: int)
    requires k as real <= q < k as real + 1.0
    ensures q.Floor == k
  {
  }

  lemma FloorOfMultiple(m: int, s: real, e: real)
    requires s > 0.0 && e == m as real * s
    ensures (e / s).Floor == m
  {
    FloorDiv(e, s, m);
  }

  /** (e / s).Floor == m when m * s <= e < m * s + s. */
  lemma FloorDiv(e: real, s: real, m: int)
    requires s > 0.0 && m as real * s <= e < m as real * s + s
    ensures (e / s).Floor == m
  {
    var q := e / s;
    MulDivCancel(e, s);
    var mr := m as real;
    if q < mr {
      MulMonoStrict(q, mr, s);
      assert false;
    }
    if q >= mr + 1.0 {
      MulMono(mr + 1.0, q, s);
      Distrib(mr, s);
      assert false;
    }
    FloorUnique(q, m);
  }

  lemma FloorInRange(r: real, n: int)
    requires 0.0 <= r < n as real
    ensures 0 <= r.Floor < n
  {
  }

  lemma FloorBounds(r: real)
    ensures r.Floor as real <= r < r.Floor as real + 1.0
  {
  }

  lemma MulDivCancel(p: real, s: real)
    requires s > 0.0
    ensures p / s * s == p
  {
  }


  lemma MulMono(a: real, b: real, s: real)
    requires s > 0.0 && a <= b
    ensures a * s <= b * s
  {
  }

  lemma MulMonoStrict(a: real, b: real, s: real)
    requires s > 0.0 && a < b
    ensures a * s < b * s
  {
  }



}
