/** The voxel field of one chunk: a (chunkSize + 2) x chunkHeight x
    (chunkSize + 2) block map filled in two passes. The first pass decides
    solidity (DIRT, WATER below the water line, or NONE); the second gives
    the solid cells their surface type and modifier. The noise tests are
    parameters of the configuration. */
module VoxelData {
  import opened Geometry

  /** BlockData.BlockType: the types and modifiers the generator uses. */
  datatype BlockType = NONE | DIRT | GRASS | SAND | SNOW | WATER

  /** A block: its type and the modifier layered on top (NONE for none). */
  datatype BlockData = BlockData(blockType: BlockType, modifier: BlockType)

  /** new BlockData(t): type t, no modifier. */
  function Block(t: BlockType): BlockData {
    BlockData(t, NONE)
  }

  /** ChunkConfig and the noise tests: calcHeight, calc3DStructure,
      calc3DUnstructure and the snow-line perturbation. */
  datatype Config = Config(
    chunkSize: nat, chunkHeight: nat, waterHeight: int, snowHeight: real,
    height: Vec3 -> real, structure3D: Vec3 -> bool, unstructure3D: Vec3 -> bool,
    snowNoise: (int, int) -> real)

  /** posContainsVoxel: under the height field or inside a 3-D structure,
      and not carved out by the unstructure noise. */
  predicate PosContainsVoxel(cfg: Config, pos: Vec3) {
    (pos.y < cfg.height(pos) || cfg.structure3D(pos)) && cfg.unstructure3D(pos)
  }

  /** The block the first pass writes at (x, y, z) of the chunk at pos. */
  function Classify(cfg: Config, pos: Vec3, x: int, y: int, z: int): BlockData {
    if PosContainsVoxel(cfg, IntVec(x, y, z).Plus(pos)) then Block(DIRT)
    else if y < cfg.waterHeight then Block(WATER)
    else Block(NONE)
  }

  /** decideBlockType on block b at (x, y, z); surface says the cell is in
      the top layer or the cell above is NONE. */
  function Decide(cfg: Config, b: BlockData, x: int, y: int, z: int, surface: bool): BlockData {
    var t := if y < cfg.waterHeight then SAND else b.blockType;
    var m := if !surface then b.modifier
             else if y as real > cfg.snowHeight - cfg.snowNoise(x, z) then SNOW
             else if t == DIRT then GRASS
             else b.modifier;
    BlockData(t, m)
  }

  /** The surface test of decideBlockType, read on the first-pass map. */
  predicate Surface(cfg: Config, pos: Vec3, x: int, y: int, z: int) {
    y == cfg.chunkHeight - 1 || Classify(cfg, pos, x, y + 1, z).blockType == NONE
  }

  /** The block at (x, y, z) after both passes, as a function of the
      first-pass map alone: NONE and WATER cells stay, the others go
      through decideBlockType. */
  function Final(cfg: Config, pos: Vec3, x: int, y: int, z: int): BlockData {
    var b := Classify(cfg, pos, x, y, z);
    if b.blockType == NONE || b.blockType == WATER then b
    else Decide(cfg, b, x, y, z, Surface(cfg, pos, x, y, z))
  }

  /** The first pass: DIRT exactly where the position holds a voxel, WATER
      exactly where it does not and y is below the water line, NONE
      everywhere else, never with a modifier. */
  lemma ClassifyIff(cfg: Config, pos: Vec3, x: int, y: int, z: int)
    ensures var b, solid := Classify(cfg, pos, x, y, z), PosContainsVoxel(cfg, IntVec(x, y, z).Plus(pos));
            b.modifier == NONE &&
            (b.blockType == DIRT <==> solid) &&
            (b.blockType == WATER <==> !solid && y < cfg.waterHeight) &&
            (b.blockType == NONE <==> !solid && y >= cfg.waterHeight)
  {
  }

  /** The second pass neither creates nor removes a voxel: a cell is NONE
      afterwards exactly when the first pass made it NONE, and NONE and
      WATER cells are left as they are. */
  lemma FinalKeepsNone(cfg: Config, pos: Vec3, x: int, y: int, z: int)
    ensures (Final(cfg, pos, x, y, z).blockType == NONE) <==> (Classify(cfg, pos, x, y, z).blockType == NONE)
    ensures Classify(cfg, pos, x, y, z).blockType in {NONE, WATER} ==>
              Final(cfg, pos, x, y, z) == Classify(cfg, pos, x, y, z)
  {
  }

  /** The type after both passes: solid cells below the water line become
      SAND, every other cell keeps its first-pass type. */
  lemma FinalType(cfg: Config, pos: Vec3, x: int, y: int, z: int)
    ensures var b := Classify(cfg, pos, x, y, z);
            Final(cfg, pos, x, y, z).blockType ==
              if b.blockType == DIRT && y < cfg.waterHeight then SAND else b.blockType
  {
  }

  /** The modifier after both passes: only a solid surface cell gets one;
      SNOW above the perturbed snow line, else GRASS if it is still DIRT. */
  lemma FinalModifier(cfg: Config, pos: Vec3, x: int, y: int, z: int)
    ensures var b, r := Classify(cfg, pos, x, y, z), Final(cfg, pos, x, y, z);
            var snowy := y as real > cfg.snowHeight - cfg.snowNoise(x, z);
            (r.modifier == SNOW <==> b.blockType == DIRT && Surface(cfg, pos, x, y, z) && snowy) &&
            (r.modifier == GRASS <==> b.blockType == DIRT && Surface(cfg, pos, x, y, z) && !snowy && y >= cfg.waterHeight) &&
            (r.modifier == NONE <==> !(b.blockType == DIRT && Surface(cfg, pos, x, y, z) && (snowy || y >= cfg.waterHeight)))
  {
  }

  /** Sand never carries grass. */
  lemma SandHasNoGrass(cfg: Config, pos: Vec3, x: int, y: int, z: int)
    requires Final(cfg, pos, x, y, z).blockType == SAND
    ensures Final(cfg, pos, x, y, z).modifier != GRASS
  {
  }

  /** A cell under water, or under any other non-NONE cell, gets no
      modifier unless it is in the top layer. */
  lemma CoveredHasNoModifier(cfg: Config, pos: Vec3, x: int, y: int, z: int)
    requires y != cfg.chunkHeight - 1 && Classify(cfg, pos, x, y + 1, z).blockType != NONE
    ensures Final(cfg, pos, x, y, z).modifier == NONE
  {
  }

  /** Order independence: decideBlockType reads only whether the cell above
      is NONE, and the second pass never changes that, so reading the cell
      above before or after its own turn decides the same block. */
  lemma DecideOrderFree(cfg: Config, pos: Vec3, x: int, y: int, z: int, above: BlockData)
    requires Classify(cfg, pos, x, y, z).blockType !in {NONE, WATER}
    requires above == Classify(cfg, pos, x, y + 1, z) || above == Final(cfg, pos, x, y + 1, z)
    ensures Decide(cfg, Classify(cfg, pos, x, y, z), x, y, z, y == cfg.chunkHeight - 1 || above.blockType == NONE) ==
            Final(cfg, pos, x, y, z)
  {
    FinalKeepsNone(cfg, pos, x, y + 1, z);
  }

  // ---------------------------------------------------------------------------
  // The block map

  /** BlockDataMap: a flat array of sizeX * sizeY * sizeZ blocks indexed
      row-major, x slowest and z fastest, the order of the generator's
      loops. */
  class BlockDataMap {
    const sizeX: nat
    const sizeY: nat
    const sizeZ: nat
    const mapdata: array<BlockData>

    predicate Valid() {
      mapdata.Length == sizeX * sizeY * sizeZ
    }

    constructor (sizeX: nat, sizeY: nat, sizeZ: nat)
      ensures this.sizeX == sizeX && this.sizeY == sizeY && this.sizeZ == sizeZ
      ensures Valid() && fresh(mapdata)
    {
      this.sizeX, this.sizeY, this.sizeZ := sizeX, sizeY, sizeZ;
      mapdata := new BlockData[sizeX * sizeY * sizeZ](_ => Block(NONE));
    }

    predicate InBox(x: int, y: int, z: int) {
      0 <= x < sizeX && 0 <= y < sizeY && 0 <= z < sizeZ
    }

    /** index1D: the flat index of cell (x, y, z); in the box it addresses
        the array. */
    function Index1D(x: int, y: int, z: int): (i: int)
      ensures InBox(x, y, z) ==> 0 <= i < sizeX * sizeY * sizeZ
    {
      if InBox(x, y, z) then IndexBound(x, y, z); (x * sizeY + y) * sizeZ + z
      else (x * sizeY + y) * sizeZ + z
    }

    lemma IndexBound(x: int, y: int, z: int)
      requires InBox(x, y, z)
      ensures 0 <= (x * sizeY + y) * sizeZ + z < sizeX * sizeY * sizeZ
    {
      MulLe(x, sizeX - 1, sizeY);
      MulLe(x * sizeY + y, sizeX * sizeY - 1, sizeZ);
    }

    /** The cell at flat index i. */
    function Coords(i: int): (int, int, int)
      requires sizeY > 0 && sizeZ > 0
    {
      (i / sizeZ / sizeY, i / sizeZ % sizeY, i % sizeZ)
    }

    /** Index1D is one-to-one: the cell can be read back from its index. */
    lemma IndexRoundTrip(x: int, y: int, z: int)
      requires InBox(x, y, z)
      ensures Coords(Index1D(x, y, z)) == (x, y, z)
    {
      DivMod(Index1D(x, y, z), sizeZ, x * sizeY + y, z);
      DivMod(x * sizeY + y, sizeY, x, y);
    }

    /** Index1D is onto: every array position is the index of a cell. */
    lemma CoordsRoundTrip(i: int)
      requires 0 <= i < sizeX * sizeY * sizeZ
      ensures sizeY > 0 && sizeZ > 0 && InBox(Coords(i).0, Coords(i).1, Coords(i).2) &&
              Index1D(Coords(i).0, Coords(i).1, Coords(i).2) == i
    {
      NonZeroFactors(sizeX, sizeY, sizeZ, i);
      var q := i / sizeZ;
      assert q * sizeZ + i % sizeZ == i;
      DivLt(i, sizeZ, sizeX * sizeY);
      DivLt(q, sizeY, sizeX);
      assert q / sizeY * sizeY + q % sizeY == q;
    }

    /** Index1D steps: along z by one, to the next row of a plane and to the
        next plane, in the order the loops visit the cells. */
    lemma IndexStep(x: int, y: int)
      ensures Index1D(x, y, sizeZ) == Index1D(x, y + 1, 0)
      ensures Index1D(x, sizeY, 0) == Index1D(x + 1, 0, 0)
      ensures Index1D(sizeX, 0, 0) == sizeX * sizeY * sizeZ
    {
      assert (x * sizeY + y) * sizeZ + sizeZ == (x * sizeY + y + 1) * sizeZ;
      assert x * sizeY + sizeY == (x + 1) * sizeY;
    }

    /** The cell above (x, y, z) lies sizeZ positions further on. */
    lemma IndexUp(x: int, y: int, z: int)
      ensures Index1D(x, y + 1, z) == Index1D(x, y, z) + sizeZ
    {
      assert (x * sizeY + y + 1) * sizeZ == (x * sizeY + y) * sizeZ + sizeZ;
    }
  }

  lemma MulLe(a: int, b: int, c: nat)
    requires a <= b
    ensures a * c <= b * c
  {
  }

  /** n = q * d + r with 0 <= r < d fixes the quotient and the remainder. */
  lemma DivMod(n: int, d: int, q: int, r: int)
    requires d > 0 && 0 <= r < d && n == q * d + r
    ensures n / d == q && n % d == r
  {
    var q', r' := n / d, n % d;
    assert q' * d + r' == n;
    if q' > q {
      MulLe(q + 1, q', d);
      assert false;
    } else if q' < q {
      MulLe(q' + 1, q, d);
      assert false;
    }
  }

  lemma NonZeroFactors(x: nat, y: nat, z: nat, i: int)
    requires 0 <= i < x * y * z
    ensures x > 0 && y > 0 && z > 0
  {
    ZeroProduct(x, y, z);
  }

  lemma ZeroProduct(x: int, y: int, z: int)
    ensures x == 0 || y == 0 || z == 0 ==> x * y * z == 0
  {
  }

  /** n < m * d gives n / d < m. */
  lemma DivLt(n: int, d: int, m: int)
    requires d > 0 && 0 <= n < m * d
    ensures 0 <= n / d < m
  {
    assert n / d * d + n % d == n;
    if n / d >= m {
      MulLe(m, n / d, d);
      assert false;
    }
  }

  /** The first-pass block at flat index i. */
  function ClassifyAt(d: BlockDataMap, cfg: Config, pos: Vec3, i: int): BlockData
    requires 0 <= i < d.sizeX * d.sizeY * d.sizeZ
  {
    d.CoordsRoundTrip(i);
    var c := d.Coords(i);
    Classify(cfg, pos, c.0, c.1, c.2)
  }

  /** The block after both passes at flat index i. */
  function FinalAt(d: BlockDataMap, cfg: Config, pos: Vec3, i: int): BlockData
    requires 0 <= i < d.sizeX * d.sizeY * d.sizeZ
  {
    d.CoordsRoundTrip(i);
    var c := d.Coords(i);
    Final(cfg, pos, c.0, c.1, c.2)
  }

  // ---------------------------------------------------------------------------
  // The generator

  /** getChunkVoxelData: a fresh (chunkSize + 2) x chunkHeight x
      (chunkSize + 2) map whose every cell holds the block both passes
      decide for it. */
  method GetChunkVoxelData(cfg: Config, pos: Vec3) returns (data: BlockDataMap)
    ensures fresh(data) && fresh(data.mapdata) && data.Valid()
    ensures data.sizeX == cfg.chunkSize + 2 && data.sizeY == cfg.chunkHeight && data.sizeZ == cfg.chunkSize + 2
    ensures forall x, y, z | data.InBox(x, y, z) :: data.mapdata[data.Index1D(x, y, z)] == Final(cfg, pos, x, y, z)
  {
    data := new BlockDataMap(cfg.chunkSize + 2, cfg.chunkHeight, cfg.chunkSize + 2);
    FirstPass(data, cfg, pos);
    SecondPass(data, cfg, pos);
    forall x, y, z | data.InBox(x, y, z)
      ensures data.mapdata[data.Index1D(x, y, z)] == Final(cfg, pos, x, y, z)
    {
      data.IndexRoundTrip(x, y, z);
    }
  }

  /** getChunkVoxelData's first triple loop: every cell gets its
      classification. */
  method FirstPass(data: BlockDataMap, cfg: Config, pos: Vec3)
    requires data.Valid() && data.sizeX == cfg.chunkSize + 2 && data.sizeY == cfg.chunkHeight && data.sizeZ == cfg.chunkSize + 2
    modifies data.mapdata
    ensures forall i | 0 <= i < data.mapdata.Length :: data.mapdata[i] == ClassifyAt(data, cfg, pos, i)
  {
    var x := 0;
    while x < cfg.chunkSize + 2
      invariant 0 <= x <= data.sizeX
      invariant forall i | 0 <= i < data.mapdata.Length && i < data.Index1D(x, 0, 0) :: data.mapdata[i] == ClassifyAt(data, cfg, pos, i)
    {
      var y := 0;
      while y < cfg.chunkHeight
        invariant 0 <= y <= data.sizeY
        invariant forall i | 0 <= i < data.mapdata.Length && i < data.Index1D(x, y, 0) :: data.mapdata[i] == ClassifyAt(data, cfg, pos, i)
      {
        var z := 0;
        while z < cfg.chunkSize + 2
          invariant 0 <= z <= data.sizeZ
          invariant forall i | 0 <= i < data.mapdata.Length && i < data.Index1D(x, y, z) :: data.mapdata[i] == ClassifyAt(data, cfg, pos, i)
        {
          ClassifyCell(data, cfg, pos, x, y, z);
          z := z + 1;
        }
        data.IndexStep(x, y);
        y := y + 1;
      }
      data.IndexStep(x, y);
      x := x + 1;
    }
    data.IndexStep(x, 0);
  }

  /** One turn of the first pass, at (x, y, z). */
  method ClassifyCell(data: BlockDataMap, cfg: Config, pos: Vec3, x: int, y: int, z: int)
    requires data.Valid() && data.InBox(x, y, z)
    requires forall i | 0 <= i < data.mapdata.Length && i < data.Index1D(x, y, z) :: data.mapdata[i] == ClassifyAt(data, cfg, pos, i)
    modifies data.mapdata
    ensures forall i | 0 <= i < data.mapdata.Length && i < data.Index1D(x, y, z) + 1 :: data.mapdata[i] == ClassifyAt(data, cfg, pos, i)
  {
    var i := data.Index1D(x, y, z);
    data.IndexRoundTrip(x, y, z);
    if PosContainsVoxel(cfg, IntVec(x, y, z).Plus(pos)) {
      data.mapdata[i] := Block(DIRT);
    } else if y < cfg.waterHeight {
      data.mapdata[i] := Block(WATER);
    } else {
      data.mapdata[i] := Block(NONE);
    }
  }

  /** getChunkVoxelData's second triple loop: decideBlockType on every cell
      that is neither NONE nor WATER. Cells already visited hold their final
      block, the rest their first-pass block. */
  method SecondPass(data: BlockDataMap, cfg: Config, pos: Vec3)
    requires data.Valid() && data.sizeX == cfg.chunkSize + 2 && data.sizeY == cfg.chunkHeight && data.sizeZ == cfg.chunkSize + 2
    requires forall i | 0 <= i < data.mapdata.Length :: data.mapdata[i] == ClassifyAt(data, cfg, pos, i)
    modifies data.mapdata
    ensures forall i | 0 <= i < data.mapdata.Length :: data.mapdata[i] == FinalAt(data, cfg, pos, i)
  {
    var x := 0;
    while x < cfg.chunkSize + 2
      invariant 0 <= x <= data.sizeX
      invariant forall i | 0 <= i < data.mapdata.Length ::
        data.mapdata[i] == if i < data.Index1D(x, 0, 0) then FinalAt(data, cfg, pos, i) else ClassifyAt(data, cfg, pos, i)
    {
      var y := 0;
      while y < cfg.chunkHeight
        invariant 0 <= y <= data.sizeY
        invariant forall i | 0 <= i < data.mapdata.Length ::
          data.mapdata[i] == if i < data.Index1D(x, y, 0) then FinalAt(data, cfg, pos, i) else ClassifyAt(data, cfg, pos, i)
      {
        var z := 0;
        while z < cfg.chunkSize + 2
          invariant 0 <= z <= data.sizeZ
          invariant forall i | 0 <= i < data.mapdata.Length ::
            data.mapdata[i] == if i < data.Index1D(x, y, z) then FinalAt(data, cfg, pos, i) else ClassifyAt(data, cfg, pos, i)
        {
          SurfaceCell(data, cfg, pos, x, y, z);
          z := z + 1;
        }
        data.IndexStep(x, y);
        y := y + 1;
      }
      data.IndexStep(x, y);
      x := x + 1;
    }
  }

  /** One turn of the second pass, at (x, y, z). */
  method SurfaceCell(data: BlockDataMap, cfg: Config, pos: Vec3, x: int, y: int, z: int)
    requires data.Valid() && data.sizeY == cfg.chunkHeight && data.InBox(x, y, z)
    requires forall i | 0 <= i < data.mapdata.Length ::
      data.mapdata[i] == if i < data.Index1D(x, y, z) then FinalAt(data, cfg, pos, i) else ClassifyAt(data, cfg, pos, i)
    modifies data.mapdata
    ensures forall i | 0 <= i < data.mapdata.Length ::
      data.mapdata[i] == if i < data.Index1D(x, y, z) + 1 then FinalAt(data, cfg, pos, i) else ClassifyAt(data, cfg, pos, i)
  {
    var i := data.Index1D(x, y, z);
    data.IndexRoundTrip(x, y, z);
    data.IndexUp(x, y, z);
    if y + 1 < cfg.chunkHeight {
      data.IndexRoundTrip(x, y + 1, z);
    }
    if data.mapdata[i].blockType != NONE && data.mapdata[i].blockType != WATER {
      DecideBlockType(data, cfg, x, y, z);
    }
  }

  /** decideBlockType: below the water line the type becomes SAND; a cell
      in the top layer or under a NONE cell gets SNOW above the perturbed
      snow line, else GRASS if it is DIRT. Nothing else changes. */
  method DecideBlockType(data: BlockDataMap, cfg: Config, x: int, y: int, z: int)
    requires data.Valid() && data.sizeY == cfg.chunkHeight && data.InBox(x, y, z)
    modifies data.mapdata
    ensures var i := data.Index1D(x, y, z);
            var surface := y == cfg.chunkHeight - 1 || old(data.mapdata[data.Index1D(x, y + 1, z)]).blockType == NONE;
            data.mapdata[..] == old(data.mapdata[..])[i := Decide(cfg, old(data.mapdata[i]), x, y, z, surface)]
  {
    var pos1d := data.Index1D(x, y, z);
    data.IndexUp(x, y, z);
    if y < cfg.waterHeight {
      data.mapdata[pos1d] := data.mapdata[pos1d].(blockType := SAND);
    }
    if y == cfg.chunkHeight - 1 || data.mapdata[data.Index1D(x, y + 1, z)].blockType == NONE {
      if y as real > cfg.snowHeight - cfg.snowNoise(x, z) {
        data.mapdata[pos1d] := data.mapdata[pos1d].(modifier := SNOW);
      } else if data.mapdata[pos1d].blockType == DIRT {
        data.mapdata[pos1d] := data.mapdata[pos1d].(modifier := GRASS);
      }
    }
  }
}
