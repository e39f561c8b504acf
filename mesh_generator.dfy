/** The naive voxel mesh builder (Assets/Scripts/MeshGenerator.cs): every
    non-zero cell of a 3-D integer grid becomes a cube, and every face of that
    cube which lies on the grid boundary or borders a zero cell becomes one quad
    of four vertices, two triangles, four texture coordinates and (for cube
    types 1 and 2) four colours, appended to growing lists.

    The model has three layers:
    - the geometry of a single face (FaceVertices, FaceUVs, FaceColors);
    - the mesh a list of faces produces (MeshOf) and which faces a grid emits,
      in emission order (AllFaces), both as functions;
    - the generator class whose methods append to its lists exactly as the
      source does, proved to produce MeshOf(AllFaces(pointmap)). */
module VoxelMesh {
  import opened Geometry

  /** MeshGenerator.FaceDirection. */
  datatype FaceDirection = XP | XM | YP | YM | ZP | ZM

  /** Color.white (cube type 1) and Color.gray (cube type 2). */
  datatype Color = White | Gray

  /** What Recalculate hands to the engine mesh. */
  datatype MeshData = MeshData(vertices: seq<Vec3>, triangles: seq<int>, colors: seq<Color>, uvs: seq<Vec2>)

  /** One emitted quad: its direction, the grid cell of its cube and the cube type. */
  datatype Face = Face(dir: FaceDirection, x: int, y: int, z: int, cubeType: int)

  // ---------------------------------------------------------------------------
  // The geometry of one face

  /** The outward unit normal of a face direction. */
  function Normal(d: FaceDirection): Vec3 {
    match d
    case XP => Vec3(1.0, 0.0, 0.0)
    case XM => Vec3(-1.0, 0.0, 0.0)
    case YP => Vec3(0.0, 1.0, 0.0)
    case YM => Vec3(0.0, -1.0, 0.0)
    case ZP => Vec3(0.0, 0.0, 1.0)
    case ZM => Vec3(0.0, 0.0, -1.0)
  }

  /** The coordinate of off along the outward normal of d. */
  function Along(off: Vec3, d: FaceDirection): real {
    match d
    case XP => off.x
    case XM => -off.x
    case YP => off.y
    case YM => -off.y
    case ZP => off.z
    case ZM => -off.z
  }

  predicate HalfUnit(r: real) { r == 0.5 || r == -0.5 }

  /** An offset from a cube's centre is a corner of the cube's face d: every
      coordinate is half a unit away, and the one along the normal is on the
      outward side. */
  predicate OnFace(off: Vec3, d: FaceDirection) {
    HalfUnit(off.x) && HalfUnit(off.y) && HalfUnit(off.z) && Along(off, d) == 0.5
  }

  /** The centre of the cube of a face. */
  function Centre(f: Face): Vec3 { IntVec(f.x, f.y, f.z) }

  /** The corner offsets GenerateCubeFace adds to the cube position for
      direction d. */
  function FaceOffsets(d: FaceDirection): (os: seq<Vec3>)
    ensures |os| == 4
  {
    match d
    case XP => [Vec3(0.5, -0.5, -0.5), Vec3(0.5, 0.5, -0.5), Vec3(0.5, -0.5, 0.5), Vec3(0.5, 0.5, 0.5)]
    case XM => [Vec3(-0.5, -0.5, -0.5), Vec3(-0.5, -0.5, 0.5), Vec3(-0.5, 0.5, -0.5), Vec3(-0.5, 0.5, 0.5)]
    case YP => [Vec3(-0.5, 0.5, -0.5), Vec3(-0.5, 0.5, 0.5), Vec3(0.5, 0.5, -0.5), Vec3(0.5, 0.5, 0.5)]
    case YM => [Vec3(-0.5, -0.5, -0.5), Vec3(0.5, -0.5, -0.5), Vec3(-0.5, -0.5, 0.5), Vec3(0.5, -0.5, 0.5)]
    case ZP => [Vec3(-0.5, -0.5, 0.5), Vec3(0.5, -0.5, 0.5), Vec3(-0.5, 0.5, 0.5), Vec3(0.5, 0.5, 0.5)]
    case ZM => [Vec3(-0.5, -0.5, -0.5), Vec3(-0.5, 0.5, -0.5), Vec3(0.5, -0.5, -0.5), Vec3(0.5, 0.5, -0.5)]
  }

  /** The offsets of a face are its four corners, each exactly once. */
  lemma FaceOffsetsAreCorners(d: FaceDirection)
    ensures forall i | 0 <= i < 4 :: OnFace(FaceOffsets(d)[i], d)
    ensures forall i, j | 0 <= i < j < 4 :: FaceOffsets(d)[i] != FaceOffsets(d)[j]
  {
  }

  /** The four vertices GenerateCubeFace appends for direction d at cell
      (x, y, z): the cube position plus each corner offset. */
  function FaceVertices(d: FaceDirection, x: int, y: int, z: int): (vs: seq<Vec3>)
    ensures |vs| == 4
  {
    var p, os := IntVec(x, y, z), FaceOffsets(d);
    [p.Plus(os[0]), p.Plus(os[1]), p.Plus(os[2]), p.Plus(os[3])]
  }

  /** Vertex k of a face sits at the cube position plus corner offset k. */
  lemma FaceVertexOffset(d: FaceDirection, x: int, y: int, z: int, k: int)
    requires 0 <= k < 4
    ensures FaceVertices(d, x, y, z)[k].Minus(IntVec(x, y, z)) == FaceOffsets(d)[k]
  {
  }

  /** The six indices of a quad whose first vertex is v: triangles (v, v+1, v+2)
      and (v+2, v+1, v+3). */
  function QuadTriangles(v: int): (ts: seq<int>)
    ensures |ts| == 6
  {
    [v, v + 1, v + 2, v + 2, v + 1, v + 3]
  }

  /** Triangle (a, b, c) faces along n: its right-handed normal is n. */
  predicate Facing(a: Vec3, b: Vec3, c: Vec3, n: Vec3) {
    Cross(b.Minus(a), c.Minus(a)) == n
  }

  // The winding proof goes one direction at a time: the edges of both
  // triangles are constant vectors, and their cross products are stated on
  // constants, which keeps the products out of symbolic reasoning.

  lemma CrossXPFirst()
    ensures Cross(Vec3(0.0, 1.0, 0.0), Vec3(0.0, 0.0, 1.0)) == Vec3(1.0, 0.0, 0.0)
  {
  }

  lemma CrossXPSecond()
    ensures Cross(Vec3(0.0, 1.0, -1.0), Vec3(0.0, 1.0, 0.0)) == Vec3(1.0, 0.0, 0.0)
  {
  }

  lemma WindingXP(d: FaceDirection)
    requires d == XP
    ensures Facing(FaceOffsets(d)[0], FaceOffsets(d)[1], FaceOffsets(d)[2], Normal(d))
    ensures Facing(FaceOffsets(d)[2], FaceOffsets(d)[1], FaceOffsets(d)[3], Normal(d))
  {
    var os := FaceOffsets(d);
    assert os[1].Minus(os[0]) == Vec3(0.0, 1.0, 0.0) && os[2].Minus(os[0]) == Vec3(0.0, 0.0, 1.0);
    assert os[1].Minus(os[2]) == Vec3(0.0, 1.0, -1.0) && os[3].Minus(os[2]) == Vec3(0.0, 1.0, 0.0);
    CrossXPFirst(); CrossXPSecond();
  }

  lemma CrossXMFirst()
    ensures Cross(Vec3(0.0, 0.0, 1.0), Vec3(0.0, 1.0, 0.0)) == Vec3(-1.0, 0.0, 0.0)
  {
  }

  lemma CrossXMSecond()
    ensures Cross(Vec3(0.0, -1.0, 1.0), Vec3(0.0, 0.0, 1.0)) == Vec3(-1.0, 0.0, 0.0)
  {
  }

  lemma WindingXM(d: FaceDirection)
    requires d == XM
    ensures Facing(FaceOffsets(d)[0], FaceOffsets(d)[1], FaceOffsets(d)[2], Normal(d))
    ensures Facing(FaceOffsets(d)[2], FaceOffsets(d)[1], FaceOffsets(d)[3], Normal(d))
  {
    var os := FaceOffsets(d);
    assert os[1].Minus(os[0]) == Vec3(0.0, 0.0, 1.0) && os[2].Minus(os[0]) == Vec3(0.0, 1.0, 0.0);
    assert os[1].Minus(os[2]) == Vec3(0.0, -1.0, 1.0) && os[3].Minus(os[2]) == Vec3(0.0, 0.0, 1.0);
    CrossXMFirst(); CrossXMSecond();
  }

  lemma CrossYPFirst()
    ensures Cross(Vec3(0.0, 0.0, 1.0), Vec3(1.0, 0.0, 0.0)) == Vec3(0.0, 1.0, 0.0)
  {
  }

  lemma CrossYPSecond()
    ensures Cross(Vec3(-1.0, 0.0, 1.0), Vec3(0.0, 0.0, 1.0)) == Vec3(0.0, 1.0, 0.0)
  {
  }

  lemma WindingYP(d: FaceDirection)
    requires d == YP
    ensures Facing(FaceOffsets(d)[0], FaceOffsets(d)[1], FaceOffsets(d)[2], Normal(d))
    ensures Facing(FaceOffsets(d)[2], FaceOffsets(d)[1], FaceOffsets(d)[3], Normal(d))
  {
    var os := FaceOffsets(d);
    assert os[1].Minus(os[0]) == Vec3(0.0, 0.0, 1.0) && os[2].Minus(os[0]) == Vec3(1.0, 0.0, 0.0);
    assert os[1].Minus(os[2]) == Vec3(-1.0, 0.0, 1.0) && os[3].Minus(os[2]) == Vec3(0.0, 0.0, 1.0);
    CrossYPFirst(); CrossYPSecond();
  }

  lemma CrossYMFirst()
    ensures Cross(Vec3(1.0, 0.0, 0.0), Vec3(0.0, 0.0, 1.0)) == Vec3(0.0, -1.0, 0.0)
  {
  }

  lemma CrossYMSecond()
    ensures Cross(Vec3(1.0, 0.0, -1.0), Vec3(1.0, 0.0, 0.0)) == Vec3(0.0, -1.0, 0.0)
  {
  }

  lemma WindingYM(d: FaceDirection)
    requires d == YM
    ensures Facing(FaceOffsets(d)[0], FaceOffsets(d)[1], FaceOffsets(d)[2], Normal(d))
    ensures Facing(FaceOffsets(d)[2], FaceOffsets(d)[1], FaceOffsets(d)[3], Normal(d))
  {
    var os := FaceOffsets(d);
    assert os[1].Minus(os[0]) == Vec3(1.0, 0.0, 0.0) && os[2].Minus(os[0]) == Vec3(0.0, 0.0, 1.0);
    assert os[1].Minus(os[2]) == Vec3(1.0, 0.0, -1.0) && os[3].Minus(os[2]) == Vec3(1.0, 0.0, 0.0);
    CrossYMFirst(); CrossYMSecond();
  }

  lemma CrossZPFirst()
    ensures Cross(Vec3(1.0, 0.0, 0.0), Vec3(0.0, 1.0, 0.0)) == Vec3(0.0, 0.0, 1.0)
  {
  }

  lemma CrossZPSecond()
    ensures Cross(Vec3(1.0, -1.0, 0.0), Vec3(1.0, 0.0, 0.0)) == Vec3(0.0, 0.0, 1.0)
  {
  }

  lemma WindingZP(d: FaceDirection)
    requires d == ZP
    ensures Facing(FaceOffsets(d)[0], FaceOffsets(d)[1], FaceOffsets(d)[2], Normal(d))
    ensures Facing(FaceOffsets(d)[2], FaceOffsets(d)[1], FaceOffsets(d)[3], Normal(d))
  {
    var os := FaceOffsets(d);
    assert os[1].Minus(os[0]) == Vec3(1.0, 0.0, 0.0) && os[2].Minus(os[0]) == Vec3(0.0, 1.0, 0.0);
    assert os[1].Minus(os[2]) == Vec3(1.0, -1.0, 0.0) && os[3].Minus(os[2]) == Vec3(1.0, 0.0, 0.0);
    CrossZPFirst(); CrossZPSecond();
  }

  lemma CrossZMFirst()
    ensures Cross(Vec3(0.0, 1.0, 0.0), Vec3(1.0, 0.0, 0.0)) == Vec3(0.0, 0.0, -1.0)
  {
  }

  lemma CrossZMSecond()
    ensures Cross(Vec3(-1.0, 1.0, 0.0), Vec3(0.0, 1.0, 0.0)) == Vec3(0.0, 0.0, -1.0)
  {
  }

  lemma WindingZM(d: FaceDirection)
    requires d == ZM
    ensures Facing(FaceOffsets(d)[0], FaceOffsets(d)[1], FaceOffsets(d)[2], Normal(d))
    ensures Facing(FaceOffsets(d)[2], FaceOffsets(d)[1], FaceOffsets(d)[3], Normal(d))
  {
    var os := FaceOffsets(d);
    assert os[1].Minus(os[0]) == Vec3(0.0, 1.0, 0.0) && os[2].Minus(os[0]) == Vec3(1.0, 0.0, 0.0);
    assert os[1].Minus(os[2]) == Vec3(-1.0, 1.0, 0.0) && os[3].Minus(os[2]) == Vec3(0.0, 1.0, 0.0);
    CrossZMFirst(); CrossZMSecond();
  }

  /** Both triangles of every face, (v, v+1, v+2) and (v+2, v+1, v+3), face
      outward, so the two are wound the same way on every face. */
  lemma FaceWinding(d: FaceDirection)
    ensures Facing(FaceOffsets(d)[0], FaceOffsets(d)[1], FaceOffsets(d)[2], Normal(d))
    ensures Facing(FaceOffsets(d)[2], FaceOffsets(d)[1], FaceOffsets(d)[3], Normal(d))
  {
    match d
    case XP => WindingXP(d);
    case XM => WindingXM(d);
    case YP => WindingYP(d);
    case YM => WindingYM(d);
    case ZP => WindingZP(d);
    case ZM => WindingZM(d);
  }

  /** yOffset of GenerateCubeFace: the atlas band of a face direction. */
  function YOffset(d: FaceDirection): (r: real)
    ensures r == 0.0 || r == 1.0 || r == 2.0
  {
    if d == YP then 2.0 else if d == YM then 1.0 else 0.0
  }

  /** The four coordinates AddTextureCoordinates builds for a band. */
  function TextureCorners(yOffset: real): seq<Vec2> {
    [Vec2(0.0, yOffset / 3.0), Vec2(0.0, (yOffset + 1.0) / 3.0),
     Vec2(1.0, yOffset / 3.0), Vec2(1.0, (yOffset + 1.0) / 3.0)]
  }

  /** The order in which AddTextureCoordinates appends the four corners. */
  function ArrangeCorners(c: seq<Vec2>, d: FaceDirection): (r: seq<Vec2>)
    requires |c| == 4
    ensures |r| == 4
  {
    if d == XM || d == ZP then [c[2], c[0], c[3], c[1]]
    else if d == YM then [c[1], c[3], c[0], c[2]]
    else c
  }

  /** The texture coordinates of a face. */
  function FaceUVs(d: FaceDirection): (uvs: seq<Vec2>)
    ensures |uvs| == 4
  {
    ArrangeCorners(TextureCorners(YOffset(d)), d)
  }

  /** The texture coordinates of a face are the four corners of the face's
      atlas band, each once: u is 0 or 1 and v is the band's lower or upper
      edge. */
  lemma FaceUVsInBand(d: FaceDirection)
    ensures var uvs := FaceUVs(d);
            (forall i, j | 0 <= i < j < 4 :: uvs[i] != uvs[j]) &&
            forall i | 0 <= i < 4 ::
              (uvs[i].u == 0.0 || uvs[i].u == 1.0) &&
              (uvs[i].v == YOffset(d) / 3.0 || uvs[i].v == (YOffset(d) + 1.0) / 3.0)
  {
    if d == XP {} else if d == XM {} else if d == YP {} else if d == YM {} else if d == ZP {} else {}
  }

  /** The in-plane coordinate along which u grows on face d, as seen from
      outside the cube with y up in the engine's left-handed frame: +z on xp,
      -z on xm, -x on zp, +x on zm, +x on the top and the bottom. */
  function RightwardOf(off: Vec3, d: FaceDirection): real {
    match d
    case XP => off.z
    case XM => -off.z
    case ZP => -off.x
    case ZM => off.x
    case YP => off.x
    case YM => off.x
  }

  /** The in-plane coordinate along which v grows: up on the four sides, +z on
      the top, -z on the bottom. */
  function UpwardOf(off: Vec3, d: FaceDirection): real {
    match d
    case YP => off.z
    case YM => -off.z
    case _ => off.y
  }

  /** Reference texture mapping: the coordinate a corner at offset off from the
      cube centre should get so that the face's band appears upright and
      unmirrored. */
  function TextureAt(d: FaceDirection, off: Vec3): Vec2 {
    Vec2(RightwardOf(off, d) + 0.5, (YOffset(d) + UpwardOf(off, d) + 0.5) / 3.0)
  }

  /** The reflected corner orders of xm, zp and ym are exactly what makes the
      emitted coordinates follow the reference mapping on every face. */
  lemma FaceUVFollowsGeometry(d: FaceDirection, k: int)
    requires 0 <= k < 4
    ensures FaceUVs(d)[k] == TextureAt(d, FaceOffsets(d)[k])
  {
    if d == XP {} else if d == XM {} else if d == YP {} else if d == YM {} else if d == ZP {} else {}
  }

  predicate Colored(cubeType: int) { cubeType == 1 || cubeType == 2 }

  /** The colours GenerateCubeFace appends: four of the type's colour for types
      1 and 2, none otherwise. */
  function FaceColors(cubeType: int): (cs: seq<Color>)
    ensures |cs| == if Colored(cubeType) then 4 else 0
  {
    if cubeType == 1 then [White, White, White, White]
    else if cubeType == 2 then [Gray, Gray, Gray, Gray]
    else []
  }

  /** Type 1 is drawn white and type 2 gray, on all four corners. */
  lemma FaceColorsShade(cubeType: int)
    ensures forall i | 0 <= i < |FaceColors(cubeType)| ::
      FaceColors(cubeType)[i] == (if cubeType == 1 then White else Gray)
  {
  }

  // ---------------------------------------------------------------------------
  // The mesh a sequence of faces produces

  function VerticesOf(fs: seq<Face>): (vs: seq<Vec3>)
    ensures |vs| == 4 * |fs|
  {
    if fs == [] then []
    else
      var f := fs[|fs| - 1];
      VerticesOf(fs[..|fs| - 1]) + FaceVertices(f.dir, f.x, f.y, f.z)
  }

  /** The triangle list of n quads: 6 indices per quad, each naming one of
      the first 4 * n vertices. */
  function TrianglesOf(n: nat): (ts: seq<int>)
    ensures |ts| == 6 * n
  {
    if n == 0 then [] else TrianglesOf(n - 1) + QuadTriangles(4 * (n - 1))
  }

  /** Colours: four per face of a coloured type, none for any other. */
  function ColorsOf(fs: seq<Face>): (cs: seq<Color>)
    ensures |cs| <= 4 * |fs|
  {
    if fs == [] then [] else ColorsOf(fs[..|fs| - 1]) + FaceColors(fs[|fs| - 1].cubeType)
  }

  /** There are as many colours as vertices exactly when every face is of
      type 1 or 2. */
  lemma {:induction false} ColorsOfFull(fs: seq<Face>)
    ensures |ColorsOf(fs)| == 4 * |fs| <==> forall i | 0 <= i < |fs| :: Colored(fs[i].cubeType)
    decreases |fs|
  {
    if fs != [] {
      var init := fs[..|fs| - 1];
      ColorsOfFull(init);
      assert forall i | 0 <= i < |init| :: init[i] == fs[i];
    }
  }

  function UVsOf(fs: seq<Face>): (us: seq<Vec2>)
    ensures |us| == 4 * |fs|
  {
    if fs == [] then []
    else UVsOf(fs[..|fs| - 1]) + FaceUVs(fs[|fs| - 1].dir)
  }

  function MeshOf(fs: seq<Face>): MeshData {
    MeshData(VerticesOf(fs), TrianglesOf(|fs|), ColorsOf(fs), UVsOf(fs))
  }

  /** Appending a face appends its quad to each list of the mesh; the new
      quad's indices start at the old vertex count. */
  lemma MeshOfSnoc(fs: seq<Face>, f: Face)
    ensures MeshOf(fs + [f]) ==
            MeshData(VerticesOf(fs) + FaceVertices(f.dir, f.x, f.y, f.z),
                     TrianglesOf(|fs|) + QuadTriangles(|VerticesOf(fs)|),
                     ColorsOf(fs) + FaceColors(f.cubeType), UVsOf(fs) + FaceUVs(f.dir))
  {
    assert (fs + [f])[..|fs|] == fs;
  }

  lemma {:induction false} VertexAt(fs: seq<Face>, q: int, k: int)
    requires 0 <= q < |fs| && 0 <= k < 4
    ensures VerticesOf(fs)[4 * q + k] == FaceVertices(fs[q].dir, fs[q].x, fs[q].y, fs[q].z)[k]
  {
    if q < |fs| - 1 {
      VertexAt(fs[..|fs| - 1], q, k);
    }
  }

  lemma {:induction false} UVAt(fs: seq<Face>, q: int, k: int)
    requires 0 <= q < |fs| && 0 <= k < 4
    ensures UVsOf(fs)[4 * q + k] == FaceUVs(fs[q].dir)[k]
  {
    if q < |fs| - 1 {
      UVAt(fs[..|fs| - 1], q, k);
    }
  }

  lemma {:induction false} TriangleAt(n: nat, q: int, k: int)
    requires 0 <= q < n && 0 <= k < 6
    ensures TrianglesOf(n)[6 * q + k] == QuadTriangles(4 * q)[k]
  {
    if q < n - 1 {
      TriangleAt(n - 1, q, k);
    }
  }

  /** The mesh of any face list is well formed: 4 vertices, 4 coordinates and
      6 indices (two whole triangles) per face, and every index names a vertex. */
  lemma MeshWellFormed(fs: seq<Face>)
    ensures var m := MeshOf(fs);
            |m.vertices| == 4 * |fs| && |m.uvs| == |m.vertices| &&
            |m.triangles| == 6 * |fs| &&
            (forall i | 0 <= i < |m.triangles| :: 0 <= m.triangles[i] < |m.vertices|)
  {
    forall i | 0 <= i < 6 * |fs| ensures 0 <= TrianglesOf(|fs|)[i] < 4 * |fs| {
      var q, k := i / 6, i % 6;
      assert i == 6 * q + k;
      TriangleAt(|fs|, q, k);
    }
  }

  /** Orientation does not change under translation. */
  lemma FacingShift(p: Vec3, a: Vec3, b: Vec3, c: Vec3, n: Vec3)
    ensures Facing(p.Plus(a), p.Plus(b), p.Plus(c), n) == Facing(a, b, c, n)
  {
    assert p.Plus(b).Minus(p.Plus(a)) == b.Minus(a);
    assert p.Plus(c).Minus(p.Plus(a)) == c.Minus(a);
  }

  /** The six indices of quad q name vertices 4q, 4q+1, 4q+2, 4q+2, 4q+1, 4q+3. */
  predicate QuadIndexed(ts: seq<int>, q: int) {
    0 <= 6 * q && 6 * q + 5 < |ts| &&
    ts[6 * q] == 4 * q && ts[6 * q + 1] == 4 * q + 1 && ts[6 * q + 2] == 4 * q + 2 &&
    ts[6 * q + 3] == 4 * q + 2 && ts[6 * q + 4] == 4 * q + 1 && ts[6 * q + 5] == 4 * q + 3
  }

  lemma QuadIndices(n: nat, q: int)
    requires 0 <= q < n
    ensures QuadIndexed(TrianglesOf(n), q)
  {
    TriangleAt(n, q, 0); TriangleAt(n, q, 1); TriangleAt(n, q, 2);
    TriangleAt(n, q, 3); TriangleAt(n, q, 4); TriangleAt(n, q, 5);
  }

  /** Vertices 4q .. 4q+3 of the mesh are the four vertices of face q. */
  lemma QuadVertices(fs: seq<Face>, q: int)
    requires 0 <= q < |fs|
    ensures var vs, fv := VerticesOf(fs), FaceVertices(fs[q].dir, fs[q].x, fs[q].y, fs[q].z);
            vs[4 * q] == fv[0] && vs[4 * q + 1] == fv[1] && vs[4 * q + 2] == fv[2] && vs[4 * q + 3] == fv[3]
  {
    VertexAt(fs, q, 0); VertexAt(fs, q, 1); VertexAt(fs, q, 2); VertexAt(fs, q, 3);
  }

  /** Both triangles of a face, placed at its cube, face along its normal. */
  lemma FaceFacing(f: Face)
    ensures var fv := FaceVertices(f.dir, f.x, f.y, f.z);
            Facing(fv[0], fv[1], fv[2], Normal(f.dir)) && Facing(fv[2], fv[1], fv[3], Normal(f.dir))
  {
    var os := FaceOffsets(f.dir);
    FaceWinding(f.dir);
    FacingShift(Centre(f), os[0], os[1], os[2], Normal(f.dir));
    FacingShift(Centre(f), os[2], os[1], os[3], Normal(f.dir));
  }

  /** Quad q of the mesh indexes the vertices of face q as the triangles
      (4q, 4q+1, 4q+2) and (4q+2, 4q+1, 4q+3), and both face outward along
      that face's normal. */
  lemma MeshWindingAt(fs: seq<Face>, q: int)
    requires 0 <= q < |fs|
    ensures QuadIndexed(TrianglesOf(|fs|), q)
    ensures var vs, ts := VerticesOf(fs), TrianglesOf(|fs|);
            Facing(vs[ts[6 * q]], vs[ts[6 * q + 1]], vs[ts[6 * q + 2]], Normal(fs[q].dir)) &&
            Facing(vs[ts[6 * q + 3]], vs[ts[6 * q + 4]], vs[ts[6 * q + 5]], Normal(fs[q].dir))
  {
    QuadIndices(|fs|, q);
    QuadVertices(fs, q);
    FaceFacing(fs[q]);
  }

  /** Corner k of a face lies on the face, and its texture coordinate is the
      reference mapping of that corner. */
  lemma FaceCornerAt(f: Face, k: int)
    requires 0 <= k < 4
    ensures var off := FaceVertices(f.dir, f.x, f.y, f.z)[k].Minus(Centre(f));
            OnFace(off, f.dir) && FaceUVs(f.dir)[k] == TextureAt(f.dir, off)
  {
    FaceVertexOffset(f.dir, f.x, f.y, f.z, k);
    FaceOffsetsAreCorners(f.dir);
    FaceUVFollowsGeometry(f.dir, k);
  }

  /** Every vertex of the mesh is a corner of the face it belongs to (vertex i
      belongs to face i / 4), and its texture coordinate is the reference
      mapping of that corner. */
  lemma MeshVertexAt(fs: seq<Face>, i: int)
    requires 0 <= i < 4 * |fs|
    ensures var f := fs[i / 4];
            OnFace(VerticesOf(fs)[i].Minus(Centre(f)), f.dir) &&
            UVsOf(fs)[i] == TextureAt(f.dir, VerticesOf(fs)[i].Minus(Centre(f)))
  {
    var q, k := i / 4, i % 4;
    assert i == 4 * q + k;
    VertexAt(fs, q, k);
    UVAt(fs, q, k);
    FaceCornerAt(fs[q], k);
  }

  // ---------------------------------------------------------------------------
  // Which faces a grid emits, in the order GenerateMesh emits them

  predicate InGrid(g: array3<int>, x: int, y: int, z: int) {
    0 <= x < g.Length0 && 0 <= y < g.Length1 && 0 <= z < g.Length2
  }

  /** The test GenerateCube makes before emitting face d of cell (x, y, z):
      the cell is on the grid boundary on that side, or the neighbour on that
      side holds 0. */
  predicate Exposed(g: array3<int>, d: FaceDirection, x: int, y: int, z: int)
    requires InGrid(g, x, y, z)
    reads g
  {
    match d
    case XP => x == g.Length0 - 1 || g[x + 1, y, z] == 0
    case YP => y == g.Length1 - 1 || g[x, y + 1, z] == 0
    case ZP => z == g.Length2 - 1 || g[x, y, z + 1] == 0
    case XM => x == 0 || g[x - 1, y, z] == 0
    case YM => y == 0 || g[x, y - 1, z] == 0
    case ZM => z == 0 || g[x, y, z - 1] == 0
  }

  /** The face GenerateCube emits in direction d (none if it is covered). */
  function Emit(g: array3<int>, d: FaceDirection, x: int, y: int, z: int, t: int): seq<Face>
    requires InGrid(g, x, y, z)
    reads g
  {
    if Exposed(g, d, x, y, z) then [Face(d, x, y, z, t)] else []
  }

  /** Emission rank of a direction inside one cube: xp, yp, zp, xm, ym, zm. */
  function Rank(d: FaceDirection): nat {
    match d
    case XP => 0
    case YP => 1
    case ZP => 2
    case XM => 3
    case YM => 4
    case ZM => 5
  }

  function DirOfRank(k: int): (d: FaceDirection)
    requires 0 <= k < 6
    ensures Rank(d) == k
  {
    if k == 0 then XP else if k == 1 then YP else if k == 2 then ZP
    else if k == 3 then XM else if k == 4 then YM else ZM
  }

  /** The faces GenerateCube emits for a cube of type t among its first k
      directions in rank order. */
  function CubeFaces(g: array3<int>, x: int, y: int, z: int, t: int, k: nat): seq<Face>
    requires InGrid(g, x, y, z) && k <= 6
    reads g
  {
    if k == 0 then [] else CubeFaces(g, x, y, z, t, k - 1) + Emit(g, DirOfRank(k - 1), x, y, z, t)
  }

  /** All six directions in the order GenerateCube tests them, after any
      prefix fs. */
  lemma CubeFacesSix(fs: seq<Face>, g: array3<int>, x: int, y: int, z: int, t: int)
    requires InGrid(g, x, y, z)
    ensures fs + CubeFaces(g, x, y, z, t, 6) ==
            fs + Emit(g, XP, x, y, z, t) + Emit(g, YP, x, y, z, t) + Emit(g, ZP, x, y, z, t) +
            Emit(g, XM, x, y, z, t) + Emit(g, YM, x, y, z, t) + Emit(g, ZM, x, y, z, t)
  {
    assert CubeFaces(g, x, y, z, t, 1) == Emit(g, XP, x, y, z, t);
    assert CubeFaces(g, x, y, z, t, 2) == CubeFaces(g, x, y, z, t, 1) + Emit(g, YP, x, y, z, t);
    assert CubeFaces(g, x, y, z, t, 3) == CubeFaces(g, x, y, z, t, 2) + Emit(g, ZP, x, y, z, t);
    assert CubeFaces(g, x, y, z, t, 4) == CubeFaces(g, x, y, z, t, 3) + Emit(g, XM, x, y, z, t);
    assert CubeFaces(g, x, y, z, t, 5) == CubeFaces(g, x, y, z, t, 4) + Emit(g, YM, x, y, z, t);
  }

  /** The faces emitted for cell (x, y, z): none for a zero cell, otherwise
      one per exposed direction, in rank order. */
  function CellFaces(g: array3<int>, x: int, y: int, z: int): seq<Face>
    requires InGrid(g, x, y, z)
    reads g
  {
    if g[x, y, z] == 0 then [] else CubeFaces(g, x, y, z, g[x, y, z], 6)
  }

  /** Face f is one the source should draw: its cube is a non-zero cell of the
      grid, f carries that cell's value, and f is exposed. */
  predicate Emitted(g: array3<int>, f: Face)
    reads g
  {
    InGrid(g, f.x, f.y, f.z) && g[f.x, f.y, f.z] != 0 &&
    f.cubeType == g[f.x, f.y, f.z] && Exposed(g, f.dir, f.x, f.y, f.z)
  }

  /** fs holds f, by recursion from the back. It is the same as f in fs
      (HasIff) and splits over a concatenation without index reasoning. */
  predicate Has(fs: seq<Face>, f: Face)
    decreases |fs|
  {
    |fs| > 0 && (fs[|fs| - 1] == f || Has(fs[..|fs| - 1], f))
  }

  lemma {:induction false} HasIff(fs: seq<Face>, f: Face)
    ensures Has(fs, f) <==> f in fs
    decreases |fs|
  {
    if |fs| > 0 {
      HasIff(fs[..|fs| - 1], f);
      assert fs == fs[..|fs| - 1] + [fs[|fs| - 1]];
    }
  }

  lemma {:induction false} HasAppend(a: seq<Face>, b: seq<Face>, f: Face)
    ensures Has(a + b, f) <==> Has(a, f) || Has(b, f)
    decreases |b|
  {
    if |b| > 0 {
      var b' := b[..|b| - 1];
      assert (a + b)[..|a + b| - 1] == a + b';
      HasAppend(a, b', f);
    } else {
      assert a + b == a;
    }
  }

  lemma {:induction false} HasIndex(fs: seq<Face>, i: int)
    requires 0 <= i < |fs|
    ensures Has(fs, fs[i])
    decreases |fs|
  {
    if i < |fs| - 1 {
      HasIndex(fs[..|fs| - 1], i);
    }
  }

  lemma {:induction false} CubeFacesMember(g: array3<int>, x: int, y: int, z: int, t: int, k: nat, f: Face)
    requires InGrid(g, x, y, z) && k <= 6
    ensures Has(CubeFaces(g, x, y, z, t, k), f) <==>
            f.x == x && f.y == y && f.z == z && f.cubeType == t && Rank(f.dir) < k &&
            Exposed(g, f.dir, x, y, z)
  {
    if k > 0 {
      CubeFacesMember(g, x, y, z, t, k - 1, f);
      HasAppend(CubeFaces(g, x, y, z, t, k - 1), Emit(g, DirOfRank(k - 1), x, y, z, t), f);
      assert Rank(f.dir) == k - 1 <==> f.dir == DirOfRank(k - 1);
    }
  }

  /** Cell (x, y, z) emits face f exactly when f is a face of that cell that
      should be drawn. */
  lemma CellFacesMember(g: array3<int>, x: int, y: int, z: int, f: Face)
    requires InGrid(g, x, y, z)
    ensures Has(CellFaces(g, x, y, z), f) <==> f.x == x && f.y == y && f.z == z && Emitted(g, f)
  {
    if g[x, y, z] != 0 {
      CubeFacesMember(g, x, y, z, g[x, y, z], 6, f);
    }
  }

  /** Faces of cells (x, y, 0) .. (x, y, n - 1). */
  function ColumnFaces(g: array3<int>, x: int, y: int, n: int): seq<Face>
    requires 0 <= x < g.Length0 && 0 <= y < g.Length1 && 0 <= n <= g.Length2
    reads g
    decreases n
  {
    if n == 0 then [] else ColumnFaces(g, x, y, n - 1) + CellFaces(g, x, y, n - 1)
  }

  /** Faces of the columns (x, 0) .. (x, n - 1). */
  function SliceFaces(g: array3<int>, x: int, n: int): seq<Face>
    requires 0 <= x < g.Length0 && 0 <= n <= g.Length1
    reads g
    decreases n
  {
    if n == 0 then [] else SliceFaces(g, x, n - 1) + ColumnFaces(g, x, n - 1, g.Length2)
  }

  /** Faces of the slices 0 .. n - 1. */
  function GridFaces(g: array3<int>, n: int): seq<Face>
    requires 0 <= n <= g.Length0
    reads g
    decreases n
  {
    if n == 0 then [] else GridFaces(g, n - 1) + SliceFaces(g, n - 1, g.Length1)
  }

  /** Every face GenerateMesh emits for the grid, in emission order. */
  function AllFaces(g: array3<int>): seq<Face>
    reads g
  {
    GridFaces(g, g.Length0)
  }

  lemma {:induction false} InColumn(g: array3<int>, x: int, y: int, n: int, f: Face)
    requires 0 <= x < g.Length0 && 0 <= y < g.Length1 && 0 <= n <= g.Length2
    ensures Has(ColumnFaces(g, x, y, n), f) <==> f.x == x && f.y == y && f.z < n && Emitted(g, f)
    decreases n
  {
    if n > 0 {
      InColumn(g, x, y, n - 1, f);
      CellFacesMember(g, x, y, n - 1, f);
      HasAppend(ColumnFaces(g, x, y, n - 1), CellFaces(g, x, y, n - 1), f);
    }
  }

  lemma {:induction false} InSlice(g: array3<int>, x: int, n: int, f: Face)
    requires 0 <= x < g.Length0 && 0 <= n <= g.Length1
    ensures Has(SliceFaces(g, x, n), f) <==> f.x == x && f.y < n && Emitted(g, f)
    decreases n
  {
    if n > 0 {
      InSlice(g, x, n - 1, f);
      InColumn(g, x, n - 1, g.Length2, f);
      HasAppend(SliceFaces(g, x, n - 1), ColumnFaces(g, x, n - 1, g.Length2), f);
      if f.y == n - 1 && Emitted(g, f) {
        assert f.z < g.Length2;
      }
    }
  }

  lemma {:induction false} InGridFaces(g: array3<int>, n: int, f: Face)
    requires 0 <= n <= g.Length0
    ensures Has(GridFaces(g, n), f) <==> f.x < n && Emitted(g, f)
    decreases n
  {
    if n > 0 {
      InGridFaces(g, n - 1, f);
      InSlice(g, n - 1, g.Length1, f);
      HasAppend(GridFaces(g, n - 1), SliceFaces(g, n - 1, g.Length1), f);
    }
  }

  // Where the faces of a cell, a column, a slice and a prefix of the grid lie;
  // the ordering proofs need only this much of the membership lemmas.

  lemma CellAt(g: array3<int>, x: int, y: int, z: int, f: Face)
    requires InGrid(g, x, y, z) && Has(CellFaces(g, x, y, z), f)
    ensures f.x == x && f.y == y && f.z == z
  {
    CellFacesMember(g, x, y, z, f);
  }

  lemma ColumnAt(g: array3<int>, x: int, y: int, n: int, f: Face)
    requires 0 <= x < g.Length0 && 0 <= y < g.Length1 && 0 <= n <= g.Length2
    requires Has(ColumnFaces(g, x, y, n), f)
    ensures f.x == x && f.y == y && f.z < n
  {
    InColumn(g, x, y, n, f);
  }

  lemma SliceAt(g: array3<int>, x: int, n: int, f: Face)
    requires 0 <= x < g.Length0 && 0 <= n <= g.Length1 && Has(SliceFaces(g, x, n), f)
    ensures f.x == x && f.y < n
  {
    InSlice(g, x, n, f);
  }

  lemma GridAt(g: array3<int>, n: int, f: Face)
    requires 0 <= n <= g.Length0 && Has(GridFaces(g, n), f)
    ensures f.x < n
  {
    InGridFaces(g, n, f);
  }

  /** A face is emitted if and only if its cube is a non-zero cell, the face
      carries the cell's value, and it is exposed (on the grid boundary, or
      next to a zero cell). A zero cell therefore contributes nothing. */
  lemma FaceEmittedIff(g: array3<int>, f: Face)
    ensures f in AllFaces(g) <==> Emitted(g, f)
  {
    InGridFaces(g, g.Length0, f);
    HasIff(AllFaces(g), f);
  }

  /** A non-zero cell with no non-zero neighbour emits all six faces, 12 triangles. */
  lemma IsolatedVoxel(g: array3<int>, x: int, y: int, z: int)
    requires InGrid(g, x, y, z) && g[x, y, z] != 0
    requires forall d: FaceDirection :: Exposed(g, d, x, y, z)
    ensures |CellFaces(g, x, y, z)| == 6 && |TrianglesOf(|CellFaces(g, x, y, z)|)| / 3 == 12
  {
    assert Exposed(g, XP, x, y, z) && Exposed(g, YP, x, y, z) && Exposed(g, ZP, x, y, z);
    assert Exposed(g, XM, x, y, z) && Exposed(g, YM, x, y, z) && Exposed(g, ZM, x, y, z);
    CubeFacesSix([], g, x, y, z, g[x, y, z]);
    assert [] + CubeFaces(g, x, y, z, g[x, y, z], 6) == CubeFaces(g, x, y, z, g[x, y, z], 6);
  }

  /** A cell whose six neighbours all exist and are non-zero emits nothing. */
  lemma BuriedVoxel(g: array3<int>, x: int, y: int, z: int)
    requires 0 < x < g.Length0 - 1 && 0 < y < g.Length1 - 1 && 0 < z < g.Length2 - 1
    requires g[x + 1, y, z] != 0 && g[x - 1, y, z] != 0 && g[x, y + 1, z] != 0
    requires g[x, y - 1, z] != 0 && g[x, y, z + 1] != 0 && g[x, y, z - 1] != 0
    ensures CellFaces(g, x, y, z) == []
  {
    CubeFacesSix([], g, x, y, z, g[x, y, z]);
    assert [] + CubeFaces(g, x, y, z, g[x, y, z], 6) == CubeFaces(g, x, y, z, g[x, y, z], 6);
  }

  // ---------------------------------------------------------------------------
  // Emission order

  /** f comes strictly before h in emission order: by x, then y, then z, then
      the direction's rank. */
  predicate Before(f: Face, h: Face) {
    f.x < h.x || (f.x == h.x && (f.y < h.y || (f.y == h.y && (f.z < h.z || (f.z == h.z && Rank(f.dir) < Rank(h.dir))))))
  }

  /** Each face comes before the next one. */
  predicate Ordered(fs: seq<Face>)
    decreases |fs|
  {
    |fs| < 2 || (Ordered(fs[..|fs| - 1]) && Before(fs[|fs| - 2], fs[|fs| - 1]))
  }

  /** An ordered list is strictly increasing: every face comes before every
      later one, so none occurs twice. */
  lemma {:induction false} OrderedPairwise(fs: seq<Face>)
    requires Ordered(fs)
    ensures forall i, j | 0 <= i < j < |fs| :: Before(fs[i], fs[j])
    decreases |fs|
  {
    if |fs| > 1 {
      var init := fs[..|fs| - 1];
      assert forall i | 0 <= i < |init| :: init[i] == fs[i];
      OrderedPairwise(init);
      var n := |fs| - 1;
      forall i | 0 <= i < n ensures Before(fs[i], fs[n]) {
        if i < n - 1 {
          assert Before(init[i], init[n - 1]);
        }
      }
    }
  }

  lemma {:induction false} ConcatOrderedAt(a: seq<Face>, b: seq<Face>)
    requires Ordered(a) && Ordered(b)
    requires a != [] && b != [] ==> Before(a[|a| - 1], b[0])
    ensures Ordered(a + b)
    decreases |b|
  {
    if b == [] {
      assert a + b == a;
    } else {
      var b' := b[..|b| - 1];
      assert (a + b)[..|a + b| - 1] == a + b';
      if b' != [] {
        assert b'[0] == b[0];
      }
      ConcatOrderedAt(a, b');
    }
  }

  lemma AppendAssoc(a: seq<Face>, b: seq<Face>, c: seq<Face>)
    ensures a + b + c == a + (b + c)
  {
  }

  /** Two ordered lists, every face of the first before every face of the
      second, concatenate to an ordered list. */
  lemma ConcatOrdered(a: seq<Face>, b: seq<Face>)
    requires Ordered(a) && Ordered(b)
    requires forall f, h | Has(a, f) && Has(b, h) :: Before(f, h)
    ensures Ordered(a + b)
  {
    if a != [] && b != [] {
      HasIndex(a, |a| - 1);
      HasIndex(b, 0);
    }
    ConcatOrderedAt(a, b);
  }

  lemma {:induction false} CubeOrdered(g: array3<int>, x: int, y: int, z: int, t: int, k: nat)
    requires InGrid(g, x, y, z) && k <= 6
    ensures Ordered(CubeFaces(g, x, y, z, t, k))
  {
    if k > 0 {
      var a, b := CubeFaces(g, x, y, z, t, k - 1), Emit(g, DirOfRank(k - 1), x, y, z, t);
      CubeOrdered(g, x, y, z, t, k - 1);
      forall f, h | Has(a, f) && Has(b, h) ensures Before(f, h) {
        CubeFacesMember(g, x, y, z, t, k - 1, f);
        CubeFacesMember(g, x, y, z, t, k, h);
        HasAppend(a, b, h);
      }
      ConcatOrdered(a, b);
    }
  }

  lemma {:induction false} ColumnOrdered(g: array3<int>, x: int, y: int, n: int)
    requires 0 <= x < g.Length0 && 0 <= y < g.Length1 && 0 <= n <= g.Length2
    ensures Ordered(ColumnFaces(g, x, y, n))
    decreases n
  {
    if n > 0 {
      var a, b := ColumnFaces(g, x, y, n - 1), CellFaces(g, x, y, n - 1);
      ColumnOrdered(g, x, y, n - 1);
      if g[x, y, n - 1] != 0 {
        CubeOrdered(g, x, y, n - 1, g[x, y, n - 1], 6);
      }
      forall f, h | Has(a, f) && Has(b, h) ensures Before(f, h) {
        ColumnAt(g, x, y, n - 1, f);
        CellAt(g, x, y, n - 1, h);
      }
      ConcatOrdered(a, b);
    }
  }

  lemma {:induction false} SliceOrdered(g: array3<int>, x: int, n: int)
    requires 0 <= x < g.Length0 && 0 <= n <= g.Length1
    ensures Ordered(SliceFaces(g, x, n))
    decreases n
  {
    if n > 0 {
      var a, b := SliceFaces(g, x, n - 1), ColumnFaces(g, x, n - 1, g.Length2);
      SliceOrdered(g, x, n - 1);
      ColumnOrdered(g, x, n - 1, g.Length2);
      forall f, h | Has(a, f) && Has(b, h) ensures Before(f, h) {
        SliceAt(g, x, n - 1, f);
        ColumnAt(g, x, n - 1, g.Length2, h);
      }
      ConcatOrdered(a, b);
    }
  }

  lemma {:induction false} GridOrdered(g: array3<int>, n: int)
    requires 0 <= n <= g.Length0
    ensures Ordered(GridFaces(g, n))
    decreases n
  {
    if n > 0 {
      var a, b := GridFaces(g, n - 1), SliceFaces(g, n - 1, g.Length1);
      GridOrdered(g, n - 1);
      SliceOrdered(g, n - 1, g.Length1);
      forall f, h | Has(a, f) && Has(b, h) ensures Before(f, h) {
        GridAt(g, n - 1, f);
        SliceAt(g, n - 1, g.Length1, h);
      }
      ConcatOrdered(a, b);
    }
  }

  /** Faces come out in x, y, z loop order and, within a cube, in the order
      xp, yp, zp, xm, ym, zm; in particular no face is emitted twice. */
  lemma EmissionOrder(g: array3<int>)
    ensures forall i, j | 0 <= i < j < |AllFaces(g)| :: Before(AllFaces(g)[i], AllFaces(g)[j])
  {
    GridOrdered(g, g.Length0);
    OrderedPairwise(AllFaces(g));
  }

  lemma {:induction false} DistinctCard(s: seq<Face>)
    requires forall i, j | 0 <= i < j < |s| :: s[i] != s[j]
    ensures |set f | f in s| == |s|
  {
    if s != [] {
      var p := s[..|s| - 1];
      DistinctCard(p);
      assert (set f | f in s) == (set f | f in p) + {s[|s| - 1]};
    }
  }

  /** The six faces of the cube at (x, y, z), of type t. */
  function SixFaces(x: int, y: int, z: int, t: int): (six: set<Face>)
    ensures |six| == 6
  {
    var six := {Face(XP, x, y, z, t), Face(YP, x, y, z, t), Face(ZP, x, y, z, t),
                Face(XM, x, y, z, t), Face(YM, x, y, z, t), Face(ZM, x, y, z, t)};
    assert |six - {Face(ZM, x, y, z, t)}| == 5;
    six
  }

  /** The six faces are those at (x, y, z) of type t, one per direction. */
  lemma SixFacesIff(x: int, y: int, z: int, t: int, f: Face)
    ensures f in SixFaces(x, y, z, t) <==> f.x == x && f.y == y && f.z == z && f.cubeType == t
  {
    if f.x == x && f.y == y && f.z == z && f.cubeType == t {
      match f.dir
      case XP => assert f == Face(XP, x, y, z, t);
      case YP => assert f == Face(YP, x, y, z, t);
      case ZP => assert f == Face(ZP, x, y, z, t);
      case XM => assert f == Face(XM, x, y, z, t);
      case YM => assert f == Face(YM, x, y, z, t);
      case ZM => assert f == Face(ZM, x, y, z, t);
    }
  }

  /** In a grid whose only non-zero cell is (x, y, z), every face of that
      cell is exposed and no other cell emits anything. */
  lemma SingleEmitted(g: array3<int>, x: int, y: int, z: int, f: Face)
    requires InGrid(g, x, y, z) && g[x, y, z] != 0
    requires forall a, b, c | InGrid(g, a, b, c) && (a, b, c) != (x, y, z) :: g[a, b, c] == 0
    ensures Emitted(g, f) <==> f.x == x && f.y == y && f.z == z && f.cubeType == g[x, y, z]
  {
    if f.x == x && f.y == y && f.z == z {
      assert Exposed(g, f.dir, x, y, z);
    }
  }

  lemma SingleVoxelFaces(g: array3<int>, x: int, y: int, z: int)
    requires InGrid(g, x, y, z) && g[x, y, z] != 0
    requires forall a, b, c | InGrid(g, a, b, c) && (a, b, c) != (x, y, z) :: g[a, b, c] == 0
    ensures (set f | f in AllFaces(g)) == SixFaces(x, y, z, g[x, y, z])
  {
    forall f ensures f in AllFaces(g) <==> f in SixFaces(x, y, z, g[x, y, z]) {
      FaceEmittedIff(g, f);
      SingleEmitted(g, x, y, z, f);
      SixFacesIff(x, y, z, g[x, y, z], f);
    }
  }

  /** A grid whose only non-zero cell is (x, y, z) yields a mesh of exactly six
      quads: 24 vertices and 12 triangles. */
  lemma SingleVoxelMesh(g: array3<int>, x: int, y: int, z: int)
    requires InGrid(g, x, y, z) && g[x, y, z] != 0
    requires forall a, b, c | InGrid(g, a, b, c) && (a, b, c) != (x, y, z) :: g[a, b, c] == 0
    ensures |MeshOf(AllFaces(g)).vertices| == 24 && |MeshOf(AllFaces(g)).triangles| / 3 == 12
  {
    SingleVoxelFaces(g, x, y, z);
    EmissionOrder(g);
    DistinctCard(AllFaces(g));
  }

  /** There are as many colours as vertices exactly when every emitted face
      has cube type 1 or 2; in particular whenever every non-zero cell does. */
  lemma ColorCount(g: array3<int>)
    ensures var m := MeshOf(AllFaces(g));
            |m.colors| == |m.vertices| <==> forall f | f in AllFaces(g) :: Colored(f.cubeType)
    ensures (forall a, b, c | InGrid(g, a, b, c) && g[a, b, c] != 0 :: Colored(g[a, b, c])) ==>
            |MeshOf(AllFaces(g)).colors| == |MeshOf(AllFaces(g)).vertices|
  {
    var fs := AllFaces(g);
    ColorsOfFull(fs);
    assert (forall f | f in fs :: Colored(f.cubeType)) <==> (forall i | 0 <= i < |fs| :: Colored(fs[i].cubeType));
    forall f | f in fs ensures InGrid(g, f.x, f.y, f.z) && g[f.x, f.y, f.z] != 0 && f.cubeType == g[f.x, f.y, f.z] {
      FaceEmittedIff(g, f);
    }
  }

  // ---------------------------------------------------------------------------
  // The generator

  /** MeshGenerator: the four lists grow face by face. The ghost list faces
      records the faces emitted so far; Valid ties the lists to it. */
  class MeshGenerator {
    var vertices: seq<Vec3>
    var triangles: seq<int>
    var colors: seq<Color>
    var uvs: seq<Vec2>
    var pointmap: array3<int>
    ghost var faces: seq<Face>

    ghost predicate Valid()
      reads this
    {
      vertices == VerticesOf(faces) && triangles == TrianglesOf(|faces|) &&
      colors == ColorsOf(faces) && uvs == UVsOf(faces)
    }

    /** new MeshGenerator() followed by Initialize() and the pointmap assignment. */
    constructor (pointmap: array3<int>)
      ensures Valid() && faces == [] && this.pointmap == pointmap
    {
      vertices, triangles, colors, uvs := [], [], [], [];
      this.pointmap := pointmap;
      faces := [];
    }

    /** Appends the four texture coordinates of a face. xOffset is divided by
        the number of textures and then not used, as in the source. */
    method AddTextureCoordinates(xOffset: real, yOffset: real, dir: FaceDirection)
      modifies this`uvs
      ensures uvs == old(uvs) + ArrangeCorners(TextureCorners(yOffset), dir)
    {
      var numberOfTextures := 1.0;
      var xo := xOffset / numberOfTextures;
      var coords := [Vec2(0.0, yOffset / 3.0), Vec2(0.0, (yOffset + 1.0) / 3.0),
                     Vec2(1.0, yOffset / 3.0), Vec2(1.0, (yOffset + 1.0) / 3.0)];
      if dir == XM || dir == ZP {
        uvs := uvs + [coords[2], coords[0], coords[3], coords[1]];
      } else if dir == YM {
        uvs := uvs + [coords[1], coords[3], coords[0], coords[2]];
      } else {
        uvs := uvs + coords;
      }
    }

    /** Appends one quad: 4 vertices, the 6 indices (v, v+1, v+2, v+2, v+1, v+3)
        with v the old vertex count, 4 colours for types 1 and 2, 4 coordinates. */
    method GenerateCubeFace(dir: FaceDirection, x: int, y: int, z: int, cubetype: int)
      requires Valid()
      modifies this`vertices, this`triangles, this`colors, this`uvs, this`faces
      ensures Valid() && faces == old(faces) + [Face(dir, x, y, z, cubetype)]
    {
      var p := IntVec(x, y, z);
      var vertIndex := |vertices|;
      var xOffset := 0.0;
      var yOffset := 0.0;
      var quad: seq<Vec3>;
      match dir {
        case XP =>
          quad := [p.Plus(Vec3(0.5, -0.5, -0.5)), p.Plus(Vec3(0.5, 0.5, -0.5)),
                  p.Plus(Vec3(0.5, -0.5, 0.5)), p.Plus(Vec3(0.5, 0.5, 0.5))];
        case XM =>
          quad := [p.Plus(Vec3(-0.5, -0.5, -0.5)), p.Plus(Vec3(-0.5, -0.5, 0.5)),
                  p.Plus(Vec3(-0.5, 0.5, -0.5)), p.Plus(Vec3(-0.5, 0.5, 0.5))];
        case YP =>
          quad := [p.Plus(Vec3(-0.5, 0.5, -0.5)), p.Plus(Vec3(-0.5, 0.5, 0.5)),
                  p.Plus(Vec3(0.5, 0.5, -0.5)), p.Plus(Vec3(0.5, 0.5, 0.5))];
          yOffset := 2.0;
        case YM =>
          quad := [p.Plus(Vec3(-0.5, -0.5, -0.5)), p.Plus(Vec3(0.5, -0.5, -0.5)),
                  p.Plus(Vec3(-0.5, -0.5, 0.5)), p.Plus(Vec3(0.5, -0.5, 0.5))];
          yOffset := 1.0;
        case ZP =>
          quad := [p.Plus(Vec3(-0.5, -0.5, 0.5)), p.Plus(Vec3(0.5, -0.5, 0.5)),
                  p.Plus(Vec3(-0.5, 0.5, 0.5)), p.Plus(Vec3(0.5, 0.5, 0.5))];
        case ZM =>
          quad := [p.Plus(Vec3(-0.5, -0.5, -0.5)), p.Plus(Vec3(-0.5, 0.5, -0.5)),
                  p.Plus(Vec3(0.5, -0.5, -0.5)), p.Plus(Vec3(0.5, 0.5, -0.5))];
      }
      assert quad == FaceVertices(dir, x, y, z);
      vertices := vertices + quad;
      triangles := triangles + [vertIndex, vertIndex + 1, vertIndex + 2];
      triangles := triangles + [vertIndex + 2, vertIndex + 1, vertIndex + 3];
      assert triangles == old(triangles) + QuadTriangles(vertIndex);

      if cubetype == 1 {
        colors := colors + [White, White, White, White];
        xOffset := 0.0;
      } else if cubetype == 2 {
        colors := colors + [Gray, Gray, Gray, Gray];
      }
      assert colors == old(colors) + FaceColors(cubetype);
      assert yOffset == YOffset(dir);

      AddTextureCoordinates(xOffset, yOffset, dir);

      ghost var f := Face(dir, x, y, z, cubetype);
      MeshOfSnoc(faces, f);
      faces := faces + [f];
    }

    /** One of GenerateCube's six tests: when the face is exposed, emits it.
        The ghost e is the face list this test contributes. */
    method GenerateFaceIf(exposed: bool, ghost e: seq<Face>, dir: FaceDirection, x: int, y: int, z: int, cubetype: int)
      requires Valid() && e == if exposed then [Face(dir, x, y, z, cubetype)] else []
      modifies this`vertices, this`triangles, this`colors, this`uvs, this`faces
      ensures Valid() && faces == old(faces) + e
    {
      if exposed { GenerateCubeFace(dir, x, y, z, cubetype); }
    }

    /** Emits the exposed faces of the cube at (x, y, z) in the order xp, yp,
        zp, xm, ym, zm. Each test reads the neighbour only when it exists. */
    method GenerateCube(x: int, y: int, z: int, cubetype: int)
      requires Valid() && InGrid(pointmap, x, y, z)
      modifies this`vertices, this`triangles, this`colors, this`uvs, this`faces
      ensures Valid()
      ensures faces == old(faces + CubeFaces(pointmap, x, y, z, cubetype, 6))
    {
      CubeFacesSix(faces, pointmap, x, y, z, cubetype);
      ghost var e0, e1, e2 := Emit(pointmap, XP, x, y, z, cubetype), Emit(pointmap, YP, x, y, z, cubetype), Emit(pointmap, ZP, x, y, z, cubetype);
      ghost var e3, e4, e5 := Emit(pointmap, XM, x, y, z, cubetype), Emit(pointmap, YM, x, y, z, cubetype), Emit(pointmap, ZM, x, y, z, cubetype);
      GenerateFaceIf(x == pointmap.Length0 - 1 || pointmap[x + 1, y, z] == 0, e0, XP, x, y, z, cubetype);
      GenerateFaceIf(y == pointmap.Length1 - 1 || pointmap[x, y + 1, z] == 0, e1, YP, x, y, z, cubetype);
      GenerateFaceIf(z == pointmap.Length2 - 1 || pointmap[x, y, z + 1] == 0, e2, ZP, x, y, z, cubetype);
      GenerateFaceIf(x == 0 || pointmap[x - 1, y, z] == 0, e3, XM, x, y, z, cubetype);
      GenerateFaceIf(y == 0 || pointmap[x, y - 1, z] == 0, e4, YM, x, y, z, cubetype);
      GenerateFaceIf(z == 0 || pointmap[x, y, z - 1] == 0, e5, ZM, x, y, z, cubetype);
    }

    /** Recalculate: the lists become the mesh's arrays (normals are left to the engine). */
    method Recalculate() returns (mesh: MeshData)
      requires Valid()
      ensures mesh == MeshOf(faces)
    {
      mesh := MeshData(vertices, triangles, colors, uvs);
    }

    /** The innermost loop of GenerateMesh: the cells (x, y, 0), (x, y, 1), ...
        in order, building a cube for every non-zero one. */
    method GenerateColumn(x: int, y: int)
      requires Valid() && 0 <= x < pointmap.Length0 && 0 <= y < pointmap.Length1
      modifies this`vertices, this`triangles, this`colors, this`uvs, this`faces
      ensures Valid()
      ensures faces == old(faces + ColumnFaces(pointmap, x, y, pointmap.Length2))
    {
      ghost var prefix := faces;
      var z := 0;
      while z < pointmap.Length2
        invariant 0 <= z <= pointmap.Length2
        invariant Valid() && faces == prefix + old(ColumnFaces(pointmap, x, y, z))
      {
        ghost var column, cell := old(ColumnFaces(pointmap, x, y, z)), CellFaces(pointmap, x, y, z);
        if pointmap[x, y, z] != 0 {
          GenerateCube(x, y, z, pointmap[x, y, z]);
        }
        AppendAssoc(prefix, column, cell);
        z := z + 1;
      }
    }

    /** The middle loop of GenerateMesh: the columns (x, 0), (x, 1), ... in order. */
    method GenerateSlice(x: int)
      requires Valid() && 0 <= x < pointmap.Length0
      modifies this`vertices, this`triangles, this`colors, this`uvs, this`faces
      ensures Valid()
      ensures faces == old(faces + SliceFaces(pointmap, x, pointmap.Length1))
    {
      ghost var prefix := faces;
      var y := 0;
      while y < pointmap.Length1
        invariant 0 <= y <= pointmap.Length1
        invariant Valid() && faces == prefix + old(SliceFaces(pointmap, x, y))
      {
        ghost var slice := old(SliceFaces(pointmap, x, y));
        GenerateColumn(x, y);
        AppendAssoc(prefix, slice, old(ColumnFaces(pointmap, x, y, pointmap.Length2)));
        y := y + 1;
      }
    }

    /** The static entry point: walks the grid in x, y, z order and builds a
        cube for every non-zero cell. The result is the mesh of exactly the
        faces AllFaces describes. */
    static method GenerateMesh(pointmap: array3<int>) returns (mesh: MeshData)
      ensures mesh == MeshOf(AllFaces(pointmap))
    {
      var vmg := new MeshGenerator(pointmap);
      var x := 0;
      while x < pointmap.Length0
        invariant 0 <= x <= pointmap.Length0
        invariant vmg.Valid() && vmg.pointmap == pointmap
        invariant vmg.faces == old(GridFaces(pointmap, x))
      {
        vmg.GenerateSlice(x);
        x := x + 1;
      }
      mesh := vmg.Recalculate();
    }
  }
}
