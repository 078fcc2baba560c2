/** Real-valued geometry used by the registration workflow: points, the
    six-number bounding boxes the segmentation store reports, the crop region
    of interest, the 4x4 homogeneous matrix of the pre-alignment transform and
    the voxel-grid geometry of images. Floating-point rounding is not modelled. */
module Geometry {
  import opened Options

  datatype Vec3 = Vec3(x: real, y: real, z: real)

  function Add(a: Vec3, b: Vec3): Vec3 {
    Vec3(a.x + b.x, a.y + b.y, a.z + b.z)
  }

  function Sub(a: Vec3, b: Vec3): Vec3 {
    Vec3(a.x - b.x, a.y - b.y, a.z - b.z)
  }

  /** A box in the store's order [xmin, xmax, ymin, ymax, zmin, zmax]. The
      store does not promise min <= max, and neither does the workflow. */
  datatype Bounds = Bounds(xMin: real, xMax: real, yMin: real, yMax: real, zMin: real, zMax: real)

  /** Per-axis midpoint of a box: the point equidistant from both faces on every axis. */
  function Center(b: Bounds): (c: Vec3)
    ensures c.x - b.xMin == b.xMax - c.x
    ensures c.y - b.yMin == b.yMax - c.y
    ensures c.z - b.zMin == b.zMax - c.z
  {
    Vec3((b.xMin + b.xMax) / 2.0, (b.yMin + b.yMax) / 2.0, (b.zMin + b.zMax) / 2.0)
  }

  /** The box moved rigidly by `t`. */
  function Shift(b: Bounds, t: Vec3): (r: Bounds)
    ensures r.xMax - r.xMin == b.xMax - b.xMin
    ensures r.yMax - r.yMin == b.yMax - b.yMin
    ensures r.zMax - r.zMin == b.zMax - b.zMin
    ensures Center(r) == Add(Center(b), t)
  {
    Bounds(b.xMin + t.x, b.xMax + t.x, b.yMin + t.y, b.yMax + t.y, b.zMin + t.z, b.zMax + t.z)
  }

  /** `outer` reaches at least as far as `inner` on every face. */
  ghost predicate Encloses(outer: Bounds, inner: Bounds) {
    && outer.xMin <= inner.xMin && inner.xMax <= outer.xMax
    && outer.yMin <= inner.yMin && inner.yMax <= outer.yMax
    && outer.zMin <= inner.zMin && inner.zMax <= outer.zMax
  }

  function Min(a: real, b: real): real { if a <= b then a else b }

  function Max(a: real, b: real): real { if a <= b then b else a }

  function MinInt(a: int, b: int): int { if a <= b then a else b }

  function MaxInt(a: int, b: int): int { if a <= b then b else a }

  /** The smallest box reaching every face of both arguments. */
  function Hull(a: Bounds, b: Bounds): (r: Bounds)
    ensures Encloses(r, a) && Encloses(r, b)
    ensures forall box :: Encloses(box, a) && Encloses(box, b) ==> Encloses(box, r)
  {
    Bounds(Min(a.xMin, b.xMin), Max(a.xMax, b.xMax),
           Min(a.yMin, b.yMin), Max(a.yMax, b.yMax),
           Min(a.zMin, b.zMin), Max(a.zMax, b.zMax))
  }

  /** Bounds of a whole segmentation: the hull of its segments' boxes, and
      nothing for a segmentation without segments. */
  function UnionBounds(boxes: seq<Bounds>): (r: Option<Bounds>)
    ensures r.Some? <==> |boxes| > 0
    ensures r.Some? ==> forall i | 0 <= i < |boxes| :: Encloses(r.value, boxes[i])
    decreases |boxes|
  {
    if |boxes| == 0 then None
    else if |boxes| == 1 then Some(boxes[0])
    else
      var rest := UnionBounds(boxes[1..]);
      assert forall i | 1 <= i < |boxes| :: boxes[i] == boxes[1..][i - 1];
      Some(Hull(boxes[0], rest.value))
  }

  /** The union is the tightest box that encloses every segment. */
  lemma {:induction false} UnionBoundsIsLeast(boxes: seq<Bounds>, box: Bounds)
    requires |boxes| > 0
    requires forall i | 0 <= i < |boxes| :: Encloses(box, boxes[i])
    ensures Encloses(box, UnionBounds(boxes).value)
    decreases |boxes|
  {
    if |boxes| > 1 {
      assert forall i | 0 <= i < |boxes| - 1 :: boxes[1..][i] == boxes[i + 1];
      UnionBoundsIsLeast(boxes[1..], box);
    }
  }

  /** An axis-aligned region of interest given by centre and half-widths. */
  datatype Roi = Roi(center: Vec3, radius: Vec3)

  /** The crop region both variants build around a segmentation: centred on the
      box midpoint, half-width 1.5 times the left-right extent on BOTH in-plane
      axes (a square slice that reuses the x extent for y) and the whole
      inferior-superior extent along z. */
  function CropRoi(b: Bounds): (r: Roi)
    ensures r.center == Center(b)
    ensures r.radius.x == r.radius.y
    ensures 2.0 * r.radius.x == 3.0 * (b.xMax - b.xMin)
    ensures r.radius.z == b.zMax - b.zMin
  {
    var lr3 := (b.xMax - b.xMin) * 3.0;
    var is2 := (b.zMax - b.zMin) * 2.0;
    Roi(Center(b), Vec3(lr3 / 2.0, lr3 / 2.0, is2 / 2.0))
  }

  /** The region covers the box on every axis. */
  ghost predicate RoiCovers(r: Roi, b: Bounds) {
    && r.center.x - r.radius.x <= b.xMin && b.xMax <= r.center.x + r.radius.x
    && r.center.y - r.radius.y <= b.yMin && b.yMax <= r.center.y + r.radius.y
    && r.center.z - r.radius.z <= b.zMin && b.zMax <= r.center.z + r.radius.z
  }

  /** For a non-degenerate box, the crop region covers it exactly when the
      anterior-posterior extent is at most three times the left-right extent:
      the y half-width is derived from the x extent, not from the y extent. */
  lemma CropRoiCoversIff(b: Bounds)
    requires b.xMin <= b.xMax && b.yMin <= b.yMax && b.zMin <= b.zMax
    ensures RoiCovers(CropRoi(b), b) <==> b.yMax - b.yMin <= 3.0 * (b.xMax - b.xMin)
  {
    var r := CropRoi(b);
    assert r.center.y - r.radius.y <= b.yMin <==> b.yMax - b.yMin <= 3.0 * (b.xMax - b.xMin);
  }

  /** A 4x4 homogeneous matrix, row-major. */
  datatype Mat4 = Mat4(rows: seq<seq<real>>)

  predicate WellFormed(m: Mat4) {
    |m.rows| == 4 && forall i | 0 <= i < 4 :: |m.rows[i]| == 4
  }

  /** A freshly constructed matrix is the identity. */
  function Identity4(): (m: Mat4)
    ensures WellFormed(m)
    ensures forall i, j | 0 <= i < 4 && 0 <= j < 4 :: m.rows[i][j] == if i == j then 1.0 else 0.0
  {
    Mat4([[1.0, 0.0, 0.0, 0.0],
          [0.0, 1.0, 0.0, 0.0],
          [0.0, 0.0, 1.0, 0.0],
          [0.0, 0.0, 0.0, 1.0]])
  }

  /** Writes one element and leaves the other fifteen as they were. */
  function SetElement(m: Mat4, i: nat, j: nat, v: real): (r: Mat4)
    requires WellFormed(m) && i < 4 && j < 4
    ensures WellFormed(r)
    ensures r.rows[i][j] == v
    ensures forall a, b | 0 <= a < 4 && 0 <= b < 4 && (a != i || b != j) :: r.rows[a][b] == m.rows[a][b]
  {
    Mat4(m.rows[i := m.rows[i][j := v]])
  }

  /** The matrix is a pure translation: identity everywhere but the top three
      entries of column 3. */
  predicate IsTranslation(m: Mat4) {
    && WellFormed(m)
    && (forall i, j | 0 <= i < 4 && 0 <= j < 3 :: m.rows[i][j] == if i == j then 1.0 else 0.0)
    && m.rows[3][3] == 1.0
  }

  /** Column 3 of a matrix, the translation of an affine map. */
  function TranslationOf(m: Mat4): Vec3
    requires WellFormed(m)
  {
    Vec3(m.rows[0][3], m.rows[1][3], m.rows[2][3])
  }

  /** The pre-alignment matrix: an identity with `t` written into elements
      (0,3), (1,3) and (2,3). */
  function TranslationMatrix(t: Vec3): (m: Mat4)
    ensures IsTranslation(m)
    ensures TranslationOf(m) == t
  {
    SetElement(SetElement(SetElement(Identity4(), 0, 3, t.x), 1, 3, t.y), 2, 3, t.z)
  }

  /** Applies a homogeneous matrix to a point. */
  function TransformPoint(m: Mat4, p: Vec3): Vec3
    requires WellFormed(m)
  {
    Vec3(m.rows[0][0] * p.x + m.rows[0][1] * p.y + m.rows[0][2] * p.z + m.rows[0][3],
         m.rows[1][0] * p.x + m.rows[1][1] * p.y + m.rows[1][2] * p.z + m.rows[1][3],
         m.rows[2][0] * p.x + m.rows[2][1] * p.y + m.rows[2][2] * p.z + m.rows[2][3])
  }

  /** A translation matrix moves every point by its column 3. */
  lemma TranslationMovesPoints(m: Mat4, p: Vec3)
    requires IsTranslation(m)
    ensures TransformPoint(m, p) == Add(p, TranslationOf(m))
  {
    assert m.rows[0][0] == 1.0 && m.rows[0][1] == 0.0 && m.rows[0][2] == 0.0;
    assert m.rows[1][0] == 0.0 && m.rows[1][1] == 1.0 && m.rows[1][2] == 0.0;
    assert m.rows[2][0] == 0.0 && m.rows[2][1] == 0.0 && m.rows[2][2] == 1.0;
  }

  /** The pre-alignment translation: fixed centre minus moving centre, so that
      the moved moving box is centred on the fixed box. */
  function PreAlignmentTranslation(fixed: Bounds, moving: Bounds): (t: Vec3)
    ensures Add(Center(moving), t) == Center(fixed)
    ensures Center(Shift(moving, t)) == Center(fixed)
  {
    Sub(Center(fixed), Center(moving))
  }

  /** The pre-alignment matrix carries the moving centre onto the fixed centre. */
  lemma PreAlignmentMatrixCentres(fixed: Bounds, moving: Bounds)
    ensures TransformPoint(TranslationMatrix(PreAlignmentTranslation(fixed, moving)), Center(moving)) == Center(fixed)
  {
    var t := PreAlignmentTranslation(fixed, moving);
    TranslationMovesPoints(TranslationMatrix(t), Center(moving));
  }

  /** Origin, spacing and direction of a voxel grid (the image-to-world
      matrix); directions are kept abstract. */
  datatype Lattice = Lattice(origin: Vec3, spacing: Vec3, directions: int)

  /** Voxel index range of an image. */
  datatype Extent = Extent(iMin: int, iMax: int, jMin: int, jMax: int, kMin: int, kMax: int)

  datatype ImageGeometry = ImageGeometry(lattice: Lattice, extent: Extent)

  /** `outer` includes every voxel index of `inner`. */
  ghost predicate ExtentCovers(outer: Extent, inner: Extent) {
    && outer.iMin <= inner.iMin && inner.iMax <= outer.iMax
    && outer.jMin <= inner.jMin && inner.jMax <= outer.jMax
    && outer.kMin <= inner.kMin && inner.kMax <= outer.kMax
  }

  /** The smallest index range including both arguments. */
  function ExtentHull(a: Extent, b: Extent): (r: Extent)
    ensures ExtentCovers(r, a) && ExtentCovers(r, b)
    ensures forall e :: ExtentCovers(e, a) && ExtentCovers(e, b) ==> ExtentCovers(e, r)
  {
    Extent(MinInt(a.iMin, b.iMin), MaxInt(a.iMax, b.iMax),
           MinInt(a.jMin, b.jMin), MaxInt(a.jMax, b.jMax),
           MinInt(a.kMin, b.kMin), MaxInt(a.kMax, b.kMax))
  }

  /** The grid moved rigidly by `t`: only the origin changes. */
  function TranslateGeometry(g: ImageGeometry, t: Vec3): (r: ImageGeometry)
    ensures r.extent == g.extent
    ensures r.lattice.spacing == g.lattice.spacing && r.lattice.directions == g.lattice.directions
    ensures Sub(r.lattice.origin, g.lattice.origin) == t
  {
    g.(lattice := g.lattice.(origin := Add(g.lattice.origin, t)))
  }
}
