/** Landmark-based evaluation in the prostate module
    (calculateFiducialErrors): for each pair of corresponding fiducials, the
    distance between the ultrasound and the MRI position and the per-axis
    differences, one table column per pair. */
module FiducialErrors {
  import opened Options
  import opened Geometry

  /** A control point: its label and its position. */
  datatype Fiducial = Fiducial(text: string, position: Vec3)

  /** Why no table is made. */
  datatype FiducialError = MissingList | CountMismatch | NoFiducials

  /** One table column: the pair's name, the squared 3D distance (the table
      holds its square root) and the absolute R-L, A-P and I-S differences. */
  datatype ErrorColumn = ErrorColumn(name: string, squared3D: real, rightLeft: real, anteriorPosterior: real, inferiorSuperior: real)

  datatype FiducialResult = Failed(error: FiducialError) | Table(columns: seq<ErrorColumn>)

  /** The row headers of the table, in row order. */
  const RowHeaders := ["3D", "2D R-L", "2D A-P", "2D I-S"]

  /** Characters of a fiducial label dropped from the column name. */
  const LabelPrefixLength := 13

  function Abs(x: real): (r: real)
    ensures r >= 0.0 && (r == x || r == -x)
  {
    if x < 0.0 then -x else x
  }

  /** Python's `s[n:]`: empty when `s` is shorter than `n`. */
  function DropPrefix(s: string, n: nat): (r: string)
    ensures |s| <= n ==> r == []
    ensures |s| > n ==> |r| == |s| - n && forall i | 0 <= i < |r| :: r[i] == s[n + i]
  {
    if |s| <= n then [] else s[n..]
  }

  function ErrorColumnOf(us: Fiducial, mr: Fiducial): ErrorColumn {
    var d := Sub(us.position, mr.position);
    ErrorColumn(DropPrefix(us.text, LabelPrefixLength), d.x * d.x + d.y * d.y + d.z * d.z,
                Abs(d.x), Abs(d.y), Abs(d.z))
  }

  /** calculateFiducialErrors: both lists must exist, hold the same number of
      fiducials and not be empty; then the table has one column per pair, in
      list order. */
  method CalculateFiducialErrors(us: Option<seq<Fiducial>>, mr: Option<seq<Fiducial>>) returns (r: FiducialResult)
    ensures r == Failed(MissingList) <==> us.None? || mr.None?
    ensures r == Failed(CountMismatch) <==> us.Some? && mr.Some? && |us.value| != |mr.value|
    ensures r == Failed(NoFiducials) <==> us.Some? && mr.Some? && |us.value| == |mr.value| == 0
    ensures r.Table? ==> && |r.columns| == |us.value| == |mr.value| > 0
                         && forall i | 0 <= i < |r.columns| :: r.columns[i] == ErrorColumnOf(us.value[i], mr.value[i])
  {
    if us.None? || mr.None? {
      return Failed(MissingList);
    }
    var u := us.value;
    var m := mr.value;
    if |u| != |m| {
      return Failed(CountMismatch);
    }
    if |u| == 0 || |m| == 0 {
      return Failed(NoFiducials);
    }
    var columns: seq<ErrorColumn> := [];
    var index := 0;
    while index < |u|
      invariant 0 <= index <= |u|
      invariant |columns| == index
      invariant forall i | 0 <= i < index :: columns[i] == ErrorColumnOf(u[i], m[i])
    {
      columns := columns + [ErrorColumnOf(u[index], m[index])];
      index := index + 1;
    }
    return Table(columns);
  }

  /** The squared 3D distance is the sum of the squared per-axis differences
      the table reports. */
  lemma DistanceFromAxes(us: Fiducial, mr: Fiducial)
    ensures var c := ErrorColumnOf(us, mr);
            c.squared3D == c.rightLeft * c.rightLeft + c.anteriorPosterior * c.anteriorPosterior + c.inferiorSuperior * c.inferiorSuperior
  {
  }

  /** The squared distance is never negative. */
  lemma SquaredErrorNonNegative(us: Fiducial, mr: Fiducial)
    ensures ErrorColumnOf(us, mr).squared3D >= 0.0
  {
    var d := Sub(us.position, mr.position);
    SquareNonNegative(d.x);
    SquareNonNegative(d.y);
    SquareNonNegative(d.z);
  }

  /** The per-axis errors are all zero exactly when the fiducials coincide. */
  lemma AxisErrorsZeroIff(us: Fiducial, mr: Fiducial)
    ensures var c := ErrorColumnOf(us, mr);
            c.rightLeft == 0.0 && c.anteriorPosterior == 0.0 && c.inferiorSuperior == 0.0 <==> us.position == mr.position
  {
  }

  lemma SquareNonNegative(x: real)
    ensures x * x >= 0.0
  {
    if x < 0.0 {
      assert x * x == (-x) * (-x);
    }
  }

  /** The errors do not depend on which list is the ultrasound one. */
  lemma ErrorsSymmetric(us: Fiducial, mr: Fiducial)
    ensures var a := ErrorColumnOf(us, mr);
            var b := ErrorColumnOf(mr.(text := us.text), us);
            a == b
  {
    var d := Sub(us.position, mr.position);
    var e := Sub(mr.position, us.position);
    assert e.x == -d.x && e.y == -d.y && e.z == -d.z;
    assert e.x * e.x == d.x * d.x && e.y * e.y == d.y * d.y && e.z * e.z == d.z * d.z;
  }

  /** A label of the form `<13-character prefix><name>` contributes
      exactly the part after the prefix. */
  lemma ColumnNameAfterPrefix(prefix: string, name: string, position: Vec3, mr: Fiducial)
    requires |prefix| == LabelPrefixLength && |name| > 0
    ensures ErrorColumnOf(Fiducial(prefix + name, position), mr).name == name
  {
    assert (prefix + name)[LabelPrefixLength..] == name;
  }
}
