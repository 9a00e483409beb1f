/**
 * GLPickResult: what a pick found. The record keeps the source's shape (a kind
 * tag plus group, index, distance and colour fields); equality compares only
 * the fields that identify the element for that kind.
 */
module PickResults {
  import opened Linear

  datatype PickType = NONE | COLOR | TRIANGLE | POINT

  datatype PickResult = PickResult(kind: PickType, group: int, index: int, dist: real, color: Vec3)

  /**
   * The default constructor sets only the kind; the other fields are left
   * uninitialised there and are zero here.
   */
  function DefaultPickResult(): (r: PickResult)
    ensures r.kind == NONE
  {
    PickResult(NONE, 0, 0, 0.0, Zero3)
  }

  /**
   * Reference definition of identity: which element a result names. A colour
   * triangle and a point are named by their index, a textured triangle by its
   * texture unit and index, and every NONE result names the same nothing.
   */
  function Identity(p: PickResult): (int, int, int)
  {
    match p.kind
    case NONE => (0, 0, 0)
    case COLOR => (1, 0, p.index)
    case TRIANGLE => (2, p.group, p.index)
    case POINT => (3, 0, p.index)
  }

  /** GLPickResult::compare: the per-kind case analysis of the source. */
  function Compare(a: PickResult, b: PickResult): (r: bool)
    ensures r <==> Identity(a) == Identity(b)
  {
    if a.kind == NONE then b.kind == NONE
    else if a.kind == COLOR then
      if b.kind != COLOR then false
      else if a.index != b.index then false
      else true
    else if a.kind == TRIANGLE then
      if b.kind != TRIANGLE then false
      else if a.group != b.group || a.index != b.index then false
      else true
    else
      if b.kind != POINT then false
      else if a.index != b.index then false
      else true
  }

  /** operator == */
  function Equal(a: PickResult, b: PickResult): (r: bool)
    ensures r <==> Identity(a) == Identity(b)
  {
    Compare(a, b)
  }

  /** operator != */
  function NotEqual(a: PickResult, b: PickResult): (r: bool)
    ensures r <==> !Equal(a, b)
    ensures r <==> Identity(a) != Identity(b)
  {
    !Compare(a, b)
  }

  lemma NoneEqualsOnlyNone(a: PickResult, b: PickResult)
    requires a.kind == NONE
    ensures Equal(a, b) <==> b.kind == NONE
  {
  }

  lemma ColorEquality(a: PickResult, b: PickResult)
    requires a.kind == COLOR
    ensures Equal(a, b) <==> b.kind == COLOR && a.index == b.index
  {
  }

  lemma TriangleEquality(a: PickResult, b: PickResult)
    requires a.kind == TRIANGLE
    ensures Equal(a, b) <==> b.kind == TRIANGLE && a.group == b.group && a.index == b.index
  {
  }

  lemma PointEquality(a: PickResult, b: PickResult)
    requires a.kind == POINT
    ensures Equal(a, b) <==> b.kind == POINT && a.index == b.index
  {
  }

  /** Distance and colour are measurements, not identity: they never affect equality. */
  lemma EqualityIgnoresMeasurements(a: PickResult, b: PickResult, d: real, c: Vec3)
    ensures Equal(a.(dist := d, color := c), b) == Equal(a, b)
    ensures Equal(a, b.(dist := d, color := c)) == Equal(a, b)
  {
  }

  /** For COLOR and POINT results the group field is ignored as well. */
  lemma EqualityIgnoresGroupOutsideTriangles(a: PickResult, b: PickResult, g: int)
    requires a.kind != TRIANGLE
    ensures Equal(a.(group := g), b) == Equal(a, b)
  {
  }

  /** compare is an equivalence relation. */
  lemma CompareIsEquivalence(a: PickResult, b: PickResult, c: PickResult)
    ensures Compare(a, a)
    ensures Compare(a, b) == Compare(b, a)
    ensures Compare(a, b) && Compare(b, c) ==> Compare(a, c)
  {
  }
}
