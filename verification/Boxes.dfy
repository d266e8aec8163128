/** Intersection over union of page-normalised boxes, over exact reals. */
module Boxes {

  import opened Wrappers

  datatype Box = Box(x: real, y: real, width: real, height: real)

  datatype BoxError = OutsidePage

  function Least(a: real, b: real): real {
    if a <= b then a else b
  }

  function Greatest(a: real, b: real): real {
    if a >= b then a else b
  }

  predicate FitsPage(b: Box) {
    b.x >= 0.0 && b.y >= 0.0 && b.width >= 0.0 && b.height >= 0.0 && b.x + b.width <= 1.0 && b.y + b.height <= 1.0
  }

  /** The length two intervals, given by start and length, have in common. */
  function Shared(a: real, la: real, b: real, lb: real): real {
    Greatest(0.0, Least(a + la, b + lb) - Greatest(a, b))
  }

  function Intersection(a: Box, b: Box): real {
    Shared(a.x, a.width, b.x, b.width) * Shared(a.y, a.height, b.y, b.height)
  }

  function Area(b: Box): real {
    b.width * b.height
  }

  function Ratio(common: real, first: real, second: real): real {
    if first + second - common > 0.0 then common / (first + second - common) else 0.0
  }

  function Iou(a: Box, b: Box): real {
    Ratio(Intersection(a, b), Area(a), Area(b))
  }

  /** `bbox_iou` refuses boxes outside the page. */
  function BboxIou(first: Box, second: Box): Result<real, BoxError> {
    if FitsPage(first) && FitsPage(second) then Success(Iou(first, second)) else Failure(OutsidePage)
  }

  /** What the contracts of gold and predicted blocks validate of a box. */
  type PageBox = b: Box | FitsPage(b) witness Box(0.0, 0.0, 0.0, 0.0)

  /** The point lies strictly inside the box. */
  predicate Inside(px: real, py: real, b: Box) {
    b.x < px < b.x + b.width && b.y < py < b.y + b.height
  }

  lemma ProductBound(a: real, b: real, c: real, d: real)
    requires 0.0 <= a <= c && 0.0 <= b <= d
    ensures 0.0 <= a * b <= c * d
  {
    assert 0.0 <= a * b <= a * d;
    assert (c - a) * d >= 0.0;
  }

  lemma SharedBounds(a: real, la: real, b: real, lb: real)
    requires la >= 0.0 && lb >= 0.0
    ensures 0.0 <= Shared(a, la, b, lb) <= la && Shared(a, la, b, lb) <= lb
    ensures Shared(a, la, b, lb) == la == lb > 0.0 ==> a == b
  {
  }

  lemma IntersectionBounds(a: Box, b: Box)
    requires FitsPage(a) && FitsPage(b)
    ensures 0.0 <= Intersection(a, b) <= Area(a) && Intersection(a, b) <= Area(b)
  {
    hide Shared;
    var w, h := Shared(a.x, a.width, b.x, b.width), Shared(a.y, a.height, b.y, b.height);
    SharedBounds(a.x, a.width, b.x, b.width);
    SharedBounds(a.y, a.height, b.y, b.height);
    ProductBound(w, h, a.width, a.height);
    ProductBound(w, h, b.width, b.height);
  }

  lemma ProductPositive(a: real, b: real)
    requires a >= 0.0 && b >= 0.0
    ensures a * b > 0.0 <==> a > 0.0 && b > 0.0
  {
    if a > 0.0 && b > 0.0 {
      assert a * b > 0.0;
    }
  }

  lemma RatioBounds(common: real, first: real, second: real)
    requires 0.0 <= common <= first && common <= second
    ensures 0.0 <= Ratio(common, first, second) <= 1.0
    ensures Ratio(common, first, second) > 0.0 <==> common > 0.0
    ensures Ratio(common, first, second) == 1.0 <==> common == first == second && common > 0.0
  {
    var q := first + second - common;
    if q > 0.0 {
      var r := common / q;
      assert r * q == common;
      assert r > 1.0 ==> (r - 1.0) * q > 0.0;
      assert r < 0.0 ==> r * q < 0.0;
      assert r > 0.0 ==> r * q > 0.0;
    }
  }

  lemma IouSymmetric(a: Box, b: Box)
    ensures BboxIou(a, b) == BboxIou(b, a)
  {
    assert Intersection(a, b) == Intersection(b, a);
  }

  lemma SharedPositive(a: real, la: real, b: real, lb: real) returns (p: real)
    requires Shared(a, la, b, lb) > 0.0
    ensures a < p < a + la && b < p < b + lb
  {
    p := (Greatest(a, b) + Least(a + la, b + lb)) / 2.0;
  }

  /** Boxes outside the page are refused, and no others.  The score of two boxes on the page is a
      fraction, and positive exactly when some point is strictly inside both. */
  lemma IouMeaning(a: Box, b: Box)
    ensures match BboxIou(a, b)
      case Failure(_) => !FitsPage(a) || !FitsPage(b)
      case Success(iou) =>
        && FitsPage(a) && FitsPage(b)
        && 0.0 <= iou <= 1.0
        && (iou > 0.0 <==> exists px, py :: Inside(px, py, a) && Inside(px, py, b))
    ensures BboxIou(a, b).Success? <==>
      && 0.0 <= a.x && 0.0 <= a.y && 0.0 <= a.width <= 1.0 - a.x && 0.0 <= a.height <= 1.0 - a.y
      && 0.0 <= b.x && 0.0 <= b.y && 0.0 <= b.width <= 1.0 - b.x && 0.0 <= b.height <= 1.0 - b.y
  {
    if FitsPage(a) && FitsPage(b) {
      IntersectionBounds(a, b);
      RatioBounds(Intersection(a, b), Area(a), Area(b));
      ProductPositive(Shared(a.x, a.width, b.x, b.width), Shared(a.y, a.height, b.y, b.height));
      if Iou(a, b) > 0.0 {
        var px := SharedPositive(a.x, a.width, b.x, b.width);
        var py := SharedPositive(a.y, a.height, b.y, b.height);
        assert Inside(px, py, a) && Inside(px, py, b);
      }
    }
  }

  lemma SameProduct(a: real, b: real, c: real, d: real)
    requires 0.0 <= a <= c && 0.0 <= b <= d && a * b == c * d && c * d > 0.0
    ensures a == c > 0.0 && b == d > 0.0
  {
    ProductPositive(c, d);
    assert a < c ==> (c - a) * d > 0.0;
    assert b < d && a > 0.0 ==> a * (d - b) > 0.0;
    assert c * d - a * b == (c - a) * d + a * (d - b);
    assert (c - a) * d >= 0.0 && a * (d - b) >= 0.0;
  }

  lemma FullIntersection(a: Box, b: Box)
    requires FitsPage(a) && FitsPage(b) && Intersection(a, b) == Area(a) == Area(b) && Area(a) > 0.0
    ensures a == b && a.width > 0.0 && a.height > 0.0
  {
    hide Shared;
    var w, h := Shared(a.x, a.width, b.x, b.width), Shared(a.y, a.height, b.y, b.height);
    SharedBounds(a.x, a.width, b.x, b.width);
    SharedBounds(a.y, a.height, b.y, b.height);
    SameProduct(w, h, a.width, a.height);
    SameProduct(w, h, b.width, b.height);
  }

  /** Full overlap means the same box, provided it has an area. */
  lemma IouOne(a: Box, b: Box)
    ensures BboxIou(a, b) == Success(1.0) <==> a == b && FitsPage(a) && a.width > 0.0 && a.height > 0.0
  {
    if FitsPage(a) && FitsPage(b) {
      IntersectionBounds(a, b);
      RatioBounds(Intersection(a, b), Area(a), Area(b));
      ProductPositive(a.width, a.height);
      assert Iou(a, b) == 1.0 <==> Intersection(a, b) == Area(a) == Area(b) && Area(a) > 0.0;
      if Iou(a, b) == 1.0 {
        FullIntersection(a, b);
      } else if a == b {
        assert Shared(a.x, a.width, b.x, b.width) == a.width && Shared(a.y, a.height, b.y, b.height) == a.height;
      }
    }
  }

  /** The rectangle where two boxes overlap. */
  function Overlap(a: Box, b: Box): Box {
    Box(Greatest(a.x, b.x), Greatest(a.y, b.y),
        Shared(a.x, a.width, b.x, b.width), Shared(a.y, a.height, b.y, b.height))
  }

  lemma OverlapMeaning(a: Box, b: Box, px: real, py: real)
    ensures Inside(px, py, Overlap(a, b)) <==> Inside(px, py, a) && Inside(px, py, b)
  {
  }

  lemma RatioValue(common: real, first: real, second: real)
    requires 0.0 <= common <= first && common <= second
    ensures Ratio(common, first, second) * (first + second - common) == common
  {
  }

  lemma IouTimesUnion(a: Box, b: Box)
    requires FitsPage(a) && FitsPage(b)
    ensures Iou(a, b) * (Area(a) + Area(b) - Intersection(a, b)) == Intersection(a, b)
  {
    hide Intersection, Area, Ratio;
    IntersectionBounds(a, b);
    RatioValue(Intersection(a, b), Area(a), Area(b));
  }

  /** The value is the area of the overlap over the area of the union: there is a box whose inner
      points are the common inner points, and the value times the area of the union is its area. */
  lemma IouValue(a: Box, b: Box) returns (common: Box)
    requires FitsPage(a) && FitsPage(b)
    ensures common.width >= 0.0 && common.height >= 0.0
    ensures forall px, py :: Inside(px, py, common) <==> Inside(px, py, a) && Inside(px, py, b)
    ensures BboxIou(a, b).Success?
    ensures BboxIou(a, b).value * (a.width * a.height + b.width * b.height - common.width * common.height)
         == common.width * common.height
  {
    hide Inside, Shared, Greatest, Iou;
    common := Overlap(a, b);
    forall px, py ensures Inside(px, py, common) <==> Inside(px, py, a) && Inside(px, py, b) {
      OverlapMeaning(a, b, px, py);
    }
    SharedBounds(a.x, a.width, b.x, b.width);
    SharedBounds(a.y, a.height, b.y, b.height);
    IouTimesUnion(a, b);
  }
}
