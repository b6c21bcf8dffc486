/**
 * Box geometry of the analysis server (ml-server/main.py): detections are
 * centre-form boxes in pixel coordinates, and two boxes are compared by their
 * Intersection-over-Union. Floating point is modelled by reals.
 */
module BoxGeometry {

  /** One detector prediction: a confidence and a centre-form box. */
  datatype Detection = Detection(confidence: real, x: real, y: real, width: real, height: real)

  function Min(a: real, b: real): real { if a <= b then a else b }
  function Max(a: real, b: real): real { if a >= b then a else b }

  // Corner form of a centre-form box.
  function Left(d: Detection): real { d.x - d.width / 2.0 }
  function Top(d: Detection): real { d.y - d.height / 2.0 }
  function Right(d: Detection): real { d.x + d.width / 2.0 }
  function Bottom(d: Detection): real { d.y + d.height / 2.0 }

  /** Width and height of the intersection rectangle (non-positive when the
      boxes do not overlap along that axis). */
  function InterWidth(a: Detection, b: Detection): real {
    Min(Right(a), Right(b)) - Max(Left(a), Left(b))
  }

  function InterHeight(a: Detection, b: Detection): real {
    Min(Bottom(a), Bottom(b)) - Max(Top(a), Top(b))
  }

  /** Boxes overlap only when the intersection has strictly positive width
      and height; boxes that merely touch do not overlap. */
  predicate Overlap(a: Detection, b: Detection) {
    InterWidth(a, b) > 0.0 && InterHeight(a, b) > 0.0
  }

  /** Sides within both boxes' sides give an area within both areas. */
  lemma ProductWithin(w: real, h: real, wa: real, ha: real, wb: real, hb: real, inter: real, areaA: real, areaB: real)
    requires 0.0 < w <= wa && 0.0 < h <= ha && w <= wb && h <= hb
    requires inter == w * h && areaA == wa * ha && areaB == wb * hb
    ensures 0.0 < inter <= areaA && inter <= areaB
  {
    ScaleMonotone(w, wa, h);
    ScaleMonotone(h, ha, wa);
    ScaleMonotone(w, wb, h);
    ScaleMonotone(h, hb, wb);
    ProductPositive(w, h);
    assert inter <= areaA;
  }

  lemma ProductPositive(x: real, y: real)
    requires 0.0 < x && 0.0 < y
    ensures 0.0 < x * y
  {
  }

  lemma ScaleMonotone(x: real, y: real, c: real)
    requires x <= y && 0.0 <= c
    ensures x * c <= y * c && c * x <= c * y
  {
    assert y * c - x * c == (y - x) * c;
  }

  lemma RatioInUnit(p: real, q: real)
    requires 0.0 < p <= q
    ensures 0.0 < p / q <= 1.0
  {
    assert (p / q) * q == p;
  }

  /** Corner-form area of a box. */
  function Area(d: Detection): real {
    (Right(d) - Left(d)) * (Bottom(d) - Top(d))
  }

  /** The intersection's sides are no longer than either box's. */
  lemma InterWithin(a: Detection, b: Detection)
    ensures InterWidth(a, b) <= Right(a) - Left(a) && InterWidth(a, b) <= Right(b) - Left(b)
    ensures InterHeight(a, b) <= Bottom(a) - Top(a) && InterHeight(a, b) <= Bottom(b) - Top(b)
  {
  }

  /** Area of the intersection rectangle. */
  function InterArea(a: Detection, b: Detection): real {
    InterWidth(a, b) * InterHeight(a, b)
  }

  /** Overlapping boxes have an intersection no larger than either box. */
  lemma InterAreaBounded(a: Detection, b: Detection)
    requires Overlap(a, b)
    ensures 0.0 < InterArea(a, b) <= Area(a)
    ensures InterArea(a, b) <= Area(b)
  {
    InterWithin(a, b);
    ProductWithin(InterWidth(a, b), InterHeight(a, b), Right(a) - Left(a), Bottom(a) - Top(a),
                  Right(b) - Left(b), Bottom(b) - Top(b), InterArea(a, b), Area(a), Area(b));
  }

  /** `inter / (areaA + areaB - inter)` for an intersection contained in both boxes. */
  function UnionRatio(inter: real, areaA: real, areaB: real): (r: real)
    requires 0.0 < inter <= areaA && inter <= areaB
    ensures 0.0 < r <= 1.0
  {
    RatioInUnit(inter, areaA + areaB - inter);
    inter / (areaA + areaB - inter)
  }

  /** IoU of two overlapping boxes: intersection area over union area. */
  function OverlapRatio(a: Detection, b: Detection): (r: real)
    requires Overlap(a, b)
    ensures 0.0 < r <= 1.0
  {
    InterAreaBounded(a, b);
    UnionRatio(InterArea(a, b), Area(a), Area(b))
  }

  /** Intersection over union. Zero exactly when the boxes do not overlap,
      otherwise a ratio in (0, 1]. */
  function Iou(a: Detection, b: Detection): (r: real)
    ensures !Overlap(a, b) ==> r == 0.0
    ensures Overlap(a, b) ==> 0.0 < r <= 1.0
  {
    var interX1 := Max(Left(a), Left(b));
    var interY1 := Max(Top(a), Top(b));
    var interX2 := Min(Right(a), Right(b));
    var interY2 := Min(Bottom(a), Bottom(b));
    if interX2 <= interX1 || interY2 <= interY1 then 0.0
    else OverlapRatio(a, b)
  }

  lemma UnionRatioSymmetric(inter: real, areaA: real, areaB: real)
    requires 0.0 < inter <= areaA && inter <= areaB
    ensures UnionRatio(inter, areaA, areaB) == UnionRatio(inter, areaB, areaA)
  {
    assert areaA + areaB - inter == areaB + areaA - inter;
  }

  lemma InterSymmetric(a: Detection, b: Detection)
    ensures InterWidth(a, b) == InterWidth(b, a) && InterHeight(a, b) == InterHeight(b, a)
  {
  }

  /** IoU does not depend on the order of its arguments. */
  lemma IouSymmetric(a: Detection, b: Detection)
    ensures Iou(a, b) == Iou(b, a)
  {
    InterSymmetric(a, b);
    if Overlap(a, b) {
      assert InterArea(a, b) == InterArea(b, a);
      InterAreaBounded(a, b);
      UnionRatioSymmetric(InterArea(a, b), Area(a), Area(b));
    }
  }

  /** A box with positive width and height has IoU 1 with itself. */
  lemma IouSelf(a: Detection)
    requires a.width > 0.0 && a.height > 0.0
    ensures Iou(a, a) == 1.0
  {
    assert Right(a) - Left(a) == a.width;
    assert Bottom(a) - Top(a) == a.height;
    ProductWithin(a.width, a.height, a.width, a.height, a.width, a.height,
                  a.width * a.height, a.width * a.height, a.width * a.height);
    assert Overlap(a, a);
    assert InterArea(a, a) == Area(a);
  }
}
