/**
 * The crop geometry of the passport-photo cropper: from the landmarks of one
 * detected face to the pixel box handed to the image library, plus the DPI
 * rescaling applied to the cropped image.
 *
 * Coordinates follow the image convention: origin at the top left, y grows
 * downward. Landmark points are integers, as the detector yields them; every
 * quantity derived from them is a `real` (the program computes in floating
 * point, which this model does not reproduce bit for bit).
 */
module PhotoCrop {

  // ---------------------------------------------------------------------------
  // Data model
  // ---------------------------------------------------------------------------

  /** One landmark point of the detector. */
  datatype Point = Point(x: int, y: int)

  /** The landmarks of one face: feature name ("chin", "nose_bridge", ...) to its ordered points. */
  type Landmarks = map<string, seq<Point>>

  /** The head scaling factor: crop height over face height, and the vertical bias. */
  datatype Scaling = Scaling(magnitude: real, bias: real)

  /** The default head scaling factor (2.5, 1.1). */
  const DefaultScaling: Scaling := Scaling(2.5, 1.1)

  /** Width over height of a 35 mm x 45 mm passport photo. */
  const AspectRatio: real := 35.0 / 45.0

  /** A crop rectangle in image coordinates, before truncation to pixels. */
  datatype Rect = Rect(left: real, top: real, right: real, bottom: real)

  /** The integer box (left, top, right, bottom) passed to the image library's crop. */
  datatype Box = Box(left: int, top: int, right: int, bottom: int)

  /** Horizontal and vertical resolution of an image. */
  datatype Dpi = Dpi(x: real, y: real)

  /** Pixel dimensions of an image. */
  datatype Size = Size(width: int, height: int)

  /** The one error the crop code raises itself. */
  datatype CropError = NoFaceDetected

  datatype Result<T> = Ok(value: T) | Err(error: CropError)

  // ---------------------------------------------------------------------------
  // Face selection
  // ---------------------------------------------------------------------------

  /** The detector may report several faces; the first is used, none is an error. */
  function FirstFace(faces: seq<Landmarks>): (r: Result<Landmarks>)
    ensures r.Err? <==> |faces| == 0
    ensures r.Ok? ==> r.value == faces[0]
  {
    if |faces| == 0 then Err(NoFaceDetected) else Ok(faces[0])
  }

  /** Faces detected after the first never change the selection. */
  lemma FirstFaceIgnoresLaterFaces(faces: seq<Landmarks>, later: seq<Landmarks>)
    requires |faces| > 0
    ensures FirstFace(faces + later) == FirstFace(faces)
    ensures FirstFace([faces[0]] + later) == FirstFace(faces)
  {
    assert (faces + later)[0] == faces[0];
  }

  // ---------------------------------------------------------------------------
  // Landmark geometry
  // ---------------------------------------------------------------------------

  /**
   * The index `n / 2` used as the "centre" of a point list of length n: a valid
   * index with as many points after it as before it when n is odd, and one
   * more point before it than after it when n is even (the upper middle).
   */
  function MiddleIndex(n: nat): (i: nat)
    requires n > 0
    ensures i < n
    ensures n % 2 == 1 ==> i == n - 1 - i
    ensures n % 2 == 0 ==> i == (n - 1 - i) + 1
  {
    n / 2
  }

  /** The nose-bridge anchor: the middle point of the nose-bridge list. */
  function NoseBridgeCenter(lm: Landmarks): (c: Point)
    requires "nose_bridge" in lm && |lm["nose_bridge"]| > 0
    ensures c in lm["nose_bridge"]
    ensures c == lm["nose_bridge"][MiddleIndex(|lm["nose_bridge"]|)]
  {
    var bridge := lm["nose_bridge"];
    bridge[|bridge| / 2]
  }

  /** The largest y over a non-empty list of points. */
  function MaxY(ps: seq<Point>): (m: int)
    requires |ps| > 0
    ensures forall i :: 0 <= i < |ps| ==> ps[i].y <= m
    ensures exists i :: 0 <= i < |ps| && ps[i].y == m
    decreases |ps|
  {
    if |ps| == 1 then ps[0].y
    else
      var rest := MaxY(ps[1..]);
      assert forall i :: 1 <= i < |ps| ==> ps[i] == ps[1..][i - 1];
      if ps[0].y >= rest then ps[0].y else rest
  }

  /** The smallest y over a non-empty list of points. */
  function MinY(ps: seq<Point>): (m: int)
    requires |ps| > 0
    ensures forall i :: 0 <= i < |ps| ==> m <= ps[i].y
    ensures exists i :: 0 <= i < |ps| && ps[i].y == m
    decreases |ps|
  {
    if |ps| == 1 then ps[0].y
    else
      var rest := MinY(ps[1..]);
      assert forall i :: 1 <= i < |ps| ==> ps[i] == ps[1..][i - 1];
      if ps[0].y <= rest then ps[0].y else rest
  }

  /** The eye points: the left-eye points followed by the right-eye points. */
  function Eyes(lm: Landmarks): (eyes: seq<Point>)
    requires "left_eye" in lm && "right_eye" in lm
    ensures |eyes| == |lm["left_eye"]| + |lm["right_eye"]|
    ensures forall i :: 0 <= i < |lm["left_eye"]| ==> eyes[i] == lm["left_eye"][i]
    ensures forall j :: 0 <= j < |lm["right_eye"]| ==> eyes[|lm["left_eye"]| + j] == lm["right_eye"][j]
  {
    lm["left_eye"] + lm["right_eye"]
  }

  /**
   * Landmarks from which the crop can be computed without the program crashing:
   * every feature it reads is present, the nose bridge and the chin list are
   * non-empty, and at least one of the two eyes has a point.
   */
  predicate HasCropLandmarks(lm: Landmarks)
    ensures HasCropLandmarks(lm) <==>
      && "nose_bridge" in lm && "chin" in lm && "left_eye" in lm && "right_eye" in lm
      && |lm["nose_bridge"]| > 0 && |lm["chin"]| > 0
      && (|lm["left_eye"]| > 0 || |lm["right_eye"]| > 0)
  {
    && "nose_bridge" in lm && |lm["nose_bridge"]| > 0
    && "chin" in lm && |lm["chin"]| > 0
    && "left_eye" in lm && "right_eye" in lm && |Eyes(lm)| > 0
  }

  /** The bottom of the chin: the largest y over the chin points. */
  function ChinBottom(lm: Landmarks): (b: int)
    requires "chin" in lm && |lm["chin"]| > 0
    ensures forall i :: 0 <= i < |lm["chin"]| ==> lm["chin"][i].y <= b
    ensures exists i :: 0 <= i < |lm["chin"]| && lm["chin"][i].y == b
  {
    MaxY(lm["chin"])
  }

  /** The top of the eyes: the smallest y over the left- and right-eye points together. */
  function EyeTop(lm: Landmarks): (t: int)
    requires "left_eye" in lm && "right_eye" in lm && |Eyes(lm)| > 0
    ensures forall i :: 0 <= i < |Eyes(lm)| ==> t <= Eyes(lm)[i].y
    ensures exists i :: 0 <= i < |Eyes(lm)| && Eyes(lm)[i].y == t
  {
    MinY(Eyes(lm))
  }

  /**
   * The face height: the largest vertical distance from an eye point down to a
   * chin point. Nothing makes it positive; landmarks with the chin above the
   * eyes give a negative height.
   */
  function FaceHeight(lm: Landmarks): (h: int)
    requires HasCropLandmarks(lm)
    ensures forall i, j :: 0 <= i < |lm["chin"]| && 0 <= j < |Eyes(lm)| ==>
                             lm["chin"][i].y - Eyes(lm)[j].y <= h
    ensures exists i, j :: 0 <= i < |lm["chin"]| && 0 <= j < |Eyes(lm)| &&
                           lm["chin"][i].y - Eyes(lm)[j].y == h
  {
    ChinBottom(lm) - EyeTop(lm)
  }

  /** With both eyes present, the eye top is the higher of the two eyes' tops. */
  lemma EyeTopOfBothEyes(lm: Landmarks)
    requires "left_eye" in lm && "right_eye" in lm
    requires |lm["left_eye"]| > 0 && |lm["right_eye"]| > 0
    ensures EyeTop(lm) == if MinY(lm["left_eye"]) <= MinY(lm["right_eye"])
      then MinY(lm["left_eye"]) else MinY(lm["right_eye"])
  {
    var l, r := lm["left_eye"], lm["right_eye"];
    var eyes := Eyes(lm);
    var t := EyeTop(lm);
    var k :| 0 <= k < |eyes| && eyes[k].y == t;
    if k < |l| {
      assert eyes[k] == l[k];
    } else {
      assert eyes[k] == r[k - |l|];
    }
    var il :| 0 <= il < |l| && l[il].y == MinY(l);
    var ir :| 0 <= ir < |r| && r[ir].y == MinY(r);
    assert eyes[il] == l[il];
    assert eyes[|l| + ir] == r[ir];
  }

  // ---------------------------------------------------------------------------
  // Crop rectangle
  // ---------------------------------------------------------------------------

  /** The nominal crop height: the face height times the scaling magnitude. */
  function CropHeight(faceHeight: int, s: Scaling): (h: real)
    ensures faceHeight >= 0 && s.magnitude >= 0.0 ==> h >= 0.0
    ensures faceHeight > 0 && s.magnitude > 0.0 ==> h > 0.0
    ensures faceHeight == 0 || s.magnitude == 0.0 ==> h == 0.0
  {
    var f := faceHeight as real;
    SignOfProduct(s.magnitude, f);
    f * s.magnitude
  }

  /** The nominal crop width: the crop height times the passport aspect ratio. */
  function CropWidth(faceHeight: int, s: Scaling): (w: real)
    ensures 45.0 * w == 35.0 * CropHeight(faceHeight, s)
    ensures CropHeight(faceHeight, s) >= 0.0 ==> 0.0 <= w <= CropHeight(faceHeight, s)
  {
    CropHeight(faceHeight, s) * AspectRatio
  }

  /**
   * The downward shift of the crop: half of the extra face height that a bias
   * above 1 asks for. It is zero for bias 1, and for a positive face height it
   * points down exactly when the bias exceeds 1.
   */
  function BiasAdjustment(faceHeight: int, s: Scaling): (b: real)
    ensures s.bias == 1.0 ==> b == 0.0
    ensures faceHeight > 0 ==> (b > 0.0 <==> s.bias > 1.0)
    ensures faceHeight > 0 ==> (b < 0.0 <==> s.bias < 1.0)
    ensures 2.0 * b == s.bias * faceHeight as real - faceHeight as real
  {
    var h := faceHeight as real;
    SignOfProduct(s.bias - 1.0, h);
    (s.bias - 1.0) * h * 0.5
  }

  /** For a positive h, d * h has the sign of d. */
  lemma SignOfProduct(d: real, h: real)
    ensures h > 0.0 ==> (d * h > 0.0 <==> d > 0.0) && (d * h < 0.0 <==> d < 0.0)
  {
  }

  /**
   * The unclamped rectangle: the nominal crop height and width, centred
   * horizontally on the anchor and vertically on the anchor shifted by the bias.
   */
  function NominalRect(nose: Point, faceHeight: int, s: Scaling): (r: Rect)
    ensures r.bottom - r.top == CropHeight(faceHeight, s)
    ensures r.right - r.left == CropWidth(faceHeight, s)
    ensures (r.top + r.bottom) / 2.0 == nose.y as real + BiasAdjustment(faceHeight, s)
    ensures (r.left + r.right) / 2.0 == nose.x as real
  {
    var h := CropHeight(faceHeight, s);
    var w := CropWidth(faceHeight, s);
    var b := BiasAdjustment(faceHeight, s);
    Rect(nose.x as real - w / 2.0,
         nose.y as real - h / 2.0 + b,
         nose.x as real + w / 2.0,
         nose.y as real + h / 2.0 + b)
  }

  /**
   * Each edge is on the image side of its own border: left and top at least 0,
   * right at most the width, bottom at most the height. Nothing here orders the
   * edges; only a rectangle with left <= right and top <= bottom also lies in
   * the image.
   */
  predicate WithinBorders(r: Rect, width: int, height: int)
  {
    0.0 <= r.left && 0.0 <= r.top && r.right <= width as real && r.bottom <= height as real
  }

  /**
   * Each edge clamped on its own to the image: top and left to at least 0,
   * bottom and right to at most the height and width. Every edge either stays
   * where it was or lands on the image border, always on its inner side, and a
   * rectangle already within the borders is left as it is. The rectangle is not
   * re-centred, so clamping can change its size and aspect ratio.
   */
  function Clamp(n: Rect, width: nat, height: nat): (r: Rect)
    ensures WithinBorders(r, width, height)
    ensures n.left <= r.left && n.top <= r.top && r.right <= n.right && r.bottom <= n.bottom
    ensures r.left == n.left || r.left == 0.0
    ensures r.top == n.top || r.top == 0.0
    ensures r.right == n.right || r.right == width as real
    ensures r.bottom == n.bottom || r.bottom == height as real
    ensures WithinBorders(n, width, height) ==> r == n
  {
    Rect(if n.left > 0.0 then n.left else 0.0,
         if n.top > 0.0 then n.top else 0.0,
         if n.right < width as real then n.right else width as real,
         if n.bottom < height as real then n.bottom else height as real)
  }

  /** The crop rectangle of a face in an image of the given size. */
  function CropRect(lm: Landmarks, width: nat, height: nat, s: Scaling): (r: Rect)
    requires HasCropLandmarks(lm)
    ensures WithinBorders(r, width, height)
    ensures var n := NominalRect(NoseBridgeCenter(lm), FaceHeight(lm), s);
      n.left <= r.left && n.top <= r.top && r.right <= n.right && r.bottom <= n.bottom
  {
    Clamp(NominalRect(NoseBridgeCenter(lm), FaceHeight(lm), s), width, height)
  }

  /**
   * When no clamp fires, the crop has the nominal size and the passport aspect
   * ratio, and is centred on the (biased) anchor.
   */
  lemma UnclampedCropIsNominal(lm: Landmarks, width: nat, height: nat, s: Scaling)
    requires HasCropLandmarks(lm)
    requires WithinBorders(NominalRect(NoseBridgeCenter(lm), FaceHeight(lm), s), width, height)
    ensures var r := CropRect(lm, width, height, s);
      var nose := NoseBridgeCenter(lm);
      && r.bottom - r.top == FaceHeight(lm) as real * s.magnitude
      && r.right - r.left == (r.bottom - r.top) * 35.0 / 45.0
      && (r.bottom - r.top != 0.0 ==> (r.right - r.left) / (r.bottom - r.top) == AspectRatio)
      && (r.top + r.bottom) / 2.0 == nose.y as real + BiasAdjustment(FaceHeight(lm), s)
      && (r.left + r.right) / 2.0 == nose.x as real
  {
    var r := CropRect(lm, width, height, s);
    var h := r.bottom - r.top;
    if h != 0.0 {
      assert (r.right - r.left) / h == (h * AspectRatio) / h;
    }
  }

  /**
   * Since edges are clamped but never re-centred, an anchor inside the image
   * stays inside the crop: horizontally the nose-bridge x, vertically the
   * nose-bridge y shifted by the bias.
   */
  lemma AnchorInsideCrop(lm: Landmarks, width: nat, height: nat, s: Scaling)
    requires HasCropLandmarks(lm)
    requires FaceHeight(lm) >= 0 && s.magnitude >= 0.0
    ensures var r := CropRect(lm, width, height, s);
      var x := NoseBridgeCenter(lm).x as real;
      0.0 <= x <= width as real ==> r.left <= x <= r.right
    ensures var r := CropRect(lm, width, height, s);
      var y := NoseBridgeCenter(lm).y as real + BiasAdjustment(FaceHeight(lm), s);
      0.0 <= y <= height as real ==> r.top <= y <= r.bottom
  {
  }

  /**
   * The crop is non-empty when the image is, the face height and the magnitude
   * are positive, and the anchor lies inside the image.
   */
  lemma CropNonEmpty(lm: Landmarks, width: nat, height: nat, s: Scaling)
    requires HasCropLandmarks(lm)
    requires width > 0 && height > 0
    requires FaceHeight(lm) > 0 && s.magnitude > 0.0
    requires 0 <= NoseBridgeCenter(lm).x <= width
    requires 0.0 <= NoseBridgeCenter(lm).y as real + BiasAdjustment(FaceHeight(lm), s) <= height as real
    ensures var r := CropRect(lm, width, height, s);
      r.left < r.right && r.top < r.bottom
  {
  }

  /** With the default scaling the crop is shifted down by 5% of the face height. */
  lemma DefaultBiasShift(faceHeight: int)
    ensures BiasAdjustment(faceHeight, DefaultScaling) == 0.05 * faceHeight as real
    ensures CropHeight(faceHeight, DefaultScaling) == 2.5 * faceHeight as real
  {
  }

  // ---------------------------------------------------------------------------
  // Pixel box
  // ---------------------------------------------------------------------------

  /** Conversion of a real to an integer, truncating toward zero. */
  function Trunc(x: real): (i: int)
    ensures x >= 0.0 ==> i as real <= x < i as real + 1.0
    ensures x < 0.0 ==> i as real - 1.0 < x <= i as real
  {
    if x >= 0.0 then x.Floor else -((-x).Floor)
  }

  /** Truncation toward zero keeps the order of its arguments. */
  lemma TruncMonotone(x: real, y: real)
    requires x <= y
    ensures Trunc(x) <= Trunc(y)
  {
  }

  /**
   * The pixel box given to the crop: each clamped edge truncated toward zero.
   * Left and top are at least 0, right is at most the width and bottom at most
   * the height; left and top, never negative, are the floors of the real edges.
   */
  function CropBox(lm: Landmarks, width: nat, height: nat, s: Scaling): (b: Box)
    requires HasCropLandmarks(lm)
    ensures 0 <= b.left && 0 <= b.top && b.right <= width && b.bottom <= height
    ensures var r := CropRect(lm, width, height, s);
      && b.left == r.left.Floor && b.left as real <= r.left
      && b.top == r.top.Floor && b.top as real <= r.top
      && b.right == Trunc(r.right) && b.bottom == Trunc(r.bottom)
  {
    var r := CropRect(lm, width, height, s);
    Box(Trunc(r.left), Trunc(r.top), Trunc(r.right), Trunc(r.bottom))
  }

  /** A crop rectangle with its edges in order (left <= right, top <= bottom) gives a box with its edges in order. */
  lemma CropBoxOrdered(lm: Landmarks, width: nat, height: nat, s: Scaling)
    requires HasCropLandmarks(lm)
    requires var r := CropRect(lm, width, height, s); r.left <= r.right && r.top <= r.bottom
    ensures var b := CropBox(lm, width, height, s); b.left <= b.right && b.top <= b.bottom
  {
    var r := CropRect(lm, width, height, s);
    TruncMonotone(r.left, r.right);
    TruncMonotone(r.top, r.bottom);
  }

  // ---------------------------------------------------------------------------
  // Worked examples
  // ---------------------------------------------------------------------------

  /** Landmarks with the nose-bridge centre at (noseX, noseY) and a face height of 80. */
  function SampleFace(noseX: int, noseY: int): Landmarks
  {
    map["chin" := [Point(100, 230)],
        "left_eye" := [Point(80, 150)],
        "right_eye" := [Point(120, 150)],
        "nose_bridge" := [Point(noseX, noseY - 10), Point(noseX, noseY), Point(noseX, noseY + 10)]]
  }

  /** A face well inside a 400 x 400 image: no edge is clamped. */
  lemma UnclampedExample()
    ensures HasCropLandmarks(SampleFace(100, 150))
    ensures FaceHeight(SampleFace(100, 150)) == 80
    ensures CropRect(SampleFace(100, 150), 400, 400, DefaultScaling)
         == Rect(200.0 / 9.0, 54.0, 1600.0 / 9.0, 254.0)
    ensures CropBox(SampleFace(100, 150), 400, 400, DefaultScaling) == Box(22, 54, 177, 254)
  {
    var lm := SampleFace(100, 150);
    assert NoseBridgeCenter(lm) == Point(100, 150);
    assert ChinBottom(lm) == 230 && EyeTop(lm) == 150;
    assert (200.0 / 9.0).Floor == 22 && (1600.0 / 9.0).Floor == 177;
  }

  /** A face near the top left corner: the top and left edges are clamped to 0. */
  lemma ClampedExample()
    ensures HasCropLandmarks(SampleFace(20, 10))
    ensures CropRect(SampleFace(20, 10), 400, 400, DefaultScaling)
         == Rect(0.0, 0.0, 880.0 / 9.0, 114.0)
    ensures CropBox(SampleFace(20, 10), 400, 400, DefaultScaling) == Box(0, 0, 97, 114)
  {
    var lm := SampleFace(20, 10);
    assert NoseBridgeCenter(lm) == Point(20, 10);
    assert ChinBottom(lm) == 230 && EyeTop(lm) == 150;
    assert (880.0 / 9.0).Floor == 97;
  }

  // ---------------------------------------------------------------------------
  // DPI rescaling
  // ---------------------------------------------------------------------------

  /**
   * The resolution of the resized image: per axis, the original DPI scaled by
   * the ratio of new to original size, so that DPI over pixel count, and with
   * it the print size in inches, stays the same.
   */
  function NewDpi(dpi: Dpi, original: Size, resized: Size): (r: Dpi)
    requires original.width != 0 && original.height != 0
    ensures r.x * original.width as real == dpi.x * resized.width as real
    ensures r.y * original.height as real == dpi.y * resized.height as real
    ensures resized == original ==> r == dpi
  {
    Dpi((resized.width as real / original.width as real) * dpi.x,
        (resized.height as real / original.height as real) * dpi.y)
  }

  /**
   * DPI over pixel count is the same before and after the rescale, per axis;
   * so, for a non-zero DPI, the resized image prints at the physical size
   * (pixels over DPI, in inches) of the original.
   */
  lemma NewDpiKeepsPrintSize(dpi: Dpi, original: Size, resized: Size)
    requires original.width != 0 && original.height != 0
    requires resized.width != 0 && resized.height != 0
    ensures NewDpi(dpi, original, resized).x / resized.width as real == dpi.x / original.width as real
    ensures NewDpi(dpi, original, resized).y / resized.height as real == dpi.y / original.height as real
    ensures dpi.x != 0.0 ==>
              resized.width as real / NewDpi(dpi, original, resized).x == original.width as real / dpi.x
    ensures dpi.y != 0.0 ==>
              resized.height as real / NewDpi(dpi, original, resized).y == original.height as real / dpi.y
  {
    var r := NewDpi(dpi, original, resized);
    var ow, oh := original.width as real, original.height as real;
    var nw, nh := resized.width as real, resized.height as real;
    QuotientOfCrossProduct(r.x, nw, dpi.x, ow);
    QuotientOfCrossProduct(r.y, nh, dpi.y, oh);
    if dpi.x != 0.0 {
      assert r.x != 0.0 by { NonZeroProduct(dpi.x, nw); }
      QuotientOfCrossProduct(nw, r.x, ow, dpi.x);
    }
    if dpi.y != 0.0 {
      assert r.y != 0.0 by { NonZeroProduct(dpi.y, nh); }
      QuotientOfCrossProduct(nh, r.y, oh, dpi.y);
    }
  }

  lemma NonZeroProduct(a: real, b: real)
    requires a != 0.0 && b != 0.0
    ensures a * b != 0.0
  {
  }

  /** From a * d == c * b with b, d non-zero: a / b == c / d. */
  lemma QuotientOfCrossProduct(a: real, b: real, c: real, d: real)
    requires b != 0.0 && d != 0.0
    requires a * d == c * b
    ensures a / b == c / d
  {
    assert a / b == (a * d) / (b * d);
    assert c / d == (c * b) / (d * b);
  }

  /** Scaling by b / a and then by c / b is scaling by c / a. */
  lemma RatioChain(a: real, b: real, c: real, d: real)
    requires a != 0.0 && b != 0.0
    ensures (c / b) * ((b / a) * d) == (c / a) * d
  {
    calc {
      (c / b) * ((b / a) * d);
    ==
      ((c / b) * (b / a)) * d;
    == { assert (c / b) * (b / a) == (c * b) / (b * a); }
      ((c * b) / (b * a)) * d;
    == { assert (c * b) / (b * a) == c / a; }
      (c / a) * d;
    }
  }

  /** Rescaling in two steps gives the same DPI as rescaling in one. */
  lemma NewDpiComposes(dpi: Dpi, a: Size, b: Size, c: Size)
    requires a.width != 0 && a.height != 0 && b.width != 0 && b.height != 0
    ensures NewDpi(NewDpi(dpi, a, b), b, c) == NewDpi(dpi, a, c)
  {
    RatioChain(a.width as real, b.width as real, c.width as real, dpi.x);
    RatioChain(a.height as real, b.height as real, c.height as real, dpi.y);
  }
}
