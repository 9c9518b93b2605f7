/** ComponentDetector: the first-match geometric classifier and the mock
    detector, which reports three fixed boxes and wraps each one in a
    component record. */
module ComponentDetector {
  import opened Types
  import opened Strings

  // ---------------------------------------------------------------------
  // inferComponentType
  // ---------------------------------------------------------------------

  /** The value of width / height as a double: a finite quotient, or the
      infinity or NaN that a zero height gives. */
  datatype Ratio = Finite(q: real) | PosInf | NegInf | NaN

  function AspectRatio(box: BoundingBox): (r: Ratio)
    ensures box.height != 0 ==> r == Finite(box.width as real / box.height as real)
    ensures box.height == 0 ==> (r == PosInf <==> box.width > 0) && (r == NegInf <==> box.width < 0)
  {
    if box.height != 0 then Finite(box.width as real / box.height as real)
    else if box.width > 0 then PosInf
    else if box.width < 0 then NegInf
    else NaN
  }

  /** ratio > c, with the IEEE comparisons (NaN compares false). */
  predicate Above(r: Ratio, c: real)
  {
    match r
    case Finite(q) => q > c
    case PosInf => true
    case NegInf => false
    case NaN => false
  }

  /** ratio < c, with the IEEE comparisons. */
  predicate Below(r: Ratio, c: real)
  {
    match r
    case Finite(q) => q < c
    case PosInf => false
    case NegInf => true
    case NaN => false
  }

  /** The three rules in order: button, card, input; anything else is "other". */
  function InferComponentType(box: BoundingBox): (kind: ComponentType)
    ensures kind in {Button, Card, Input, OtherType}
  {
    var ratio := AspectRatio(box);
    if Above(ratio, 2.0) && Below(ratio, 8.0) && box.height < 60 then Button
    else if Above(ratio, 1.2) && Below(ratio, 3.0) && box.height > 100 then Card
    else if Above(ratio, 4.0) && box.height < 50 then Input
    else OtherType
  }

  /** Multiplying by a positive number keeps comparisons. */
  lemma ScaledCompare(q: real, h: real, c: real)
    requires h > 0.0
    ensures q > c <==> q * h > c * h
    ensures q < c <==> q * h < c * h
  {
    assert (q - c) * h == q * h - c * h;
    if q > c {
      assert (q - c) * h > 0.0;
    } else if q < c {
      assert (c - q) * h > 0.0;
    }
  }

  /** With a positive height, comparing the ratio with a / b is comparing
      b * width with a * height. */
  lemma RatioVersus(box: BoundingBox, a: nat, b: nat)
    requires box.height > 0 && b > 0
    ensures Above(AspectRatio(box), a as real / b as real) <==> a * box.height < b * box.width
    ensures Below(AspectRatio(box), a as real / b as real) <==> b * box.width < a * box.height
  {
    var w, h, c := box.width as real, box.height as real, a as real / b as real;
    var q := w / h;
    assert q * h == w;
    ScaledCompare(q, h, c);
    ScaledCompare(w, b as real, c * h);
    assert c * h * b as real == a as real * h;
    assert (a * box.height) as real == a as real * h;
    assert (b * box.width) as real == w * b as real;
  }

  /** For a positive height the rules read without division. */
  lemma ClassifyWithoutDivision(box: BoundingBox)
    requires box.height > 0
    ensures var w, h, kind := box.width, box.height, InferComponentType(box);
      && (kind == Button <==> 2 * h < w < 8 * h && h < 60)
      && (kind == Card <==> 6 * h < 5 * w && w < 3 * h && h > 100)
      && (kind == Input <==> 8 * h <= w && h < 50)
      && (kind == OtherType <==>
            !(2 * h < w < 8 * h && h < 60) && !(6 * h < 5 * w && w < 3 * h && h > 100) && !(8 * h <= w && h < 50))
  {
    RatioVersus(box, 2, 1);
    RatioVersus(box, 8, 1);
    RatioVersus(box, 6, 5);
    RatioVersus(box, 3, 1);
    RatioVersus(box, 4, 1);
    assert 6 as real / 5 as real == 1.2;
  }

  /** "input" needs the ratio to reach 8: every narrower box that passes the
      input test was already taken as a button. */
  lemma InputIsVeryWide(box: BoundingBox)
    requires InferComponentType(box) == Input
    ensures AspectRatio(box) == PosInf || (AspectRatio(box).Finite? && AspectRatio(box).q >= 8.0)
    ensures box.height < 50
  {
  }

  /** A zero height gives an infinite or undefined ratio: a positive width
      is an input, anything else is other. */
  lemma ZeroHeight(box: BoundingBox)
    requires box.height == 0
    ensures InferComponentType(box) == if box.width > 0 then Input else OtherType
  {
  }

  // ---------------------------------------------------------------------
  // findRectangularShapes and detectComponents
  // ---------------------------------------------------------------------

  /** The boxes the mock shape finder reports, whatever the canvas. */
  const MockShapes: seq<BoundingBox> := [
    BoundingBox(50, 50, 200, 40),
    BoundingBox(50, 120, 300, 150),
    BoundingBox(50, 300, 250, 30)]

  /** Pushes the three mock boxes; the canvas size is read and not used. */
  method FindRectangularShapes(width: int, height: int) returns (shapes: seq<BoundingBox>)
    ensures shapes == MockShapes
  {
    shapes := [];
    shapes := shapes + [BoundingBox(50, 50, 200, 40)];
    shapes := shapes + [BoundingBox(50, 120, 300, 150)];
    shapes := shapes + [BoundingBox(50, 300, 250, 30)];
  }

  const EmptyStyles: StyleSet := StyleSet([], [], [], [], [])

  const NoSides: Sides := Sides(0, 0, 0, 0)

  /** The record detectComponents builds for the box at position index. */
  function ComponentFor(rect: BoundingBox, index: nat): (c: ComponentSpec)
    ensures c.kind == InferComponentType(rect) && c.boundingBox == rect
  {
    ComponentSpec(
      "component-" + NatToString(index),
      InferComponentType(rect),
      "Component " + NatToString(index + 1),
      rect,
      EmptyStyles,
      None,
      Measurements(rect.width, rect.height, NoSides, NoSides))
  }

  /** detectComponents: no 2D context gives no components; otherwise one
      record per mock box, in order. */
  method DetectComponents(contextAvailable: bool, width: int, height: int) returns (components: seq<ComponentSpec>)
    ensures !contextAvailable ==> components == []
    ensures contextAvailable ==> |components| == |MockShapes|
    ensures contextAvailable ==> forall i :: 0 <= i < |components| ==> components[i] == ComponentFor(MockShapes[i], i)
  {
    if !contextAvailable {
      return [];
    }
    components := [];
    var rects := FindRectangularShapes(width, height);
    var index := 0;
    while index < |rects|
      invariant 0 <= index <= |rects|
      invariant |components| == index
      invariant forall i :: 0 <= i < index ==> components[i] == ComponentFor(rects[i], i)
    {
      components := components + [ComponentFor(rects[index], index)];
      index := index + 1;
    }
  }

  /** The mock boxes classify as button, card and input. */
  lemma MockKinds()
    ensures InferComponentType(MockShapes[0]) == Button
    ensures InferComponentType(MockShapes[1]) == Card
    ensures InferComponentType(MockShapes[2]) == Input
  {
    assert 200.0 / 40.0 == 5.0;
    assert 300.0 / 150.0 == 2.0;
    assert 8.0 < 250.0 / 30.0;
  }

  /** Each detected component copies its box into the measurements, with
      zero padding and margin, empty style lists and no states. */
  lemma DetectedShape(rect: BoundingBox, index: nat)
    ensures var c := ComponentFor(rect, index);
      && c.measurements.width == rect.width && c.measurements.height == rect.height
      && c.measurements.padding == Sides(0, 0, 0, 0) && c.measurements.margin == Sides(0, 0, 0, 0)
      && c.styles.colors == [] && c.styles.typography == [] && c.styles.spacing == []
      && c.styles.borders == [] && c.styles.shadows == []
      && c.states.None?
  {
  }

  lemma DetectedNames()
    ensures ComponentFor(MockShapes[0], 0).id == "component-0" && ComponentFor(MockShapes[0], 0).name == "Component 1"
    ensures ComponentFor(MockShapes[1], 1).id == "component-1" && ComponentFor(MockShapes[1], 1).name == "Component 2"
    ensures ComponentFor(MockShapes[2], 2).id == "component-2" && ComponentFor(MockShapes[2], 2).name == "Component 3"
  {
    assert NatToString(0) == "0" && NatToString(1) == "1";
    assert NatToString(2) == "2" && NatToString(3) == "3";
  }

  /** Distinct positions give distinct ids. */
  lemma DetectedIdsDistinct(a: BoundingBox, i: nat, b: BoundingBox, j: nat)
    requires i != j
    ensures ComponentFor(a, i).id != ComponentFor(b, j).id
  {
    NatToStringInjective(i, j);
    var p := "component-";
    assert ComponentFor(a, i).id[|p|..] == NatToString(i);
    assert ComponentFor(b, j).id[|p|..] == NatToString(j);
  }
}
