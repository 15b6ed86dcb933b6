/** Edge-anchored boxes and the margin mutation they cause
    (`_box_from_label`, applied in declaration order by `draw_page`). */
module Boxes {
  import opened Results
  import opened LayoutConfig
  import opened Frame

  /** A rectangle in figure fractions: lower-left corner, width, height. */
  datatype Rect = Rect(x: real, y: real, width: real, height: real)

  /** The axes rectangle a box is drawn in, and the configured `box_height`
      that `_box_from_label` returns beside the normalised corner. */
  datatype BoxPlacement = BoxPlacement(axes: Rect, configuredHeight: Value)

  datatype BoxOutcome = BoxOutcome(margins: Margins, placement: Option<BoxPlacement>)

  /** A coordinate or width produced by one anchoring step, with the margins
      after that step. */
  datatype Placed = Placed(coord: real, margins: Margins)

  const LeftMargin: Value := Word("left_margin")
  const RightMargin: Value := Word("right_margin")
  const TopMargin: Value := Word("top_margin")
  const BottomMargin: Value := Word("bottom_margin")
  const FrameWidth: Value := Word("frame_width")

  function Abs(x: real): (r: real)
    ensures r >= 0.0 && (r == x || r == -x)
  {
    if x < 0.0 then -x else x
  }

  /** The box's left edge, in inches from the page's left side. */
  function AnchorX(page: Page, m: Margins, x0: Value, width: Value): (r: Result<real>)
    ensures x0 == LeftMargin ==> r == Ok(m.left)
    ensures x0 == RightMargin ==>
      (r.Ok? <==> AsNumber(width).Some?)
      && (r.Ok? ==> r.value == page.width - m.right + AsNumber(width).value)
    ensures x0 != LeftMargin && x0 != RightMargin ==> r == Coordinate(x0, "box_position")
  {
    if x0 == RightMargin then
      var w :- Number(Some(width), "box_width");
      Ok(page.width - m.right + w)
    else if x0 == LeftMargin then Ok(m.left)
    else Coordinate(x0, "box_position")
  }

  /** The box's lower edge and the vertical margin update. A `top_margin`
      box with negative height hangs below the top margin, which grows to
      include it; a non-negative height changes nothing. A `bottom_margin`
      box with positive height and width `frame_width` lifts the bottom
      margin over it. Either way the frame height follows its margins. */
  function AnchorY(page: Page, m: Margins, y0: Value, width: Value, height: Value): (r: Result<Placed>)
    ensures r.Ok? ==>
      && r.value.margins.left == m.left && r.value.margins.right == m.right
      && r.value.margins.pad == m.pad && r.value.margins.frameWidth == m.frameWidth
    ensures r.Ok? && HeightInvariant(page, m) ==> HeightInvariant(page, r.value.margins)
    ensures y0 == TopMargin || y0 == BottomMargin ==> (r.Ok? <==> AsNumber(height).Some?)
    ensures y0 == TopMargin && r.Ok? ==>
      var h := AsNumber(height).value;
      && (h < 0.0 ==>
            && r.value.margins.top == m.top + Abs(h)
            && r.value.margins.frameHeight == m.frameHeight - Abs(h)
            && r.value.margins.bottom == m.bottom
            && r.value.coord == page.height - r.value.margins.top)
      && (h >= 0.0 ==> r.value == Placed(page.height - m.top, m))
    ensures y0 == BottomMargin && r.Ok? ==>
      var h := AsNumber(height).value;
      && r.value.coord == m.bottom
      && (h > 0.0 && width == FrameWidth ==>
            && r.value.margins.bottom == m.bottom + h
            && r.value.margins.frameHeight == m.frameHeight - h
            && r.value.margins.top == m.top)
      && (h <= 0.0 || width != FrameWidth ==> r.value.margins == m)
    ensures y0 != TopMargin && y0 != BottomMargin ==>
      (r.Ok? <==> Coordinate(y0, "box_position").Ok?)
      && (r.Ok? ==> r.value == Placed(Coordinate(y0, "box_position").value, m))
  {
    if y0 == TopMargin then
      var y := page.height - m.top;
      var h :- Number(Some(height), "box_height");
      if y + h < page.height - m.top then
        var m1 := m.(frameHeight := m.frameHeight + h);
        if h < 0.0 then Ok(Placed(y + h, m1.(top := m1.top + Abs(h)))) else Ok(Placed(y, m1))
      else Ok(Placed(y, m))
    else if y0 == BottomMargin then
      var y := m.bottom;
      var h :- Number(Some(height), "box_height");
      if y + h > m.bottom && width == FrameWidth then
        Ok(Placed(y, m.(bottom := y + h, frameHeight := m.frameHeight - h)))
      else Ok(Placed(y, m))
    else
      var y :- Coordinate(y0, "box_position");
      Ok(Placed(y, m))
  }

  /** The box's drawn width and the horizontal margin update. A width equal
      to the frame width changes nothing. A positive width whose right end
      passes the left margin moves the left margin there, and shrinks the
      frame by the width only while the width is below the frame width. A
      non-positive width widens the right margin by its magnitude and
      shrinks the frame by the same amount. */
  function AnchorWidth(m: Margins, x: real, width: Value): (r: Result<Placed>)
    ensures r.Ok? ==>
      && r.value.margins.top == m.top && r.value.margins.bottom == m.bottom
      && r.value.margins.pad == m.pad && r.value.margins.frameHeight == m.frameHeight
    ensures width == FrameWidth ==> r == Ok(Placed(m.frameWidth, m))
    ensures width != FrameWidth ==> (r.Ok? <==> AsNumber(width).Some?)
    ensures width != FrameWidth && r.Ok? ==>
      var w := AsNumber(width).value;
      && (w == m.frameWidth ==> r.value == Placed(w, m))
      && (w != m.frameWidth && w > 0.0 ==>
            && r.value.coord == w
            && r.value.margins.right == m.right
            && (x + w > m.left ==>
                  && r.value.margins.left == x + w
                  && r.value.margins.frameWidth == (if w < m.frameWidth then m.frameWidth - w else m.frameWidth))
            && (x + w <= m.left ==> r.value.margins == m))
      && (w != m.frameWidth && w <= 0.0 ==>
            && r.value.coord == Abs(w)
            && r.value.margins.left == m.left
            && r.value.margins.right == m.right + Abs(w)
            && r.value.margins.frameWidth == m.frameWidth - Abs(w))
  {
    var w :- if width == FrameWidth then Ok(m.frameWidth) else Number(Some(width), "box_width");
    if w != m.frameWidth then
      if w > 0.0 then
        if x + w > m.left then
          var m1 := m.(left := x + w);
          Ok(Placed(w, if w < m.frameWidth then m1.(frameWidth := m.frameWidth - w) else m1))
        else Ok(Placed(w, m))
      else
        Ok(Placed(Abs(w), m.(right := m.right + Abs(w), frameWidth := m.frameWidth - Abs(w))))
    else Ok(Placed(w, m))
  }

  /** A `box_height` of `left_margin` or `right_margin` stands for the
      current frame height. */
  function EffectiveHeight(m: Margins, height: Value): Value
  {
    if height == LeftMargin || height == RightMargin then Num(m.frameHeight) else height
  }

  /** `_box_from_label`: one box over the margin state. */
  function BoxStep(page: Page, m: Margins, box: Subsection): (r: Result<BoxOutcome>)
    requires Positive(page)
    ensures "box_frame" !in box.options ==> r == Err(MissingStyle("box_frame"))
    ensures "box_frame" in box.options && !Truthy(Some(box.options["box_frame"])) ==>
      r == Ok(BoxOutcome(m, None))
    ensures r.Ok? ==> (r.value.placement.Some? <==> Truthy(Some(box.options["box_frame"])))
    ensures r.Ok? && r.value.placement.Some? ==>
      && "box_height" in box.options
      && r.value.placement.value.configuredHeight == box.options["box_height"]
      && r.value.placement.value.axes.height >= 0.0
    ensures r.Ok? ==> r.value.margins.pad == m.pad
    ensures r.Ok? && HeightInvariant(page, m) ==> HeightInvariant(page, r.value.margins)
  {
    var o := box.options;
    if "box_frame" !in o then Err(MissingStyle("box_frame"))
    else if !Truthy(Some(o["box_frame"])) then Ok(BoxOutcome(m, None))
    else if "box_position" !in o then Err(MissingStyle("box_position"))
    else
      var x0 :- Item(Some(o["box_position"]), 0, "box_position");
      var y0 :- Item(Some(o["box_position"]), 1, "box_position");
      if "box_width" !in o then Err(MissingStyle("box_width"))
      else if "box_height" !in o then Err(MissingStyle("box_height"))
      else
        var width := o["box_width"];
        var height := EffectiveHeight(m, o["box_height"]);
        var x :- AnchorX(page, m, x0, width);
        var v :- AnchorY(page, m, y0, width, height);
        var hz :- AnchorWidth(v.margins, x, width);
        var h :- Number(Some(height), "box_height");
        var axes := Rect(x / page.width, v.coord / page.height, hz.coord / page.width,
                         Abs(h / page.height));
        Ok(BoxOutcome(hz.margins, Some(BoxPlacement(axes, o["box_height"]))))
  }

  /** A framed box whose options are all present, with a position list. */
  predicate FramedBox(box: Subsection)
  {
    var o := box.options;
    && "box_frame" in o && Truthy(Some(o["box_frame"]))
    && "box_position" in o && o["box_position"].List? && |o["box_position"].items| >= 2
    && "box_width" in o && "box_height" in o
  }

  function PositionOf(box: Subsection, i: nat): Value
    requires FramedBox(box) && i < 2
  {
    box.options["box_position"].items[i]
  }

  /** A box anchored at `top_margin` with a negative height pushes the top
      margin down by |h| and shrinks the frame height by |h|, and its lower
      edge sits on the new top margin; a non-negative height leaves the
      vertical margins alone. */
  lemma TopAnchoredBox(page: Page, m: Margins, box: Subsection, h: real)
    requires Positive(page) && FramedBox(box)
    requires PositionOf(box, 1) == TopMargin && box.options["box_height"] == Num(h)
    requires BoxStep(page, m, box).Ok?
    ensures var r := BoxStep(page, m, box).value;
      && (h < 0.0 ==>
            && r.margins.top == m.top - h
            && r.margins.frameHeight == m.frameHeight + h
            && r.placement.value.axes.y == (page.height - m.top + h) / page.height)
      && (h >= 0.0 ==>
            && r.margins.top == m.top && r.margins.bottom == m.bottom
            && r.margins.frameHeight == m.frameHeight
            && r.placement.value.axes.y == (page.height - m.top) / page.height)
  {
  }

  /** A box anchored at `bottom_margin` with positive height and width
      `frame_width` raises the bottom margin by h and shrinks the frame
      height by h; its lower edge is the old bottom margin. */
  lemma BottomAnchoredBox(page: Page, m: Margins, box: Subsection, h: real)
    requires Positive(page) && FramedBox(box)
    requires PositionOf(box, 1) == BottomMargin && box.options["box_height"] == Num(h)
    requires h > 0.0 && box.options["box_width"] == FrameWidth
    requires BoxStep(page, m, box).Ok?
    ensures var r := BoxStep(page, m, box).value;
      && r.margins.bottom == m.bottom + h
      && r.margins.frameHeight == m.frameHeight - h
      && r.margins.top == m.top
      && r.margins.left == m.left && r.margins.right == m.right
      && r.margins.frameWidth == m.frameWidth
      && r.placement.value.axes.y == m.bottom / page.height
  {
  }

  /** A positive width anchored at `left_margin` moves the left margin out
      by the width; the frame shrinks by the width only when the width is
      below the frame width. */
  lemma LeftAnchoredBox(page: Page, m: Margins, box: Subsection, w: real)
    requires Positive(page) && FramedBox(box)
    requires PositionOf(box, 0) == LeftMargin && box.options["box_width"] == Num(w)
    requires w > 0.0 && w != m.frameWidth
    requires BoxStep(page, m, box).Ok?
    ensures var r := BoxStep(page, m, box).value;
      && r.margins.left == m.left + w
      && r.margins.right == m.right
      && r.margins.frameWidth == (if w < m.frameWidth then m.frameWidth - w else m.frameWidth)
      && r.placement.value.axes.x == m.left / page.width
      && r.placement.value.axes.width == w / page.width
  {
  }

  /** A non-positive width, whatever the anchor, widens the right margin by
      |w| and shrinks the frame width by |w|. */
  lemma NegativeWidthBox(page: Page, m: Margins, box: Subsection, w: real)
    requires Positive(page) && FramedBox(box)
    requires box.options["box_width"] == Num(w) && w <= 0.0 && w != m.frameWidth
    requires BoxStep(page, m, box).Ok?
    ensures var r := BoxStep(page, m, box).value;
      && r.margins.right == m.right - w
      && r.margins.frameWidth == m.frameWidth + w
      && r.margins.left == m.left
      && r.placement.value.axes.width == -w / page.width
  {
  }

  /** The drawn rectangle is the box's corner, width and |height| over the
      page sides; its height is never negative, and the returned height is
      the configured one. */
  lemma BoxRectangle(page: Page, m: Margins, box: Subsection)
    requires Positive(page) && FramedBox(box)
    requires AsNumber(EffectiveHeight(m, box.options["box_height"])).Some?
    requires BoxStep(page, m, box).Ok?
    ensures var p := BoxStep(page, m, box).value.placement;
      && p.Some?
      && p.value.axes.height == Abs(AsNumber(EffectiveHeight(m, box.options["box_height"])).value) / page.height
      && p.value.axes.height >= 0.0
      && p.value.configuredHeight == box.options["box_height"]
  {
    AbsOver(AsNumber(EffectiveHeight(m, box.options["box_height"])).value, page.height);
  }

  lemma AbsOver(h: real, d: real)
    requires d > 0.0
    ensures Abs(h / d) == Abs(h) / d
  {
    if h < 0.0 {
      assert h / d < 0.0;
    } else {
      assert h / d >= 0.0;
    }
  }

  /** A box anchored at `left_margin` whose width is `frame_width`, below
      the frame width, or non-positive keeps the whole frame invariant. */
  lemma LeftAnchoredKeepsFrame(page: Page, m: Margins, box: Subsection)
    requires Positive(page) && FramedBox(box) && FrameInvariant(page, m)
    requires PositionOf(box, 0) == LeftMargin
    requires var w := box.options["box_width"];
      w == FrameWidth
      || (AsNumber(w).Some? && (AsNumber(w).value < m.frameWidth || AsNumber(w).value <= 0.0))
    requires BoxStep(page, m, box).Ok?
    ensures FrameInvariant(page, BoxStep(page, m, box).value.margins)
  {
  }

  /** The asymmetry the horizontal update carries: a box at an absolute x
      that is not the left margin moves the left margin to its right end but
      shrinks the frame by its width only, so the width invariant breaks. */
  lemma AbsoluteAnchorBreaksWidth()
    ensures var page := Page(10.0, 10.0);
      var m := Margins(1.0, 1.0, 1.0, 1.0, 0.0, 8.0, 8.0);
      var r := BoxStep(page, m, FramedAt(Num(0.0), 2.0));
      && FrameInvariant(page, m)
      && r.Ok?
      && r.value.margins.left == 2.0 && r.value.margins.frameWidth == 6.0
      && !WidthInvariant(page, r.value.margins)
  {
    var page := Page(10.0, 10.0);
    var m := Margins(1.0, 1.0, 1.0, 1.0, 0.0, 8.0, 8.0);
    var box := FramedAt(Num(0.0), 2.0);
    assert FramedBox(box);
    var r := BoxStep(page, m, box);
    assert r.Ok? && r.value.margins.left == 2.0;
  }

  function Placements(p: Option<BoxPlacement>): seq<BoxPlacement>
  {
    if p.Some? then [p.value] else []
  }

  datatype BoxesDrawn = BoxesDrawn(margins: Margins, placed: seq<BoxPlacement>)

  /** The loop over the Boxes section: each box sees the margins the boxes
      before it left. */
  function PlaceBoxes(page: Page, m: Margins, boxes: Section): (r: Result<BoxesDrawn>)
    requires Positive(page)
    ensures r.Ok? ==> |r.value.placed| <= |boxes|
    ensures r.Ok? ==> r.value.margins.pad == m.pad
    decreases |boxes|
  {
    if boxes == [] then Ok(BoxesDrawn(m, []))
    else
      var first :- BoxStep(page, m, boxes[0].1);
      var rest :- PlaceBoxes(page, first.margins, boxes[1..]);
      Ok(BoxesDrawn(rest.margins, Placements(first.placement) + rest.placed))
  }

  /** Continue a fold that placed some boxes with the boxes of `b`. */
  function Chain(page: Page, ra: Result<BoxesDrawn>, b: Section): Result<BoxesDrawn>
    requires Positive(page)
  {
    var x :- ra;
    var rb :- PlaceBoxes(page, x.margins, b);
    Ok(BoxesDrawn(rb.margins, x.placed + rb.placed))
  }

  /** The fold is strictly sequential: placing `a + b` is placing `a`, then
      placing `b` from the margins `a` left. */
  lemma {:induction false} PlaceBoxesAppend(page: Page, m: Margins, a: Section, b: Section)
    requires Positive(page)
    ensures PlaceBoxes(page, m, a + b) == Chain(page, PlaceBoxes(page, m, a), b)
    decreases |a|
  {
    if a == [] {
      assert a + b == b;
      assert PlaceBoxes(page, m, a) == Ok(BoxesDrawn(m, []));
      match PlaceBoxes(page, m, b)
      case Err(e) =>
      case Ok(rb) => assert [] + rb.placed == rb.placed;
    } else {
      assert (a + b)[0] == a[0];
      assert (a + b)[1..] == a[1..] + b;
      match BoxStep(page, m, a[0].1)
      case Err(e) =>
      case Ok(first) =>
        PlaceBoxesAppend(page, first.margins, a[1..], b);
        ChainStep(page, first.placement, PlaceBoxes(page, first.margins, a[1..]), b);
    }
  }

  /** Putting one more placement in front commutes with continuing the
      fold. */
  lemma ChainStep(page: Page, p: Option<BoxPlacement>, ra: Result<BoxesDrawn>, b: Section)
    requires Positive(page)
    ensures
      (match Chain(page, ra, b)
       case Err(e) => Err(e)
       case Ok(r) => Ok(BoxesDrawn(r.margins, Placements(p) + r.placed)))
      == Chain(page, match ra case Err(e) => Err(e) case Ok(x) => Ok(BoxesDrawn(x.margins, Placements(p) + x.placed)), b)
  {
    if ra.Ok? {
      match PlaceBoxes(page, ra.value.margins, b)
      case Err(e) =>
      case Ok(rb) =>
        assert Placements(p) + (ra.value.placed + rb.placed) == (Placements(p) + ra.value.placed) + rb.placed;
    }
  }

  /** Whatever boxes are declared, the frame height stays the page height
      less the top and bottom margins. */
  lemma {:induction false} PlaceBoxesKeepHeight(page: Page, m: Margins, boxes: Section)
    requires Positive(page) && HeightInvariant(page, m)
    requires PlaceBoxes(page, m, boxes).Ok?
    ensures HeightInvariant(page, PlaceBoxes(page, m, boxes).value.margins)
    decreases |boxes|
  {
    if boxes != [] {
      var first := BoxStep(page, m, boxes[0].1).value;
      PlaceBoxesKeepHeight(page, first.margins, boxes[1..]);
    }
  }

  function FramedAt(x: Value, w: real): Subsection
  {
    Subsection(map["box_frame" := Flag(true), "box_position" := List([x, Num(0.0)]),
                   "box_width" := Num(w), "box_height" := Num(1.0)], map[])
  }

  /** Two boxes: the second sees the margins the first left. */
  lemma PlaceTwo(page: Page, m: Margins, p: (string, Subsection), q: (string, Subsection))
    requires Positive(page)
    requires BoxStep(page, m, p.1).Ok?
    requires BoxStep(page, BoxStep(page, m, p.1).value.margins, q.1).Ok?
    ensures PlaceBoxes(page, m, [p, q]).Ok?
    ensures PlaceBoxes(page, m, [p, q]).value.margins
         == BoxStep(page, BoxStep(page, m, p.1).value.margins, q.1).value.margins
  {
    var m1 := BoxStep(page, m, p.1).value.margins;
    var m2 := BoxStep(page, m1, q.1).value.margins;
    assert [p, q][1..] == [q];
    assert [q][1..] == [];
    assert PlaceBoxes(page, m2, []) == Ok(BoxesDrawn(m2, []));
  }

  /** The box at x = 0 of width 2: its right end becomes the left margin
      when it passes it. */
  lemma StepA(page: Page, m: Margins)
    requires page == Page(10.0, 10.0) && m.frameWidth != 2.0
    ensures BoxStep(page, m, FramedAt(Num(0.0), 2.0)).Ok?
    ensures BoxStep(page, m, FramedAt(Num(0.0), 2.0)).value.margins.left == (if 2.0 > m.left then 2.0 else m.left)
    ensures BoxStep(page, m, FramedAt(Num(0.0), 2.0)).value.margins.frameWidth
         == (if 2.0 > m.left && 2.0 < m.frameWidth then m.frameWidth - 2.0 else m.frameWidth)
  {
    var box := FramedAt(Num(0.0), 2.0);
    assert FramedBox(box);
    assert AnchorX(page, m, Num(0.0), Num(2.0)) == Ok(0.0);
    var v := AnchorY(page, m, Num(0.0), Num(2.0), Num(1.0));
    assert v == Ok(Placed(0.0, m));
    var hz := AnchorWidth(m, 0.0, Num(2.0));
    assert hz.Ok? && hz.value.margins.left == (if 2.0 > m.left then 2.0 else m.left);
    assert hz.value.margins.frameWidth == (if 2.0 > m.left && 2.0 < m.frameWidth then m.frameWidth - 2.0 else m.frameWidth);
  }

  /** The box of width 1 at the left margin moves the margin out by 1. */
  lemma StepB(page: Page, m: Margins)
    requires page == Page(10.0, 10.0) && m.frameWidth != 1.0
    ensures BoxStep(page, m, FramedAt(LeftMargin, 1.0)).Ok?
    ensures BoxStep(page, m, FramedAt(LeftMargin, 1.0)).value.margins.left == m.left + 1.0
    ensures BoxStep(page, m, FramedAt(LeftMargin, 1.0)).value.margins.frameWidth
         == (if 1.0 < m.frameWidth then m.frameWidth - 1.0 else m.frameWidth)
  {
    var box := FramedAt(LeftMargin, 1.0);
    assert FramedBox(box);
    assert AnchorX(page, m, LeftMargin, Num(1.0)) == Ok(m.left);
    var v := AnchorY(page, m, Num(0.0), Num(1.0), Num(1.0));
    assert v == Ok(Placed(0.0, m));
    var hz := AnchorWidth(m, m.left, Num(1.0));
    assert hz.Ok? && hz.value.margins.left == m.left + 1.0;
    assert hz.value.margins.frameWidth == (if 1.0 < m.frameWidth then m.frameWidth - 1.0 else m.frameWidth);
  }

  /** Declaration order matters: a box at x = 0 of width 2 and a box of
      width 1 anchored at `left_margin` leave different left margins
      depending on which comes first. */
  lemma BoxOrderMatters()
    ensures var page := Page(10.0, 10.0);
      var m := Margins(1.0, 1.0, 1.0, 1.0, 0.0, 8.0, 8.0);
      var a := FramedAt(Num(0.0), 2.0);
      var b := FramedAt(LeftMargin, 1.0);
      && PlaceBoxes(page, m, [("a", a), ("b", b)]).Ok?
      && PlaceBoxes(page, m, [("b", b), ("a", a)]).Ok?
      && PlaceBoxes(page, m, [("a", a), ("b", b)]).value.margins.left == 3.0
      && PlaceBoxes(page, m, [("b", b), ("a", a)]).value.margins.left == 2.0
  {
    var page := Page(10.0, 10.0);
    var m := Margins(1.0, 1.0, 1.0, 1.0, 0.0, 8.0, 8.0);
    var a := FramedAt(Num(0.0), 2.0);
    var b := FramedAt(LeftMargin, 1.0);
    var (ma, mb) := (BoxStep(page, m, a), BoxStep(page, m, b));
    StepA(page, m);
    StepB(page, m);
    StepA(page, mb.value.margins);
    StepB(page, ma.value.margins);
    PlaceTwo(page, m, ("a", a), ("b", b));
    PlaceTwo(page, m, ("b", b), ("a", a));
  }
}
