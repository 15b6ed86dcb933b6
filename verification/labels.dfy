/** Where text, lines and images land: `_text_from_label`, `_line_from_label`
    and the anchor part of `_image_from_label`. Positions are resolved in
    inches and then divided by the page sides. */
module Labels {
  import opened Results
  import opened LayoutConfig
  import opened Frame

  datatype Point = Point(x: real, y: real)

  /** A text label: its anchor in figure fractions, the text and its style.
      Alignment, colour and size are passed through as configured. */
  datatype TextPlacement = TextPlacement(
    anchor: Point, text: Value, fontStyle: Value, rotation: Value,
    alignment: Option<Value>, color: Option<Value>, fontSize: Option<Value>)

  /** A line from `start` to `end`, in figure fractions. */
  datatype Segment = Segment(start: Point, end: Point)

  const LeftMargin: Value := Word("left_margin")
  const RightMargin: Value := Word("right_margin")
  const TopMargin: Value := Word("top_margin")
  const BottomMargin: Value := Word("bottom_margin")

  /** The x token `right_margin` is the right margin's edge, `left_margin`
      the left margin's edge; anything else must be a number. */
  function ResolveX(page: Page, m: Margins, x0: Value, key: string): (r: Result<real>)
    ensures x0 == RightMargin ==> r == Ok(page.width - m.right)
    ensures x0 == LeftMargin ==> r == Ok(m.left)
    ensures x0 != RightMargin && x0 != LeftMargin ==> r == Coordinate(x0, key)
  {
    if x0 == RightMargin then Ok(page.width - m.right)
    else if x0 == LeftMargin then Ok(m.left)
    else Coordinate(x0, key)
  }

  /** The y token `top_margin` is the top margin's edge, `bottom_margin` the
      bottom margin's edge; anything else must be a number. */
  function ResolveY(page: Page, m: Margins, y0: Value, key: string): (r: Result<real>)
    ensures y0 == TopMargin ==> r == Ok(page.height - m.top)
    ensures y0 == BottomMargin ==> r == Ok(m.bottom)
    ensures y0 != TopMargin && y0 != BottomMargin ==> r == Coordinate(y0, key)
  {
    if y0 == TopMargin then Ok(page.height - m.top)
    else if y0 == BottomMargin then Ok(m.bottom)
    else Coordinate(y0, key)
  }

  /** The offset pair, or the error reading it raises. */
  function Offset(offset: Option<Value>, key: string): (r: Result<Point>)
    requires offset.Some?
    ensures r.Ok? <==>
      && offset.value.List? && |offset.value.items| >= 2
      && AsNumber(offset.value.items[0]).Some? && AsNumber(offset.value.items[1]).Some?
    ensures r.Ok? ==>
      r.value == Point(AsNumber(offset.value.items[0]).value, AsNumber(offset.value.items[1]).value)
  {
    var ox :- Item(offset, 0, key);
    var dx :- Coordinate(ox, key);
    var oy :- Item(offset, 1, key);
    var dy :- Coordinate(oy, key);
    Ok(Point(dx, dy))
  }

  /** The absolute (inch) anchor of a text label: tokens are substituted
      per axis first, then the optional offset is added. */
  function TextAnchor(page: Page, m: Margins, pos: Option<Value>, offset: Option<Value>): (r: Result<Point>)
    ensures r.Ok? ==> pos.Some? && pos.value.List? && |pos.value.items| >= 2
    ensures r.Ok? ==>
      && ResolveX(page, m, pos.value.items[0], "text_position").Ok?
      && ResolveY(page, m, pos.value.items[1], "text_position").Ok?
      && var base := Point(ResolveX(page, m, pos.value.items[0], "text_position").value,
                           ResolveY(page, m, pos.value.items[1], "text_position").value);
         && (offset.None? ==> r.value == base)
         && (offset.Some? ==>
               && Offset(offset, "text_position_offset").Ok?
               && var d := Offset(offset, "text_position_offset").value;
                  r.value == Point(base.x + d.x, base.y + d.y))
    ensures pos.Some? && pos.value.List? && |pos.value.items| >= 2
      && ResolveX(page, m, pos.value.items[0], "text_position").Ok?
      && ResolveY(page, m, pos.value.items[1], "text_position").Ok?
      && (offset.Some? ==> Offset(offset, "text_position_offset").Ok?)
      ==> r.Ok?
  {
    var x0 :- Item(pos, 0, "text_position");
    var y0 :- Item(pos, 1, "text_position");
    var x :- ResolveX(page, m, x0, "text_position");
    var y :- ResolveY(page, m, y0, "text_position");
    if offset.None? then Ok(Point(x, y))
    else
      var d :- Offset(offset, "text_position_offset");
      Ok(Point(x + d.x, y + d.y))
  }

  function Normalize(page: Page, p: Point): Point
    requires Positive(page)
  {
    Point(p.x / page.width, p.y / page.height)
  }

  function OrDefault(v: Option<Value>, d: Value): Value
  {
    if v.Some? then v.value else d
  }

  /** `_text_from_label`: the anchor normalised by the page sides; a missing
      `fontstyle` is "normal" and a missing `rotation` is 0. */
  function TextFromLabel(cfg: Layout, section: string, entry: string, paper: string, orientation: string,
                         page: Page, m: Margins, text: Value): (r: Result<TextPlacement>)
    requires Positive(page)
    ensures var pos := ParseOption(cfg, section, entry, "text_position", paper, orientation);
      var off := ParseOption(cfg, section, entry, "text_position_offset", paper, orientation);
      && (r.Ok? <==> TextAnchor(page, m, pos, off).Ok?)
      && (r.Ok? ==>
            && r.value.anchor == Normalize(page, TextAnchor(page, m, pos, off).value)
            && r.value.text == text)
    ensures r.Ok? ==>
      var style := ParseOption(cfg, section, entry, "fontstyle", paper, orientation);
      var rotation := ParseOption(cfg, section, entry, "rotation", paper, orientation);
      && (style.None? ==> r.value.fontStyle == Word("normal"))
      && (style.Some? ==> r.value.fontStyle == style.value)
      && (rotation.None? ==> r.value.rotation == Num(0.0))
      && (rotation.Some? ==> r.value.rotation == rotation.value)
  {
    var pos := ParseOption(cfg, section, entry, "text_position", paper, orientation);
    var off := ParseOption(cfg, section, entry, "text_position_offset", paper, orientation);
    var p :- TextAnchor(page, m, pos, off);
    Ok(TextPlacement(
      Normalize(page, p), text,
      OrDefault(ParseOption(cfg, section, entry, "fontstyle", paper, orientation), Word("normal")),
      OrDefault(ParseOption(cfg, section, entry, "rotation", paper, orientation), Num(0.0)),
      ParseOption(cfg, section, entry, "horizontalalignment", paper, orientation),
      ParseOption(cfg, section, entry, "fontcolor", paper, orientation),
      ParseOption(cfg, section, entry, "fontsize", paper, orientation)))
  }

  /** A text label at (`right_margin`, `top_margin`) with offset (dx, dy)
      is drawn at (W - right + dx, H - top + dy) over the page sides. */
  lemma CornerText(page: Page, m: Margins, dx: real, dy: real)
    requires Positive(page)
    ensures TextAnchor(page, m, Some(List([RightMargin, TopMargin])), Some(List([Num(dx), Num(dy)])))
      == Ok(Point(page.width - m.right + dx, page.height - m.top + dy))
  {
  }

  /** A point plus an offset read from the same kind of list. */
  function Shifted(pos: Option<Value>, d: Point, key: string): (r: Result<Point>)
    ensures r.Ok? <==>
      && pos.Some? && pos.value.List? && |pos.value.items| >= 2
      && AsNumber(pos.value.items[0]).Some? && AsNumber(pos.value.items[1]).Some?
    ensures r.Ok? ==>
      r.value == Point(AsNumber(pos.value.items[0]).value + d.x, AsNumber(pos.value.items[1]).value + d.y)
  {
    var a0 :- Item(pos, 0, key);
    var x :- Coordinate(a0, key);
    var a1 :- Item(pos, 1, key);
    var y :- Coordinate(a1, key);
    Ok(Point(x + d.x, y + d.y))
  }

  /** The offset a line uses: present only when the Lines entry declares
      `image_position_offset`, and then read from the Images entry of the
      same name. */
  function LineOffset(cfg: Layout, entry: string, paper: string, orientation: string): (r: Result<Point>)
    ensures ParseOption(cfg, "Lines", entry, "image_position_offset", paper, orientation).None? ==>
      r == Ok(Point(0.0, 0.0))
    ensures ParseOption(cfg, "Lines", entry, "image_position_offset", paper, orientation).Some? ==>
      var images := ParseOption(cfg, "Images", entry, "image_position_offset", paper, orientation);
      && (images.None? ==> r.Err?)
      && (images.Some? ==> r == Offset(images, "image_position_offset"))
  {
    if ParseOption(cfg, "Lines", entry, "image_position_offset", paper, orientation).None? then
      Ok(Point(0.0, 0.0))
    else
      var images := ParseOption(cfg, "Images", entry, "image_position_offset", paper, orientation);
      if images.None? then Err(InvalidPosition("image_position_offset"))
      else Offset(images, "image_position_offset")
  }

  /** `_line_from_label`: both endpoints move by the same offset, so the
      segment keeps its direction and length. */
  function LineFromLabel(cfg: Layout, entry: string, paper: string, orientation: string, page: Page)
    : (r: Result<Segment>)
    requires Positive(page)
    ensures r.Ok? <==>
      && LineOffset(cfg, entry, paper, orientation).Ok?
      && Shifted(ParseOption(cfg, "Lines", entry, "line_position_start", paper, orientation),
                 LineOffset(cfg, entry, paper, orientation).value, "line_position_start").Ok?
      && Shifted(ParseOption(cfg, "Lines", entry, "line_position_end", paper, orientation),
                 LineOffset(cfg, entry, paper, orientation).value, "line_position_end").Ok?
    ensures r.Ok? ==>
      var d := LineOffset(cfg, entry, paper, orientation).value;
      r.value == Segment(
        Normalize(page, Shifted(ParseOption(cfg, "Lines", entry, "line_position_start", paper, orientation), d,
                                "line_position_start").value),
        Normalize(page, Shifted(ParseOption(cfg, "Lines", entry, "line_position_end", paper, orientation), d,
                                "line_position_end").value))
  {
    var d :- LineOffset(cfg, entry, paper, orientation);
    var p :- Shifted(ParseOption(cfg, "Lines", entry, "line_position_start", paper, orientation), d,
                     "line_position_start");
    var q :- Shifted(ParseOption(cfg, "Lines", entry, "line_position_end", paper, orientation), d,
                     "line_position_end");
    Ok(Segment(Normalize(page, p), Normalize(page, q)))
  }

  /** The anchor part of `_image_from_label`: the lower-left corner of the
      image, present only when an image path is configured. The offset is
      applied (and can fail) even when there is no path. */
  function ImageFromLabel(cfg: Layout, entry: string, paper: string, orientation: string, page: Page)
    : (r: Result<Option<Point>>)
    requires Positive(page)
    ensures var path := ParseOption(cfg, "Images", entry, "image_path", paper, orientation);
      var off := ParseOption(cfg, "Images", entry, "image_position_offset", paper, orientation);
      && (off.None? && !Truthy(path) ==> r == Ok(None))
      && (r.Ok? ==> (r.value.Some? <==> Truthy(path)))
    ensures var path := ParseOption(cfg, "Images", entry, "image_path", paper, orientation);
      var pos := ParseOption(cfg, "Images", entry, "image_position", paper, orientation);
      var off := ParseOption(cfg, "Images", entry, "image_position_offset", paper, orientation);
      r.Ok? <==>
        && (off.None? ==> (Truthy(path) ==> Shifted(pos, Point(0.0, 0.0), "image_position").Ok?))
        && (off.Some? ==> Offset(off, "image_position_offset").Ok?
                          && Shifted(pos, Offset(off, "image_position_offset").value, "image_position").Ok?)
    ensures r.Ok? && r.value.Some? ==>
      var pos := ParseOption(cfg, "Images", entry, "image_position", paper, orientation);
      var off := ParseOption(cfg, "Images", entry, "image_position_offset", paper, orientation);
      && (off.Some? ==> Offset(off, "image_position_offset").Ok?)
      && var d := if off.None? then Point(0.0, 0.0) else Offset(off, "image_position_offset").value;
      && Shifted(pos, d, "image_position").Ok?
      && r.value.value == Normalize(page, Shifted(pos, d, "image_position").value)
  {
    var pos := ParseOption(cfg, "Images", entry, "image_position", paper, orientation);
    var path := ParseOption(cfg, "Images", entry, "image_path", paper, orientation);
    var off := ParseOption(cfg, "Images", entry, "image_position_offset", paper, orientation);
    if off.None? then
      if Truthy(path) then
        var p :- Shifted(pos, Point(0.0, 0.0), "image_position");
        Ok(Some(Normalize(page, p)))
      else Ok(None)
    else
      var d :- Offset(off, "image_position_offset");
      var p :- Shifted(pos, d, "image_position");
      if Truthy(path) then Ok(Some(Normalize(page, p))) else Ok(None)
  }

  /** Moving both endpoints by the same offset keeps the segment's
      direction and length: only the configured endpoints decide them. */
  lemma LineKeepsVector(cfg: Layout, entry: string, paper: string, orientation: string, page: Page)
    requires Positive(page)
    requires LineFromLabel(cfg, entry, paper, orientation, page).Ok?
    ensures var r := LineFromLabel(cfg, entry, paper, orientation, page).value;
      var s := ParseOption(cfg, "Lines", entry, "line_position_start", paper, orientation).value.items;
      var e := ParseOption(cfg, "Lines", entry, "line_position_end", paper, orientation).value.items;
      && r.end.x - r.start.x == (AsNumber(e[0]).value - AsNumber(s[0]).value) / page.width
      && r.end.y - r.start.y == (AsNumber(e[1]).value - AsNumber(s[1]).value) / page.height
  {
    var d := LineOffset(cfg, entry, paper, orientation).value;
    var s := ParseOption(cfg, "Lines", entry, "line_position_start", paper, orientation).value.items;
    var e := ParseOption(cfg, "Lines", entry, "line_position_end", paper, orientation).value.items;
    var s0, s1 := AsNumber(s[0]).value, AsNumber(s[1]).value;
    var e0, e1 := AsNumber(e[0]).value, AsNumber(e[1]).value;
    DivDifference(e0 + d.x, s0 + d.x, page.width);
    DivDifference(e1 + d.y, s1 + d.y, page.height);
  }

  lemma DivDifference(a: real, b: real, w: real)
    requires w > 0.0
    ensures a / w - b / w == (a - b) / w
  {
  }
}
