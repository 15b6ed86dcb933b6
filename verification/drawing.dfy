/** The numbers `draw_page` hands to the plotting library: the figure size,
    the source-path anchor, the boxes, the margin-frame rectangle and the
    subplot area, and one result per Text, Images, Lines and Watermark
    entry. A margin-frame page ends by re-reading the layout. */
module Drawing {
  import opened Results
  import opened LayoutConfig
  import opened Frame
  import opened Boxes
  import opened Labels

  /** The state a drawable pager keeps: a positive page and a positive unit
      factor (1 for inches, the millimetre factor otherwise). */
  predicate Drawable(s: Sheet)
  {
    Positive(s.page) && s.conversion > 0.0
  }

  /** The subplot area, as figure fractions of each edge. */
  datatype Area = Area(left: real, right: real, bottom: real, top: real)

  /** The margin-frame axes and the subplot area inside it. */
  datatype FrameLayout = FrameLayout(axes: Rect, area: Area)

  datatype DrawOutput = DrawOutput(
    figureSize: Page,
    sourceAnchor: Option<Point>,
    boxes: seq<BoxPlacement>,
    frame: Option<FrameLayout>,
    texts: seq<Option<TextPlacement>>,
    images: seq<Option<Point>>,
    lines: seq<Segment>,
    watermarks: seq<Option<TextPlacement>>)

  /** The margin frame and the subplot area for the given margins. The
      axes always reach from the left and bottom margins to the right and
      top margins, and the subplot area always starts the pad inside them
      and spans the stored frame less two pads. Only where the stored frame
      agrees with the page less the margins do the two rectangles line up:
      the axes span the frame, and the area is the axes inset by the pad. */
  function FrameOf(page: Page, m: Margins): (f: FrameLayout)
    requires Positive(page)
    ensures f.axes.x == m.left / page.width && f.axes.y == m.bottom / page.height
    ensures f.axes.x + f.axes.width == 1.0 - m.right / page.width
    ensures f.axes.y + f.axes.height == 1.0 - m.top / page.height
    ensures f.area.left == (m.left + m.pad) / page.width
    ensures f.area.bottom == (m.bottom + m.pad) / page.height
    ensures f.area.right - f.area.left == (m.frameWidth - 2.0 * m.pad) / page.width
    ensures f.area.top - f.area.bottom == (m.frameHeight - 2.0 * m.pad) / page.height
    ensures WidthInvariant(page, m) ==>
      && f.axes.width == m.frameWidth / page.width
      && f.area.right == 1.0 - (m.right + m.pad) / page.width
    ensures HeightInvariant(page, m) ==>
      && f.axes.height == m.frameHeight / page.height
      && f.area.top == 1.0 - (m.top + m.pad) / page.height
  {
    var (pw, ph) := (page.width, page.height);
    var f := FrameLayout(
      Rect(m.left / pw, m.bottom / ph, (pw - m.left - m.right) / pw, (ph - m.top - m.bottom) / ph),
      Area((m.left + m.pad) / pw, (m.frameWidth + m.left - m.pad) / pw,
           (m.bottom + m.pad) / ph, (m.frameHeight + m.bottom - m.pad) / ph));
    FractionSum(m.left, pw - m.left - m.right, pw);
    FractionRest(pw - m.right, m.right, pw);
    FractionSum(m.bottom, ph - m.top - m.bottom, ph);
    FractionRest(ph - m.top, m.top, ph);
    FractionDiff(m.frameWidth + m.left - m.pad, m.left + m.pad, pw);
    FractionDiff(m.frameHeight + m.bottom - m.pad, m.bottom + m.pad, ph);
    if WidthInvariant(page, m) then
      FractionRest(m.frameWidth + m.left - m.pad, m.right + m.pad, pw);
      if HeightInvariant(page, m) then
        FractionRest(m.frameHeight + m.bottom - m.pad, m.top + m.pad, ph);
        f
      else f
    else if HeightInvariant(page, m) then
      FractionRest(m.frameHeight + m.bottom - m.pad, m.top + m.pad, ph);
      f
    else f
  }

  lemma FractionDiff(a: real, b: real, w: real)
    requires w > 0.0
    ensures a / w - b / w == (a - b) / w
  {
    FractionSum(a - b, b, w);
  }

  lemma FractionSum(a: real, b: real, w: real)
    requires w > 0.0
    ensures a / w + b / w == (a + b) / w
  {
  }

  lemma FractionRest(a: real, b: real, w: real)
    requires w > 0.0 && a + b == w
    ensures a / w == 1.0 - b / w
  {
    FractionSum(a, b, w);
    assert (a + b) / w == w / w == 1.0;
  }

  /** The caller-path label, placed at the configured position over the
      page sides; a position with fewer than two numbers cannot be indexed. */
  function SourceAnchor(s: Sheet): (r: Result<Option<Point>>)
    requires Positive(s.page)
    ensures !s.sourcePath ==> r == Ok(None)
    ensures s.sourcePath ==> (r.Ok? <==> |s.sourcePathPosition| >= 2)
    ensures s.sourcePath && r.Ok? ==>
      r.value == Some(Point(s.sourcePathPosition[0] / s.page.width, s.sourcePathPosition[1] / s.page.height))
  {
    if !s.sourcePath then Ok(None)
    else if |s.sourcePathPosition| < 2 then Err(InvalidPosition("source_path_position"))
    else Ok(Some(Point(s.sourcePathPosition[0] / s.page.width, s.sourcePathPosition[1] / s.page.height)))
  }

  /** `any(config["Boxes"].keys())`: some entry has a non-empty name. */
  predicate AnyKey(sec: Section)
  {
    exists i :: 0 <= i < |sec| && sec[i].0 != ""
  }

  /** The boxes of a margin-frame page: the fold over the Boxes section when
      any entry has a non-empty name, nothing otherwise. */
  function DrawBoxes(cfg: Layout, page: Page, m: Margins): (r: Result<BoxesDrawn>)
    requires Positive(page)
    ensures "Boxes" !in cfg ==> r == Err(MissingSection("Boxes"))
    ensures "Boxes" in cfg && AnyKey(cfg["Boxes"]) ==> r == PlaceBoxes(page, m, cfg["Boxes"])
    ensures "Boxes" in cfg && !AnyKey(cfg["Boxes"]) ==> r == Ok(BoxesDrawn(m, []))
  {
    if "Boxes" !in cfg then Err(MissingSection("Boxes"))
    else if AnyKey(cfg["Boxes"]) then PlaceBoxes(page, m, cfg["Boxes"])
    else Ok(BoxesDrawn(m, []))
  }

  /** The text entry of one key: only keys with a `text` option draw. */
  function TextEntry(cfg: Layout, section: string, key: string, paper: string, orientation: string,
                     page: Page, m: Margins): Result<Option<TextPlacement>>
    requires Positive(page)
  {
    match ParseOption(cfg, section, key, "text", paper, orientation)
    case None => Ok(None)
    case Some(t) =>
      var p :- TextFromLabel(cfg, section, key, paper, orientation, page, m, t);
      Ok(Some(p))
  }

  /** One text result per key of a Text or Watermark section, in order; the
      first failing key fails the page. */
  function Texts(cfg: Layout, section: string, keys: seq<string>, paper: string, orientation: string,
                 page: Page, m: Margins): (r: Result<seq<Option<TextPlacement>>>)
    requires Positive(page)
    ensures r.Ok? <==> forall i :: 0 <= i < |keys| ==> TextEntry(cfg, section, keys[i], paper, orientation, page, m).Ok?
    ensures r.Ok? ==> |r.value| == |keys| && forall i :: 0 <= i < |keys| ==>
      r.value[i] == TextEntry(cfg, section, keys[i], paper, orientation, page, m).value
    ensures r.Ok? ==> forall i :: 0 <= i < |keys| ==>
      (r.value[i].Some? <==> ParseOption(cfg, section, keys[i], "text", paper, orientation).Some?)
  {
    if keys == [] then Ok([])
    else
      var t :- TextEntry(cfg, section, keys[0], paper, orientation, page, m);
      var rest :- Texts(cfg, section, keys[1..], paper, orientation, page, m);
      assert forall i :: 1 <= i < |keys| ==> keys[i] == keys[1..][i - 1];
      Ok([t] + rest)
  }

  /** One image anchor per key of the Images section, in order. */
  function Images(cfg: Layout, keys: seq<string>, paper: string, orientation: string, page: Page)
    : (r: Result<seq<Option<Point>>>)
    requires Positive(page)
    ensures r.Ok? <==> forall i :: 0 <= i < |keys| ==> ImageFromLabel(cfg, keys[i], paper, orientation, page).Ok?
    ensures r.Ok? ==> |r.value| == |keys| && forall i :: 0 <= i < |keys| ==>
      r.value[i] == ImageFromLabel(cfg, keys[i], paper, orientation, page).value
  {
    if keys == [] then Ok([])
    else
      var p :- ImageFromLabel(cfg, keys[0], paper, orientation, page);
      var rest :- Images(cfg, keys[1..], paper, orientation, page);
      assert forall i :: 1 <= i < |keys| ==> keys[i] == keys[1..][i - 1];
      Ok([p] + rest)
  }

  /** One segment per key of the Lines section, in order. */
  function Lines(cfg: Layout, keys: seq<string>, paper: string, orientation: string, page: Page)
    : (r: Result<seq<Segment>>)
    requires Positive(page)
    ensures r.Ok? <==> forall i :: 0 <= i < |keys| ==> LineFromLabel(cfg, keys[i], paper, orientation, page).Ok?
    ensures r.Ok? ==> |r.value| == |keys| && forall i :: 0 <= i < |keys| ==>
      r.value[i] == LineFromLabel(cfg, keys[i], paper, orientation, page).value
  {
    if keys == [] then Ok([])
    else
      var l :- LineFromLabel(cfg, keys[0], paper, orientation, page);
      var rest :- Lines(cfg, keys[1..], paper, orientation, page);
      assert forall i :: 1 <= i < |keys| ==> keys[i] == keys[1..][i - 1];
      Ok([l] + rest)
  }

  function SectionKeys(cfg: Layout, section: string): Result<seq<string>>
  {
    if section in cfg then Ok(Keys(cfg[section])) else Err(MissingSection(section))
  }

  /** The labels drawn on every page, placed with the sheet's page and
      margins. */
  function Decorations(cfg: Layout, paper: string, orientation: string, s: Sheet)
    : (r: Result<(seq<Option<TextPlacement>>, seq<Option<Point>>, seq<Segment>, seq<Option<TextPlacement>>)>)
    requires Positive(s.page)
  {
    var textKeys :- SectionKeys(cfg, "Text");
    var texts :- Texts(cfg, "Text", textKeys, paper, orientation, s.page, s.margins);
    var imageKeys :- SectionKeys(cfg, "Images");
    var images :- Images(cfg, imageKeys, paper, orientation, s.page);
    var lineKeys :- SectionKeys(cfg, "Lines");
    var lines :- Lines(cfg, lineKeys, paper, orientation, s.page);
    var markKeys :- SectionKeys(cfg, "Watermark");
    var marks :- Texts(cfg, "Watermark", markKeys, paper, orientation, s.page, s.margins);
    Ok((texts, images, lines, marks))
  }

  /** `draw_page`: returns the pager state it leaves and what it draws.
      Without a margin frame the state is unchanged; with one, the boxes
      are placed on the current margins, the frame is derived from the
      margins they leave, and then the layout is read again, which resets
      the margins (and, for a millimetre layout, rescales the page). */
  function DrawPage(cfg: Layout, paper: string, orientation: string, s: Sheet)
    : (r: Result<(Sheet, DrawOutput)>)
    requires Drawable(s)
    ensures r.Ok? ==> Drawable(r.value.0)
    ensures r.Ok? ==> r.value.1.figureSize == s.page && SourceAnchor(s) == Ok(r.value.1.sourceAnchor)
    ensures r.Ok? && !s.marginFrame ==>
      r.value.0 == s && r.value.1.boxes == [] && r.value.1.frame.None?
    ensures r.Ok? && s.marginFrame ==>
      && DrawBoxes(cfg, s.page, s.margins).Ok?
      && r.value.1.boxes == DrawBoxes(cfg, s.page, s.margins).value.placed
      && r.value.1.frame == Some(FrameOf(s.page, DrawBoxes(cfg, s.page, s.margins).value.margins))
      && UpdateFromLayout(cfg, paper, orientation, s.page, s.conversion) == Ok(r.value.0)
    ensures r.Ok? ==>
      && "Text" in cfg && "Images" in cfg && "Lines" in cfg && "Watermark" in cfg
      && var s' := r.value.0;
         && Texts(cfg, "Text", Keys(cfg["Text"]), paper, orientation, s'.page, s'.margins)
            == Ok(r.value.1.texts)
         && Images(cfg, Keys(cfg["Images"]), paper, orientation, s'.page) == Ok(r.value.1.images)
         && Lines(cfg, Keys(cfg["Lines"]), paper, orientation, s'.page) == Ok(r.value.1.lines)
         && Texts(cfg, "Watermark", Keys(cfg["Watermark"]), paper, orientation, s'.page, s'.margins)
            == Ok(r.value.1.watermarks)
  {
    var anchor :- SourceAnchor(s);
    var (s', boxes, frame) :-
      if s.marginFrame then
        match DrawBoxes(cfg, s.page, s.margins)
        case Err(e) => Err(e)
        case Ok(drawn) =>
          match UpdateFromLayout(cfg, paper, orientation, s.page, s.conversion)
          case Err(e) => Err(e)
          case Ok(s') => Ok((s', drawn.placed, Some(FrameOf(s.page, drawn.margins))))
      else Ok((s, [], None));
    var (texts, images, lines, marks) :- Decorations(cfg, paper, orientation, s');
    Ok((s', DrawOutput(s.page, anchor, boxes, frame, texts, images, lines, marks)))
  }

  /** In an inch layout the reset at the end of a margin-frame page gives
      back the state the layout produced, so drawing again draws the same
      page. */
  lemma DrawSettles(cfg: Layout, paper: string, orientation: string, page: Page, conversion: real)
    requires !MmUnit(cfg, paper, orientation)
    requires UpdateFromLayout(cfg, paper, orientation, page, conversion).Ok?
    requires var s := UpdateFromLayout(cfg, paper, orientation, page, conversion).value;
      Drawable(s) && DrawPage(cfg, paper, orientation, s).Ok?
    ensures var s := UpdateFromLayout(cfg, paper, orientation, page, conversion).value;
      && DrawPage(cfg, paper, orientation, s).value.0 == s
      && DrawPage(cfg, paper, orientation, DrawPage(cfg, paper, orientation, s).value.0)
         == DrawPage(cfg, paper, orientation, s)
  {
    var s := UpdateFromLayout(cfg, paper, orientation, page, conversion).value;
    if s.marginFrame {
      UpdateSettles(cfg, paper, orientation, page, conversion);
    }
  }

  /** In a millimetre margin-frame layout every drawn page leaves the page
      smaller by the factor: the next page is drawn on a shrunken figure. */
  lemma DrawShrinksMmPage(cfg: Layout, paper: string, orientation: string, s: Sheet)
    requires Drawable(s) && s.marginFrame && MmUnit(cfg, paper, orientation)
    requires DrawPage(cfg, paper, orientation, s).Ok?
    ensures var s' := DrawPage(cfg, paper, orientation, s).value.0;
      && s'.page == Scale(s.page, MmToInch)
      && s'.page.width < s.page.width && s'.page.height < s.page.height
  {
  }
}
