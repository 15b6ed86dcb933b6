/** The page rectangle and the margin frame: the margin part of
    `_update_from_layout`. */
module Frame {
  import opened Results
  import opened LayoutConfig

  /** Millimetres to inches, the factor a `figure_unit = mm` layout uses. */
  const MmToInch: real := 0.0393701

  datatype Page = Page(width: real, height: real)

  predicate Positive(p: Page)
  {
    p.width > 0.0 && p.height > 0.0
  }

  function Scale(p: Page, k: real): Page
  {
    Page(p.width * k, p.height * k)
  }

  /** Margins are distances from the respective page edge; `pad` is the
      extra inset of the subplot area; the frame is what the margins leave. */
  datatype Margins = Margins(
    left: real, right: real, top: real, bottom: real, pad: real,
    frameWidth: real, frameHeight: real)

  predicate WidthInvariant(p: Page, m: Margins)
  {
    m.frameWidth == p.width - m.left - m.right
  }

  predicate HeightInvariant(p: Page, m: Margins)
  {
    m.frameHeight == p.height - m.top - m.bottom
  }

  predicate FrameInvariant(p: Page, m: Margins)
  {
    WidthInvariant(p, m) && HeightInvariant(p, m)
  }

  /** No margin frame: no margins, no pad, the frame is the whole page. */
  function NoMargins(p: Page): (m: Margins)
    ensures FrameInvariant(p, m)
  {
    Margins(0.0, 0.0, 0.0, 0.0, 0.0, p.width, p.height)
  }

  /** The page-level state `_update_from_layout` leaves behind. */
  datatype Sheet = Sheet(
    page: Page,
    conversion: real,
    marginFrame: bool,
    margins: Margins,
    sourcePath: bool,
    sourcePathPosition: seq<real>)

  predicate MmUnit(cfg: Layout, paper: string, orientation: string)
  {
    ParseOption(cfg, "Layout", "Margin", "figure_unit", paper, orientation) == Some(Word("mm"))
  }

  function Setting(cfg: Layout, paper: string, orientation: string, option: string): Option<Value>
  {
    ParseOption(cfg, "Layout", "Margin", option, paper, orientation)
  }

  /** A configured margin distance, as a number. */
  function Configured(cfg: Layout, paper: string, orientation: string, option: string): Result<real>
  {
    Number(Setting(cfg, paper, orientation, option), option)
  }

  /** The margins a margin-frame layout declares, scaled to inches, and the
      frame they leave on the page. */
  function FrameMargins(cfg: Layout, paper: string, orientation: string, page: Page, conversion: real)
    : (r: Result<Margins>)
    ensures r.Ok? <==>
      && Configured(cfg, paper, orientation, "left_margin").Ok?
      && Configured(cfg, paper, orientation, "right_margin").Ok?
      && Configured(cfg, paper, orientation, "top_margin").Ok?
      && Configured(cfg, paper, orientation, "bottom_margin").Ok?
      && Configured(cfg, paper, orientation, "margin_pad").Ok?
    ensures r.Ok? ==>
      && r.value.left == Configured(cfg, paper, orientation, "left_margin").value * conversion
      && r.value.right == Configured(cfg, paper, orientation, "right_margin").value * conversion
      && r.value.top == Configured(cfg, paper, orientation, "top_margin").value * conversion
      && r.value.bottom == Configured(cfg, paper, orientation, "bottom_margin").value * conversion
      && r.value.pad == Configured(cfg, paper, orientation, "margin_pad").value * conversion
      && FrameInvariant(page, r.value)
  {
    ScaleMargins(
      Configured(cfg, paper, orientation, "left_margin"),
      Configured(cfg, paper, orientation, "right_margin"),
      Configured(cfg, paper, orientation, "top_margin"),
      Configured(cfg, paper, orientation, "bottom_margin"),
      Configured(cfg, paper, orientation, "margin_pad"),
      page, conversion)
  }

  /** Scale the five distances (the first missing one is the error) and
      derive the frame from the page. */
  function ScaleMargins(l: Result<real>, r: Result<real>, t: Result<real>, b: Result<real>, p: Result<real>,
                        page: Page, conversion: real)
    : (m: Result<Margins>)
    ensures m.Ok? <==> l.Ok? && r.Ok? && t.Ok? && b.Ok? && p.Ok?
    ensures m.Ok? ==>
      && m.value.left == l.value * conversion && m.value.right == r.value * conversion
      && m.value.top == t.value * conversion && m.value.bottom == b.value * conversion
      && m.value.pad == p.value * conversion
      && FrameInvariant(page, m.value)
  {
    var l :- l;
    var r :- r;
    var t :- t;
    var b :- b;
    var p :- p;
    var (l', r', t', b') := (l * conversion, r * conversion, t * conversion, b * conversion);
    Ok(Margins(l', r', t', b', p * conversion, page.width - l' - r', page.height - t' - b'))
  }

  /** `[v * conversion for v in value]`: the value must be a list of numbers. */
  function ScaledList(v: Option<Value>, conversion: real, key: string): (r: Result<seq<real>>)
    ensures r.Ok? ==> v.Some? && v.value.List? && |r.value| == |v.value.items|
    ensures r.Ok? ==> forall i :: 0 <= i < |r.value| ==>
      AsNumber(v.value.items[i]).Some? && r.value[i] == AsNumber(v.value.items[i]).value * conversion
  {
    match v
    case Some(List(xs)) => ScaleAll(xs, conversion, key)
    case _ => Err(InvalidValue(key))
  }

  function ScaleAll(xs: seq<Value>, conversion: real, key: string): (r: Result<seq<real>>)
    ensures r.Ok? ==> |r.value| == |xs|
    ensures r.Ok? ==> forall i :: 0 <= i < |xs| ==>
      AsNumber(xs[i]).Some? && r.value[i] == AsNumber(xs[i]).value * conversion
    ensures r.Ok? <==> forall i :: 0 <= i < |xs| ==> AsNumber(xs[i]).Some?
  {
    if xs == [] then Ok([])
    else
      var rest := ScaleAll(xs[1..], conversion, key);
      assert forall i :: 1 <= i < |xs| ==> xs[i] == xs[1..][i - 1];
      match AsNumber(xs[0])
      case None => Err(InvalidValue(key))
      case Some(n) =>
        if rest.Err? then rest
        else Ok([n * conversion] + rest.value)
  }

  /** The margin part of `_update_from_layout`. A millimetre layout
      multiplies the CURRENT page size by the factor again on every call;
      a margin frame scales each configured margin by the factor and
      derives the frame from the page, otherwise everything is zero and
      the frame is the page. */
  function UpdateFromLayout(cfg: Layout, paper: string, orientation: string, page: Page, conversion: real)
    : (r: Result<Sheet>)
    ensures cfg == map[] ==> r == Err(EmptyLayout)
    ensures r.Ok? ==> "Text" in cfg
    ensures r.Ok? && MmUnit(cfg, paper, orientation) ==>
      r.value.page == Scale(page, MmToInch) && r.value.conversion == MmToInch
    ensures r.Ok? && !MmUnit(cfg, paper, orientation) ==>
      r.value.page == page && r.value.conversion == conversion
    ensures r.Ok? ==> r.value.marginFrame == Truthy(Setting(cfg, paper, orientation, "margin_frame"))
    ensures r.Ok? && r.value.marginFrame ==>
      FrameMargins(cfg, paper, orientation, r.value.page, r.value.conversion) == Ok(r.value.margins)
    ensures r.Ok? && !r.value.marginFrame ==> r.value.margins == NoMargins(r.value.page)
    ensures r.Ok? ==> FrameInvariant(r.value.page, r.value.margins)
    ensures Positive(page) && conversion > 0.0 && r.Ok? ==>
      Positive(r.value.page) && r.value.conversion > 0.0
  {
    if cfg == map[] then Err(EmptyLayout)
    else
      var mm := MmUnit(cfg, paper, orientation);
      var page' := if mm then Scale(page, MmToInch) else page;
      var conversion' := if mm then MmToInch else conversion;
      var frame := Truthy(Setting(cfg, paper, orientation, "margin_frame"));
      var margins :- if frame then FrameMargins(cfg, paper, orientation, page', conversion')
                     else Ok(NoMargins(page'));
      var sourcePath := Truthy(Setting(cfg, paper, orientation, "source_path"));
      var position :- ScaledList(Setting(cfg, paper, orientation, "source_path_position"),
                                 conversion', "source_path_position");
      if "Text" !in cfg then Err(MissingSection("Text"))
      else Ok(Sheet(page', conversion', frame, margins, sourcePath, position))
  }

  /** In inch layouts the update is a fixed point: re-running it on its own
      result changes nothing. */
  lemma UpdateSettles(cfg: Layout, paper: string, orientation: string, page: Page, conversion: real)
    requires !MmUnit(cfg, paper, orientation)
    requires UpdateFromLayout(cfg, paper, orientation, page, conversion).Ok?
    ensures var s := UpdateFromLayout(cfg, paper, orientation, page, conversion).value;
      UpdateFromLayout(cfg, paper, orientation, s.page, s.conversion) == Ok(s)
  {
  }

  /** In millimetre layouts every update multiplies the page by the factor
      once more, so two updates leave it scaled by the factor squared. */
  lemma UpdateCompoundsMm(cfg: Layout, paper: string, orientation: string, page: Page, conversion: real)
    requires MmUnit(cfg, paper, orientation)
    requires UpdateFromLayout(cfg, paper, orientation, page, conversion).Ok?
    ensures var s := UpdateFromLayout(cfg, paper, orientation, page, conversion).value;
      UpdateFromLayout(cfg, paper, orientation, s.page, s.conversion).Ok?
      && UpdateFromLayout(cfg, paper, orientation, s.page, s.conversion).value.page
         == Page(page.width * (MmToInch * MmToInch), page.height * (MmToInch * MmToInch))
  {
    var s := UpdateFromLayout(cfg, paper, orientation, page, conversion).value;
    var s2 := UpdateFromLayout(cfg, paper, orientation, s.page, s.conversion);
    assert s.page.width * MmToInch == page.width * (MmToInch * MmToInch);
    assert s.page.height * MmToInch == page.height * (MmToInch * MmToInch);
  }
}
