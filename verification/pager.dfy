/** The pager itself: construction, `add_page`, `add_subplot` and `close`
    as transitions of one immutable state that ties the page geometry,
    the margin frame, the subplot cursor and the output together. */
module Pager {
  import opened Results
  import opened LayoutConfig
  import opened Paper
  import opened Frame
  import opened Drawing
  import opened Cursor
  import opened Output

  datatype Pager = Pager(
    catalog: Catalog,
    layout: Layout,
    paperSize: string,
    orientation: string,
    sheet: Sheet,
    nrows: int,
    ncols: int,
    widthRatios: Option<seq<real>>,
    heightRatios: Option<seq<real>>,
    cursor: CursorState,
    doc: Document,
    drawn: DrawOutput)

  /** What every reachable pager satisfies: a sane paper table, a drawable
      page whose frame is the page less the margins, and an output that
      names its pages. */
  predicate Valid(p: Pager)
  {
    ValidCatalog(p.catalog) && Drawable(p.sheet) && FrameInvariant(p.sheet.page, p.sheet.margins)
    && Named(p.doc)
  }

  /** The `add_page` arguments the model tracks; None means "keep". */
  datatype Overrides = Overrides(
    paperSize: Option<string>,
    nrows: Option<int>,
    ncols: Option<int>,
    layout: Option<Layout>,
    widthRatios: Option<seq<real>>,
    heightRatios: Option<seq<real>>,
    outfile: Option<string>,
    orientation: Option<string>,
    startIndex: Option<Cell>,
    direction: string)

  /** `add_page()` with no arguments. */
  const NoOverrides: Overrides :=
    Overrides(None, None, None, None, None, None, None, None, None, LeftToRight)

  /** Construction. The page comes from the paper table, the layout is
      read twice (so a millimetre layout scales the page twice), the cursor
      starts at the given start index, and the first page is drawn. */
  function Open(catalog: Catalog, layout: Layout, paperSize: string, orientation: Option<string>,
                nrows: int, ncols: int, widthRatios: Option<seq<real>>, heightRatios: Option<seq<real>>,
                outfile: Option<string>, existed: bool, startIndex: Option<Cell>, direction: string)
    : (r: Result<Pager>)
    requires ValidCatalog(catalog)
    ensures r.Ok? ==> Valid(r.value)
    ensures r.Ok? ==>
      && Resolve(catalog, paperSize, orientation).Ok?
      && r.value.orientation == Resolve(catalog, paperSize, orientation).value.orientation
    ensures Resolve(catalog, paperSize, orientation).Err? ==> r == Err(Resolve(catalog, paperSize, orientation).error)
    ensures r.Ok? ==>
      && r.value.cursor == CursorState(startIndex, startIndex, direction)
      && r.value.doc == Create(outfile, existed)
      && r.value.nrows == nrows && r.value.ncols == ncols
  {
    var g :- Resolve(catalog, paperSize, orientation);
    ResolvePositive(catalog, paperSize, orientation);
    var s1 :- UpdateFromLayout(layout, paperSize, g.orientation, Page(g.width, g.height), 1.0);
    var s2 :- UpdateFromLayout(layout, paperSize, g.orientation, s1.page, s1.conversion);
    var (s3, out) :- DrawPage(layout, paperSize, g.orientation, s2);
    Ok(Pager(catalog, layout, paperSize, g.orientation, s3, nrows, ncols, widthRatios, heightRatios,
             CursorState(startIndex, startIndex, direction), Create(outfile, existed), out))
  }

  /** Construction draws the page that two layout updates of the
      catalogue page leave. */
  lemma OpenDraws(catalog: Catalog, layout: Layout, paperSize: string, orientation: Option<string>,
                  nrows: int, ncols: int, wr: Option<seq<real>>, hr: Option<seq<real>>,
                  outfile: Option<string>, existed: bool, startIndex: Option<Cell>, direction: string)
    requires ValidCatalog(catalog)
    requires Open(catalog, layout, paperSize, orientation, nrows, ncols, wr, hr, outfile, existed, startIndex, direction).Ok?
    ensures Resolve(catalog, paperSize, orientation).Ok?
    ensures var g := Resolve(catalog, paperSize, orientation).value;
      var s1 := UpdateFromLayout(layout, paperSize, g.orientation, Page(g.width, g.height), 1.0);
      && s1.Ok?
      && var s2 := UpdateFromLayout(layout, paperSize, g.orientation, s1.value.page, s1.value.conversion);
      && s2.Ok?
      && var d := DrawPage(layout, paperSize, g.orientation, s2.value);
      && d.Ok?
      && var p := Open(catalog, layout, paperSize, orientation, nrows, ncols, wr, hr, outfile, existed, startIndex, direction).value;
      p.sheet == d.value.0 && p.drawn == d.value.1
  {
  }

  /** A millimetre layout scales the catalogue page twice before the first
      page is drawn. */
  lemma OpenScalesMmPage(catalog: Catalog, layout: Layout, paperSize: string, orientation: Option<string>,
                         nrows: int, ncols: int, wr: Option<seq<real>>, hr: Option<seq<real>>,
                         outfile: Option<string>, existed: bool, startIndex: Option<Cell>, direction: string)
    requires ValidCatalog(catalog)
    requires Resolve(catalog, paperSize, orientation).Ok?
    requires MmUnit(layout, paperSize, Resolve(catalog, paperSize, orientation).value.orientation)
    requires Open(catalog, layout, paperSize, orientation, nrows, ncols, wr, hr, outfile, existed, startIndex, direction).Ok?
    ensures var g := Resolve(catalog, paperSize, orientation).value;
      var p := Open(catalog, layout, paperSize, orientation, nrows, ncols, wr, hr, outfile, existed, startIndex, direction).value;
      p.drawn.figureSize == Page(g.width * (MmToInch * MmToInch), g.height * (MmToInch * MmToInch))
  {
    OpenDraws(catalog, layout, paperSize, orientation, nrows, ncols, wr, hr, outfile, existed, startIndex, direction);
    var g := Resolve(catalog, paperSize, orientation).value;
    var page := Page(g.width, g.height);
    UpdateCompoundsMm(layout, paperSize, g.orientation, page, 1.0);
  }

  /** ... and a margin-frame page then scales it a third time: the pager
      leaves the first page with a page smaller than the one it drew. */
  lemma OpenShrinksMmFramePage(catalog: Catalog, layout: Layout, paperSize: string, orientation: Option<string>,
                               nrows: int, ncols: int, wr: Option<seq<real>>, hr: Option<seq<real>>,
                               outfile: Option<string>, existed: bool, startIndex: Option<Cell>, direction: string)
    requires ValidCatalog(catalog)
    requires Resolve(catalog, paperSize, orientation).Ok?
    requires MmUnit(layout, paperSize, Resolve(catalog, paperSize, orientation).value.orientation)
    requires Open(catalog, layout, paperSize, orientation, nrows, ncols, wr, hr, outfile, existed, startIndex, direction).Ok?
    requires Open(catalog, layout, paperSize, orientation, nrows, ncols, wr, hr, outfile, existed, startIndex, direction).value.sheet.marginFrame
    ensures var p := Open(catalog, layout, paperSize, orientation, nrows, ncols, wr, hr, outfile, existed, startIndex, direction).value;
      p.sheet.page == Scale(p.drawn.figureSize, MmToInch)
  {
    OpenDraws(catalog, layout, paperSize, orientation, nrows, ncols, wr, hr, outfile, existed, startIndex, direction);
    var g := Resolve(catalog, paperSize, orientation).value;
    var page := Page(g.width, g.height);
    var s1 := UpdateFromLayout(layout, paperSize, g.orientation, page, 1.0).value;
    var s2 := UpdateFromLayout(layout, paperSize, g.orientation, s1.page, s1.conversion).value;
    DrawShrinksMmPage(layout, paperSize, g.orientation, s2);
  }

  /** The new orientation of `add_page`: the page is looked up again in the
      paper table (in inches, whatever the unit) and the frame recomputed
      from the margins already in place. */
  function Reorient(p: Pager, paperSize: string, orientation: string): (r: Result<(string, Sheet)>)
    requires Valid(p)
    ensures r.Ok? <==> Resolve(p.catalog, paperSize, Some(orientation)).Ok?
    ensures r.Ok? ==>
      var g := Resolve(p.catalog, paperSize, Some(orientation)).value;
      && r.value.0 == orientation
      && r.value.1.page == Page(g.width, g.height)
      && Drawable(r.value.1)
      && FrameInvariant(r.value.1.page, r.value.1.margins)
      && var (m, m') := (p.sheet.margins, r.value.1.margins);
         m'.left == m.left && m'.right == m.right && m'.top == m.top && m'.bottom == m.bottom && m'.pad == m.pad
  {
    var g :- Resolve(p.catalog, paperSize, Some(orientation));
    ResolvePositive(p.catalog, paperSize, Some(orientation));
    var page := Page(g.width, g.height);
    var m := p.sheet.margins;
    Ok((g.orientation, p.sheet.(page := page,
        margins := m.(frameWidth := page.width - m.left - m.right, frameHeight := page.height - m.top - m.bottom))))
  }

  /** Draw the pager's current page. */
  function Draw(p: Pager): (r: Result<Pager>)
    requires Valid(p)
    ensures r.Ok? <==> DrawPage(p.layout, p.paperSize, p.orientation, p.sheet).Ok?
    ensures r.Ok? ==>
      && Valid(r.value)
      && var (s, out) := DrawPage(p.layout, p.paperSize, p.orientation, p.sheet).value;
         r.value == p.(sheet := s, drawn := out)
  {
    var (s, out) :- DrawPage(p.layout, p.paperSize, p.orientation, p.sheet);
    Ok(p.(sheet := s, drawn := out))
  }

  /** The grid part of `add_page`: paper name, grid size and ratios (both
      ratios are replaced when either is given). */
  function Regrid(p: Pager, o: Overrides): (r: Pager)
    ensures r.paperSize == (if o.paperSize.Some? then o.paperSize.value else p.paperSize)
    ensures r.nrows == (if o.nrows.Some? then o.nrows.value else p.nrows)
    ensures r.ncols == (if o.ncols.Some? then o.ncols.value else p.ncols)
    ensures o.widthRatios.Some? || o.heightRatios.Some? ==>
      r.widthRatios == o.widthRatios && r.heightRatios == o.heightRatios
    ensures o.widthRatios.None? && o.heightRatios.None? ==>
      r.widthRatios == p.widthRatios && r.heightRatios == p.heightRatios
    ensures r == p.(paperSize := r.paperSize, nrows := r.nrows, ncols := r.ncols,
                    widthRatios := r.widthRatios, heightRatios := r.heightRatios)
  {
    var (wr, hr) := if o.widthRatios.Some? || o.heightRatios.Some? then (o.widthRatios, o.heightRatios)
                    else (p.widthRatios, p.heightRatios);
    p.(paperSize := if o.paperSize.Some? then o.paperSize.value else p.paperSize,
       nrows := if o.nrows.Some? then o.nrows.value else p.nrows,
       ncols := if o.ncols.Some? then o.ncols.value else p.ncols,
       widthRatios := wr, heightRatios := hr)
  }

  /** Everything `add_page` does before drawing: save the finished page,
      apply the overrides in the source's order (paper, grid, ratios,
      output path, orientation), reset the cursor, re-read an overriding
      layout. */
  function Turn(p: Pager, o: Overrides): (r: Result<Pager>)
    requires Valid(p)
    ensures r.Ok? ==> Valid(r.value)
    ensures Flush(p.doc).Err? ==> r == Err(Flush(p.doc).error)
    ensures Flush(p.doc).Ok? && o.outfile.Some? && Multipage(p.doc) ==> r == Err(FixedOutputPath)
    ensures r.Ok? ==>
      && Flush(p.doc).Ok?
      && r.value.doc == (if o.outfile.Some? then Flush(p.doc).value.(outfile := o.outfile) else Flush(p.doc).value)
      && r.value.cursor == NewPage(p.cursor, o.startIndex, o.direction)
      && Regrid(p, o) == r.value.(catalog := p.catalog, layout := p.layout, orientation := p.orientation,
                                  sheet := p.sheet, cursor := p.cursor, doc := p.doc, drawn := p.drawn)
      && r.value.orientation == (if o.orientation.Some? then o.orientation.value else p.orientation)
      && r.value.layout == (if o.layout.Some? then o.layout.value else p.layout)
      && (o.orientation.None? && o.layout.None? ==> r.value.sheet == p.sheet)
    ensures Flush(p.doc).Ok? && !(o.outfile.Some? && Multipage(p.doc)) ==>
      var base := if o.orientation.Some? then Reorient(p, Regrid(p, o).paperSize, o.orientation.value)
                  else Ok((p.orientation, p.sheet));
      && (base.Err? ==> r == Err(base.error))
      && (base.Ok? && o.layout.None? ==> r.Ok? && r.value.sheet == base.value.1)
      && (base.Ok? && o.layout.Some? ==>
            var read := UpdateFromLayout(o.layout.value, Regrid(p, o).paperSize, base.value.0,
                                         base.value.1.page, base.value.1.conversion);
            && (read.Err? ==> r == Err(read.error))
            && (read.Ok? ==> r.Ok? && r.value.sheet == read.value))
  {
    var doc1 :- Flush(p.doc);
    var q := Regrid(p, o);
    var doc2 :- if o.outfile.Some? then SetOutfile(doc1, o.outfile.value) else Ok(doc1);
    var (orientation, sheet) :- if o.orientation.Some? then Reorient(p, q.paperSize, o.orientation.value)
                               else Ok((p.orientation, p.sheet));
    var layout := if o.layout.Some? then o.layout.value else p.layout;
    var sheet' :- if o.layout.Some? then UpdateFromLayout(layout, q.paperSize, orientation, sheet.page, sheet.conversion)
                  else Ok(sheet);
    Ok(q.(layout := layout, orientation := orientation, sheet := sheet',
          cursor := NewPage(p.cursor, o.startIndex, o.direction), doc := doc2))
  }

  /** `add_page`: turn the page, then draw the new one. The finished page
      is saved before anything else can fail, the cursor restarts from the
      given start index, and the new page is drawn at the size the turn
      left. */
  function AddPage(p: Pager, o: Overrides): (r: Result<Pager>)
    requires Valid(p)
    ensures r.Ok? ==> Valid(r.value)
    ensures Flush(p.doc).Err? ==> r == Err(Flush(p.doc).error)
    ensures Flush(p.doc).Ok? && o.outfile.Some? && Multipage(p.doc) ==> r == Err(FixedOutputPath)
    ensures r.Ok? ==>
      && Flush(p.doc).Ok? && Turn(p, o).Ok?
      && r.value.doc == (if o.outfile.Some? then Flush(p.doc).value.(outfile := o.outfile) else Flush(p.doc).value)
      && r.value.cursor == NewPage(p.cursor, o.startIndex, o.direction)
      && r.value.orientation == (if o.orientation.Some? then o.orientation.value else p.orientation)
      && r.value.drawn.figureSize == Turn(p, o).value.sheet.page
      && (!Turn(p, o).value.sheet.marginFrame ==> r.value.sheet == Turn(p, o).value.sheet)
  {
    var q :- Turn(p, o);
    Draw(q)
  }

  /** Without an orientation or a layout, a new paper size changes only
      the name the layout's per-paper settings are looked up under: the
      page of an inch layout keeps its size. */
  lemma PaperOverrideKeepsPage(p: Pager, paper: string)
    requires Valid(p) && !MmUnit(p.layout, paper, p.orientation)
    requires AddPage(p, NoOverrides.(paperSize := Some(paper))).Ok?
    ensures AddPage(p, NoOverrides.(paperSize := Some(paper))).value.sheet.page == p.sheet.page
    ensures AddPage(p, NoOverrides.(paperSize := Some(paper))).value.paperSize == paper
  {
  }

  /** `add_subplot`. When the cursor runs past the last cell the page is
      turned first, exactly as `add_page` with the stored start index
      would; the subplot then goes to the cell the cursor chose. */
  function AddSubplot(p: Pager, req: Request): (r: Result<(Pager, Cell)>)
    requires Valid(p)
    ensures r.Ok? ==> Valid(r.value.0)
    ensures Cursor.AddSubplot(p.cursor, req, p.nrows, p.ncols).Err? ==>
      r == Err(Cursor.AddSubplot(p.cursor, req, p.nrows, p.ncols).error)
    ensures r.Ok? ==>
      var pl := Cursor.AddSubplot(p.cursor, req, p.nrows, p.ncols);
      && pl.Ok? && Some(r.value.1) == pl.value.cell
      && r.value.0.cursor == pl.value.cursor
      && (!pl.value.rollover ==> r.value.0 == p.(cursor := pl.value.cursor))
      && (pl.value.rollover ==>
            && AddPage(p, NoOverrides.(startIndex := p.cursor.start)).Ok?
            && r.value.0 == AddPage(p, NoOverrides.(startIndex := p.cursor.start)).value.(cursor := pl.value.cursor))
  {
    var pl :- Cursor.AddSubplot(p.cursor, req, p.nrows, p.ncols);
    var p' :- if pl.rollover then AddPage(p, NoOverrides.(startIndex := p.cursor.start)) else Ok(p);
    Ok((p'.(cursor := pl.cursor), pl.cell.value))
  }

  /** A page is saved exactly when a subplot request rolls over: a
      single-file document records one more name, and only then. */
  lemma SubplotSavesOnRollover(p: Pager, req: Request)
    requires Valid(p) && p.doc.kind.Some? && !Multipage(p.doc)
    requires AddSubplot(p, req).Ok?
    ensures var pl := Cursor.AddSubplot(p.cursor, req, p.nrows, p.ncols).value;
      var q := AddSubplot(p, req).value.0;
      && (pl.rollover ==> q.doc.names == p.doc.names + [p.doc.newName.value])
      && (!pl.rollover ==> q.doc == p.doc)
  {
  }

  /** A multipage document refuses a new output path (once its finished
      page is saved; a closed one fails on that save). */
  lemma MultipageKeepsPath(p: Pager, o: Overrides)
    requires Valid(p) && Multipage(p.doc) && o.outfile.Some?
    ensures p.doc.closed ==> AddPage(p, o) == Err(ClosedPdf)
    ensures !p.doc.closed ==> AddPage(p, o) == Err(FixedOutputPath)
  {
  }

  /** `close`. */
  function Close(p: Pager): (r: Result<Pager>)
    requires Valid(p)
    ensures r.Ok? <==> Output.Close(p.doc).Ok?
    ensures r.Ok? ==> r.value == p.(doc := Output.Close(p.doc).value)
  {
    var doc :- Output.Close(p.doc);
    Ok(p.(doc := doc))
  }

  /** A closed multipage document cannot take another page. */
  lemma ClosedPdfRefusesPages(p: Pager, o: Overrides)
    requires Valid(p) && Multipage(p.doc) && p.doc.outfile.Some? && Close(p).Ok?
    ensures Valid(Close(p).value)
    ensures AddPage(Close(p).value, o) == Err(ClosedPdf)
    ensures Close(Close(p).value) == Err(ClosedPdf)
  {
  }
}
