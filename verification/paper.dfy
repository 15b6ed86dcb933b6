/** Page size lookup and orientation correction (`_set_paper_size_orientation`). */
module Paper {
  import opened Results
  import opened Strings

  /** One row of the paper-size table, in inches. */
  datatype PaperDims = PaperDims(widthIn: real, heightIn: real)

  /** The paper-size table, keyed by lower-case name. */
  type Catalog = map<string, PaperDims>

  predicate ValidCatalog(c: Catalog)
  {
    forall k :: k in c ==> c[k].widthIn > 0.0 && c[k].heightIn > 0.0
  }

  const Portrait: string := "portrait"
  const Landscape: string := "landscape"

  /** Resolved page: width, height and the orientation the pager keeps. */
  datatype PageGeometry = PageGeometry(width: real, height: real, orientation: string)

  predicate KnownOrientation(o: string)
  {
    Lower(o) == Portrait || Lower(o) == Landscape
  }

  /** The orientation the pager keeps: the given one, or the one the
      catalogue sides imply (portrait only when strictly taller). */
  function ChooseOrientation(dims: PaperDims, orientation: Option<string>): (r: Result<string>)
    ensures orientation.None? ==> r == Ok(if dims.heightIn > dims.widthIn then Portrait else Landscape)
    ensures orientation.Some? ==>
      (r.Ok? <==> KnownOrientation(orientation.value)) && (r.Ok? ==> r.value == orientation.value)
  {
    match orientation
    case None => Ok(if dims.heightIn > dims.widthIn then Portrait else Landscape)
    case Some(o) => if KnownOrientation(o) then Ok(o) else Err(InvalidOrientation(o))
  }

  /** Swap the sides when the orientation (compared case-sensitively, as the
      source does) disagrees with them. */
  function Orient(w: real, h: real, o: string): (r: (real, real))
    ensures multiset{r.0, r.1} == multiset{w, h}
    ensures o == Portrait ==> r.1 >= r.0
    ensures o == Landscape ==> r.0 >= r.1
    ensures o != Portrait && o != Landscape ==> r == (w, h)
  {
    var (w1, h1) := if o == Portrait && h < w then (h, w) else (w, h);
    if o == Landscape && h1 > w1 then (h1, w1) else (w1, h1)
  }

  /** `_set_paper_size_orientation` for a named paper size. */
  function Resolve(catalog: Catalog, paperSize: string, orientation: Option<string>): (r: Result<PageGeometry>)
    ensures r.Ok? <==>
      Lower(paperSize) in catalog && (orientation.None? || KnownOrientation(orientation.value))
    ensures Lower(paperSize) !in catalog ==> r == Err(UnknownPaperSize(paperSize))
    ensures Lower(paperSize) in catalog && orientation.Some? && !KnownOrientation(orientation.value) ==>
      r == Err(InvalidOrientation(orientation.value))
    ensures r.Ok? ==>
      var d := catalog[Lower(paperSize)];
      && multiset{r.value.width, r.value.height} == multiset{d.widthIn, d.heightIn}
      && (r.value.orientation == Portrait ==> r.value.height >= r.value.width)
      && (r.value.orientation == Landscape ==> r.value.width >= r.value.height)
      && (orientation.Some? ==> r.value.orientation == orientation.value)
      && (orientation.None? ==>
            r.value.orientation == (if d.heightIn > d.widthIn then Portrait else Landscape)
            && r.value.width == d.widthIn && r.value.height == d.heightIn)
  {
    var key := Lower(paperSize);
    if key !in catalog then Err(UnknownPaperSize(paperSize))
    else
      var d := catalog[key];
      var o :- ChooseOrientation(d, orientation);
      var (w, h) := Orient(d.widthIn, d.heightIn, o);
      Ok(PageGeometry(w, h, o))
  }

  /** An orientation that passes the case-insensitive check but is not
      spelled exactly `portrait`/`landscape` keeps the catalogue sides. */
  lemma MixedCaseOrientationKeepsSides(catalog: Catalog, paperSize: string, o: string)
    requires Lower(paperSize) in catalog && KnownOrientation(o)
    requires o != Portrait && o != Landscape
    ensures Resolve(catalog, paperSize, Some(o)).Ok?
    ensures Resolve(catalog, paperSize, Some(o)).value.width == catalog[Lower(paperSize)].widthIn
    ensures Resolve(catalog, paperSize, Some(o)).value.height == catalog[Lower(paperSize)].heightIn
  {
  }

  /** Letter paper with no orientation given is a portrait 8.5 x 11 page. */
  lemma LetterScenario(catalog: Catalog)
    requires "letter" in catalog && catalog["letter"] == PaperDims(8.5, 11.0)
    ensures Resolve(catalog, "Letter", None) == Ok(PageGeometry(8.5, 11.0, Portrait))
    ensures Resolve(catalog, "letter", Some(Landscape)) == Ok(PageGeometry(11.0, 8.5, Landscape))
  {
    assert Lower("Letter") == "letter";
    assert Lower("letter") == "letter";
  }

  /** Resolved pages from a valid catalogue have positive sides. */
  lemma ResolvePositive(catalog: Catalog, paperSize: string, orientation: Option<string>)
    requires ValidCatalog(catalog)
    requires Resolve(catalog, paperSize, orientation).Ok?
    ensures Resolve(catalog, paperSize, orientation).value.width > 0.0
    ensures Resolve(catalog, paperSize, orientation).value.height > 0.0
  {
    var d := catalog[Lower(paperSize)];
    var g := Resolve(catalog, paperSize, orientation).value;
    assert g.width in multiset{d.widthIn, d.heightIn};
    assert g.height in multiset{d.widthIn, d.heightIn};
  }
}
