/** Output bookkeeping: which file each finished page goes to. A
    multipage (pdf/pgf) document appends pages to one file; a single-file
    kind saves page n under `stem_NN.ext`; without a kind pages are only
    shown. */
module Output {
  import opened Results
  import opened Strings

  /** The last index of `c` in `s`, or -1. */
  function LastIndex(s: string, c: char): (i: int)
    ensures -1 <= i < |s|
    ensures i >= 0 ==> s[i] == c
    ensures forall j :: i < j < |s| ==> s[j] != c
  {
    if s == [] then -1
    else if s[|s| - 1] == c then |s| - 1
    else LastIndex(s[..|s| - 1], c)
  }

  /** The three facts above pin the last index down. */
  lemma LastIndexUnique(s: string, c: char, i: int)
    requires -1 <= i < |s|
    requires i >= 0 ==> s[i] == c
    requires forall j :: i < j < |s| ==> s[j] != c
    ensures LastIndex(s, c) == i
  {
  }

  /** The file name has an extension: its last dot comes after the last
      slash and after at least one character that is not a dot (leading
      dots of a base name do not start an extension). */
  predicate HasExt(p: string)
  {
    var dot := LastIndex(p, '.');
    var sep := LastIndex(p, '/');
    dot > sep && exists i :: sep < i < dot && p[i] != '.'
  }

  /** `os.path.splitext` with POSIX separators: the stem and the
      extension, which is empty or a dot followed by no dot and no slash. */
  function SplitExt(p: string): (r: (string, string))
    ensures r.0 + r.1 == p
    ensures r.1 != "" <==> HasExt(p)
    ensures r.1 != "" ==> r.1[0] == '.' && '.' !in r.1[1..] && '/' !in r.1
  {
    if HasExt(p) then
      var dot := LastIndex(p, '.');
      assert forall j :: 0 <= j < |p[dot..]| ==> p[dot..][j] == p[dot + j];
      (p[..dot], p[dot..])
    else (p, "")
  }

  /** The kind of output an existing file name implies: its extension
      without the dot. */
  function KindOf(p: string): (k: string)
    ensures SplitExt(p).1 == "" ==> k == ""
    ensures SplitExt(p).1 != "" ==> "." + k == SplitExt(p).1
  {
    var ext := SplitExt(p).1;
    if ext == "" then "" else ext[1..]
  }

  /** The name of the n-th saved page of a single-file document. */
  function NextName(outfile: string, n: nat): string
  {
    var (stem, ext) := SplitExt(outfile);
    stem + "_" + Pad2(n) + ext
  }

  /** The inserted part `_NN` holds no dot and no slash. */
  lemma NumberClean(n: nat)
    ensures var mid := "_" + Pad2(n);
      forall j :: 0 <= j < |mid| ==> mid[j] != '.' && mid[j] != '/'
  {
    var mid := "_" + Pad2(n);
    forall j | 0 <= j < |mid| ensures mid[j] != '.' && mid[j] != '/' {
      if j > 0 {
        assert mid[j] == Pad2(n)[j - 1];
        assert IsDigit(Pad2(n)[j - 1]);
      }
    }
  }

  /** A numbered name splits back into the numbered stem and the original
      extension, so the number is always inserted right before the
      extension and every numbered name keeps the kind of the output. */
  lemma NextNameSplits(outfile: string, n: nat)
    ensures SplitExt(NextName(outfile, n)) == (SplitExt(outfile).0 + "_" + Pad2(n), SplitExt(outfile).1)
  {
    NumberClean(n);
    var mid := "_" + Pad2(n);
    var (stem, ext) := SplitExt(outfile);
    assert NextName(outfile, n) == stem + mid + ext;
    if HasExt(outfile) {
      assert stem + "_" + Pad2(n) == stem + mid;
      SplitsWithExt(outfile, mid);
    } else {
      assert stem == outfile && ext == "";
      assert stem + mid + ext == outfile + mid;
      assert stem + "_" + Pad2(n) == outfile + mid;
      SplitsWithoutExt(outfile, mid);
    }
  }

  lemma SplitsWithExt(outfile: string, mid: string)
    requires HasExt(outfile) && |mid| > 0
    requires forall j :: 0 <= j < |mid| ==> mid[j] != '.' && mid[j] != '/'
    ensures var (stem, ext) := SplitExt(outfile);
      SplitExt(stem + mid + ext) == (stem + mid, ext)
  {
    var (stem, ext) := SplitExt(outfile);
    var q := stem + mid + ext;
    var sep := LastIndex(outfile, '/');
    var dot := LastIndex(outfile, '.');
    assert |stem| == dot;
    var dq := |stem| + |mid|;
    assert q[dq] == ext[0];
    forall j | dq < j < |q| ensures q[j] != '.' {
      assert q[j] == ext[1..][j - dq - 1];
    }
    LastIndexUnique(q, '.', dq);
    forall j | sep < j < |q| ensures q[j] != '/' {
      if j < |stem| {
        assert q[j] == outfile[j];
      } else if j < dq {
        assert q[j] == mid[j - |stem|];
      } else {
        assert q[j] == ext[j - dq];
      }
    }
    if sep >= 0 {
      assert q[sep] == outfile[sep];
    }
    LastIndexUnique(q, '/', sep);
    assert q[dq - 1] == mid[|mid| - 1];
    assert sep < dq - 1 < dq && q[dq - 1] != '.';
    assert HasExt(q);
    assert q[..dq] == stem + mid;
    assert q[dq..] == ext;
  }

  lemma SplitsWithoutExt(outfile: string, mid: string)
    requires !HasExt(outfile)
    requires forall j :: 0 <= j < |mid| ==> mid[j] != '.' && mid[j] != '/'
    ensures SplitExt(outfile + mid) == (outfile + mid, "")
  {
    var q := outfile + mid;
    var sep := LastIndex(outfile, '/');
    var dot := LastIndex(outfile, '.');
    forall j | dot < j < |q| ensures q[j] != '.' {
      if j >= |outfile| {
        assert q[j] == mid[j - |outfile|];
      }
    }
    if dot >= 0 {
      assert q[dot] == outfile[dot];
    }
    LastIndexUnique(q, '.', dot);
    forall j | sep < j < |q| ensures q[j] != '/' {
      if j >= |outfile| {
        assert q[j] == mid[j - |outfile|];
      }
    }
    if sep >= 0 {
      assert q[sep] == outfile[sep];
    }
    LastIndexUnique(q, '/', sep);
  }

  /** `plot.png` is followed by `plot_02.png`. */
  lemma SecondPageName()
    ensures NextName("plot.png", 2) == "plot_02.png"
  {
    var p := "plot.png";
    assert p[4] == '.' && p[5..] == "png";
    LastIndexUnique(p, '.', 4);
    LastIndexUnique(p, '/', -1);
    assert p[3] != '.';
    assert HasExt(p);
    assert p[..4] == "plot" && p[4..] == ".png";
    assert SplitExt(p) == ("plot", ".png");
    assert NatToString(2) == "2";
  }

  /** The output side of the pager: the output path, the kind (the
      extension of an output file that already existed, else none), the
      name the next single-file page is saved under, the names saved so
      far, the page counter, and for multipage documents the number of
      pages written and whether the document is closed. */
  datatype Document = Document(
    outfile: Option<string>, kind: Option<string>, newName: Option<string>,
    names: seq<string>, figNumber: nat, pages: nat, closed: bool)

  predicate Multipage(d: Document)
  {
    d.kind == Some("pdf") || d.kind == Some("pgf")
  }

  /** A document made from an output path always names its pages. */
  predicate Named(d: Document)
  {
    d.kind.Some? ==> d.outfile.Some? && d.newName.Some?
  }

  /** The output part of construction. Only an output file that already
      existed (and was removed for overwriting) gives the document a kind. */
  function Create(outfile: Option<string>, existed: bool): (d: Document)
    ensures Named(d) && d.names == [] && d.figNumber == 1 && d.pages == 0 && !d.closed
    ensures d.kind.Some? <==> outfile.Some? && existed
    ensures d.kind.Some? ==> d.kind.value == KindOf(outfile.value)
    ensures d.outfile == outfile && d.newName == outfile
  {
    Document(outfile, if outfile.Some? && existed then Some(KindOf(outfile.value)) else None,
             outfile, [], 1, 0, false)
  }

  /** The save at the start of `add_page`. A multipage document appends a
      page (a closed one fails); a single-file document saves under the
      current name, records it, and numbers the next name from the output
      path; a document without a kind only shows the page. */
  function Flush(d: Document): (r: Result<Document>)
    requires Named(d)
    ensures Multipage(d) ==> (r.Ok? <==> !d.closed)
    ensures Multipage(d) && r.Ok? ==> r.value == d.(pages := d.pages + 1)
    ensures d.kind.None? ==> r == Ok(d)
    ensures d.kind.Some? && !Multipage(d) ==>
      && r.Ok? && Named(r.value)
      && r.value.names == d.names + [d.newName.value]
      && r.value.figNumber == d.figNumber + 1
      && r.value.newName == Some(NextName(d.outfile.value, d.figNumber + 1))
      && r.value.outfile == d.outfile && r.value.kind == d.kind
  {
    if Multipage(d) then
      if d.closed then Err(ClosedPdf) else Ok(d.(pages := d.pages + 1))
    else if d.kind.Some? then
      var n := d.figNumber + 1;
      Ok(d.(names := d.names + [d.newName.value], figNumber := n,
            newName := Some(NextName(d.outfile.value, n))))
    else Ok(d)
  }

  /** The `outfile` override of `add_page`: refused for a multipage
      document; otherwise only the output path changes, so the page saved
      next still uses the name numbered from the old path. */
  function SetOutfile(d: Document, outfile: string): (r: Result<Document>)
    requires Named(d)
    ensures Multipage(d) <==> r.Err?
    ensures r.Ok? ==> Named(r.value) && r.value == d.(outfile := Some(outfile))
  {
    if Multipage(d) then Err(FixedOutputPath) else Ok(d.(outfile := Some(outfile)))
  }

  /** `close`: without an output path the page is only shown; a
      single-file document saves the last page and its output path becomes
      the newline-joined list of every saved name; a multipage document
      writes its last page and closes. */
  function Close(d: Document): (r: Result<Document>)
    ensures d.outfile.None? ==> r == Ok(d)
    ensures d.outfile.Some? && !Multipage(d) ==>
      && (r.Ok? <==> d.newName.Some?)
      && (r.Ok? ==>
            && r.value.names == d.names + [d.newName.value]
            && r.value.outfile == Some(Join(r.value.names, '\n')))
    ensures d.outfile.Some? && Multipage(d) ==>
      && (r.Ok? <==> !d.closed)
      && (r.Ok? ==> r.value == d.(pages := d.pages + 1, closed := true))
  {
    if d.outfile.None? then Ok(d)
    else if !Multipage(d) then
      if d.newName.None? then Err(UnnamedOutput)
      else
        var names := d.names + [d.newName.value];
        Ok(d.(names := names, outfile := Some(Join(names, '\n'))))
    else if d.closed then Err(ClosedPdf)
    else Ok(d.(pages := d.pages + 1, closed := true))
  }

  /** The names a single-file document saves its first k pages under:
      the output path itself, then the numbered names from 2 on. */
  function PageNames(outfile: string, k: nat): (r: seq<string>)
    ensures |r| == k
    ensures k > 0 ==> r[0] == outfile
    ensures forall i :: 1 <= i < k ==> r[i] == NextName(outfile, i + 1)
  {
    if k == 0 then []
    else
      var prev := PageNames(outfile, k - 1);
      var r := prev + [if k == 1 then outfile else NextName(outfile, k)];
      assert forall i :: 0 <= i < k - 1 ==> r[i] == prev[i];
      r
  }

  /** `k` page turns in a row. */
  function Flushes(d: Document, k: nat): (r: Result<Document>)
    requires Named(d)
    ensures r.Ok? ==> Named(r.value)
    decreases k
  {
    if k == 0 then Ok(d)
    else
      var dk :- Flushes(d, k - 1);
      Flush(dk)
  }

  /** After k page turns of a fresh single-file document the saved names
      are the output path followed by the numbered names `_02`, `_03`, ...,
      and the next name carries the number k + 1. */
  lemma {:induction false} FlushedNames(outfile: string, k: nat)
    requires KindOf(outfile) != "pdf" && KindOf(outfile) != "pgf"
    ensures Flushes(Create(Some(outfile), true), k) == Ok(AfterFlushes(outfile, k))
    decreases k
  {
    if k > 0 {
      FlushedNames(outfile, k - 1);
      FlushedStep(outfile, k);
    }
  }

  lemma FlushedStep(outfile: string, k: nat)
    requires KindOf(outfile) != "pdf" && KindOf(outfile) != "pgf" && k > 0
    requires Flushes(Create(Some(outfile), true), k - 1) == Ok(AfterFlushes(outfile, k - 1))
    ensures Flushes(Create(Some(outfile), true), k) == Ok(AfterFlushes(outfile, k))
  {
    FlushAfter(outfile, k - 1);
  }

  /** One more page turn of that document. */
  lemma FlushAfter(outfile: string, k: nat)
    requires KindOf(outfile) != "pdf" && KindOf(outfile) != "pgf"
    ensures Flush(AfterFlushes(outfile, k)) == Ok(AfterFlushes(outfile, k + 1))
  {
  }

  /** The single-file document after `k` saved pages: the names so far,
      the next name ready, the figure number advanced. */
  function AfterFlushes(outfile: string, k: nat): Document
  {
    Document(Some(outfile), Some(KindOf(outfile)), Some(if k == 0 then outfile else NextName(outfile, k + 1)),
             PageNames(outfile, k), k + 1, 0, false)
  }

  /** Closing after k page turns records k + 1 names, and splitting the
      final output path at newlines gives them back, in order. */
  lemma ClosedNames(outfile: string, k: nat)
    requires KindOf(outfile) != "pdf" && KindOf(outfile) != "pgf"
    requires '\n' !in outfile
    ensures Flushes(Create(Some(outfile), true), k).Ok?
    ensures var d := Flushes(Create(Some(outfile), true), k).value;
      && Close(d).Ok? && Close(d).value.outfile.Some?
      && Close(d).value.names == PageNames(outfile, k + 1)
      && Split(Close(d).value.outfile.value, '\n') == PageNames(outfile, k + 1)
  {
    FlushedNames(outfile, k);
    var d := Flushes(Create(Some(outfile), true), k).value;
    var names := PageNames(outfile, k + 1);

    forall i | 0 <= i < |names| ensures '\n' !in names[i] {
      if i > 0 {
        NoNewline(outfile, i + 1);
      }
    }
    SplitJoin(names, '\n');
  }

  /** Numbering a name that has no newline adds none. */
  lemma NoNewline(outfile: string, n: nat)
    requires '\n' !in outfile
    ensures '\n' !in NextName(outfile, n)
  {
    var (stem, ext) := SplitExt(outfile);
    var pad := Pad2(n);
    assert forall j :: 0 <= j < |pad| ==> IsDigit(pad[j]);
    assert forall j :: 0 <= j < |stem| ==> stem[j] == outfile[j];
    assert forall j :: 0 <= j < |ext| ==> ext[j] == outfile[|stem| + j];
  }

  /** The path override lags one page: the page saved at the next turn
      still uses the name numbered from the old path, only the name after
      it is numbered from the new path. */
  lemma OverrideLags(d: Document, outfile: string)
    requires Named(d) && d.kind.Some? && !Multipage(d)
    requires Flush(d).Ok?
    ensures var d1 := SetOutfile(Flush(d).value, outfile).value;
      && d1.newName == Some(NextName(d.outfile.value, d.figNumber + 1))
      && Flush(d1).Ok?
      && Flush(d1).value.names == d.names + [d.newName.value, NextName(d.outfile.value, d.figNumber + 1)]
      && Flush(d1).value.newName == Some(NextName(outfile, d.figNumber + 2))
  {
  }
}
