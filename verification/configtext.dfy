/** Preprocessing of layout files: `_process_config`, which turns a layout
    file into the option specification it is validated against, and
    `_parse_block_comments`, which comments out triple-quoted blocks. */
module ConfigText {
  import opened Results
  import opened Strings

  /** The triple quote that opens and closes a block comment. */
  const Delimiter: string := "\"\"\""

  /** The validator checks the option table can ask for. */
  datatype Check = UnitChoice | Boolean | FloatList | Text | Float | NonNegative | Integer

  /** The validator's spelling of a check, as written after `key = `. */
  function Spelling(c: Check): (s: string)
    ensures |s| > 0 && '\n' !in s
  {
    match c
    case UnitChoice => "option('inch', 'mm', default='inch')"
    case Boolean => "boolean"
    case FloatList => "float_list_value"
    case Text => "string"
    case Float => "float"
    case NonNegative => "float(min=0)"
    case Integer => "integer"
  }

  /** The check of every option a layout may set. */
  const ValidSpec: map<string, Check> := map[
    "figure_unit" := UnitChoice,
    "constrained_layout" := Boolean,
    "source_path" := Boolean,
    "source_path_position" := FloatList,
    "source_path_fontcolor" := Text,
    "source_path_fontsize" := Float,
    "margin_frame" := Boolean,
    "left_margin" := NonNegative,
    "right_margin" := NonNegative,
    "top_margin" := NonNegative,
    "bottom_margin" := NonNegative,
    "margin_pad" := Float,
    "framecolor" := Text,
    "framelinewidth" := Float,
    "box_frame" := Boolean,
    "box_label" := Text,
    "box_adjust_margin" := Boolean,
    "box_position" := FloatList,
    "box_height" := Float,
    "box_width" := Float,
    "text" := Text,
    "text_position" := FloatList,
    "text_position_offset" := FloatList,
    "horizontalalignment" := Text,
    "fontcolor" := Text,
    "fontsize" := Float,
    "fontstyle" := Text,
    "rotation" := Integer,
    "line_position_start" := FloatList,
    "line_position_end" := FloatList,
    "line_position_offset" := FloatList,
    "line_min" := Float,
    "line_max" := Float,
    "line_length" := Text,
    "line_width" := Float,
    "line_color" := Text,
    "linestyle" := Text,
    "image_path" := Text,
    "image_position" := FloatList,
    "image_position_offset" := FloatList
  ]

  /** No line holds a line break. */
  predicate NoBreaks(xs: seq<string>)
  {
    forall i :: 0 <= i < |xs| ==> '\n' !in xs[i]
  }

  /** The line pieces: carriage returns dropped, then split at every line
      break AND every `$` (line breaks are replaced by `$` before the
      split), empty pieces dropped and the rest stripped. */
  function Pieces(data: string): (r: seq<string>)
    ensures NoBreaks(r)
  {
    var text := ReplaceChar(RemoveChar(data, '\r'), '\n', '$');
    var parts := Split(text, '$');
    SplitAvoids(text, '$', '\n');
    StrippedNonEmpty(parts)
  }

  /** Splitting the text of a layout file between two lines (at a line
      break or a `$`) splits its pieces: the pieces come in file order. */
  lemma PiecesAppend(a: string, b: string, d: char)
    requires d == '\n' || d == '$'
    ensures Pieces(a + [d] + b) == Pieces(a) + Pieces(b)
  {
    var (a', b') := (RemoveChar(a, '\r'), RemoveChar(b, '\r'));
    RemoveCharAround(a, d, b, '\r');
    var (ra, rb) := (ReplaceChar(a', '\n', '$'), ReplaceChar(b', '\n', '$'));
    ReplaceAround(a', d, b');
    SplitAppend(ra, rb, '$');
    StrippedNonEmptyAppend(Split(ra, '$'), Split(rb, '$'));
  }

  /** Both line separators become `$`. */
  lemma ReplaceAround(a: string, d: char, b: string)
    requires d == '\n' || d == '$'
    ensures ReplaceChar(a + [d] + b, '\n', '$') == ReplaceChar(a, '\n', '$') + ['$'] + ReplaceChar(b, '\n', '$')
  {
    ReplaceCharAppend(a + [d], b, '\n', '$');
    ReplaceCharAppend(a, [d], '\n', '$');
    assert ReplaceChar([d], '\n', '$') == ['$'];
  }

  /** A single line without line breaks or `$` is one piece, stripped,
      unless it is empty. */
  lemma PiecesOne(t: string)
    requires '\r' !in t && '\n' !in t && '$' !in t
    ensures Pieces(t) == (if t == "" then [] else [Strip(t)])
  {
    RemoveCharCounts(t, '\r');
    assert Split(t, '$') == [t];
    assert [t][1..] == [];
  }

  /** `[t.strip() for t in parts if t != ""]` */
  function StrippedNonEmpty(parts: seq<string>): (r: seq<string>)
    ensures |r| <= |parts|
    ensures NoBreaks(parts) ==> NoBreaks(r)
  {
    if parts == [] then []
    else
      var rest := StrippedNonEmpty(parts[1..]);
      if parts[0] == "" then rest
      else
        [Strip(parts[0])] + rest
  }

  /** The comprehension keeps the order of the pieces: it works on each
      part of a list separately. */
  lemma {:induction false} StrippedNonEmptyAppend(a: seq<string>, b: seq<string>)
    ensures StrippedNonEmpty(a + b) == StrippedNonEmpty(a) + StrippedNonEmpty(b)
    decreases |a|
  {
    if a == [] {
      assert a + b == b;
    } else {
      assert (a + b)[0] == a[0];
      assert (a + b)[1..] == a[1..] + b;
      StrippedNonEmptyAppend(a[1..], b);
    }
  }

  /** A single piece is dropped when empty and stripped otherwise. */
  lemma StrippedNonEmptyOne(t: string)
    ensures StrippedNonEmpty([t]) == (if t == "" then [] else [Strip(t)])
  {
    assert [t][1..] == [];
  }

  /** `t.strip().strip("'").replace("'", "")`: surrounding whitespace and
      every quote go, and nothing else; a line without quotes is only
      stripped. */
  function Clean(t: string): (r: string)
    ensures '\'' !in r
    ensures '\n' !in t ==> '\n' !in r
    ensures '\'' !in t ==> r == Strip(t)
    ensures r == RemoveChar(Strip(t), '\'')
  {
    var q := StripBy(Strip(t), IsQuote);
    StripThenRemove(Strip(t), IsQuote, '\'');
    RemoveCharCounts(q, '\'');
    if '\n' !in t then RemoveCharAvoids(q, '\'', '\n'); CleanUnquoted(t); RemoveChar(q, '\'')
    else CleanUnquoted(t); RemoveChar(q, '\'')
  }

  /** A line without quotes only loses surrounding whitespace. */
  lemma CleanUnquoted(t: string)
    ensures '\'' !in t ==> StripBy(Strip(t), IsQuote) == Strip(t)
  {
    if '\'' !in t {
      StripByAvoids(t, IsSpace, '\'');
      StripByKeeps(Strip(t), IsQuote, '\'');
    }
  }

  /** `t[0:3] == '"""'`: the (cleaned) line starts with a triple quote. */
  predicate OpensBlock(t: string)
  {
    |t| >= 3 && t[..3] == Delimiter
  }

  /** A line the specification keeps verbatim: a comment or a section
      header. */
  predicate Verbatim(t: string)
  {
    |t| > 0 && (t[0] == '#' || t[0] == '[')
  }

  /** A specification line written for a known option. */
  predicate SpecLine(table: map<string, Check>, l: string)
  {
    exists key :: key in table && l == key + " = " + Spelling(table[key])
  }

  /** The key of an option line: the text before the first `=`, stripped. */
  function KeyOf(t: string): string
  {
    Strip(Before(t, '='))
  }

  /** The specification line for one option line (None when the line has
      no `=`), or the unknown-key error. */
  function OptionLine(table: map<string, Check>, t: string): (r: Result<Option<string>>)
    ensures '=' !in t ==> r == Ok(None)
    ensures '=' in t && KeyOf(t) in table ==> r == Ok(Some(KeyOf(t) + " = " + Spelling(table[KeyOf(t)])))
    ensures '=' in t && KeyOf(t) !in table ==> r == Err(UnknownConfigKey(KeyOf(t)))
  {
    if '=' !in t then Ok(None)
    else
      var key := KeyOf(t);
      if key in table then Ok(Some(key + " = " + Spelling(table[key]))) else Err(UnknownConfigKey(key))
  }

  /** What one cleaned line outside a block contributes: an empty line is
      an error, comments and section headers are kept, option lines become
      their specification line, other lines are dropped. */
  function LineSpec(table: map<string, Check>, t: string): (r: Result<Option<string>>)
    ensures t == "" ==> r == Err(EmptyConfigLine)
    ensures Verbatim(t) ==> r == Ok(Some(t))
    ensures t != "" && !Verbatim(t) ==> r == OptionLine(table, t)
    ensures r.Ok? && r.value.Some? ==> Verbatim(r.value.value) || SpecLine(table, r.value.value)
  {
    if t == "" then Err(EmptyConfigLine)
    else if Verbatim(t) then Ok(Some(t))
    else OptionLine(table, t)
  }

  /** Every kept line is a comment, a section header or the
      specification line of a known option. */
  predicate AllKept(table: map<string, Check>, out: seq<string>)
  {
    forall i :: 0 <= i < |out| ==> Verbatim(out[i]) || SpecLine(table, out[i])
  }

  /** The kept lines with what one line contributed in front. */
  function Prepend(o: Option<string>, rest: seq<string>): (r: seq<string>)
    ensures |r| <= |rest| + 1
  {
    if o.Some? then [o.value] + rest else rest
  }

  lemma PrependKept(table: map<string, Check>, o: Option<string>, rest: seq<string>)
    requires o.Some? ==> Verbatim(o.value) || SpecLine(table, o.value)
    requires AllKept(table, rest)
    ensures AllKept(table, Prepend(o, rest))
  {
    if o.Some? {
      var r := Prepend(o, rest);
      assert forall i :: 1 <= i < |r| ==> r[i] == rest[i - 1];
    }
  }

  /** The loop of `_process_config` over the line pieces, `block` telling
      whether a triple-quoted block is open. A line starting with a triple
      quote toggles the block; lines that leave the block open (the opening
      delimiter included) are skipped; every other line contributes what
      `LineSpec` says. */
  function ProcessLines(table: map<string, Check>, lines: seq<string>, block: bool): (r: Result<seq<string>>)
    ensures r.Ok? ==> |r.value| <= |lines| && AllKept(table, r.value)
    decreases |lines|
  {
    if lines == [] then Ok([])
    else
      var t := Clean(lines[0]);
      var block' := if OpensBlock(t) then !block else block;
      if block' then ProcessLines(table, lines[1..], block')
      else
        var o :- LineSpec(table, t);
        var rest :- ProcessLines(table, lines[1..], block');
        PrependKept(table, o, rest);
        Ok(Prepend(o, rest))
  }

  /** Whether a block is open after the given lines, starting from
      `block`. */
  function BlockAfter(lines: seq<string>, block: bool): bool
    decreases |lines|
  {
    if lines == [] then block
    else BlockAfter(lines[1..], if OpensBlock(Clean(lines[0])) then !block else block)
  }

  /** The kept lines of two consecutive runs: the first failure wins,
      otherwise the lines in order. */
  function Then(ra: Result<seq<string>>, rb: Result<seq<string>>): Result<seq<string>>
  {
    var x :- ra;
    var y :- rb;
    Ok(x + y)
  }

  /** What one line contributes, in front of the kept lines of the rest. */
  function Cons(ro: Result<Option<string>>, rest: Result<seq<string>>): Result<seq<string>>
  {
    var o :- ro;
    var x :- rest;
    Ok(Prepend(o, x))
  }

  /** One turn of the loop: a line that leaves a block open is skipped,
      any other line contributes what `LineSpec` says, before the rest. */
  lemma ProcessLinesStep(table: map<string, Check>, lines: seq<string>, block: bool)
    requires lines != []
    ensures var t := Clean(lines[0]);
      var block' := if OpensBlock(t) then !block else block;
      ProcessLines(table, lines, block)
      == (if block' then ProcessLines(table, lines[1..], block')
          else Cons(LineSpec(table, t), ProcessLines(table, lines[1..], block')))
  {
  }

  /** Contributing a line commutes with continuing with more lines. */
  lemma ThenCons(ro: Result<Option<string>>, ra: Result<seq<string>>, rb: Result<seq<string>>)
    ensures Then(Cons(ro, ra), rb) == Cons(ro, Then(ra, rb))
  {
    if ro.Ok? && ra.Ok? && rb.Ok? {
      assert Prepend(ro.value, ra.value + rb.value) == Prepend(ro.value, ra.value) + rb.value;
    }
  }

  /** The loop is strictly sequential: processing `a + b` is processing
      `a`, then `b` in the block state `a` left, and the first error in
      file order is the one raised. */
  lemma {:induction false} ProcessLinesAppend(table: map<string, Check>, a: seq<string>, b: seq<string>, block: bool)
    ensures ProcessLines(table, a + b, block)
         == Then(ProcessLines(table, a, block), ProcessLines(table, b, BlockAfter(a, block)))
    decreases |a|
  {
    if a == [] {
      assert a + b == b;
      assert ProcessLines(table, a, block) == Ok([]);
      if ProcessLines(table, b, block).Ok? {
        assert [] + ProcessLines(table, b, block).value == ProcessLines(table, b, block).value;
      }
    } else {
      assert (a + b)[0] == a[0];
      assert (a + b)[1..] == a[1..] + b;
      var t := Clean(a[0]);
      var block' := if OpensBlock(t) then !block else block;
      var rb := ProcessLines(table, b, BlockAfter(a, block));
      assert BlockAfter(a, block) == BlockAfter(a[1..], block');
      ProcessLinesStep(table, a + b, block);
      ProcessLinesStep(table, a, block);
      ProcessLinesAppend(table, a[1..], b, block');
      if !block' {
        ThenCons(LineSpec(table, t), ProcessLines(table, a[1..], block'), rb);
      }
    }
  }

  /** One line on its own: skipped when it leaves a block open, otherwise
      what `LineSpec` says about its cleaned text. */
  lemma ProcessLinesOne(table: map<string, Check>, line: string, block: bool)
    ensures ProcessLines(table, [line], block)
         == (if OpensBlock(Clean(line)) != block then Ok([]) else Cons(LineSpec(table, Clean(line)), Ok([])))
    ensures BlockAfter([line], block) == (OpensBlock(Clean(line)) != block)
  {
    assert [line][1..] == [];
  }

  /** A comment or section header outside a block is kept verbatim, in
      its place between the lines before and after it. */
  lemma CommentKeptInPlace(table: map<string, Check>, a: seq<string>, line: string, b: seq<string>, block: bool)
    requires !BlockAfter(a, block) && Verbatim(Clean(line))
    ensures ProcessLines(table, a + [line] + b, block)
         == Then(ProcessLines(table, a, block), Then(Ok([Clean(line)]), ProcessLines(table, b, false)))
  {
    var tail := [line] + b;
    assert a + [line] + b == a + tail;
    CommentFirst(table, line, b);
    ProcessLinesAppend(table, a, tail, block);
  }

  /** A comment or header heading lines outside a block is kept in front
      of what they keep. */
  lemma CommentFirst(table: map<string, Check>, line: string, b: seq<string>)
    requires Verbatim(Clean(line))
    ensures ProcessLines(table, [line] + b, false)
         == Then(Ok([Clean(line)]), ProcessLines(table, b, false))
  {
    var t := Clean(line);
    assert !OpensBlock(t) by {
      if |t| >= 3 { assert t[..3][0] == t[0]; }
    }
    ProcessLinesAppend(table, [line], b, false);
    ProcessLinesOne(table, line, false);
    assert Prepend(Some(t), []) == [t];
  }

  /** An unknown key fails the whole file wherever it sits outside a
      block, once the lines before it went through. */
  lemma LaterUnknownKeyFails(table: map<string, Check>, a: seq<string>, line: string, b: seq<string>, block: bool)
    requires ProcessLines(table, a, block).Ok? && !BlockAfter(a, block)
    requires var t := Clean(line);
      !OpensBlock(t) && t != "" && !Verbatim(t) && '=' in t && KeyOf(t) !in table
    ensures ProcessLines(table, a + [line] + b, block) == Err(UnknownConfigKey(KeyOf(Clean(line))))
  {
    var tail := [line] + b;
    assert a + [line] + b == a + tail;
    UnknownKeyRejected(table, line, b);
    FailsAfter(table, a, tail, block, UnknownConfigKey(KeyOf(Clean(line))));
  }

  /** A failure after lines that went through is the result. */
  lemma FailsAfter(table: map<string, Check>, a: seq<string>, tail: seq<string>, block: bool, e: PagerError)
    requires ProcessLines(table, a, block).Ok? && !BlockAfter(a, block)
    requires ProcessLines(table, tail, false) == Err(e)
    ensures ProcessLines(table, a + tail, block) == Err(e)
  {
    ProcessLinesAppend(table, a, tail, block);
  }

  /** Kept lines never span lines when the pieces do not: no spelling
      holds a line break. */
  lemma {:induction false} ProcessLinesOneLine(table: map<string, Check>, lines: seq<string>, block: bool)
    requires NoBreaks(lines)
    requires ProcessLines(table, lines, block).Ok?
    ensures NoBreaks(ProcessLines(table, lines, block).value)
    decreases |lines|
  {
    if lines != [] {
      var t := Clean(lines[0]);
      var block' := if OpensBlock(t) then !block else block;
      NoBreaksTail(lines);
      ProcessLinesOneLine(table, lines[1..], block');
      if !block' {
        LineSpecOneLine(table, lines[0]);
        PrependNoBreaks(LineSpec(table, t).value, ProcessLines(table, lines[1..], block').value);
      }
    }
  }

  lemma NoBreaksTail(xs: seq<string>)
    requires NoBreaks(xs) && xs != []
    ensures NoBreaks(xs[1..])
  {
    assert forall i :: 0 <= i < |xs| - 1 ==> xs[1..][i] == xs[i + 1];
  }

  lemma PrependNoBreaks(o: Option<string>, rest: seq<string>)
    requires o.Some? ==> '\n' !in o.value
    requires NoBreaks(rest)
    ensures NoBreaks(Prepend(o, rest))
  {
    if o.Some? {
      var r := Prepend(o, rest);
      assert forall i :: 1 <= i < |r| ==> r[i] == rest[i - 1];
    }
  }

  /** What a line without a line break contributes has none either. */
  lemma LineSpecOneLine(table: map<string, Check>, line: string)
    requires '\n' !in line
    requires LineSpec(table, Clean(line)).Ok?
    ensures LineSpec(table, Clean(line)).value.Some? ==> '\n' !in LineSpec(table, Clean(line)).value.value
  {
    var t := Clean(line);
    if '=' in t && !Verbatim(t) && KeyOf(t) in table {
      KeyLineClean(table, t, line);
    }
  }

  /** The specification line of an option line spans one line when the
      option line does. */
  lemma KeyLineClean(table: map<string, Check>, t: string, line: string)
    requires t == Clean(line) && '=' in t && KeyOf(t) in table
    requires '\n' !in line
    ensures '\n' !in KeyOf(t) + " = " + Spelling(table[KeyOf(t)])
  {
    var b := Before(t, '=');
    assert '\n' !in b by {
      assert b == t[..|b|];
    }
  }

  /** `cfg = cfg + "\n" + line` for every kept line. */
  function Render(out: seq<string>): (s: string)
  {
    if out == [] then "" else Render(out[..|out| - 1]) + "\n" + out[|out| - 1]
  }

  /** `_process_config` on the text of a layout file. */
  function ProcessConfig(data: string): (r: Result<string>)
    ensures r.Ok? <==> ProcessLines(ValidSpec, Pieces(data), false).Ok?
    ensures r.Ok? ==> Split(r.value, '\n') == [""] + ProcessLines(ValidSpec, Pieces(data), false).value
  {
    var out :- ProcessLines(ValidSpec, Pieces(data), false);
    ProcessLinesOneLine(ValidSpec, Pieces(data), false);
    RenderSplits(out);
    Ok(Render(out))
  }

  /** The rendered text is the lines joined after an empty first line. */
  lemma {:induction false} RenderIsJoin(out: seq<string>)
    ensures Render(out) == Join([""] + out, '\n')
    decreases |out|
  {
    if out != [] {
      var init := out[..|out| - 1];
      RenderIsJoin(init);
      JoinSnoc([""] + init, out[|out| - 1], '\n');
      assert [""] + init + [out[|out| - 1]] == [""] + out;
    }
  }

  /** Joining one more piece appends a separator and the piece. */
  lemma {:induction false} JoinSnoc(parts: seq<string>, last: string, sep: char)
    requires |parts| >= 1
    ensures Join(parts + [last], sep) == Join(parts, sep) + [sep] + last
    decreases |parts|
  {
    if |parts| > 1 {
      JoinSnoc(parts[1..], last, sep);
      assert (parts + [last])[1..] == parts[1..] + [last];
    } else {
      assert (parts + [last])[1..] == [last];
    }
  }

  /** Splitting the specification text at line breaks, as the pager does
      before validating, gives back an empty line and then exactly the kept
      lines. */
  lemma RenderSplits(out: seq<string>)
    requires NoBreaks(out)
    ensures Split(Render(out), '\n') == [""] + out
  {
    RenderIsJoin(out);
    var parts := [""] + out;
    assert forall i :: 1 <= i < |parts| ==> parts[i] == out[i - 1];
    SplitJoin(parts, '\n');
  }

  /** An option whose key is not in the table is rejected. */
  lemma UnknownKeyRejected(table: map<string, Check>, line: string, rest: seq<string>)
    requires var t := Clean(line);
      !OpensBlock(t) && t != "" && !Verbatim(t) && '=' in t && KeyOf(t) !in table
    ensures ProcessLines(table, [line] + rest, false) == Err(UnknownConfigKey(KeyOf(Clean(line))))
  {
    assert ([line] + rest)[1..] == rest;
  }

  /** A block that is opened and never closed hides everything after it:
      the specification keeps only what came before. */
  lemma {:induction false} UnclosedBlockHidesRest(table: map<string, Check>, lines: seq<string>)
    requires forall i :: 0 <= i < |lines| ==> !OpensBlock(Clean(lines[i]))
    ensures ProcessLines(table, lines, true) == Ok([])
    decreases |lines|
  {
    if lines != [] {
      UnclosedBlockHidesRest(table, lines[1..]);
    }
  }

  /** Inside a block even an empty line is harmless; outside, it is an
      error. */
  lemma EmptyLineOnlyFailsOutsideBlocks(table: map<string, Check>, line: string, rest: seq<string>)
    requires Clean(line) == ""
    ensures ProcessLines(table, [line] + rest, false) == Err(EmptyConfigLine)
    ensures ProcessLines(table, [line] + rest, true) == ProcessLines(table, rest, true)
  {
    assert ([line] + rest)[1..] == rest;
  }

  /** The line that `_parse_block_comments` toggles on: exactly a triple
      quote and a line break. */
  const DelimiterLine: string := Delimiter + "\n"

  /** How many delimiter lines a prefix of the file holds. */
  function Toggles(lines: seq<string>): nat
  {
    if lines == [] then 0
    else Toggles(lines[..|lines| - 1]) + (if lines[|lines| - 1] == DelimiterLine then 1 else 0)
  }

  /** A line is inside a block when an odd number of delimiter lines
      precede it. */
  predicate Inside(before: seq<string>)
  {
    Toggles(before) % 2 == 1
  }

  /** Whether a triple-quoted block is open after line `i` (the delimiter
      lines toggle it), from the number of delimiter lines up to and
      including line `i`. */
  lemma ToggleStep(lines: seq<string>, i: nat)
    requires i < |lines|
    ensures Inside(lines[..i + 1]) == (Inside(lines[..i]) != (lines[i] == DelimiterLine))
  {
    assert lines[..i + 1][..i] == lines[..i];
  }

  /** What `_parse_block_comments` writes for line `j`: the line commented
      out when it is a delimiter line or lies inside a block. */
  function Marked(lines: seq<string>, j: nat): string
    requires j < |lines|
  {
    if lines[j] == DelimiterLine || Inside(lines[..j]) then "#" + lines[j] else lines[j]
  }

  /** `_parse_block_comments` over the lines of a file (each with its line
      break). Every delimiter line and every line inside a block gets a
      leading `#`; all other lines are kept; nothing is added or dropped. */
  method ParseBlockComments(lines: seq<string>) returns (out: seq<string>)
    ensures |out| == |lines|
    ensures forall j :: 0 <= j < |lines| ==> out[j] == Marked(lines, j)
  {
    out := [];
    var block := false;
    var i := 0;
    while i < |lines|
      invariant 0 <= i <= |lines| && |out| == i
      invariant block == Inside(lines[..i])
      invariant forall j :: 0 <= j < i ==> out[j] == Marked(lines, j)
    {
      var line := lines[i];
      ToggleStep(lines, i);
      if line == DelimiterLine {
        block := !block;
        line := "#" + line;
      } else if block {
        line := "#" + line;
      }
      assert line == Marked(lines, i);
      out := out + [line];
      i := i + 1;
    }
  }
}
