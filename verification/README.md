# figpager page geometry and pagination, in Dafny

figpager wraps matplotlib so that a script can lay figures out on real paper.
A *layout* file declares margins, a margin frame, boxes, text, lines, images and
watermarks. The `FigPager` object looks the paper size up in a paper table, fixes
the orientation, and converts millimetre layouts to inches. It then draws each
page's decorations at normalised figure coordinates and hands out subplot cells
one at a time, turning the page when the grid is full. Finished pages are saved
either to numbered files (`plot.png`, `plot_02.png`, …) or to one multipage
PDF/PGF document.

This project models the deterministic core of `figpager/figpager.py` as immutable
data and pure functions. Every matplotlib call is reduced to the numbers it would
receive.

| module | file | models |
|---|---|---|
| `Results` | results.dfy | `Option`, `Result`, and the errors the pager raises or lets escape |
| `Strings` | strings.dfy | the ASCII string operations the pager relies on: `lower`, `title`, `strip`, `replace`, `split`, `join`, `"{:02}".format` |
| `LayoutConfig` | config.dfy | the parsed layout tree; `_parse_option`; Python truthiness and `float()` |
| `Paper` | paper.dfy | `_set_paper_size_orientation` |
| `Frame` | frame.dfy | the margin part of `_update_from_layout` |
| `Boxes` | boxes.dfy | `_box_from_label`, and the loop over the Boxes section |
| `Labels` | labels.dfy | the coordinate parts of `_text_from_label`, `_line_from_label` and `_image_from_label` |
| `Drawing` | drawing.dfy | `draw_page`: boxes, the margin frame, the subplot area, the layout reset, and the labels |
| `Cursor` | cursor.dfy | the cursor of `add_subplot` and the cursor reset of `add_page` |
| `Output` | output.dfy | the file-name bookkeeping of `add_page` and `close` |
| `Pager` | pager.dfy | construction, `add_page`, `add_subplot` and `close`, as transitions of one pager state |
| `ConfigText` | configtext.dfy | `_process_config` and `_parse_block_comments` |

Inputs that the source obtains from its surroundings are parameters of the model:

- the paper table;
- the parsed layout;
- whether the output file already existed;
- the grid geometry of a pre-built subplot region.

Behaviours that look unintended are modelled as the code does them, and the lemmas
named below make them explicit:

- A `top_margin` box with a non-negative height changes nothing. The guard `y + h < H - top` is false for every `h >= 0` (`Boxes.TopAnchoredBox`).
- A positive-width box at an absolute x moves the margins through the same horizontal update as an anchored one. That update can break `frame_width = page_width - left - right` (`Boxes.AbsoluteAnchorBreaksWidth`).
- A page turn restarts at the stored start index. The start index is forgotten only when it was `[0, 0]` (`Cursor.RolloverFromOtherStart`, `Cursor.RolloverFromOriginReusesOrigin`).
- `add_page` keeps the current cell and any start index other than `[0, 0]` (`Cursor.NewPage`).
- A pre-built region leaves the cursor at the (rows, cols) geometry of its grid, which forces a rollover on the next implicit request (`Cursor.RegionForcesRollover`).
- A millimetre layout multiplies the current page by 0.0393701 on every `_update_from_layout` call: twice during construction, and again after every margin-frame page (`Frame.UpdateCompoundsMm`, `Pager.OpenScalesMmPage`, `Drawing.DrawShrinksMmPage`).
- The orientation check is case-insensitive, but the side swap compares case-sensitively. `"Portrait"` is therefore accepted and never swaps (`Paper.MixedCaseOrientationKeepsSides`).
- Lines take their offset from the Images section (`Labels.LineOffset`).
- `add_subplot` defaults its direction to the truthy `"left-to-right"` (figpager/figpager.py:1031, 1042-1043). A plain `add_subplot()` therefore switches a top-to-bottom pager back to row-major order (`Cursor.PlainRequest`, `Cursor.PlainRequestScansRowMajor`, `Cursor.PlainRequestUndoesColumnMajor`).

## Model

| member | source | states |
|---|---|---|
| Strings.Lower | figpager/figpager.py:348-353 | the paper name is looked up in lower case: same length, every ASCII capital mapped to its small letter and nothing else changed |
| Strings.StripBy | figpager/figpager.py:444-448 | `strip`: the result is a slice of the input; everything cut from either end is a dropped character; a non-empty result neither starts nor ends with one; no line break is introduced |
| Strings.RemoveCharCounts | figpager/figpager.py:439 | `replace(c, "")`: no `c` is left, every other character survives as many times as before, and a text without `c` is unchanged |
| Strings.RemoveCharAppend | figpager/figpager.py:439 | removal works piece by piece, so the surviving characters keep their order |
| Strings.StripThenRemove | figpager/figpager.py:448-449 | stripping a character from both ends before removing it everywhere changes nothing |
| Strings.ReplaceChar | figpager/figpager.py:442 | `replace(a, b)`: each `a` becomes `b` in its place and every other character is kept; a text without `a` is unchanged |
| Strings.Before | figpager/figpager.py:461 | `t.split("=")[0]`: the prefix that ends just before the first `=`, or the whole text when there is none |
| Strings.Split | figpager/figpager.py:443 | `split` yields at least one piece and no piece holds the separator |
| Strings.SplitAvoids | figpager/figpager.py:442-443 | a character absent from the text is absent from every piece, so the pieces hold no line break |
| Strings.JoinSplit | figpager/figpager.py:1303 | joining the pieces of a split restores the text |
| Strings.SplitJoin | figpager/figpager.py:537 | splitting a join of separator-free pieces gives the same pieces back |
| Strings.SplitAppend | figpager/figpager.py:443 | splitting at a separator between two texts gives the pieces of the first followed by those of the second |
| Strings.Pad2 | figpager/figpager.py:1205-1206 | `"{:02}".format(n)`: decimal digits denoting n, exactly two with a leading zero below 10, no leading zero from 10 on |
| LayoutConfig.Find | figpager/figpager.py:518 | a label lookup fails exactly when no entry carries the label, and otherwise returns a declared entry of that label |
| LayoutConfig.ParseOption | figpager/figpager.py:503-525 | the label's own option wins; otherwise the option under the title-cased paper size and orientation; None exactly when neither exists |
| LayoutConfig.AsNumber | figpager/figpager.py:648-649 | `float()` succeeds exactly on numbers and booleans and keeps a number's value |
| LayoutConfig.Number | figpager/figpager.py:569-588 | a missing option is an error, a number is its value, and a value converts exactly when `float()` accepts it |
| LayoutConfig.Coordinate | figpager/figpager.py:708-710 | a position converts exactly when it is numeric; anything else is an invalid position |
| LayoutConfig.Item | figpager/figpager.py:695-696 | indexing a position succeeds exactly on a list long enough, and yields that element |
| Paper.ChooseOrientation | figpager/figpager.py:362-370 | with no orientation given: portrait when strictly taller, otherwise landscape; a given orientation is kept iff its lower-case form is portrait or landscape, else InvalidOrientation |
| Paper.Orient | figpager/figpager.py:372-383 | the sides are preserved as a multiset; exactly "portrait" gives height ≥ width; exactly "landscape" gives width ≥ height; any other spelling keeps the sides |
| Paper.Resolve | figpager/figpager.py:339-383 | success iff the lower-cased name is in the table and the orientation is absent or known; the two error cases; the resolved sides are the table's sides in an order consistent with the orientation; with no orientation given, the catalogue order is kept |
| Paper.MixedCaseOrientationKeepsSides | figpager/figpager.py:368-383 | an accepted orientation not spelled exactly portrait/landscape leaves the catalogue sides unswapped |
| Paper.LetterScenario | figpager/figpager.py:348-383 | "Letter" with no orientation is a portrait 8.5 × 11 page; letter in landscape is 11 × 8.5 |
| Paper.ResolvePositive | figpager/figpager.py:348-383 | a resolved page from a table of positive sizes has positive sides |
| Frame.NoMargins | figpager/figpager.py:596-603 | without a margin frame, the frame equals the page |
| Frame.ScaleMargins | figpager/figpager.py:566-595 | each margin and the pad are configured value × unit factor; the frame is the page minus opposing margins; it fails exactly when a value is missing |
| Frame.FrameMargins | figpager/figpager.py:566-595 | the margin-frame branch: the five configured distances scaled by the factor, and `framewidth`/`frameheight` derived from the page |
| Frame.ScaledList | figpager/figpager.py:606-610 | `source_path_position` becomes the list of its numbers × factor; a non-list is an error |
| Frame.ScaleAll | figpager/figpager.py:607-610 | elementwise scaling, same length, succeeding exactly when every element is numeric |
| Frame.UpdateFromLayout | figpager/figpager.py:527-619 | an empty layout is an error; `mm` multiplies the current page by 0.0393701 and fixes the factor; the margin frame is the truthiness of `margin_frame`, with the scaled margins when set and zero margins otherwise; the frame invariant always holds afterwards |
| Frame.UpdateSettles | figpager/figpager.py:557-603 | an inch layout re-read on its own result gives the same state |
| Frame.UpdateCompoundsMm | figpager/figpager.py:558-564 | two re-reads of a millimetre layout scale the page by the factor squared |
| Boxes.AnchorX | figpager/figpager.py:703-710 | `right_margin` puts the box at page width − right + box width; `left_margin` at the left margin; anything else must be numeric |
| Boxes.AnchorY | figpager/figpager.py:712-730 | top anchor: a negative height pushes top out and shrinks frame height by abs(h), and a non-negative one changes nothing; bottom anchor: positive h with `frame_width` width lifts the bottom margin by h; horizontal fields are untouched and the height invariant is kept |
| Boxes.AnchorWidth | figpager/figpager.py:732-747 | `frame_width` or a width equal to the frame changes nothing; a positive width moves left to x + w when that passes the left margin, shrinking the frame only when w < frame width; a non-positive width widens right and shrinks the frame by abs(w); vertical fields are untouched |
| Boxes.BoxStep | figpager/figpager.py:682-769 | a missing `box_frame` is an error; an unframed box changes nothing and draws nothing; a framed box draws a rectangle of non-negative height and returns the configured `box_height`; pad and the height invariant are kept |
| Boxes.TopAnchoredBox | figpager/figpager.py:712-720 | a negative height raises top by abs(h), lowers frame height by abs(h) and places the box on the new top edge; a non-negative height leaves the vertical margins alone |
| Boxes.BottomAnchoredBox | figpager/figpager.py:722-728 | positive h with `frame_width` width: bottom += h, frame height −= h, and the box sits on the old bottom margin |
| Boxes.LeftAnchoredBox | figpager/figpager.py:706-707 | a positive width at `left_margin` moves left out by w and shrinks the frame only when w is below the frame width |
| Boxes.NegativeWidthBox | figpager/figpager.py:744-747 | a non-positive width widens the right margin and shrinks the frame width by abs(w); the drawn width is abs(w) over the page width |
| Boxes.BoxRectangle | figpager/figpager.py:749-769 | the drawn rectangle's height is abs(h) over the page height, never negative, and the returned height is the configured one |
| Boxes.LeftAnchoredKeepsFrame | figpager/figpager.py:732-747 | a left-anchored box of width `frame_width`, below the frame, or non-positive keeps the full frame invariant |
| Boxes.AbsoluteAnchorBreaksWidth | figpager/figpager.py:735-743 | a box at x = 0 of width 2 on a 10-inch page with left margin 1 sets left to 2 but shrinks the frame only by 2, breaking the width invariant |
| Boxes.PlaceBoxes | figpager/figpager.py:939-941 | the fold over declared boxes draws at most one rectangle per box and keeps the pad |
| Boxes.PlaceBoxesAppend | figpager/figpager.py:939-941 | the fold is sequential: placing a + b is placing a, then placing b from the margins a left |
| Boxes.PlaceBoxesKeepHeight | figpager/figpager.py:712-728 | whatever boxes are declared, the frame height stays page height − top − bottom |
| Boxes.PlaceTwo | figpager/figpager.py:939-941 | the second of two boxes sees the margins the first left |
| Boxes.BoxOrderMatters | figpager/figpager.py:939-941 | swapping two declared boxes gives different left margins (3 vs 2) |
| Labels.ResolveX | figpager/figpager.py:634-648 | the x tokens `right_margin`/`left_margin` become page width − right and left; anything else must be numeric |
| Labels.ResolveY | figpager/figpager.py:634-649 | the y tokens `top_margin`/`bottom_margin` become page height − top and bottom; anything else must be numeric |
| Labels.Offset | figpager/figpager.py:651-657 | an offset is read exactly when it is a list of two numbers |
| Labels.TextAnchor | figpager/figpager.py:634-657 | tokens are substituted per axis, then the offset is added; it succeeds exactly when the position and the offset (if any) resolve |
| Labels.TextFromLabel | figpager/figpager.py:621-680 | the anchor is the resolved inch point over the page sides; `fontstyle` defaults to "normal" and `rotation` to 0, and present values pass through |
| Labels.CornerText | figpager/figpager.py:636-657 | a (`right_margin`, `top_margin`) label with offset (dx, dy) sits at (W − right + dx, H − top + dy) |
| Labels.Shifted | figpager/figpager.py:786-798 | a point list moved by an offset; fails exactly when the list is not two numbers |
| Labels.LineOffset | figpager/figpager.py:785-798 | a line is offset only when its Lines entry declares `image_position_offset`, and the value is then read from the Images entry of the same name |
| Labels.LineFromLabel | figpager/figpager.py:782-803 | both endpoints move by the same offset and are divided by the page sides |
| Labels.LineKeepsVector | figpager/figpager.py:782-803 | the drawn segment's direction and length depend only on the configured endpoints |
| Labels.ImageFromLabel | figpager/figpager.py:824-848 | an anchor is drawn exactly when `image_path` is truthy, at the offset position over the page sides; success exactly when the offset (if any) reads and, when it is applied, the position shifts; the offset is applied (and can fail) even without a path |
| Drawing.FrameOf | figpager/figpager.py:950-1003 | for any margins the axes run from the left and bottom margins to the right and top margins, and the subplot area starts a pad inside them and spans the stored frame less two pads; where the stored frame width (height) is the page less the margins, the axes span it and the area ends a pad inside the right (top) margin |
| Drawing.SourceAnchor | figpager/figpager.py:922-928 | the caller path is drawn only when `source_path` is set, at the position over the page sides |
| Drawing.DrawBoxes | figpager/figpager.py:936-941 | a missing Boxes section is an error; boxes are folded only when some key is non-empty |
| Drawing.Texts | figpager/figpager.py:1009-1012 | one entry per key, in order; an entry draws exactly when it has `text`; fails exactly when some entry fails |
| Drawing.Images | figpager/figpager.py:1014-1016 | one image result per key, in order |
| Drawing.Lines | figpager/figpager.py:1018-1020 | one segment per key, in order |
| Drawing.DrawPage | figpager/figpager.py:871-1029 | the figure has the current page size; without a margin frame the state is unchanged; with one, the boxes are folded on the current margins, the frame comes from the margins they leave, and the state becomes a fresh layout read; labels are placed with the state after that reset |
| Drawing.DrawSettles | figpager/figpager.py:1005-1007 | in an inch layout, drawing again from the state a draw leaves draws the same page |
| Drawing.DrawShrinksMmPage | figpager/figpager.py:1005-1007 | in a millimetre margin-frame layout, every drawn page leaves the page smaller by the factor |
| Cursor.Advance | figpager/figpager.py:1049-1093 | left-to-right: next column, then next row at column 0, then none; top-to-bottom: next row, then next column at row 0, then none |
| Cursor.NewPage | figpager/figpager.py:1261-1266 | the start index is cleared iff it is none or [0, 0], is otherwise kept, and the direction is set |
| Cursor.Implicit | figpager/figpager.py:1046-1093 | with no start index the cell and start become (0,0); otherwise the scan advances, and past the last cell the page turns and the cell becomes the stored start with direction left-to-right |
| Cursor.AddSubplot | figpager/figpager.py:1043-1109 | an explicit position becomes both cursor and start index, unchecked; a region overrides the cursor with its grid geometry; the cursor always equals the returned cell |
| Cursor.ColumnMajorIsTransposed | figpager/figpager.py:1049-1088 | top-to-bottom scanning is left-to-right scanning of the transposed grid |
| Cursor.AdvanceRowMajor | figpager/figpager.py:1049-1063 | in a grid, a left-to-right step goes to the next row-major index, and exists iff the cell is not the last |
| Cursor.StaysInGrid | figpager/figpager.py:1046-1093 | from an in-grid cursor and start, every scan request lands in the grid |
| Cursor.RowMajorScan | figpager/figpager.py:1049-1063 | n left-to-right requests visit the next n row-major indices without a page turn |
| Cursor.FreshPageFills | figpager/figpager.py:1049-1069 | nrows × ncols requests from a fresh cursor fill every cell once in row-major order; the next one turns the page and lands on (0,0) |
| Cursor.RolloverFromOriginReusesOrigin | figpager/figpager.py:1064-1069 | a turn from start [0, 0] forgets the start, so the next request claims (0,0) again |
| Cursor.RolloverFromOtherStart | figpager/figpager.py:1064-1069 | a turn from another start keeps it, and the cursor restarts there |
| Cursor.ExplicitLastCellRepeats | figpager/figpager.py:1094-1097 | an explicit position at the last cell makes every later request turn the page onto that cell |
| Cursor.RegionForcesRollover | figpager/figpager.py:1106-1109 | a cursor at the grid's geometry turns the page on the next scan request |
| Cursor.RegionScenario | figpager/figpager.py:1043-1109 | on a 3 × 2 grid: four cells, a region, then a page turn to (0,0) and (0,0) again |
| Cursor.ColumnMajorScenario | figpager/figpager.py:1071-1093 | a 2 × 2 grid top-to-bottom gives (0,0), (1,0), (0,1), (1,1), then a page turn |
| Cursor.PlainRequestScansRowMajor | figpager/figpager.py:1031-1043 | a plain `add_subplot()` continues in row-major order and sets the direction to left-to-right, whatever direction the cursor had |
| Cursor.PlainRequestUndoesColumnMajor | figpager/figpager.py:1031-1043 | from (0,0) of a 2 x 2 top-to-bottom pager, a falsy direction goes down to (1,0) but a plain call goes right to (0,1) |
| Output.SplitExt | figpager/figpager.py:1203 | `os.path.splitext`: stem + extension is the path; the extension is empty or a dot with no further dot or slash |
| Output.KindOf | figpager/figpager.py:158 | the kind is the extension without its dot |
| Output.NextNameSplits | figpager/figpager.py:1203-1207 | a numbered name splits into the numbered stem and the original extension |
| Output.SecondPageName | figpager/figpager.py:1203-1207 | `plot.png` is followed by `plot_02.png` |
| Output.Create | figpager/figpager.py:134-245 | only an output file that existed gives a kind; the next name is the output path; no names, counter 1 |
| Output.Flush | figpager/figpager.py:1171-1210 | multipage: one more page, failing iff closed; single-file: the current name is recorded and the next is numbered with the incremented counter; no kind: unchanged |
| Output.SetOutfile | figpager/figpager.py:1225-1231 | an output-path override fails exactly for a multipage document and otherwise changes only the path |
| Output.Close | figpager/figpager.py:1286-1327 | no path: unchanged; single-file: the last name is recorded and the path becomes the newline-joined names; multipage: one more page and closed, failing iff already closed |
| Output.PageNames | figpager/figpager.py:1200-1207 | the first k saved names are the output path, then the `_NN` names from 2 on |
| Output.FlushedNames | figpager/figpager.py:1200-1207 | k page turns of a fresh single-file document record exactly the first k page names |
| Output.ClosedNames | figpager/figpager.py:1299-1303 | after k turns and close, splitting the output path at newlines gives back the k + 1 saved names in order |
| Output.OverrideLags | figpager/figpager.py:1203-1227 | after an outfile override the next saved page still uses the name numbered from the old path |
| Pager.Open | figpager/figpager.py:78-283 | construction resolves the paper, reads the layout twice and draws; the result is valid, with cursor at the given start, a fresh document, and the paper errors passed through |
| Pager.OpenDraws | figpager/figpager.py:269-282 | the first page is drawn from the state two layout reads of the catalogue page leave |
| Pager.OpenScalesMmPage | figpager/figpager.py:269-282 | a millimetre layout's first page is the catalogue page × factor² |
| Pager.OpenShrinksMmFramePage | figpager/figpager.py:280-282 | with a margin frame, the state after the first page is the drawn page shrunk once more |
| Pager.Reorient | figpager/figpager.py:1233-1238 | a new orientation resolves the page again in inches and recomputes the frame from the margins in place |
| Pager.Draw | figpager/figpager.py:1274 | drawing keeps the pager valid and stores the new state and output |
| Pager.Regrid | figpager/figpager.py:1212-1223 | paper name, rows and columns are replaced when given; both ratios are replaced when either is given; nothing else changes |
| Pager.Turn | figpager/figpager.py:1171-1272 | the page is saved first, and its failure is the result; a multipage outfile override fails; then the cursor reset and grid overrides; an orientation override re-resolves the sheet (Reorient) and a layout override re-reads it (UpdateFromLayout) from there, each failure passed through |
| Pager.AddPage | figpager/figpager.py:1119-1276 | the turn, then a draw at the page size the turn left, keeping the pager valid |
| Pager.PaperOverrideKeepsPage | figpager/figpager.py:1212-1213 | a paper-size override alone keeps an inch page's size |
| Pager.AddSubplot | figpager/figpager.py:1043-1117 | the cursor decides the cell; a rollover is exactly one add_page with the stored start index |
| Pager.SubplotSavesOnRollover | figpager/figpager.py:1064-1069 | a single-file document records one more name exactly when the subplot request rolls over |
| Pager.MultipageKeepsPath | figpager/figpager.py:1225-1231 | an outfile override on a multipage document fails, on the closed check first |
| Pager.Close | figpager/figpager.py:1278-1327 | close changes only the document |
| Pager.ClosedPdfRefusesPages | figpager/figpager.py:1184-1186 | a closed multipage document refuses a new page and a second close |
| ConfigText.Spelling | figpager/figpager.py:393-434 | every validator spelling is a non-empty single line |
| ConfigText.Pieces | figpager/figpager.py:439-444 | no piece holds a line break; the pieces themselves are pinned by PiecesAppend and PiecesOne |
| ConfigText.PiecesAppend | figpager/figpager.py:439-444 | a file split at a line break or `$` yields the pieces of the part before, then those of the part after |
| ConfigText.PiecesOne | figpager/figpager.py:439-444 | one line without breaks, `\r` or `$` yields nothing when empty and otherwise itself, stripped |
| ConfigText.StrippedNonEmpty | figpager/figpager.py:444 | no more pieces than before and no line breaks introduced; the kept pieces are pinned by StrippedNonEmptyAppend and StrippedNonEmptyOne |
| ConfigText.StrippedNonEmptyAppend | figpager/figpager.py:444 | the comprehension keeps the order of the pieces: a concatenation maps to the concatenation |
| ConfigText.StrippedNonEmptyOne | figpager/figpager.py:444 | an empty piece is dropped and any other is kept stripped |
| ConfigText.Clean | figpager/figpager.py:448-449 | the cleaned line is the stripped line with every quote removed and nothing else changed (the quote strip of line 448 is subsumed by the removal); so no quote is left, no line break is introduced, and a line without quotes is only stripped |
| ConfigText.OptionLine | figpager/figpager.py:459-466 | a line without `=` contributes nothing; a known key becomes `key = spec`; an unknown key is an error |
| ConfigText.LineSpec | figpager/figpager.py:452-471 | an empty line is an error; comments and headers are kept; option lines become their spec line |
| ConfigText.ProcessLines | figpager/figpager.py:447-471 | no more lines out than in, and every kept line is a comment, a header or a known option's spec line; which lines, and in what order, is pinned by ProcessLinesAppend and ProcessLinesOne |
| ConfigText.ProcessLinesAppend | figpager/figpager.py:447-471 | processing `a + b` is processing `a`, then `b` in the block state `a` left; the first error in file order is the result, otherwise the kept lines in order |
| ConfigText.ProcessLinesOne | figpager/figpager.py:447-471 | a single line is skipped when the block is open after it, and otherwise contributes what LineSpec gives for its cleaned text |
| ConfigText.CommentKeptInPlace | figpager/figpager.py:452-471 | a comment or header outside a block is kept verbatim between the kept lines before and after it |
| ConfigText.LaterUnknownKeyFails | figpager/figpager.py:459-466 | an unknown key outside a block fails the whole file wherever it sits, once the lines before it went through |
| ConfigText.ProcessLinesOneLine | figpager/figpager.py:447-471 | no kept line spans two lines |
| ConfigText.ProcessConfig | figpager/figpager.py:385-474 | succeeds exactly when the loop does, and splitting its text at line breaks gives an empty line followed by the kept lines |
| ConfigText.RenderIsJoin | figpager/figpager.py:462-471 | `cfg + "\n" + line` repeated is the newline-join of an empty line and the kept lines |
| ConfigText.RenderSplits | figpager/figpager.py:537 | splitting the rendered text at line breaks gives back an empty line followed by the kept lines |
| ConfigText.UnknownKeyRejected | figpager/figpager.py:459-466 | an option line with an unknown key outside a block fails with that key |
| ConfigText.UnclosedBlockHidesRest | figpager/figpager.py:452-455 | inside an unclosed block nothing is kept |
| ConfigText.EmptyLineOnlyFailsOutsideBlocks | figpager/figpager.py:452-458 | a line that cleans to empty is an error outside a block and skipped inside one |
| ConfigText.ToggleStep | figpager/figpager.py:493-494 | the block is open after a line iff it was open before xor the line is a delimiter |
| ConfigText.ParseBlockComments | figpager/figpager.py:476-501 | the same number of lines; a delimiter line or a line inside a block gets a leading `#`, and every other line is kept |

## Left out

- Rendering: matplotlib figures, axes, `GridSpec`, `figtext`, `Line2D`, tick settings and `rc_context`. Only the numbers passed to them are modelled.
- Filesystem and interactive I/O (figpager/figpager.py:137-156): the directory check, `os.remove`, and the overwrite prompt. Whether the output file existed is an input of `Output.Create`.
- `_read_layout`, reading the layout and paper-size ini files, and package paths. These are filesystem lookups; the paper table and the parsed layout are inputs.
- The `configobj` validation and `float_list_value`. They belong to a library that is not part of this model. The layout is assumed already validated, so numeric text appears as `Num`.
- A layout of `None` (no layout path), where `_update_from_layout` does nothing. The model always has a parsed layout.
- Tuple paper sizes. In the constructor a tuple skips the whole paper-size branch (figpager/figpager.py:186-219), so the page size and `paper_size` are never set and construction fails later on those missing attributes. `add_page(paper_size=tuple)` without an orientation stores the tuple (figpager/figpager.py:1212-1213) and keeps the old page; it fails only when `_parse_option` falls back to the paper group (figpager/figpager.py:521). With an orientation it fails on `.lower()` (figpager/figpager.py:349). The model's paper size is always a name.
- PDF saving and closing through `PdfPages`, and the `infodict` timestamps. Detecting a closed PDF by matching an `AttributeError` message is modelled as a `closed` flag.
- Image pixel size and figure DPI (figpager/figpager.py:835-855). Only the image anchor is modelled.
- `get_caller_filepath`, which uses `inspect`. The caller path is only placed, never computed.
- `constrained_layout`, `sharex`/`sharey`, frame colour and line width, fonts, and the `dpi`/colour/`bbox`/metadata overrides of `add_page`. They are passed to the renderer unchanged.
- `text_from_label` (figpager/figpager.py:857-869) and the context-manager methods. They are one-line delegations to `_text_from_label` and `close`.
- Unicode case mapping and whitespace. `lower`, `title` and `strip` are modelled for ASCII only.
- Partial updates before an error. In the model an `Err` result is terminal and carries no pager state. The source raises after earlier mutations and leaves the partly updated pager behind. For example, `add_page` saves and closes the page (figpager/figpager.py:1171-1210) and applies the paper, grid and ratio overrides (figpager/figpager.py:1212-1223) before it raises for a multipage outfile (figpager/figpager.py:1225-1231).
- IEEE floating point. Coordinates and the 0.0393701 factor are exact reals.
- Labels.LineFromLabel: the source adds the offset in place to the configuration's own lists (figpager/figpager.py:786-798). Without a margin frame the layout is not re-read, so a later page would add it again. The model applies the offset once per page.
- Labels.ImageFromLabel: the same in-place offset accumulation (figpager/figpager.py:828-833) is not modelled.
