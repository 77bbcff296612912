# Resume layout engine: a Dafny model

`templates.py` turns a resume (a dictionary of text fields) into a PDF in
one of seven styles. This project models its layout core and proves
properties about it:

- **Word wrapping.**
  - `wrap_text_dynamic` is shared by templates 1 to 5. It wraps greedily
    and cuts a word that is too wide for the column into pieces,
    character by character.
  - `template6_wrap_text` (copied as `template7_wrap_text`) wraps greedily
    with no such fallback.
- **The two-column flow of templates 1 to 5.**
  - `draw_content` runs a loop that takes turns between the sidebar and
    the main column. Each turn draws at most one header and one body
    line. The loop stops when no room is left or nothing was drawn.
    The function also draws the name/job-role banner and tracks each
    column's printed headers.
  - A driver calls `draw_content` from the top of each page and calls
    `start_new_page` (a page break plus the sidebar background) while
    any section is still unplaced.
- **The single-column body of templates 6 and 7.**
  - `template6_ensure_space` starts a page when the next item does not
    fit above the margin.
  - The section loop draws every section that has content: an
    upper-cased header, then its wrapped lines.
- **The field validators** `is_valid_email` and `is_valid_phone`.

How the model represents the program:

- Font measurement (`c.stringWidth` for the selected font and size) is a
  parameter `measure: string -> real`.
- Page geometry, sizes and `y` are exact reals.
- The resume is a `map<string, string>`. A field is "truthy" when its key
  is present and its value is non-empty.
- Drawing is a trace of marks: text at a column and height, a page break,
  the sidebar background.
- The closure state of `templateN_draw_resume` is the class
  `TwoColumnDraw.Document`: the two printed-header sets and the canvas.
- The single-column canvas is the class `SingleColumn.Sheet`.
- Each loop of the source is a `while` loop in a method. The method is
  proved equal to a recursive specification function, and the
  properties are lemmas about that function.

Files:

- `pystr.dfy` (`PyStrings`): the Python string built-ins used:
  `isspace`, `strip`, `split`, `join` and `upper`.
- `validators.dfy` (`Validators`): the two validators.
- `wrap.dfy` (`Wrap`): both wrappers, as loops plus one fold over
  paragraphs and words.
- `wrap_facts.dfy` (`WrapFacts`): what the wrappers guarantee.
- `wrap_fixed.dfy` (`WrapFixed`): the corrected oversized-word branch
  (see Findings).
- `flow.dfy` (`Flow`): the specification of `draw_content` and the
  driver.
- `flow_facts.dfy` (`FlowFacts`): what the flow guarantees.
- `flow_fixed.dfy` (`FlowFixed`): the corrected driver (see Findings).
- `two_column.dfy` (`TwoColumnDraw`): the imperative two-column drawing
  state.
- `single.dfy` (`SingleColumn`): the single-column body.

The five copies of `draw_content`, of the driver and of `start_new_page`
(templates 1 to 5) are one model; so are the template 6 and 7 copies of
the wrapper, of `ensure_space` and of the section loop. The copies differ
only in colours, fonts, the section lists and the banner's fallback for a
missing name.

## Model

| member | source | states |
|---|---|---|
| PyStrings.StripEmptyIffAllSpace | templates.py:87 | `s.strip()` is empty exactly when every character of `s` is whitespace, which is what makes a paragraph blank |
| PyStrings.StripLeftIsSuffix | templates.py:93 | `lstrip` removes only a whitespace prefix and stops at a non-whitespace character |
| PyStrings.StripRightIsPrefix | templates.py:93 | `rstrip` removes only a whitespace suffix and stops at a non-whitespace character |
| PyStrings.StripSurrounded | templates.py:73 | whitespace added around a string does not change its `strip()` |
| PyStrings.StripKeeps | templates.py:93 | `strip` leaves alone a string whose two end characters are not whitespace |
| PyStrings.StripSpacePrefix | templates.py:93 | stripping `" " + word` when the line is still empty gives back the word |
| PyStrings.Split | templates.py:90 | `split(sep)` gives at least one piece, and no piece contains the separator |
| PyStrings.JoinSplit | templates.py:86 | joining the pieces of `s.split(sep)` with `sep` gives `s` back |
| PyStrings.SplitAround | templates.py:90 | splitting at one separator splits the two sides independently |
| PyStrings.SplitNoSep | templates.py:90 | a string without the separator splits into itself alone |
| PyStrings.JoinAppend | templates.py:90 | joining a concatenation puts exactly one separator between the two parts |
| PyStrings.Upper | templates.py:234 | `upper()` keeps the length of the string |
| Validators.Core | templates.py:69 | the part `^...$` must match is the whole input, or the input without one final line break |
| Validators.FirstIndexOf | templates.py:66-69 | gives the first position of the character, or the length when it does not occur |
| Validators.LastIndexOf | templates.py:66-69 | gives the last position of the character, or -1 when it does not occur |
| Validators.IsValidEmail | templates.py:66-69 | the model of `is_valid_email` (no contract of its own): the input less one final "\n" must cut, at its first "@" and last ".", into a local part, a domain and a suffix; `EmailCheckMatchesPattern` proves it equal to the regular expression |
| Validators.EmailCheckMatchesPattern | templates.py:66-69 | `is_valid_email` is true exactly when `^[\w\.-]+@[\w\.-]+\.\w+$` matches: the input (less one final "\n") splits into a local part, "@", a domain of class characters, ".", and a non-empty run of word characters |
| Validators.ValidEmailHasOneAt | templates.py:66-69 | a valid address holds exactly one "@" |
| Validators.EmailTrailingNewline | templates.py:66-69 | because of `$`, an address followed by one "\n" is judged like the address itself, and one followed by two is refused |
| Validators.EmailMissing | templates.py:69 | a missing address (`None` becomes "") is invalid |
| Validators.EmailExampleValid | templates.py:66-69 | "a@b.co" is valid |
| Validators.EmailExampleNoDot | templates.py:66-69 | "john@localhost" is invalid: the domain needs a dot |
| Validators.EmailExampleNoLocalPart | templates.py:66-69 | "@example.com" is invalid: the local part must be non-empty |
| Validators.Digits | templates.py:76 | `re.sub(r'\D', '', s)` is no longer than `s` and holds only digits |
| Validators.IsValidPhone | templates.py:72-77 | the model of `is_valid_phone` (no contract of its own): the stripped input matches `^\+?[\d\s-]+$` and holds 10 to 15 digits; `ValidPhoneShape` and the examples below state what that means |
| Validators.DigitsAppend | templates.py:76 | taking the digits distributes over concatenation |
| Validators.DigitsOfDigits | templates.py:76 | a string of digits keeps all of its digits |
| Validators.DigitsIdempotent | templates.py:76 | taking the digits twice is taking them once |
| Validators.ValidPhoneShape | templates.py:72-77 | a valid number, once stripped, is at least ten characters long and holds only characters of `[\d\s-]`, apart from a "+" in front |
| Validators.PhoneIgnoresSurroundingSpace | templates.py:73 | whitespace around the number does not change the verdict |
| Validators.PhoneDashOrSpace | templates.py:74-77 | between two parts with no whitespace at their outer ends, a "-" and a space are interchangeable |
| Validators.SeparatorDigits | templates.py:76 | a non-digit separator adds no digit |
| Validators.SeparatorPattern | templates.py:74 | replacing one character of `[\d\s-]` after the first by another keeps the pattern |
| Validators.BodyAround | templates.py:74 | any string around one class character is still a run of class characters |
| Validators.PhoneMissing | templates.py:73-74 | a missing number and a lone "+" are invalid |
| Validators.PhoneExampleValid | templates.py:72-77 | "+0123456789" (ten digits) is valid |
| Validators.PhoneExampleTooShort | templates.py:76-77 | "555-1234" is invalid: only seven digits |
| Validators.PhoneExampleParentheses | templates.py:74 | "(555) 123-4567" is invalid whatever its digit count |
| Wrap.WrapTextDynamic | templates.py:83-116 | the loop's lines are exactly the fold `WrapLines(Dynamic, …)`: paragraphs split on "\n", a blank one gives "", words split on " ", fit/oversized/break per word, and a final flush |
| Wrap.WrapWordsDynamic | templates.py:90-115 | the word loop of one paragraph appends exactly the flushed fold over its words |
| Wrap.BreakLongWord | templates.py:97-107 | the character loop ends in the fold `BreakWord` over the whole word, from an empty `sub` |
| Wrap.WrapTextPlain | templates.py:1292-1310 | `template6_wrap_text` (and the identical `template7_wrap_text`, templates.py:1464-1483) returns exactly the fold `WrapLines(Plain, …)` |
| Wrap.WrapWordsPlain | templates.py:1299-1309 | the word loop of `template6_wrap_text` appends exactly the flushed fold over the words |
| Wrap.BreakWordFrom | templates.py:99-105 | the character loop only appends to the shared `lines`, whatever was already there |
| Wrap.WordsFrom | templates.py:92-113 | the word loop on a shared `lines` list only appends to it |
| Wrap.FlushFrom | templates.py:90-115 | the lines one paragraph appends are that paragraph's own, whatever came before |
| Wrap.CharStep | templates.py:99-105 | the model of one character of the fallback (no contract of its own): append while `sub + ch` fits, else emit a non-empty `sub` and restart from `ch`; `BreakWordFragments` and `BreakWordOk` state its effect |
| Wrap.BreakWord | templates.py:97-107 | the model of the character loop over a word (no contract of its own); `BreakWordExtends`, `BreakWordFragments` and `BreakWordOk` state that it only appends, spells the word and keeps each fragment within the width or one character |
| Wrap.WordStep | templates.py:93-113 | the model of one word of either word loop (no contract of its own): fit, oversized (character fallback, dynamic only) or break; `WordStepExtends`, `StepAgree` and `DynamicOversizedKeepsOnlyTheWord` state its effect |
| Wrap.WrapLines | templates.py:83-116 | the model of the whole wrapper (no contract of its own), which the loops `WrapTextDynamic` and `WrapTextPlain` are proved equal to; its properties are the `WrapFacts` lemmas below |
| WrapFacts.DynamicEmptyLineIffBlank | templates.py:86-89 | a blank or whitespace-only paragraph gives exactly one empty line; any other paragraph gives no empty line |
| WrapFacts.EmptyTextIsOneEmptyLine | templates.py:86-89 | in both wrappers, the empty text (and so `None`) wraps to `[""]` |
| WrapFacts.DynamicCleanHasLine | templates.py:90-115 | a paragraph of single-space-separated words gives at least one line, even when words are too wide |
| WrapFacts.DynamicWidthBound | templates.py:92-113 | every line of `wrap_text_dynamic` is empty, fits in `max_width`, or is one character too wide by itself; no property of the measure is assumed |
| WrapFacts.GreedyWhenNoWordTooWide | templates.py:90-115 | if every word of a clean paragraph fits on its own, then in both wrappers the lines are non-empty and fit, each is maximal (the next line's first word would overflow it), and joined by single spaces they give the paragraph back |
| WrapFacts.PlainAgreesWithDynamic | templates.py:1299-1309 | when every word fits, the two wrappers give the same lines |
| WrapFacts.ExampleABC | templates.py:83-116 | the documented example: with one unit per character and room for three, "A B C D E" wraps to "A B", "C D", "E", in both wrappers |
| WrapFacts.BreakWordFragments | templates.py:97-107 | the character fallback keeps the earlier lines, and its new fragments plus the final `sub` spell the word |
| WrapFacts.DynamicOversizedKeepsOnlyTheWord | templates.py:97-109 | when a word too wide by itself does not fit after the gathered line, the new lines and the new gathered line are exactly that word; the gathered words are not among them |
| WrapFacts.DynamicDropsGatheredWords | templates.py:97-109 | with one unit per character and room for three, "ab cdef" wraps to "cde", "f": the word "ab" is lost |
| WrapFacts.PlainLinesFitOrAreWords | templates.py:1301-1309 | every line of `template6_wrap_text` is empty, fits, or is one whole word of the paragraph: a too-wide word is emitted unbroken |
| WrapFacts.PlainOversizedFirstWord | templates.py:1303-1307 | with a monotone measure, a clean paragraph whose first word is too wide gives an empty line and then that word, because the still empty line is appended |
| WrapFacts.PlainKeepsAllText | templates.py:1299-1309 | `template6_wrap_text` loses no text of a clean paragraph: apart from a possible empty first line, its lines are non-empty and joined by single spaces give the paragraph back |
| WrapFixed.FixedKeepsAllText | templates.py:97-109 | with the gathered line emitted before a too-wide word is cut, the lines of a clean paragraph spell all its words, less the separating spaces |
| WrapFixed.DynamicLosesText | templates.py:97-109 | as written, the lines for "ab cdef" (room for three) do not spell its words |
| WrapFixed.FixedExample | templates.py:97-109 | corrected, "ab cdef" (room for three) wraps to "ab", "cde", "f" |
| Flow.WrappedSections | templates.py:188-205 | one list of wrapped lines per section |
| Flow.ColumnStep | templates.py:225-283 | the model of one column's turn of the loop (no contract of its own; the sidebar copy is templates.py:225-253, the main copy 255-283); `StepForward` and the `Step…` lemmas below state its effect |
| Flow.Banner | templates.py:207-220 | the model of the banner (no contract of its own); `DrawContentBanner` states what it draws and where the main column starts |
| Flow.DrawContent | templates.py:174-289 | the model of `draw_content` (no contract of its own): the banner, the loop and `min(sidebar_y, main_y)`; the `DrawContent…` lemmas below state its effect |
| Flow.Pages | templates.py:313-321 | the model of the driver loop with a budget of calls (no contract of its own); the `Pages…` lemmas and `RenderOk` state its effect |
| Flow.AfterCall | templates.py:319-321 | the model of what follows one call (no contract of its own): stop when both lists are placed, else `start_new_page` (templates.py:168-172) and go on |
| Flow.Render | templates.py:292-321 | the model of the whole two-column document from the first page (no contract of its own); `RenderOk`, `RenderFinishes` and `RenderDoneIff` state its effect |
| Flow.StepForward | templates.py:225-283 | one column's turn never moves its cursor `(idx, line)` backwards; drawing or moving strictly shrinks what is left of the column |
| Flow.Loop | templates.py:222-286 | the loop of `draw_content` ends, and neither cursor ends behind where it started |
| FlowFacts.StepHeaders | templates.py:229-236 | a header is drawn only on a section's first line when its text is not yet in the column's printed set, and it is then added; otherwise the set is unchanged and the other column draws no header |
| FlowFacts.StepMarks | templates.py:225-253 | a turn draws at most a header and then one body line, in its own column, each after its space check; `drew` holds exactly when a body line was drawn; a header is the current section's, drawn only on its first line when not yet printed, and then recorded |
| FlowFacts.StepInRange | templates.py:238-253 | a turn keeps the line index below the current section's line count |
| FlowFacts.StepBlocked | templates.py:230-231 | a turn that breaks out leaves its column's next item not fitting above the bottom margin |
| FlowFacts.StepStuck | templates.py:227 | a turn never passes a section whose content is not truthy |
| FlowFacts.StepMoves | templates.py:227-253 | with room for a header and a line, a turn on a section with content is not blocked and moves the cursor |
| FlowFacts.LoopTrace | templates.py:222-286 | the loop draws only headers and body lines, each having passed `y - (size + gap) > bottom_margin` |
| FlowFacts.LoopHeaders | templates.py:151-152 | over the loop, each column draws each header text at most once and only if not yet printed, and its printed set grows by exactly the headers it drew |
| FlowFacts.LoopInRange | templates.py:222-286 | the loop keeps both line indices within their sections |
| FlowFacts.LoopStops | templates.py:222-286 | the loop ends with both lists placed, or with the named column's next item not fitting |
| FlowFacts.LoopStuckSidebar | templates.py:225-253 | the loop never passes a sidebar section without content |
| FlowFacts.LoopStuckMain | templates.py:255-283 | the loop never passes a main section without content |
| FlowFacts.LoopProgress | templates.py:222-286 | with every section filled and room for a header and a line in both columns, the loop places something |
| FlowFacts.DrawContentBanner | templates.py:207-220 | the banner is drawn exactly when both start section indices are 0 (line indices do not matter): the upper-cased name at the call's `y`, then the job role `title_size + 2` lower when it is truthy |
| FlowFacts.DrawContentHeaders | templates.py:174-289 | a call keeps the printed-header ledger of both columns |
| FlowFacts.DrawContentTrace | templates.py:174-289 | a call draws only text, and every header and body line passed its space check |
| FlowFacts.DrawContentInRange | templates.py:174-289 | a call keeps both line indices within their sections |
| FlowFacts.DrawContentForward | templates.py:174-289 | a call of `draw_content` never moves either cursor `(idx, line)` backwards |
| FlowFacts.DrawContentStops | templates.py:222-289 | a call that runs out of room leaves something unplaced; one that ends with everything placed has placed both lists |
| FlowFacts.DrawContentProgress | templates.py:313-321 | from the top of a fresh page, with every section filled, a call places something |
| FlowFacts.DrawContentStuck | templates.py:227 | a section without content is never passed, so the call leaves the document unplaced |
| FlowFacts.BreakMarks | templates.py:168-172 | the page break and sidebar background of `start_new_page` add no header and pass the space check vacuously, and add one page break |
| FlowFacts.NewPageMarks | templates.py:168-172 | `start_new_page` keeps the document invariant: the page break is followed by the sidebar background |
| FlowFacts.BreakCounts | templates.py:168-172 | `start_new_page` adds exactly one page break |
| FlowFacts.PageHeaders | templates.py:313-321 | one driver call of `draw_content` keeps the document's header ledger |
| FlowFacts.PageMarks | templates.py:313-321 | one driver call keeps the rest of the document invariant |
| FlowFacts.PagesHeaders | templates.py:313-321 | the driver from any state keeps the header ledger of both columns |
| FlowFacts.PagesMarks | templates.py:313-321 | the driver from any state keeps the page-break and space-check invariants |
| FlowFacts.PagesForward | templates.py:313-321 | across all calls of the driver neither cursor moves backwards: each new page resumes the columns where the last call left them |
| FlowFacts.RenderOk | templates.py:292-321 | the whole document begins with the sidebar background and repaints it after every page break; each column draws each header text at most once, and its printed set is exactly the headers drawn; every header and line passed its space check; a finished document placed both lists |
| FlowFacts.RenderFinishes | templates.py:313-321 | with every section filled and a fresh page fitting a header plus a line, the driver finishes with both indices at their list lengths |
| FlowFacts.RenderNeverDone | templates.py:227 | when some listed section has no content, the driver never finishes: each allowed call ends in another page break |
| FlowFacts.RenderDoneIff | templates.py:313-321 | with room on a fresh page, the driver finishes for some page budget exactly when every section has content |
| FlowFixed.FilledExactly | templates.py:1371-1372 | the sections kept are exactly the listed ones with content |
| FlowFixed.FilledAll | templates.py:1371-1372 | with every section filled, none is dropped |
| FlowFixed.FixedAllTruthy | templates.py:1371-1372 | after dropping empty sections, every section has content |
| FlowFixed.FixedRenderFinishes | templates.py:313-321 | the corrected driver, which passes over empty sections, finishes with every section that has content placed |
| FlowFixed.FixedAgrees | templates.py:313-321 | when every section has content, the corrected driver draws the same document |
| TwoColumnDraw.DrawContentAnyY | templates.py:180-181 | `draw_content` restarts both columns at the `y` it is passed |
| TwoColumnDraw.Document.constructor | templates.py:151-152 | the document starts with empty printed sets and the sidebar background |
| TwoColumnDraw.Document.StartNewPage | templates.py:168-172 | adds a page break and the sidebar background, and returns `height - margin` |
| TwoColumnDraw.Document.WrapSections | templates.py:188-205 | wraps exactly the sections with truthy content; others get no lines |
| TwoColumnDraw.Document.TakeTurn | templates.py:225-283 | one column's turn as written: the new cursor, `drew`, the break, the drawn marks and the printed set are those of `ColumnStep` |
| TwoColumnDraw.Document.RunLoop | templates.py:222-286 | the `while` loop ends in the state of `Loop` and draws exactly its marks |
| TwoColumnDraw.Document.DrawBanner | templates.py:207-220 | draws the banner only when both start indices are 0, and returns the main column's new `y` |
| TwoColumnDraw.Document.DrawContent | templates.py:174-289 | returns `min(sidebar_y, main_y)` and both cursors, updates the printed sets and draws exactly the marks of `DrawContent` |
| TwoColumnDraw.Document.Call | templates.py:315-321 | one pass of the driver: a call of `draw_content`, then `start_new_page` when something is left |
| TwoColumnDraw.Document.DrawAll | templates.py:292-321 | the driver's canvas and printed sets are exactly those of `Render`, and it reports whether both lists were placed |
| SingleColumn.SpaceRoom | templates.py:1313-1318 | `ensure_space` keeps `y` exactly when `y - needed >= margin`; otherwise the new state is exactly one page break added and `y = height - margin`; afterwards there is room unless a fresh page has none |
| SingleColumn.Space | templates.py:1313-1318 | the model of `template6_ensure_space` (no contract of its own); `SpaceRoom` states its effect |
| SingleColumn.SectionOut | templates.py:1370-1395 | the model of one pass of the section loop (no contract of its own); `SectionTexts`, `SectionsWell` and `EmptySectionsLeaveNoTrace` state its effect |
| SingleColumn.SectionsFrom | templates.py:1360-1395 | the model of the section loop over the first `n` sections (no contract of its own); `DrawnTexts` and `EmptySectionsLeaveNoTrace` state its effect |
| SingleColumn.EmptySectionsLeaveNoTrace | templates.py:1370-1372 | sections without content leave no trace: the loop over the listed sections ends exactly as the loop over only those with content |
| SingleColumn.PlaceTexts | templates.py:1378-1381 | making room and drawing adds exactly the drawn text |
| SingleColumn.LinesTexts | templates.py:1389-1393 | the line loop draws exactly the section's wrapped lines, in order |
| SingleColumn.SectionTexts | templates.py:1370-1395 | a section with content draws its upper-cased header and then its wrapped lines; one without draws nothing |
| SingleColumn.DrawnTexts | templates.py:1360-1395 | the section loop draws, in order, exactly the header and the `template6_wrap_text` lines of every section with content (template 7: templates.py:1541-1577) |
| SingleColumn.PlaceWell | templates.py:1378-1381 | a placed item fits above the margin or starts a fresh page |
| SingleColumn.LinesWell | templates.py:1389-1393 | every line the loop draws fits, or starts the page after a break |
| SingleColumn.SectionsWell | templates.py:1370-1395 | every item of the section loop fits above the margin or starts the page after a break |
| SingleColumn.AllFit | templates.py:1313-1318 | when a fresh page fits a header and a line, every string drawn starts at least its needed height above the margin |
| SingleColumn.Sheet.constructor | templates.py:1321 | an empty canvas for the page and sizes given |
| SingleColumn.Sheet.EnsureSpace | templates.py:1313-1318 | the new `y` and canvas are those of `Space`: a page break and `height - margin` when `y - needed < margin`, else nothing changes |
| SingleColumn.Sheet.DrawLines | templates.py:1389-1393 | the `for line in lines` loop ends in the state of `LinesFrom` |
| SingleColumn.Sheet.DrawSection | templates.py:1370-1395 | one pass of the section loop ends in the state of `SectionOut` |
| SingleColumn.Sheet.DrawSections | templates.py:1360-1395 | the section loop ends in the state of `SectionsFrom`, whose drawn text `DrawnTexts` gives |

## Left out

- Fonts and colours: `setFont`, `setFillColor`, font registration with its
  `FONTS_DIR` probing, and the font-name fallback. They do not affect
  layout, which sees fonts only through `measure`.
- Canvas primitives, modelled as a trace: `drawString`,
  `drawCentredString`, `rect`, `showPage`. The measurement
  `stringWidth` is the `measure` parameter. The template 7 underline and
  rounded rectangle (templates.py:1436-1461) are drawing only and are not
  modelled.
- The banner and contact line of templates 6 and 7 (templates.py:1338-1356,
  1494-1539) are not modelled. The single-column section loop starts at a
  given `y`.
- The banner of templates 2 to 5 reads `data["full_name"]`, which raises
  an error on a missing name. The model follows template 1, which uses
  `data.get("full_name") or ""`.
- `auto_correct_text` is a foreign grammar service and is not modelled.
  The `templateN_generate` wrappers and `main.py` are I/O and
  configuration and are not part of this model.
- A4 dimensions, `width * style["sidebar_width"]` and the style sizes are
  parameters holding exact reals, not floats.
- `\w` and `\d` in the validator patterns are ASCII classes, and
  `upper()` changes only ASCII letters. `\s` and `isspace` use Python's
  whitespace set.
- The section lists of each template are parameters of the layout.
  Custom headers come from `data.get("…_header", default)`, which is
  evaluated before the loop.
- FlowFacts.RenderFinishes: the driver is a function with a budget of
  `pages` calls of `draw_content`, because the source loop does not
  always end. "Finishes" means finishing within a budget larger than
  what is left to place.
- WrapFacts.DynamicCleanHasLine: stated for clean paragraphs only. With
  a measure that finds even the empty string too wide (a negative
  width), a paragraph such as "x " gives no line at all.
- WrapFacts.PlainOversizedFirstWord: needs a monotone measure, in which
  appending a character never narrows a string.
- SingleColumn.AllFit: stated from an empty canvas, where the first
  item may sit at any `y`. Only items placed after their space check are
  claimed to fit.
- The layout of templates 1 to 5 uses the wrapper as written. The
  corrected wrapper of `WrapFixed` is proved on its own and is not
  plugged into the flow.

## Findings

| source | as written | input that shows it | evidently intended | confidence | as-written member | corrected member |
|---|---|---|---|---|---|---|
| templates.py:97-109 | when a word too wide for the column follows gathered words, the oversized branch replaces `line` by the word's last fragment without appending `line` first | "ab cdef" with one unit per character and `max_width` 3 gives `["cde", "f"]` | the gathered line is emitted before the word is cut, giving `["ab", "cde", "f"]` | not executed | WrapFacts.DynamicDropsGatheredWords, WrapFixed.DynamicLosesText | WrapFixed.FixedKeepsAllText, WrapFixed.FixedExample |
| templates.py:227, 249-253, 313-321 | a section whose content is empty or missing never advances its column's index, so the driver starts new pages for ever | any layout in which a listed field, such as `languages`, is absent or "" | empty sections are passed over, as the loop of templates 6 and 7 does (templates.py:1371-1372), and the document finishes | not executed | FlowFacts.RenderNeverDone, FlowFacts.RenderDoneIff | FlowFixed.FixedRenderFinishes, FlowFixed.FixedAgrees |

The system's design documentation says the wrapper never emits a line wider
than the column and that rendering always terminates. The code does not
do either, and the model follows the code. `WrapFacts.DynamicWidthBound`
allows a single character that is too wide by itself, and the second
finding is a case where rendering never ends.
