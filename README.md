# Damage-assessment report layout, in Dafny

`services/pdfService.ts` renders a "laudo" (a damage-assessment report for a property hit by a
weather event) with the jsPDF library. Almost every line is a drawing call. Underneath them is a
small page-layout engine: one vertical cursor `yPos` on the current page and a page count,
moved by a fixed set of rules. This project models that engine and the pure helpers around it,
and proves what the rules guarantee.

- `header.dfy` (module `Header`): `drawHeader`. The logo aspect-ratio fit, the two logo
  slots (fitted logo, nothing when the image cannot be decoded, orange filler when the right
  logo is missing) and the fixed content start of 50 mm.
- `sizing.dfy` (module `Sizing`): the two adaptive decisions. One is the map size (120 mm,
  shrunk to the room left, or 120 mm on a new page). The other is the gap above the
  signature (35 mm, reduced towards 15 mm, or a new page).
- `layout.dfy` (module `Layout`): the engine. A `Document` class holds the cursor, the page
  count, the images placed, the fields drawn and the footer stamps. It has the page-break
  check, the field renderer, the map placement, the damage log with its two-column photo grid
  (a `for` over entries, a `while` stepping two photos at a time) and the footer pass. Pure
  functions of a `Geometry` (page size and text metrics) and a `Cursor` (position and page)
  specify the methods: where the cursor ends (`BreakFor`, `FieldsAdvance`, `MapEnd`,
  `RowStep`, `AfterRows`, `EntryEnd`, `EntriesEnd`) and which blocks are placed (`MapBlocks`,
  `RowBlocks`, `GridBlocks`, `EntriesBlocks`). Every method keeps the invariant that each
  placed image lies inside a page's content area: between the margins, below the header and
  above the footer clearance.
- `text.dfy` (module `Text`): `formatValue`, the address join, upper-casing, the
  file-name slug `cleanText`, `formatDateForFilename`, and the saved file's name.
- `laudo.dfy` (module `Laudo`): `generateLaudoPDF` itself. It builds the document, lays the
  title, sections 1 and 2 and the map, forces a new page for section 3, lays the damage log,
  decides the signature gap, lays sections 4 and 5 and the signature, stamps the footers and
  names the file in save mode. The composition is specified the same way: `BodyEnd`,
  `BodyBlocks`, `ClosingEnd` and `ReportPages` give the final cursor, the images and the page
  count of a whole report in closed form.

Lengths are millimetres as `real`. Page width and height are parameters. The model admits
pages at least 160 mm wide and 210 mm tall; the A4 page the report uses (210 x 297) is one.
An absent optional text is the empty string, which JavaScript treats as falsy like
`undefined`. An image argument is an `Asset`:
- `Blank` is a falsy argument;
- `Corrupt` is one the library throws on, where the surrounding `try`/`catch` swallows the
  error;
- `Raster(width, height)` is a decoded image.

Text measurement (`getTextWidth`, `splitTextToSize`) is an oracle, `Metrics`, fixed for one
rendering.

The damage-logic table is a `map` parameter. The source reads
`DAMAGE_LOGIC[data.classificacao].level` without a guard, so an unknown classification
throws after the classification field is drawn (services/pdfService.ts:309). The model
returns `UnknownClassification` in exactly that case.

The code always adds a page before section 3 (services/pdfService.ts:245), so every report
has at least two pages (`ReportPageBounds`). A report in which nothing breaks has exactly two,
stamped 1/2 and 2/2 (`TwoPages`).

## Model

| member | source | states |
|---|---|---|
| Header.FitLogo | services/pdfService.ts:35-40 | The fitted logo is at most the box on both sides. A wide image takes the full box width, any other the full height. The image's aspect ratio is kept. The logo is centred in its box and stands on the baseline. |
| Header.WideHeight | services/pdfService.ts:37-38 | A wide image's scaled height is positive, less than the box, and keeps the aspect ratio. |
| Header.TallWidth | services/pdfService.ts:37-38 | A tall or square image's scaled width is positive, at most the box, and keeps the aspect ratio. |
| Header.RatioAboveOne | services/pdfService.ts:36-37 | The aspect ratio exceeds one exactly when the image is wider than tall. |
| Header.RightSlot | services/pdfService.ts:31-46 | A decoded right logo is exactly `FitLogo` applied to the 24 mm box at the right margin. A missing one becomes the filler square covering the whole box. One that cannot be decoded leaves the slot empty. |
| Header.LeftSlot | services/pdfService.ts:48-60 | A decoded left logo is exactly `FitLogo` applied to the 28 mm box at the left margin. Otherwise the slot is empty, and never a filler. |
| Header.HeaderBand | services/pdfService.ts:5-63 | The title is centred between the inner edges of the two logo boxes. The slots are as above. Content always starts at 50, below the logo baseline. |
| Sizing.MapSize | services/pdfService.ts:206-221 | The map side is always between 60 and 120. A new page is taken exactly when less than 60 is available. Without a new page the map fits the room. The side is 120 when there is room for it, and the available space when that lies in [60, 120). |
| Sizing.MapSizeMonotone | services/pdfService.ts:206-221 | Without a page break, more room never gives a smaller map. |
| Sizing.MapSizeFixedPoint | services/pdfService.ts:206-221 | A chosen size, offered as the available space, is chosen again without a break. |
| Sizing.SignatureGap | services/pdfService.ts:286-305 | The gap is always between 15 and 35. A new page is taken exactly when text, minimum gap and signature do not fit. With a new page the gap is 35. Without one, text, gap and signature fit in the remaining room. The gap is 35 when the preferred layout fits, and otherwise exactly the remaining room less text and signature. |
| Sizing.SignatureGapMonotone | services/pdfService.ts:286-305 | With the same text, more room never needs a new page when less did not, and never gives a smaller gap. |
| Layout.BreakFor | services/pdfService.ts:115-122 | A block that does not fit above the limit moves the cursor to 50 on the next page. Otherwise the cursor stays and the block fits. |
| Layout.FieldWidth | services/pdfService.ts:167-169 | A field's value wraps within half the content width beside a sibling field, otherwise within the full content width less a 2 mm gap, in both cases less the label's width. |
| Layout.FieldsAdvance | services/pdfService.ts:172 | A run of full-line fields moves the cursor down at least 2 mm per field. |
| Layout.OneLineAdvance | services/pdfService.ts:172 | Full-line fields that each wrap to one line move the cursor exactly 7 mm apiece. |
| Layout.MapStart | services/pdfService.ts:208-221 | The map stays at the cursor exactly when it stays on the page, and then the map and the 5 mm below it fit above the footer clearance. Otherwise it starts 10 below the header of the next page. |
| Layout.MapSide | services/pdfService.ts:206-221 | The map's side is between 60 and 120. |
| Layout.MapBlocks | services/pdfService.ts:202-223 | A map that decodes gives exactly one block, and one that does not gives none. The block is a square of side `MapSide`, centred across the page, on the cursor's page or the next. On the cursor's page it is at the cursor, and it fits with 5 mm to spare above the footer clearance. |
| Layout.MapEnd | services/pdfService.ts:202-241 | With no map the cursor does not move. It ends on the same page or the next. On the same page, a map that fails to decode leaves it where it was, and one that decodes moves it down by the side plus 5, still above the footer clearance. On a new page it is 60 down, plus the side and 5 when the map decodes. |
| Layout.PhotoRows | services/pdfService.ts:271 | n photos take ceil(n/2) rows. |
| Layout.RowStep | services/pdfService.ts:274-280 | A photo row on the same page moves the cursor 61 lower. A row that breaks ends 61 below the content start of the next page. |
| Layout.AfterRows | services/pdfService.ts:271-281 | After at least one row, the last row either fitted above the footer clearance or started a fresh page. |
| Layout.AfterRowsPages | services/pdfService.ts:271-281 | k photo rows add at most k pages, and never remove one. |
| Layout.AfterRowsNoBreak | services/pdfService.ts:271-281 | When all k rows fit, no page is added and the cursor moves down exactly 61 per row. |
| Layout.AfterRowsSamePage | services/pdfService.ts:271-281 | Rows that end on their starting page moved the cursor exactly 61 per row. |
| Layout.AfterRowsSplit | services/pdfService.ts:271-281 | Laying out a + b rows equals laying out a rows and then b more. |
| Layout.RowBlocks | services/pdfService.ts:270-278 | A photo row gives one block per decodable photo among its two, and none when neither decodes. Each is a photo a column wide and 55 high, at the row's position after its page-break check. The left one is at the margin, and the right one is a column and 6 further. |
| Layout.GridBlocks | services/pdfService.ts:268-281 | The rows from photo i on give at most one block per remaining photo, and none when no photo remains. `GridCount` and `GridShape` give the exact count and shape. |
| Layout.GridCount | services/pdfService.ts:271-279 | The photo grid places exactly one block per decodable photo. |
| Layout.GridShape | services/pdfService.ts:268-279 | Every grid block is a photo on the grid's first page or later, PhotoWidth wide and 55 high, at x = margin (left column) or margin + PhotoWidth + 6 (right column). |
| Layout.EntryTitle | services/pdfService.ts:258 | The title is "3.", the entry's number counted from one, ". ", the upper-cased damage type and ": ". |
| Layout.Description | services/pdfService.ts:262 | The shown description is the entry's own when present, and "Sem descrição detalhada." when it is empty. |
| Layout.EntryPhotoStart | services/pdfService.ts:254-264 | An entry's photos start on its page or, after the 30 mm break check, the next one. They start at least 3 below the cursor, or at least 3 below the content start on the new page. |
| Layout.EntryBlocks | services/pdfService.ts:254-284 | An entry places exactly one block per decodable photo, each a photo on the entry's page or later. |
| Layout.EntryEnd | services/pdfService.ts:254-283 | A damage entry never moves back a page. One that stays on its page moves the cursor at least 13 (3 below the title line and the 10 gap). |
| Layout.EntryPages | services/pdfService.ts:254-284 | A damage entry adds at most one page for its title plus one per photo row. |
| Layout.EntriesEnd | services/pdfService.ts:254-284 | The damage log never moves back a page. A log that stays on one page moves the cursor at least 13 per entry. |
| Layout.EntriesBlocks | services/pdfService.ts:253-284 | The damage log places exactly as many blocks as all its entries have decodable photos. |
| Layout.EntriesPages | services/pdfService.ts:254-284 | The damage log adds at most one page per entry plus one per photo row. |
| Layout.EntriesShape | services/pdfService.ts:254-284 | The damage log places exactly one block per decodable photo of all entries, each a photo on the log's first page or later. |
| Layout.FooterStamps | services/pdfService.ts:327-331 | There is one stamp per page, and page k of n gets k/n. |
| Layout.Document.constructor | services/pdfService.ts:106-113 | A new document has one page, the cursor at 50, and nothing placed, drawn or stamped. |
| Layout.Document.NewPage | services/pdfService.ts:117-118 | Adds one page and moves the cursor to 50. |
| Layout.Document.Advance | services/pdfService.ts:129-160 | Moves the cursor down by the given non-negative amount and changes nothing else. |
| Layout.Document.CheckPageBreak | services/pdfService.ts:115-122 | Returns true exactly when `yPos + h` exceeds the page height less the bottom margin. Then one page is added and the cursor is at 50. Otherwise the page and cursor are unchanged and the block fits. |
| Layout.Document.AddField | services/pdfService.ts:163-174 | Returns the value's wrapped line count within `FieldWidth`. Logs the field. Moves the cursor down 5 per line plus 2, or not at all for a same-line field. |
| Layout.Document.PlaceMap | services/pdfService.ts:200-242 | Without a map nothing changes. Otherwise the size decision is made, possibly with a new page and the cursor at 60. A decodable map is placed centred at `MapStart` as a square of side `MapSide`, and the cursor moves 5 below it (`MapEnd`, `MapBlocks`). A map that cannot be decoded places nothing. Every placed map lies inside the content area. |
| Layout.Document.LayDamageEntry | services/pdfService.ts:254-284 | The cursor ends at `EntryEnd`, and the blocks appended are exactly the entry's grid blocks from where its title ends. |
| Layout.Document.LayPhotos | services/pdfService.ts:267-283 | The cursor ends after ceil(n/2) photo rows as `AfterRows` says. The blocks appended are exactly `GridBlocks`: row by row, the decodable photos in the two columns, each on the row's page at the cursor after the row's break check. |
| Layout.Document.PlacePhotoRow | services/pdfService.ts:271-280 | One row: the cursor ends at `RowStep`, and the blocks appended are exactly `RowBlocks`: the first photo at the margin and the second a column and 6 further, each PhotoWidth by 55, only when it decodes, at the cursor after the break check for 55. |
| Layout.Document.LayDamages | services/pdfService.ts:254-284 | The cursor ends at `EntriesEnd`, and the blocks appended are exactly `EntriesBlocks`, entry by entry. |
| Layout.Document.StampFooters | services/pdfService.ts:327-331 | Page k of n receives the stamp k/n, for every page and in page order. |
| Text.Upper | services/pdfService.ts:126 | Upper-casing keeps the length, maps each character on its own, leaves no lower-case letter and leaves an upper-case text unchanged. |
| Text.UpperIdempotent | services/pdfService.ts:126 | Upper-casing leaves no lower-case letter, and a second upper-casing changes nothing. |
| Text.FormatValue | services/pdfService.ts:124-127 | A blank value (empty or whitespace only) becomes "NÃO INFORMADO", and any other value is upper-cased. The result is never blank and has no lower-case letter. |
| Text.FormatValueIdempotent | services/pdfService.ts:124-127 | Formatting a formatted value changes nothing. |
| Text.JoinWith | services/pdfService.ts:195 | The join of no parts is empty. Otherwise it starts with the first part, and its length is the parts' total plus one separator between each two. |
| Text.FullAddress | services/pdfService.ts:189-196 | The address is the present parts among street, district and postal code, in that order, joined by ", ". It is empty exactly when all three are absent, and starts with the street when there is one. |
| Text.Split | services/pdfService.ts:335 | Splitting yields at least one piece, and no piece contains the separator. |
| Text.JoinSplit | services/pdfService.ts:335 | Joining the pieces of a split with the separator gives back the text. |
| Text.SplitJoin | services/pdfService.ts:335 | Splitting a join of separator-free pieces gives back the pieces. |
| Text.FormatDateForFilename | services/pdfService.ts:335 | Three '-'-separated pieces come out in reverse order, concatenated. Any other text yields exactly its digits, in order. |
| Text.DateReordered | services/pdfService.ts:335 | "YYYY-MM-DD" comes out as "DDMMYYYY". |
| Text.Digits | services/pdfService.ts:335 | Keeps only decimal digits. A text of digits is unchanged and a text without digits gives "". |
| Text.DigitsConcat | services/pdfService.ts:335 | The digits of a concatenation are the digits of each part, in order, so every digit is kept. |
| Text.StripMarks | services/pdfService.ts:334 | The result holds no combining mark. A text without marks is unchanged, and one of marks only gives "". |
| Text.StripMarksConcat | services/pdfService.ts:334 | Stripping a concatenation strips each part, in order, so every other character is kept. |
| Text.Collapse | services/pdfService.ts:334 | The result holds only A-Z, 0-9 and '-', has no doubled '-', keeps the letters and digits in order, and starts with the input's first character when that is a letter or digit. |
| Text.CollapseRunPrefix | services/pdfService.ts:334 | A run of characters other than A-Z and 0-9, standing before a letter, a digit or the end, becomes exactly one '-', or nothing when it is empty. |
| Text.CollapseInterleave | services/pdfService.ts:334 | Words of A-Z and 0-9, with a different non-empty run of other characters between each two and a run after the last, collapse to the words joined by single '-', plus one '-' for a non-empty final run. |
| Text.CollapseText | services/pdfService.ts:334 | For any text written as a run, then words with non-empty runs between them, then a run, the result is the words joined by single '-', with one more '-' at each end whose run is not empty. |
| Text.TrimStart | services/pdfService.ts:334 | The result is the input without its leading dashes: a suffix that does not start with '-', and everything removed is '-'. |
| Text.TrimEnd | services/pdfService.ts:334 | The result is the input without its trailing dashes: a prefix that does not end with '-', and everything removed is '-'. |
| Text.TrimStartAlnums | services/pdfService.ts:334 | Dropping leading dashes keeps every letter and digit. |
| Text.TrimEndAlnums | services/pdfService.ts:334 | Dropping trailing dashes keeps every letter and digit. |
| Text.CleanText | services/pdfService.ts:334 | The slug holds only A-Z, 0-9 and '-', never starts or ends with '-', and has no doubled '-'. Its letters and digits are exactly those of the upper-cased, mark-free input, in order. |
| Text.CleanTextWords | services/pdfService.ts:334 | For any input whose upper-cased, mark-free form is a run, then words of A-Z and 0-9 with non-empty runs between them (each may differ), then a run, the slug is the words joined by single '-', and splitting it at '-' gives back the words. Lower-case letters and combining marks in the input are allowed. |
| Text.CleanTextNoWords | services/pdfService.ts:334 | An input whose upper-cased, mark-free form holds no letter A-Z and no digit has the empty slug. |
| Text.TrimDashes | services/pdfService.ts:334 | Trimming removes exactly one '-' put before and one put after a text that neither starts nor ends with '-'. |
| Text.CleanTextIdempotent | services/pdfService.ts:334 | The slug of a slug is itself. |
| Text.ReportFileName | services/pdfService.ts:336 | The saved file's name ends in ".pdf". |
| Text.FileNameParts | services/pdfService.ts:336 | When the date holds no '_', the name splits at '_' back into three parts: the municipality slug, the requester slug ("NAO-INFORMADO" when absent), and the date part with its extension. |
| Text.NatToString | services/pdfService.ts:258 | An entry's number is written in decimal digits whose value is the number, with no leading '0' except for zero itself. |
| Laudo.Typology | services/pdfService.ts:199 | The typology shown is the free text when the typology is "other", and the typology otherwise. |
| Laudo.PropertyFields | services/pdfService.ts:176-199 | Section 2 has ten fields for an urban property and nine for any other. |
| Laudo.PropertyFieldsZone | services/pdfService.ts:176-184 | Section 2 starts with the zone. An urban property then shows its fiscal indication, municipal registration and deed number, and any other its NIRF/CIB and INCRA numbers, all formatted. |
| Laudo.ZoneFieldsExclusive | services/pdfService.ts:177-184 | The urban identifiers appear only for an urban property, and the rural registry numbers only for any other. |
| Laudo.PropertyFieldsTail | services/pdfService.ts:185-199 | Section 2 ends, in order, with owner, requester, CPF, the joined address, the coordinates as given, and the typology. All but the coordinates are formatted. |
| Laudo.ClassificationFields | services/pdfService.ts:309 | Section 4 has three fields: the upper-cased classification, the upper-cased destruction level, and the percentage as stored. |
| Laudo.SignatureLines | services/pdfService.ts:312-325 | The signature block has four lines exactly when the engineer belongs to CEDEC, starting with the electronic-signature note. It ends with the name in upper case, the role, and "CREA-" with the state (PR by default) and the registration. |
| Laudo.FrontFieldsEnd | services/pdfService.ts:129-201 | Section 2 ends on the front page at least 68 below where the title started (48 of fixed steps, at least 2 per field, and the final 2). |
| Laudo.DamageStart | services/pdfService.ts:202-252 | The damage log starts 60 down (10 below the content start) on page 2 or 3. It is page 3 exactly when a map image is given and there is too little room for it below section 2, the `MapSize` page break. |
| Laudo.BodyEnd | services/pdfService.ts:128-284 | The body ends on the damage log's first page or later, and on page 2 or later, within 3 plus the log's page budget. |
| Laudo.BodyBlocks | services/pdfService.ts:202-284 | The body has exactly one image per decodable map and photo. `BodyShape` states their order. |
| Laudo.BodyShape | services/pdfService.ts:128-284 | The body ends on page 2 or later, within 3 plus the log's page budget. Its images are the decodable map, first, then one per decodable photo, every photo past the first page. |
| Laudo.TextBlocks | services/pdfService.ts:287-290 | The height reserved for the closing text is at least 40: 25 for section 4, 10 for section 5's title and 5 more, before the opinion's lines. |
| Laudo.ClosingChoice | services/pdfService.ts:286-305 | The closing starts a new page exactly when the reserved text, the 15 mm minimum gap and the 35 mm signature do not fit below the cursor. The gap is between 15 and 35. Without a new page, text, gap and signature fit above the footer clearance. |
| Laudo.ClosingEnd | services/pdfService.ts:296-325 | The signature ends 13 to 33 (the gap less 2) below where the closing starts, plus the reserved text and section 4's field advance. The closing starts at the top of a new page's content area, or 15 below the cursor. |
| Laudo.SignatureFits | services/pdfService.ts:286-325 | When the closing stays on the page and its three fields take one line each, `ClosingEnd` lies above the footer clearance. |
| Laudo.ReportPages | services/pdfService.ts:245-331 | A report has at least two pages: the body's, and at most one more for the closing. |
| Laudo.ReportPageBounds | services/pdfService.ts:245-331 | A report has at least two pages and at most four more than its damage log's page budget. |
| Laudo.TwoPages | services/pdfService.ts:203-331 | When the map stays on the front page, the damage log on its own page and the closing below it, the report has exactly 2 pages, stamped 1/2 and 2/2. |
| Laudo.GenerateLaudo | services/pdfService.ts:100-340 | Fails exactly when the classification is unknown. Otherwise the page count is `ReportPages`, each page k of n is stamped k/n, the images are exactly `BodyBlocks`, each inside a page's content area, the fields are section 2's then section 4's, the gap decision and the final cursor are `ClosingChoice` and `ClosingEnd` from where the damage log ends, the signature lines are as above, and the file is named only in save mode. |
| Laudo.LayBody | services/pdfService.ts:128-284 | On a fresh document, the cursor ends at `BodyEnd`, the images are exactly `BodyBlocks`, and the fields are section 2's. |
| Laudo.LayFrontPage | services/pdfService.ts:128-242 | Drawn on the fresh first page, the front page leaves the cursor at `MapEnd` from `FrontFieldsEnd`. Its only image is `MapBlocks` there, and its fields are section 2's. |
| Laudo.LayFrontFields | services/pdfService.ts:128-201 | The title, section 1 and section 2 leave the cursor at `FrontFieldsEnd` and draw section 2's fields. |
| Laudo.LayFields | services/pdfService.ts:176-199 | Draws exactly the given fields, in order, and moves the cursor by their `FieldsAdvance`. |
| Laudo.LayDamageSection | services/pdfService.ts:244-284 | Section 3 starts on exactly one new page, 60 down. The cursor ends at `EntriesEnd` from there, and the images appended are exactly `EntriesBlocks` from there. |
| Laudo.LayClosing | services/pdfService.ts:286-325 | The new-page decision is `ClosingChoice` at the starting cursor, and it adds exactly one page when taken and none otherwise. It fails exactly when the classification is unknown. Otherwise it draws section 4's fields and the cursor ends at `ClosingEnd`. |
| Laudo.LayClassification | services/pdfService.ts:307-309 | Draws the classification. It fails exactly when the table has no entry for it. Otherwise it draws the level and percentage. Either way the cursor moves 10 plus the `FieldsAdvance` of the fields drawn. |

## Left out

- Drawing: every jsPDF text, rectangle, path, circle, triangle, font, colour and line-width call. Only placed map and photo images (page, position, size), drawn fields and footer stamps are recorded.
- The header logos, placed by `addImage` on every page (services/pdfService.ts:41, 58), are not recorded as blocks. `HeaderBand` states where they go, but `Document.blocks` holds only the map and the photos.
- The footer's geometry (services/pdfService.ts:65-98). Only the `page/total` stamp each page receives is kept.
- Text measurement: `getTextWidth` and `splitTextToSize` are an oracle. The section 1 texts (municipality, localised date) and section titles are drawn without moving the cursor, so they are not logged.
- Text.Upper: `toUpperCase` is modelled for ASCII and Latin-1 letters only. Where JavaScript changes length or leaves Latin-1, the model keeps the character: 'ß' (JavaScript gives "SS"), 'ÿ' (U+0178) and 'µ' (U+039C) are left unchanged, and letters beyond Latin-1 are not upper-cased.
- Unicode normalisation: `normalize('NFD')` is not modelled, so `CleanText` takes text whose accents are already separate combining marks. `toLocaleDateString('pt-BR')` and the `toFixed(6)` coordinates are left out, and the coordinates arrive as the text they print as.
- Text.Collapse: where the dashes go is stated for text given as a run, words with non-empty runs between them, and a run (`CollapseText`), and for text with no letter or digit (`CollapseRunPrefix`). That every text with a letter or digit can be cut into that form is not proved.
- Text.CleanText: the exact slug is stated when the upper-cased, mark-free input is given in that form (`CleanTextWords`). For text with no letter or digit, the slug is "" (`CleanTextNoWords`). The cut's existence is not proved, as for Collapse.
- Image decoding is the `Asset` abstraction. A failed decode is swallowed, as the source's `try`/`catch` does.
- `doc.save`, `doc.output('blob')`, `URL.createObjectURL` and the `async` wrapper are left out. Save mode yields the file name and preview mode yields none.
- The contents of `DAMAGE_LOGIC` are not part of this model, and the table is a parameter. The `ZoneType` and `BuildingTypology` spellings are taken as "URBANO" and "OUTRO".
- Page sizes below 160 x 210 mm are excluded by `GenerateLaudo`'s precondition. A4 is above it.
- Laudo.LayFields: section 2 makes ten straight-line `addField` calls for an urban property and nine for any other. The model makes the same calls in the same order, taking caption and value from the `PropertyFields` list one step at a time.
- Laudo.SignatureFits: the signature ends above the footer clearance only under the stated condition. Wrapped section 4 fields, or a page break followed by a long opinion, can run past it, and the source promises nothing there either.
- Laudo.GenerateLaudo: the damage entries' titles and descriptions are not logged as fields, only the cursor movement they cause.
