/** The page-layout engine of the report: one vertical cursor on the current page and a
    page count, moved by a fixed set of rules (page-break check, field advance, map sizing,
    the damage log's photo grid), and the final footer pass over every page. */
module Layout {
  import opened Header
  import opened Sizing
  import opened Text

  const Margin: real := 20.0
  /** Clearance kept free above the footer band. */
  const BottomMargin: real := 30.0
  const LineHeight: real := 5.0
  const PhotoHeight: real := 55.0
  const PhotoGap: real := 6.0
  const RowHeight: real := PhotoHeight + 6.0
  /** The room a damage entry asks for before its title is drawn. */
  const EntryHeight: real := 30.0

  /** The smallest page the model admits: wide enough for a full-size map between the
      margins, tall enough for one below the header of a fresh page. A4 (210 x 297) is
      the page the report uses. */
  const MinPageWidth: real := 160.0
  const MinPageHeight: real := 210.0

  /** The document library's text measurement: the width of a string in the current font,
      and how many lines a string wraps to within a given width. */
  datatype Metrics = Metrics(textWidth: string -> real, wrap: (string, real) -> nat)

  /** The page size and the text measurement of one rendering. */
  datatype Geometry = Geometry(pageWidth: real, pageHeight: real, metrics: Metrics)

  /** The lowest height content may reach on a page. */
  function Limit(g: Geometry): real { g.pageHeight - BottomMargin }

  function ContentWidth(g: Geometry): real { g.pageWidth - 2.0 * Margin }

  /** The width of one column of the photo grid. */
  function PhotoWidth(g: Geometry): real { (ContentWidth(g) - PhotoGap) / 2.0 }

  datatype BlockKind = MapImage | Photo

  /** An image placed on a page. */
  datatype Block = Block(kind: BlockKind, page: nat, x: real, y: real, w: real, h: real)

  /** A label/value pair drawn by the field renderer. */
  datatype Field = Field(name: string, value: string)

  /** The page-number annotation of one footer: `page/total`. */
  datatype FooterStamp = FooterStamp(page: nat, total: nat)

  datatype DamageEntry = DamageEntry(kind: string, description: string, photos: seq<Asset>)

  /** The layout state: the cursor's height on the current page and the page count. */
  datatype Cursor = Cursor(y: real, page: nat)

  /** The page-break rule: when a block of height h does not fit above `limit`, a new page
      is started and the cursor goes to the top of its content area. */
  function BreakFor(c: Cursor, h: real, limit: real): (d: Cursor)
    ensures c.y + h > limit ==> d == Cursor(ContentStart, c.page + 1)
    ensures c.y + h <= limit ==> d == c && d.y + h <= limit
  {
    if c.y + h > limit then Cursor(ContentStart, c.page + 1) else c
  }

  /** The block lies between the side margins and inside the content area of a page,
      below the header and above the footer clearance. */
  predicate InContentArea(b: Block, pageWidth: real, pageHeight: real)
  {
    1 <= b.page && Margin <= b.x && b.x + b.w <= pageWidth - Margin
    && ContentStart <= b.y && b.y + b.h <= pageHeight - BottomMargin
  }

  /* ---------- fields ---------- */

  /** The width a field's value wraps within: half the content width beside a sibling
      field, otherwise the full width, less the label (and a 2 mm gap after it). */
  function FieldWidth(m: Metrics, pageWidth: real, caption: string, sameLine: bool): (w: real)
    ensures sameLine ==> 2.0 * (w + m.textWidth(caption)) == pageWidth - 2.0 * Margin
    ensures !sameLine ==> w + m.textWidth(caption) + 2.0 == pageWidth - 2.0 * Margin
  {
    var contentWidth := pageWidth - 2.0 * Margin;
    var labelWidth := m.textWidth(caption);
    if sameLine then contentWidth / 2.0 - labelWidth else contentWidth - labelWidth - 2.0
  }

  /** How far a run of full-line fields moves the cursor: five per wrapped line of each
      value, plus two after each field. */
  function FieldsAdvance(m: Metrics, pageWidth: real, fs: seq<Field>): (a: real)
    ensures a >= 2.0 * (|fs| as real)
  {
    if fs == [] then 0.0
    else
      var last := fs[|fs| - 1];
      FieldsAdvance(m, pageWidth, fs[..|fs| - 1])
        + LineHeight * (m.wrap(last.value, FieldWidth(m, pageWidth, last.name, false)) as real) + 2.0
  }

  /** Drawing one more field after a run adds that field's own advance. */
  lemma FieldsAdvanceSnoc(m: Metrics, pageWidth: real, fs: seq<Field>, f: Field)
    ensures FieldsAdvance(m, pageWidth, fs + [f])
         == FieldsAdvance(m, pageWidth, fs) + LineHeight * (m.wrap(f.value, FieldWidth(m, pageWidth, f.name, false)) as real) + 2.0
  {
    assert (fs + [f])[..|fs|] == fs;
  }

  /** Every one of the fields wraps to a single line. */
  predicate OneLineEach(m: Metrics, pageWidth: real, fs: seq<Field>)
  {
    forall i :: 0 <= i < |fs| ==> m.wrap(fs[i].value, FieldWidth(m, pageWidth, fs[i].name, false)) == 1
  }

  /** Fields of one line each take seven apiece. */
  lemma {:induction false} OneLineAdvance(m: Metrics, pageWidth: real, fs: seq<Field>)
    requires OneLineEach(m, pageWidth, fs)
    ensures FieldsAdvance(m, pageWidth, fs) == 7.0 * (|fs| as real)
  {
    if fs != [] {
      var init := fs[..|fs| - 1];
      assert OneLineEach(m, pageWidth, init) by {
        forall i | 0 <= i < |init| ensures init[i] == fs[i] {
        }
      }
      OneLineAdvance(m, pageWidth, init);
    }
  }

  /* ---------- the map ---------- */

  /** Where the map goes from cursor c: on the same page when at least the minimum size
      fits, otherwise ten below the header of a new page. On the same page, the map and
      the gap below it fit above the footer clearance. */
  function MapStart(g: Geometry, c: Cursor): (s: Cursor)
    ensures s.page == c.page <==> s == c
    ensures s.page != c.page ==> s == Cursor(ContentStart + 10.0, c.page + 1)
    ensures s.page == c.page ==> s.y + MapSide(g, c) + 5.0 <= Limit(g)
  {
    if MapSize(Limit(g) - c.y - 5.0).newPage then Cursor(ContentStart + 10.0, c.page + 1) else c
  }

  /** The side of the square map drawn from cursor c. */
  function MapSide(g: Geometry, c: Cursor): (side: real)
    ensures MapMinSize <= side <= MapMaxSize
  {
    MapSize(Limit(g) - c.y - 5.0).size
  }

  /** The map block placed from cursor c: one centred square when the image decodes. */
  function MapBlocks(g: Geometry, c: Cursor, image: Asset): (bs: seq<Block>)
    ensures |bs| == (if image.Raster? then 1 else 0)
    ensures forall k :: 0 <= k < |bs| ==>
      && bs[k].kind == MapImage
      && bs[k].w == bs[k].h == MapSide(g, c)
      && bs[k].x + bs[k].w / 2.0 == g.pageWidth / 2.0
      && c.page <= bs[k].page <= c.page + 1
      && (bs[k].page == c.page ==> bs[k].y == c.y && bs[k].y + bs[k].h + 5.0 <= Limit(g))
  {
    if image.Raster? then
      var s := MapStart(g, c);
      var side := MapSide(g, c);
      [Block(MapImage, s.page, (g.pageWidth - side) / 2.0, s.y, side, side)]
    else []
  }

  /** The cursor after the map section from cursor c. */
  function MapEnd(g: Geometry, c: Cursor, image: Asset): (e: Cursor)
    ensures image.Blank? ==> e == c
    ensures c.page <= e.page <= c.page + 1
    ensures image.Corrupt? && e.page == c.page ==> e == c
    ensures image.Raster? && e.page == c.page ==> e.y == c.y + MapSide(g, c) + 5.0 <= Limit(g)
    ensures e.page == c.page + 1 ==>
      e.y == ContentStart + 10.0 + (if image.Raster? then MapSide(g, c) + 5.0 else 0.0)
  {
    match image
    case Blank => c
    case Corrupt => MapStart(g, c)
    case Raster(_, _) => Cursor(MapStart(g, c).y + MapSide(g, c) + 5.0, MapStart(g, c).page)
  }

  /* ---------- the photo grid ---------- */

  /** The number of rows of the two-column photo grid for n photos. */
  function PhotoRows(n: nat): (r: nat)
    ensures 2 * r == n || 2 * r == n + 1
  {
    (n + 1) / 2
  }

  /** One photo row: the break check for a photo's height, then a row's height down. The
      row adds at most one page, and without one the cursor moves a row lower. */
  function RowStep(c: Cursor, limit: real): (d: Cursor)
    ensures d.page == c.page ==> d.y == c.y + RowHeight
    ensures d.page != c.page ==> d == Cursor(ContentStart + RowHeight, c.page + 1)
  {
    var b := BreakFor(c, PhotoHeight, limit);
    Cursor(b.y + RowHeight, b.page)
  }

  /** The cursor after k photo rows. After at least one row, the last row either fitted
      above the limit or opened a fresh page. */
  function AfterRows(c: Cursor, k: nat, limit: real): (d: Cursor)
    ensures k > 0 ==> d.y - RowHeight + PhotoHeight <= limit || d.y - RowHeight == ContentStart
  {
    if k == 0 then c else RowStep(AfterRows(c, k - 1, limit), limit)
  }

  /** Each row adds at most one page. */
  lemma {:induction false} AfterRowsPages(c: Cursor, k: nat, limit: real)
    ensures c.page <= AfterRows(c, k, limit).page <= c.page + k
  {
    if k > 0 {
      AfterRowsPages(c, k - 1, limit);
    }
  }

  /** When all k rows fit below the cursor, no page is added and the cursor moves down
      exactly k row heights. */
  lemma {:induction false} AfterRowsNoBreak(c: Cursor, k: nat, limit: real)
    requires c.y + RowHeight * (k as real) - PhotoGap <= limit
    ensures AfterRows(c, k, limit) == Cursor(c.y + RowHeight * (k as real), c.page)
  {
    if k > 0 {
      AfterRowsNoBreak(c, k - 1, limit);
    }
  }

  /** Rows that stay on their page move the cursor exactly a row height each. */
  lemma {:induction false} AfterRowsSamePage(c: Cursor, k: nat, limit: real)
    requires AfterRows(c, k, limit).page == c.page
    ensures AfterRows(c, k, limit).y == c.y + RowHeight * (k as real)
  {
    if k > 0 {
      AfterRowsPages(c, k - 1, limit);
      AfterRowsSamePage(c, k - 1, limit);
    }
  }

  /** Laying out a + b rows is laying out a rows, then b more. */
  lemma {:induction false} AfterRowsSplit(c: Cursor, a: nat, b: nat, limit: real)
    ensures AfterRows(c, a + b, limit) == AfterRows(AfterRows(c, a, limit), b, limit)
  {
    if b > 0 {
      AfterRowsSplit(c, a, b - 1, limit);
    }
  }

  /** Photos that decode, and are therefore placed. */
  function RasterCount(photos: seq<Asset>): nat
  {
    if photos == [] then 0
    else (if photos[0].Raster? then 1 else 0) + RasterCount(photos[1..])
  }

  /** The blocks of the grid row holding photos i and i + 1, from cursor c: after the
      row's break check, photo i in the left column and photo i + 1 in the right one, each
      only when it decodes, both a column wide and a photo high. */
  function RowBlocks(g: Geometry, c: Cursor, photos: seq<Asset>, i: nat): (bs: seq<Block>)
    requires i < |photos|
    ensures |bs| <= 2 && (|bs| == 2 <==> photos[i].Raster? && i + 1 < |photos| && photos[i + 1].Raster?)
    ensures bs == [] <==> !photos[i].Raster? && !(i + 1 < |photos| && photos[i + 1].Raster?)
    ensures forall k :: 0 <= k < |bs| ==>
      && bs[k].kind == Photo && bs[k].w == PhotoWidth(g) && bs[k].h == PhotoHeight
      && bs[k].page == BreakFor(c, PhotoHeight, Limit(g)).page
      && bs[k].y == BreakFor(c, PhotoHeight, Limit(g)).y
    ensures photos[i].Raster? ==> bs[0].x == Margin
    ensures |bs| == 2 ==> bs[1].x == bs[0].x + bs[0].w + PhotoGap
  {
    var d := BreakFor(c, PhotoHeight, Limit(g));
    (if photos[i].Raster? then [Block(Photo, d.page, Margin, d.y, PhotoWidth(g), PhotoHeight)] else [])
    + (if i + 1 < |photos| && photos[i + 1].Raster?
       then [Block(Photo, d.page, Margin + PhotoWidth(g) + PhotoGap, d.y, PhotoWidth(g), PhotoHeight)]
       else [])
  }

  /** The blocks of the grid rows from photo i on, the first of them laid from cursor c. */
  function GridBlocks(g: Geometry, c: Cursor, photos: seq<Asset>, i: nat): (bs: seq<Block>)
    decreases |photos| - i
    ensures i <= |photos| ==> |bs| <= |photos| - i
    ensures i >= |photos| ==> bs == []
  {
    if i >= |photos| then []
    else RowBlocks(g, c, photos, i) + GridBlocks(g, RowStep(c, Limit(g)), photos, i + 2)
  }

  /** The grid places exactly one block per decodable photo. */
  lemma {:induction false} GridCount(g: Geometry, c: Cursor, photos: seq<Asset>, i: nat)
    requires i <= |photos|
    ensures |GridBlocks(g, c, photos, i)| == RasterCount(photos[i..])
    decreases |photos| - i
  {
    if i < |photos| {
      assert photos[i..][1..] == photos[i + 1..];
      if i + 1 < |photos| {
        assert photos[i + 1..][1..] == photos[i + 2..];
        GridCount(g, RowStep(c, Limit(g)), photos, i + 2);
      } else {
        assert photos[i + 1..] == [];
      }
    }
  }

  /** Every grid block is a photo, on the grid's first page or a later one, a column wide
      and a photo high, in the left column at the margin or in the right one a column and
      a gap further. */
  lemma {:induction false} GridShape(g: Geometry, c: Cursor, photos: seq<Asset>, i: nat)
    ensures forall k :: 0 <= k < |GridBlocks(g, c, photos, i)| ==>
      var b := GridBlocks(g, c, photos, i)[k];
      && b.kind == Photo && b.page >= c.page
      && b.w == PhotoWidth(g) && b.h == PhotoHeight
      && (b.x == Margin || b.x == Margin + PhotoWidth(g) + PhotoGap)
    decreases |photos| - i
  {
    if i < |photos| {
      GridShape(g, RowStep(c, Limit(g)), photos, i + 2);
      var row, rest := RowBlocks(g, c, photos, i), GridBlocks(g, RowStep(c, Limit(g)), photos, i + 2);
      forall k | |row| <= k < |row| + |rest|
        ensures (row + rest)[k] == rest[k - |row|]
      {
      }
    }
  }

  /* ---------- the damage log ---------- */

  /** The title of the damage entry at position `index`: "3.<n>. <TYPE>: ", numbered
      from one. */
  function EntryTitle(index: nat, d: DamageEntry): (r: string)
    ensures |r| == 6 + |NatToString(index + 1)| + |d.kind|
    ensures r[..2] == "3." && r[|r| - 2..] == ": "
    ensures r[|r| - 2 - |d.kind|..|r| - 2] == Upper(d.kind)
    ensures r[2..2 + |NatToString(index + 1)|] == NatToString(index + 1)
    ensures r[2 + |NatToString(index + 1)|..4 + |NatToString(index + 1)|] == ". "
  {
    var n, k := NatToString(index + 1), Upper(d.kind);
    FivePieces("3.", n, ". ", k, ": ");
    "3." + n + ". " + k + ": "
  }

  /** Where each of five concatenated pieces sits in the result. */
  lemma FivePieces<T>(a: seq<T>, b: seq<T>, c: seq<T>, d: seq<T>, e: seq<T>)
    ensures var r := a + b + c + d + e;
      && |r| == |a| + |b| + |c| + |d| + |e|
      && r[..|a|] == a
      && r[|a|..|a| + |b|] == b
      && r[|a| + |b|..|a| + |b| + |c|] == c
      && r[|r| - |e| - |d|..|r| - |e|] == d
      && r[|r| - |e|..] == e
  {
  }

  /** "Sem descrição detalhada." */
  const NoDescription: string := "Sem descri\U{00E7}\U{00E3}o detalhada."

  function Description(d: DamageEntry): (r: string)
    ensures r != ""
    ensures d.description != "" ==> r == d.description
    ensures d.description == "" ==> r == NoDescription
  {
    if d.description != "" then d.description else NoDescription
  }

  /** Where the photo grid of an entry starts: after the entry's own break check and its
      title with the wrapped description beside it. */
  function EntryPhotoStart(g: Geometry, c: Cursor, index: nat, d: DamageEntry): (p: Cursor)
    ensures c.page <= p.page <= c.page + 1
    ensures p.page == c.page ==> p.y >= c.y + 3.0
    ensures p.page == c.page + 1 ==> p.y >= ContentStart + 3.0
  {
    var c1 := BreakFor(c, EntryHeight, Limit(g));
    var lines := g.metrics.wrap(Description(d), ContentWidth(g) - g.metrics.textWidth(EntryTitle(index, d)));
    Cursor(c1.y + LineHeight * (lines as real) + 3.0, c1.page)
  }

  /** The cursor after the damage entry at position `index`, starting from c: the title
      block, the photo rows and a closing gap of ten. An entry never adds pages backwards,
      and one that stays on its page takes at least thirteen. */
  function EntryEnd(g: Geometry, c: Cursor, index: nat, d: DamageEntry): (e: Cursor)
    ensures c.page <= e.page
    ensures e.page == c.page ==> e.y >= c.y + 13.0
  {
    var s := EntryPhotoStart(g, c, index, d);
    var rows := AfterRows(s, PhotoRows(|d.photos|), Limit(g));
    AfterRowsPages(s, PhotoRows(|d.photos|), Limit(g));
    if rows.page == s.page then
      AfterRowsSamePage(s, PhotoRows(|d.photos|), Limit(g));
      Cursor(rows.y + 10.0, rows.page)
    else Cursor(rows.y + 10.0, rows.page)
  }

  /** The photo blocks of the damage entry at position `index`, starting from c. */
  function EntryBlocks(g: Geometry, c: Cursor, index: nat, d: DamageEntry): (bs: seq<Block>)
    ensures |bs| == RasterCount(d.photos)
    ensures forall k :: 0 <= k < |bs| ==> bs[k].kind == Photo && bs[k].page >= c.page
  {
    var s := EntryPhotoStart(g, c, index, d);
    GridCount(g, s, d.photos, 0);
    assert d.photos[0..] == d.photos;
    GridShape(g, s, d.photos, 0);
    GridBlocks(g, s, d.photos, 0)
  }

  /** An entry adds at most one page for its title and one per photo row. */
  lemma EntryPages(g: Geometry, c: Cursor, index: nat, d: DamageEntry)
    ensures EntryEnd(g, c, index, d).page <= c.page + 1 + PhotoRows(|d.photos|)
  {
    AfterRowsPages(EntryPhotoStart(g, c, index, d), PhotoRows(|d.photos|), Limit(g));
  }

  /** The cursor after the given damage entries, numbered from 0. The log never moves back
      a page, and one that stays on its page takes at least thirteen per entry. */
  function EntriesEnd(g: Geometry, c: Cursor, ds: seq<DamageEntry>): (e: Cursor)
    ensures c.page <= e.page
    ensures e.page == c.page ==> e.y >= c.y + 13.0 * (|ds| as real)
  {
    if ds == [] then c
    else EntryEnd(g, EntriesEnd(g, c, ds[..|ds| - 1]), |ds| - 1, ds[|ds| - 1])
  }

  /** The photo blocks of the given damage entries, in order. */
  function EntriesBlocks(g: Geometry, c: Cursor, ds: seq<DamageEntry>): (bs: seq<Block>)
    ensures |bs| == TotalRaster(ds)
  {
    if ds == [] then []
    else EntriesBlocks(g, c, ds[..|ds| - 1])
         + EntryBlocks(g, EntriesEnd(g, c, ds[..|ds| - 1]), |ds| - 1, ds[|ds| - 1])
  }

  /** Laying out one more entry: the log up to entry i + 1 is the log up to entry i,
      then entry i from where it ended. */
  lemma EntriesStep(g: Geometry, c: Cursor, ds: seq<DamageEntry>, i: nat)
    requires i < |ds|
    ensures EntriesEnd(g, c, ds[..i + 1]) == EntryEnd(g, EntriesEnd(g, c, ds[..i]), i, ds[i])
    ensures EntriesBlocks(g, c, ds[..i + 1])
         == EntriesBlocks(g, c, ds[..i]) + EntryBlocks(g, EntriesEnd(g, c, ds[..i]), i, ds[i])
  {
    assert ds[..i + 1][..i] == ds[..i];
  }

  /** The decoded photos of all entries. */
  function TotalRaster(ds: seq<DamageEntry>): nat
  {
    if ds == [] then 0 else TotalRaster(ds[..|ds| - 1]) + RasterCount(ds[|ds| - 1].photos)
  }

  /** The page budget of a damage log: one page per entry title and one per photo row. */
  function PageBudget(ds: seq<DamageEntry>): nat
  {
    if ds == [] then 0 else PageBudget(ds[..|ds| - 1]) + 1 + PhotoRows(|ds[|ds| - 1].photos|)
  }

  /** The damage log adds at most its page budget. */
  lemma {:induction false} EntriesPages(g: Geometry, c: Cursor, ds: seq<DamageEntry>)
    ensures EntriesEnd(g, c, ds).page <= c.page + PageBudget(ds)
  {
    if ds != [] {
      EntriesPages(g, c, ds[..|ds| - 1]);
      EntryPages(g, EntriesEnd(g, c, ds[..|ds| - 1]), |ds| - 1, ds[|ds| - 1]);
    }
  }

  /** The damage log places exactly one block per decodable photo, every one a photo on
      the log's first page or a later one. */
  lemma {:induction false} EntriesShape(g: Geometry, c: Cursor, ds: seq<DamageEntry>)
    ensures |EntriesBlocks(g, c, ds)| == TotalRaster(ds)
    ensures forall k :: 0 <= k < |EntriesBlocks(g, c, ds)| ==>
      EntriesBlocks(g, c, ds)[k].kind == Photo && EntriesBlocks(g, c, ds)[k].page >= c.page
  {
    if ds != [] {
      var init := ds[..|ds| - 1];
      var e := EntriesEnd(g, c, init);
      var d := ds[|ds| - 1];
      EntriesShape(g, c, init);
      GridCount(g, EntryPhotoStart(g, e, |ds| - 1, d), d.photos, 0);
      assert d.photos[0..] == d.photos;
      GridShape(g, EntryPhotoStart(g, e, |ds| - 1, d), d.photos, 0);
      var front: seq<Block>, back: seq<Block> := EntriesBlocks(g, c, init), EntryBlocks(g, e, |ds| - 1, d);
      forall k | |front| <= k < |front| + |back|
        ensures (front + back)[k].kind == Photo && (front + back)[k].page >= c.page
      {
        assert (front + back)[k] == back[k - |front|];
      }
    }
  }

  /* ---------- the footers ---------- */

  /** Page k + 1 of `total` is stamped `k + 1/total`. */
  function FooterStamps(total: nat): (s: seq<FooterStamp>)
    ensures |s| == total
    ensures forall k :: 0 <= k < total ==> s[k] == FooterStamp(k + 1, total)
  {
    seq(total, k requires 0 <= k < total => FooterStamp(k + 1, total))
  }

  /** The report document during one rendering pass. */
  class Document {
    const pageWidth: real
    const pageHeight: real
    const logoLeft: Asset
    const logoRight: Asset
    const metrics: Metrics

    /** The cursor: where the next element is drawn on the current (last) page. */
    var yPos: real
    var pages: nat
    /** The images placed so far, in order. */
    var blocks: seq<Block>
    /** The fields drawn so far, in order. */
    var fields: seq<Field>
    var footers: seq<FooterStamp>

    function Geo(): Geometry { Geometry(pageWidth, pageHeight, metrics) }

    function At(): Cursor reads this { Cursor(yPos, pages) }

    ghost predicate Valid()
      reads this
    {
      && pageWidth >= MinPageWidth && pageHeight >= MinPageHeight
      && pages >= 1 && yPos >= ContentStart
      && forall b :: b in blocks ==> InContentArea(b, pageWidth, pageHeight) && b.page <= pages
    }

    /** A new document: one page, its header drawn, nothing else yet. */
    constructor (pageWidth: real, pageHeight: real, logoLeft: Asset, logoRight: Asset, metrics: Metrics)
      requires pageWidth >= MinPageWidth && pageHeight >= MinPageHeight
      ensures Valid()
      ensures this.pageWidth == pageWidth && this.pageHeight == pageHeight
      ensures this.logoLeft == logoLeft && this.logoRight == logoRight && this.metrics == metrics
      ensures At() == Cursor(ContentStart, 1)
      ensures blocks == [] && fields == [] && footers == []
    {
      this.pageWidth := pageWidth;
      this.pageHeight := pageHeight;
      this.logoLeft := logoLeft;
      this.logoRight := logoRight;
      this.metrics := metrics;
      yPos := HeaderBand(pageWidth, Margin, logoLeft, logoRight).contentStart;
      pages := 1;
      blocks, fields, footers := [], [], [];
    }

    /** Adds a page and draws its header; the cursor goes to the header's content start. */
    method NewPage()
      requires Valid()
      modifies this`yPos, this`pages
      ensures Valid()
      ensures At() == Cursor(ContentStart, old(pages) + 1)
    {
      pages := pages + 1;
      yPos := HeaderBand(pageWidth, Margin, logoLeft, logoRight).contentStart;
    }

    /** Moves the cursor down by a fixed amount. */
    method Advance(d: real)
      requires Valid() && d >= 0.0
      modifies this`yPos
      ensures Valid()
      ensures yPos == old(yPos) + d
    {
      yPos := yPos + d;
    }

    /** `checkPageBreak`: starts a new page exactly when a block of height h would reach
        past the footer clearance. Afterwards the block fits, whichever way it went. */
    method CheckPageBreak(h: real) returns (broke: bool)
      requires Valid()
      modifies this`yPos, this`pages
      ensures Valid()
      ensures broke <==> old(yPos) + h > Limit(Geo())
      ensures At() == BreakFor(old(At()), h, Limit(Geo()))
      ensures broke ==> At() == Cursor(ContentStart, old(pages) + 1)
      ensures !broke ==> At() == old(At()) && yPos + h <= Limit(Geo())
    {
      if yPos + h > Limit(Geo()) {
        NewPage();
        return true;
      }
      return false;
    }

    /** `addField`: draws a label and its wrapped value and returns the number of lines;
        a full-line field moves the cursor down five per line plus two. */
    method AddField(caption: string, value: string, sameLine: bool) returns (lines: nat)
      requires Valid()
      modifies this`yPos, this`fields
      ensures Valid()
      ensures lines == metrics.wrap(value, FieldWidth(metrics, pageWidth, caption, sameLine))
      ensures fields == old(fields) + [Field(caption, value)]
      ensures yPos >= old(yPos)
      ensures sameLine ==> yPos == old(yPos)
      ensures !sameLine ==> yPos == old(yPos) + LineHeight * (lines as real) + 2.0
    {
      lines := metrics.wrap(value, FieldWidth(metrics, pageWidth, caption, sameLine));
      fields := fields + [Field(caption, value)];
      if !sameLine {
        yPos := yPos + LineHeight * (lines as real) + 2.0;
      }
    }

    /** The map section: nothing without a map; otherwise the size decision (possibly with
        a new page), and, when the image decodes, a centred square map placed at the cursor,
        which then moves below it. A map that fails to decode leaves a hole. */
    method PlaceMap(image: Asset)
      requires Valid()
      modifies this`yPos, this`pages, this`blocks
      ensures Valid() && pages >= old(pages)
      ensures image.Blank? ==> At() == old(At()) && blocks == old(blocks)
      ensures image.Corrupt? ==> At() == MapStart(Geo(), old(At())) && blocks == old(blocks)
      ensures image.Raster? ==>
        var s := MapStart(Geo(), old(At()));
        var side := MapSide(Geo(), old(At()));
        && blocks == old(blocks) + [Block(MapImage, s.page, (pageWidth - side) / 2.0, s.y, side, side)]
        && At() == Cursor(s.y + side + 5.0, s.page)
      ensures At() == MapEnd(Geo(), old(At()), image)
      ensures blocks == old(blocks) + MapBlocks(Geo(), old(At()), image)
    {
      if image.Blank? {
        return;
      }
      var fit := MapSize(Limit(Geo()) - yPos - 5.0);
      var mapSize := fit.size;
      if fit.newPage {
        NewPage();
        yPos := yPos + 10.0;
      }
      if image.Raster? {
        var b := Block(MapImage, pages, (pageWidth - mapSize) / 2.0, yPos, mapSize, mapSize);
        assert InContentArea(b, pageWidth, pageHeight);
        blocks := blocks + [b];
        yPos := yPos + mapSize + 5.0;
      }
    }

    /** One damage entry: the break check, the numbered title with its description, then
        its photo grid and a closing gap. */
    method LayDamageEntry(index: nat, d: DamageEntry)
      requires Valid()
      modifies this`yPos, this`pages, this`blocks
      ensures Valid()
      ensures At() == EntryEnd(Geo(), old(At()), index, d)
      ensures blocks == old(blocks) + EntryBlocks(Geo(), old(At()), index, d)
    {
      ghost var start, before := At(), blocks;
      var _ := CheckPageBreak(EntryHeight);
      var title := EntryTitle(index, d);
      var titleWidth := metrics.textWidth(title);
      var lines := metrics.wrap(Description(d), ContentWidth(Geo()) - titleWidth);
      yPos := yPos + LineHeight * (lines as real) + 3.0;
      ghost var photoStart := EntryPhotoStart(Geo(), start, index, d);
      assert At() == photoStart && blocks == before;
      LayPhotos(d.photos);
      assert blocks == before + EntryBlocks(Geo(), start, index, d);
      yPos := yPos + 10.0;
    }

    /** The photos of one entry in a two-column grid, row by row, each row preceded by a
        break check for a photo's height. */
    method LayPhotos(photos: seq<Asset>)
      requires Valid()
      modifies this`yPos, this`pages, this`blocks
      ensures Valid()
      ensures At() == AfterRows(old(At()), PhotoRows(|photos|), Limit(Geo()))
      ensures blocks == old(blocks) + GridBlocks(Geo(), old(At()), photos, 0)
    {
      var n := |photos|;
      var i := 0;
      while i < n
        invariant 0 <= i <= n + 1 && i % 2 == 0
        invariant Valid()
        invariant At() == AfterRows(old(At()), i / 2, Limit(Geo()))
        invariant old(blocks) + GridBlocks(Geo(), old(At()), photos, 0) == blocks + GridBlocks(Geo(), At(), photos, i)
      {
        ghost var before, at := blocks, At();
        PlacePhotoRow(photos, i);
        assert GridBlocks(Geo(), at, photos, i) == RowBlocks(Geo(), at, photos, i) + GridBlocks(Geo(), At(), photos, i + 2);
        assert blocks + GridBlocks(Geo(), At(), photos, i + 2) == before + GridBlocks(Geo(), at, photos, i);
        i := i + 2;
      }
      assert i / 2 == PhotoRows(n);
    }

    /** One row of the grid, holding photos i and i + 1 (when there is one): a new page when
        a photo would reach past the footer clearance, then each decodable photo placed in
        its column, then the cursor a row further down. */
    method PlacePhotoRow(photos: seq<Asset>, i: nat)
      requires Valid() && i < |photos|
      modifies this`yPos, this`pages, this`blocks
      ensures Valid()
      ensures At() == RowStep(old(At()), Limit(Geo()))
      ensures blocks == old(blocks) + RowBlocks(Geo(), old(At()), photos, i)
    {
      if yPos + PhotoHeight > Limit(Geo()) {
        NewPage();
      }
      if photos[i].Raster? {
        var b := Block(Photo, pages, Margin, yPos, PhotoWidth(Geo()), PhotoHeight);
        assert InContentArea(b, pageWidth, pageHeight);
        blocks := blocks + [b];
      }
      if i + 1 < |photos| && photos[i + 1].Raster? {
        var b := Block(Photo, pages, Margin + PhotoWidth(Geo()) + PhotoGap, yPos, PhotoWidth(Geo()), PhotoHeight);
        assert InContentArea(b, pageWidth, pageHeight);
        blocks := blocks + [b];
      }
      yPos := yPos + RowHeight;
    }

    /** The damage log: every entry in order, numbered from one. */
    method LayDamages(ds: seq<DamageEntry>)
      requires Valid()
      modifies this`yPos, this`pages, this`blocks
      ensures Valid()
      ensures At() == EntriesEnd(Geo(), old(At()), ds)
      ensures blocks == old(blocks) + EntriesBlocks(Geo(), old(At()), ds)
    {
      for i := 0 to |ds|
        invariant Valid()
        invariant At() == EntriesEnd(Geo(), old(At()), ds[..i])
        invariant blocks == old(blocks) + EntriesBlocks(Geo(), old(At()), ds[..i])
      {
        ghost var laid, entry := EntriesBlocks(Geo(), old(At()), ds[..i]), EntryBlocks(Geo(), At(), i, ds[i]);
        EntriesStep(Geo(), old(At()), ds, i);
        ConcatAssoc(old(blocks), laid, entry);
        LayDamageEntry(i, ds[i]);
      }
      assert ds[..|ds|] == ds;
    }

    /** The footer pass: once all content is laid out, every page gets its `page/total`
        stamp, in page order. */
    method StampFooters()
      requires Valid()
      modifies this`footers
      ensures Valid()
      ensures footers == FooterStamps(pages)
    {
      var total := pages;
      footers := [];
      for i := 1 to total + 1
        invariant |footers| == i - 1
        invariant forall k :: 0 <= k < i - 1 ==> footers[k] == FooterStamp(k + 1, total)
      {
        footers := footers + [FooterStamp(i, total)];
      }
    }
  }
}
