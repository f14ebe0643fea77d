/** `generateLaudoPDF`: lays out the whole damage-assessment report (title, location and
    date, property data, map, damage log, classification, technical opinion, signature),
    then stamps every page's footer and, in save mode, names the file. */
module Laudo {
  import opened Text
  import opened Header
  import opened Sizing
  import opened Layout

  datatype Option<T> = None | Some(value: T)

  /** The report's input record. An absent optional text is the empty string. The
      coordinates arrive already written with six decimals. */
  datatype LaudoForm = LaudoForm(
    municipio: string, data: string, zona: string,
    indicacaoFiscal: string, inscricaoImobiliaria: string, matricula: string,
    nirfCib: string, incra: string,
    proprietario: string, requerente: string, cpfRequerente: string,
    endereco: string, bairro: string, cep: string,
    coordinates: string,
    tipologia: string, tipologiaOutro: string,
    classificacao: string, parecerFinal: string,
    danos: seq<DamageEntry>,
    logoEsquerda: Asset, logoDireita: Asset)

  datatype Engineer = Engineer(name: string, crea: string, state: string, institution: string)

  /** An entry of the damage-logic table: destruction level and estimated percentage. */
  datatype Severity = Severity(level: string, percent: string)

  datatype Mode = Save | Preview

  /** What one rendering produces: the pages, their footer stamps, the images and fields
      placed, the signature lines, the file name in save mode, whether the closing sections
      started a new page, and the cursor below the last signature line. */
  datatype Report = Report(
    pages: nat, footers: seq<FooterStamp>, blocks: seq<Block>, fields: seq<Field>,
    signature: seq<string>, fileName: Option<string>, closingNewPage: bool, signatureEnd: real)

  datatype Outcome = Rendered(report: Report) | UnknownClassification(code: string)

  const Urbano: string := "URBANO"
  const Outro: string := "OUTRO"
  const Cedec: string := "CEDEC"

  const IndicacaoFiscal: string := "INDICA\U{00C7}\U{00C3}O FISCAL:"
  const InscricaoMunicipal: string := "INSCRI\U{00C7}\U{00C3}O MUNICIPAL:"
  const Matricula: string := "MATR\U{00CD}CULA:"
  const NirfCib: string := "NIRF / CIB:"
  const Incra: string := "INCRA:"
  const Endereco: string := "ENDERE\U{00C7}O:"

  /** The typology shown: the free text when the typology is "other". */
  function Typology(d: LaudoForm): (t: string)
    ensures d.tipologia == Outro ==> t == d.tipologiaOutro
    ensures d.tipologia != Outro ==> t == d.tipologia
  {
    if d.tipologia == Outro then d.tipologiaOutro else d.tipologia
  }

  /** The fields of section 2, in drawing order. An urban property shows its fiscal
      indication, municipal registration and deed number; any other shows its rural
      registry numbers; never both. Every value but the coordinates is formatted. */
  function PropertyFields(d: LaudoForm): (fs: seq<Field>)
    ensures |fs| == if d.zona == Urbano then 10 else 9
  {
    PropertyHead(d) + PropertyTail(d)
  }

  /** The zone field and the zone-dependent identifiers. */
  function PropertyHead(d: LaudoForm): seq<Field>
  {
    var zone :=
      if d.zona == Urbano then
        [Field(IndicacaoFiscal, FormatValue(d.indicacaoFiscal)),
         Field(InscricaoMunicipal, FormatValue(d.inscricaoImobiliaria)),
         Field(Matricula, FormatValue(d.matricula))]
      else
        [Field(NirfCib, FormatValue(d.nirfCib)), Field(Incra, FormatValue(d.incra))];
    [Field("ZONA:", FormatValue(d.zona))] + zone
  }

  /** The fields every zone shares, after the identifiers. */
  function PropertyTail(d: LaudoForm): seq<Field>
  {
    [Field("PROPRIET\U{00C1}RIO:", FormatValue(d.proprietario)),
       Field("REQUERENTE:", FormatValue(d.requerente)),
       Field("CPF:", FormatValue(d.cpfRequerente)),
       Field(Endereco, FormatValue(FullAddress(d.endereco, d.bairro, d.cep))),
       Field("COORDENADAS:", d.coordinates),
       Field("TIPOLOGIA:", FormatValue(Typology(d)))]
  }

  /** Section 2 starts with the zone, then, for an urban property, its fiscal indication,
      municipal registration and deed number, and for any other its rural registry
      numbers. */
  lemma PropertyFieldsZone(d: LaudoForm)
    ensures var fs := PropertyFields(d);
      && fs[0] == Field("ZONA:", FormatValue(d.zona))
      && (d.zona == Urbano ==>
            fs[1..4] == [Field(IndicacaoFiscal, FormatValue(d.indicacaoFiscal)),
                         Field(InscricaoMunicipal, FormatValue(d.inscricaoImobiliaria)),
                         Field(Matricula, FormatValue(d.matricula))])
      && (d.zona != Urbano ==>
            fs[1..3] == [Field(NirfCib, FormatValue(d.nirfCib)), Field(Incra, FormatValue(d.incra))])
  {
    var head := PropertyHead(d);
    assert PropertyFields(d)[..|head|] == head;
  }

  /** The urban identifiers and the rural registry numbers are never both shown. */
  lemma ZoneFieldsExclusive(d: LaudoForm)
    ensures var fs := PropertyFields(d);
      && (forall i :: 0 <= i < |fs| && fs[i].name in {IndicacaoFiscal, InscricaoMunicipal, Matricula} ==> d.zona == Urbano)
      && (forall i :: 0 <= i < |fs| && fs[i].name in {NirfCib, Incra} ==> d.zona != Urbano)
  {
    var fs, head, tail := PropertyFields(d), PropertyHead(d), PropertyTail(d);
    TailNames(d);
    forall i | 0 <= i < |fs|
      ensures fs[i].name in {IndicacaoFiscal, InscricaoMunicipal, Matricula} ==> d.zona == Urbano
      ensures fs[i].name in {NirfCib, Incra} ==> d.zona != Urbano
    {
      if i < |head| {
        assert fs[i] == head[i];
      } else {
        assert fs[i] == tail[i - |head|];
      }
    }
  }

  /** The captions of the shared fields, in order. */
  const TailCaptions: seq<string> :=
    ["PROPRIET\U{00C1}RIO:", "REQUERENTE:", "CPF:", Endereco, "COORDENADAS:", "TIPOLOGIA:"]

  /** No shared caption is a zone identifier's caption: the only ones of equal length
      differ in their first letter. */
  lemma TailCaptionsApart()
    ensures forall j :: 0 <= j < |TailCaptions| ==>
      TailCaptions[j] !in {IndicacaoFiscal, InscricaoMunicipal, Matricula, NirfCib, Incra}
  {
    assert "REQUERENTE:"[0] != NirfCib[0] && "TIPOLOGIA:"[0] != Matricula[0];
  }

  /** None of the shared fields carries a zone identifier's caption. */
  lemma TailNames(d: LaudoForm)
    ensures forall j :: 0 <= j < |PropertyTail(d)| ==>
      PropertyTail(d)[j].name !in {IndicacaoFiscal, InscricaoMunicipal, Matricula, NirfCib, Incra}
  {
    var t := PropertyTail(d);
    assert |t| == |TailCaptions| && forall j :: 0 <= j < |t| ==> t[j].name == TailCaptions[j];
    TailCaptionsApart();
  }

  /** Section 2 ends with the owner, the requester, the CPF, the joined address, the
      coordinates as given and the typology. */
  lemma PropertyFieldsTail(d: LaudoForm)
    ensures var fs := PropertyFields(d);
      fs[|fs| - 6..] ==
        [Field("PROPRIET\U{00C1}RIO:", FormatValue(d.proprietario)),
         Field("REQUERENTE:", FormatValue(d.requerente)),
         Field("CPF:", FormatValue(d.cpfRequerente)),
         Field(Endereco, FormatValue(FullAddress(d.endereco, d.bairro, d.cep))),
         Field("COORDENADAS:", d.coordinates),
         Field("TIPOLOGIA:", FormatValue(Typology(d)))]
  {
    var fs := PropertyFields(d);
    assert fs[|PropertyHead(d)|..] == PropertyTail(d);
  }

  /** The fields of section 4: the classification and, from the damage-logic table, its
      destruction level (both upper-cased) and estimated percentage (as stored). */
  function ClassificationFields(code: string, s: Severity): (fs: seq<Field>)
    ensures |fs| == 3 && IsUpperCase(fs[0].value) && IsUpperCase(fs[1].value)
    ensures fs[0].value == Upper(code) && fs[1].value == Upper(s.level)
    ensures fs[2].value == s.percent
  {
    UpperIdempotent(code);
    UpperIdempotent(s.level);
    [Field("CLASSIFICA\U{00C7}\U{00C3}O:", Upper(code)),
     Field("N\U{00CD}VEL DE DESTRUI\U{00C7}\U{00C3}O:", Upper(s.level)),
     Field("PERCENTUAL ESTIMADO:", s.percent)]
  }

  const ElectronicallySigned: string := "Assinado Eletronicamente"
  const Role: string := "Engenheiro(a) Civil"

  /** The signature block, top to bottom: the electronic-signature note exactly when the
      engineer belongs to CEDEC, then the name in upper case, the role, and the CREA
      registration whose state defaults to PR. */
  function SignatureLines(e: Engineer): (r: seq<string>)
    ensures |r| == if e.institution == Cedec then 4 else 3
    ensures r[0] == ElectronicallySigned <==> e.institution == Cedec
    ensures r[|r| - 3] == Upper(e.name) && r[|r| - 2] == Role
    ensures r[|r| - 1] == "CREA-" + (if e.state == "" then "PR" else e.state) + " " + e.crea
  {
    var lines := [Upper(e.name), Role, "CREA-" + (if e.state == "" then "PR" else e.state) + " " + e.crea];
    UpperIdempotent(e.name);
    assert Upper(e.name) != ElectronicallySigned by {
      if |Upper(e.name)| == |ElectronicallySigned| {
        assert ElectronicallySigned[1] == 's';
        assert !IsLowerLetter(Upper(e.name)[1]);
      }
    }
    if e.institution == Cedec then [ElectronicallySigned] + lines else lines
  }

  /* ---------- the composition ---------- */

  /** The cursor below section 2 when the front page starts at c: the title (five, then
      fifteen), section 1 (eight, twelve, eight), the property fields, and a gap of two.
      The fields are at least nine, at two or more apiece. */
  function FrontFieldsEnd(g: Geometry, c: Cursor, data: LaudoForm): (e: Cursor)
    ensures e.page == c.page && e.y >= c.y + 68.0
  {
    Cursor(c.y + 48.0 + FieldsAdvance(g.metrics, g.pageWidth, PropertyFields(data)) + 2.0, c.page)
  }

  /** Where a report's damage log starts: ten below the header of the page after the
      front page and its map, which is the second page or, when the map needed a page of
      its own, the third. */
  function DamageStart(g: Geometry, data: LaudoForm, mapImage: Asset): (s: Cursor)
    ensures s.y == ContentStart + 10.0 && 2 <= s.page <= 3
    ensures var front := FrontFieldsEnd(g, Cursor(ContentStart, 1), data);
      s.page == 3 <==> !mapImage.Blank? && MapSize(Limit(g) - front.y - 5.0).newPage
  {
    Cursor(ContentStart + 10.0, MapEnd(g, FrontFieldsEnd(g, Cursor(ContentStart, 1), data), mapImage).page + 1)
  }

  /** The cursor below a report's damage log. */
  function BodyEnd(g: Geometry, data: LaudoForm, mapImage: Asset): (e: Cursor)
    ensures DamageStart(g, data, mapImage).page <= e.page
    ensures 2 <= e.page <= 3 + PageBudget(data.danos)
  {
    EntriesPages(g, DamageStart(g, data, mapImage), data.danos);
    EntriesEnd(g, DamageStart(g, data, mapImage), data.danos)
  }

  /** The images of a report, in order: the map, then the damage log's photos. */
  function BodyBlocks(g: Geometry, data: LaudoForm, mapImage: Asset): (bs: seq<Block>)
    ensures |bs| == (if mapImage.Raster? then 1 else 0) + TotalRaster(data.danos)
  {
    MapBlocks(g, FrontFieldsEnd(g, Cursor(ContentStart, 1), data), mapImage)
      + EntriesBlocks(g, DamageStart(g, data, mapImage), data.danos)
  }

  /** The body of a report ends on page two or later, within the log's page budget. Its
      images are the decodable map, first, then one photo per decodable photo, every
      photo after the first page. */
  lemma BodyShape(g: Geometry, data: LaudoForm, mapImage: Asset)
    ensures 2 <= BodyEnd(g, data, mapImage).page <= 3 + PageBudget(data.danos)
    ensures var bs := BodyBlocks(g, data, mapImage);
      var mapCount := if mapImage.Raster? then 1 else 0;
      && |bs| == mapCount + TotalRaster(data.danos)
      && (forall k :: 0 <= k < |bs| ==> (bs[k].kind == Photo <==> k >= mapCount))
      && (forall k :: mapCount <= k < |bs| ==> bs[k].page >= 2)
  {
    var s := DamageStart(g, data, mapImage);
    EntriesShape(g, s, data.danos);
    var front, back := MapBlocks(g, FrontFieldsEnd(g, Cursor(ContentStart, 1), data), mapImage),
                       EntriesBlocks(g, s, data.danos);
    assert BodyBlocks(g, data, mapImage) == front + back;
    MapThenPhotos(front, back, s.page);
  }

  /** Map blocks followed by photo blocks on page p or later: the photos are exactly the
      blocks after the map's, and they are on page p or later. */
  lemma MapThenPhotos(front: seq<Block>, back: seq<Block>, p: nat)
    requires forall k :: 0 <= k < |front| ==> front[k].kind == MapImage
    requires forall k :: 0 <= k < |back| ==> back[k].kind == Photo && back[k].page >= p
    ensures forall k :: 0 <= k < |front + back| ==>
      ((front + back)[k].kind == Photo <==> k >= |front|)
      && (k >= |front| ==> (front + back)[k].page >= p)
  {
  }

  /** The height the closing text needs below the gap decision: section 4's title and
      fields (twenty-five), section 5's title (ten), the opinion at seven per line, and
      five more. */
  function TextBlocks(g: Geometry, parecer: string): (h: real)
    ensures h >= 40.0
  {
    25.0 + 10.0 + 7.0 * (g.metrics.wrap(parecer, ContentWidth(g)) as real) + 5.0
  }

  /** The signature-gap decision taken with the cursor at y. */
  function ClosingChoice(g: Geometry, y: real, parecer: string): (ch: GapChoice)
    ensures ch.newPage <==> y + TextBlocks(g, parecer) + MinSigGap + SignatureHeight > Limit(g)
    ensures MinSigGap <= ch.gap <= PreferredSigGap
    ensures !ch.newPage ==> y + TextBlocks(g, parecer) + ch.gap + SignatureHeight <= Limit(g)
  {
    SignatureGap(Limit(g) - y, TextBlocks(g, parecer))
  }

  /** The cursor below the last signature line when the closing starts at y and section 4
      draws the fields fs: from the top of a new page's content area, or fifteen lower on
      the same page; then section 4 (ten, the fields, eight), section 5 (ten, and seven per
      line of the opinion), the signature gap, and the name and role lines. */
  function ClosingEnd(g: Geometry, y: real, fs: seq<Field>, parecer: string): (e: real)
    ensures var start := if ClosingChoice(g, y, parecer).newPage then ContentStart else y + 15.0;
      var least := start + TextBlocks(g, parecer) + FieldsAdvance(g.metrics, g.pageWidth, fs);
      least + MinSigGap - 2.0 <= e <= least + PreferredSigGap - 2.0
  {
    var choice := ClosingChoice(g, y, parecer);
    var lines := g.metrics.wrap(parecer, ContentWidth(g));
    (if choice.newPage then ContentStart else y + 15.0)
      + 10.0 + FieldsAdvance(g.metrics, g.pageWidth, fs) + 8.0
      + 10.0 + 7.0 * (lines as real) + choice.gap + 5.0 + 5.0
  }

  /** When the closing stays on the page and its three fields take one line each, the
      signature ends above the footer clearance: the gap decision reserved room for the
      text, the gap and the signature. */
  lemma SignatureFits(g: Geometry, y: real, fs: seq<Field>, parecer: string)
    requires !ClosingChoice(g, y, parecer).newPage
    requires |fs| == 3 && OneLineEach(g.metrics, g.pageWidth, fs)
    ensures ClosingEnd(g, y, fs, parecer) <= Limit(g)
  {
    OneLineAdvance(g.metrics, g.pageWidth, fs);
  }

  /** The pages of a rendered report: the body's, and one more when the closing starts a
      new page. */
  function ReportPages(g: Geometry, data: LaudoForm, mapImage: Asset): (n: nat)
    ensures 2 <= n
    ensures BodyEnd(g, data, mapImage).page <= n <= BodyEnd(g, data, mapImage).page + 1
  {
    var body := BodyEnd(g, data, mapImage);
    body.page + (if ClosingChoice(g, body.y, data.parecerFinal).newPage then 1 else 0)
  }

  /** A report has at least two pages, and at most four more than its damage log's page
      budget. */
  lemma ReportPageBounds(g: Geometry, data: LaudoForm, mapImage: Asset)
    ensures 2 <= ReportPages(g, data, mapImage) <= 4 + PageBudget(data.danos)
  {
    BodyShape(g, data, mapImage);
  }

  /** A report in which nothing breaks (the map stays on the front page, the damage log on
      its own page, the closing below it) has exactly two pages, stamped 1/2 and 2/2. */
  lemma TwoPages(g: Geometry, data: LaudoForm, mapImage: Asset)
    requires MapEnd(g, FrontFieldsEnd(g, Cursor(ContentStart, 1), data), mapImage).page == 1
    requires BodyEnd(g, data, mapImage).page == DamageStart(g, data, mapImage).page
    requires !ClosingChoice(g, BodyEnd(g, data, mapImage).y, data.parecerFinal).newPage
    ensures ReportPages(g, data, mapImage) == 2
    ensures FooterStamps(ReportPages(g, data, mapImage)) == [FooterStamp(1, 2), FooterStamp(2, 2)]
  {
    var s := FooterStamps(2);
    assert s[0] == FooterStamp(1, 2) && s[1] == FooterStamp(2, 2);
  }

  /** Renders the report. It fails, with no document, exactly when the classification has
      no entry in the damage-logic table. Otherwise the report's pages, images, fields,
      signature-gap decision and final cursor are those of the layout functions above;
      every page gets its `page/total` stamp; every image lies inside a page's content
      area; and in save mode the file is named from the municipality, the requester and
      the date. */
  method GenerateLaudo(data: LaudoForm, engineer: Engineer, mode: Mode, mapImage: Asset,
                       damageLogic: map<string, Severity>, metrics: Metrics,
                       pageWidth: real, pageHeight: real)
    returns (out: Outcome)
    requires pageWidth >= MinPageWidth && pageHeight >= MinPageHeight
    ensures out.UnknownClassification? <==> data.classificacao !in damageLogic
    ensures out.UnknownClassification? ==> out.code == data.classificacao
    ensures out.Rendered? ==>
      var r := out.report;
      var g := Geometry(pageWidth, pageHeight, metrics);
      var closing := ClassificationFields(data.classificacao, damageLogic[data.classificacao]);
      var body := BodyEnd(g, data, mapImage);
      && r.pages == ReportPages(g, data, mapImage)
      && r.footers == FooterStamps(r.pages)
      && r.blocks == BodyBlocks(g, data, mapImage)
      && (forall b :: b in r.blocks ==> InContentArea(b, pageWidth, pageHeight) && b.page <= r.pages)
      && r.fields == PropertyFields(data) + closing
      && r.closingNewPage == ClosingChoice(g, body.y, data.parecerFinal).newPage
      && r.signatureEnd == ClosingEnd(g, body.y, closing, data.parecerFinal)
      && r.signature == SignatureLines(engineer)
      && r.fileName == (if mode == Save then Some(ReportFileName(data.municipio, data.requerente, data.data)) else None)
  {
    var doc := new Document(pageWidth, pageHeight, data.logoEsquerda, data.logoDireita, metrics);
    LayBody(doc, data, mapImage);
    var blocks := doc.blocks;
    var known, closingNewPage := LayClosing(doc, data.classificacao, data.parecerFinal, damageLogic);
    if !known {
      return UnknownClassification(data.classificacao);
    }
    doc.StampFooters();
    var fileName := if mode == Save then Some(ReportFileName(data.municipio, data.requerente, data.data)) else None;
    out := Rendered(Report(doc.pages, doc.footers, blocks, doc.fields, SignatureLines(engineer),
                           fileName, closingNewPage, doc.yPos));
  }

  /** Everything up to the closing sections, on a new document: the front page, then the
      damage log on pages of its own. */
  method LayBody(doc: Document, data: LaudoForm, mapImage: Asset)
    requires doc.Valid() && doc.At() == Cursor(ContentStart, 1) && doc.blocks == [] && doc.fields == []
    modifies doc`yPos, doc`pages, doc`fields, doc`blocks
    ensures doc.Valid()
    ensures doc.At() == BodyEnd(doc.Geo(), data, mapImage)
    ensures doc.blocks == BodyBlocks(doc.Geo(), data, mapImage)
    ensures doc.fields == PropertyFields(data)
  {
    ghost var g := doc.Geo();
    LayFrontPage(doc, data, mapImage);
    DamageStartAfter(g, data, mapImage, doc.At());
    LayDamageSection(doc, data.danos, DamageStart(g, data, mapImage));
  }

  /** The damage log starts on the page after the one where the front page's map ends. */
  lemma DamageStartAfter(g: Geometry, data: LaudoForm, mapImage: Asset, c: Cursor)
    requires c == MapEnd(g, FrontFieldsEnd(g, Cursor(ContentStart, 1), data), mapImage)
    ensures DamageStart(g, data, mapImage) == Cursor(ContentStart + 10.0, c.page + 1)
  {
  }

  /** The title, section 1 (municipality and inspection date), section 2 (the property
      fields) and the map, all on the first page unless the map needs a page of its own. */
  method LayFrontPage(doc: Document, data: LaudoForm, mapImage: Asset)
    requires doc.Valid() && doc.At() == Cursor(ContentStart, 1) && doc.blocks == [] && doc.fields == []
    modifies doc`yPos, doc`pages, doc`fields, doc`blocks
    ensures doc.Valid()
    ensures var f := FrontFieldsEnd(doc.Geo(), Cursor(ContentStart, 1), data);
      && doc.At() == MapEnd(doc.Geo(), f, mapImage)
      && doc.blocks == MapBlocks(doc.Geo(), f, mapImage)
    ensures doc.fields == PropertyFields(data)
  {
    LayFrontFields(doc, data);
    doc.PlaceMap(mapImage);
  }

  /** The title, section 1 and section 2, down to the gap above the map. */
  method LayFrontFields(doc: Document, data: LaudoForm)
    requires doc.Valid()
    modifies doc`yPos, doc`fields
    ensures doc.Valid()
    ensures doc.At() == FrontFieldsEnd(doc.Geo(), old(doc.At()), data)
    ensures doc.fields == old(doc.fields) + PropertyFields(data)
  {
    doc.Advance(5.0);
    doc.Advance(15.0);
    doc.Advance(8.0);
    doc.Advance(12.0);
    doc.Advance(8.0);
    LayFields(doc, PropertyFields(data));
    doc.Advance(2.0);
  }

  /** Section 3, the damage log, which always starts a new page, ten below its header;
      `start` names that cursor. */
  method LayDamageSection(doc: Document, danos: seq<DamageEntry>, ghost start: Cursor)
    requires doc.Valid() && start == Cursor(ContentStart + 10.0, doc.pages + 1)
    modifies doc`yPos, doc`pages, doc`blocks
    ensures doc.Valid()
    ensures doc.At() == EntriesEnd(doc.Geo(), start, danos)
    ensures doc.blocks == old(doc.blocks) + EntriesBlocks(doc.Geo(), start, danos)
  {
    ghost var before := doc.blocks;
    doc.NewPage();
    doc.Advance(10.0);
    assert doc.At() == start && doc.blocks == before;
    doc.LayDamages(danos);
  }

  /** Draws full-line fields in order, each on its own line. */
  method LayFields(doc: Document, fs: seq<Field>)
    requires doc.Valid()
    modifies doc`yPos, doc`fields
    ensures doc.Valid()
    ensures doc.yPos == old(doc.yPos) + FieldsAdvance(doc.metrics, doc.pageWidth, fs)
    ensures doc.fields == old(doc.fields) + fs
  {
    for i := 0 to |fs|
      invariant doc.Valid()
      invariant doc.yPos == old(doc.yPos) + FieldsAdvance(doc.metrics, doc.pageWidth, fs[..i])
      invariant doc.fields == old(doc.fields) + fs[..i]
    {
      FieldsAdvanceSnoc(doc.metrics, doc.pageWidth, fs[..i], fs[i]);
      assert fs[..i + 1] == fs[..i] + [fs[i]];
      var _ := doc.AddField(fs[i].name, fs[i].value, false);
    }
    assert fs[..|fs|] == fs;
  }

  /** The signature-gap decision, then section 4 (classification, looked up in the
      damage-logic table), section 5 (the technical opinion at seven per line) and the
      signature lines. `known` is false, and the rendering is abandoned, exactly when the
      classification has no entry in the table. */
  method LayClosing(doc: Document, code: string, parecer: string, damageLogic: map<string, Severity>)
    returns (known: bool, newPage: bool)
    requires doc.Valid()
    modifies doc`yPos, doc`pages, doc`fields
    ensures doc.Valid()
    ensures newPage == ClosingChoice(doc.Geo(), old(doc.yPos), parecer).newPage
    ensures doc.pages == old(doc.pages) + (if newPage then 1 else 0)
    ensures known <==> code in damageLogic
    ensures !known ==> doc.fields == old(doc.fields) + [ClassificationFields(code, Severity("", ""))[0]]
    ensures known ==>
      var fs := ClassificationFields(code, damageLogic[code]);
      && doc.fields == old(doc.fields) + fs
      && doc.yPos == ClosingEnd(doc.Geo(), old(doc.yPos), fs, parecer)
  {
    var parecerLines := doc.metrics.wrap(parecer, ContentWidth(doc.Geo()));
    var choice := ClosingChoice(doc.Geo(), doc.yPos, parecer);
    newPage := choice.newPage;
    if choice.newPage {
      doc.NewPage();
    } else {
      doc.Advance(15.0);
    }
    known := LayClassification(doc, code, damageLogic);
    if !known {
      return;
    }
    doc.Advance(8.0);
    // section 5: technical opinion
    doc.Advance(10.0);
    doc.Advance(7.0 * (parecerLines as real));
    // signature: gap, name, role, registration
    doc.Advance(choice.gap);
    doc.Advance(5.0);
    doc.Advance(5.0);
  }

  /** Section 4: ten down, the classification, then, when the damage-logic table has an
      entry for it, its destruction level and estimated percentage, each advancing the
      cursor by its wrapped lines at five per line plus two. */
  method LayClassification(doc: Document, code: string, damageLogic: map<string, Severity>)
    returns (known: bool)
    requires doc.Valid()
    modifies doc`yPos, doc`fields
    ensures doc.Valid()
    ensures known <==> code in damageLogic
    ensures known ==>
      var fs := ClassificationFields(code, damageLogic[code]);
      && doc.fields == old(doc.fields) + fs
      && doc.yPos == old(doc.yPos) + 10.0 + FieldsAdvance(doc.metrics, doc.pageWidth, fs)
    ensures !known ==>
      var fs := [ClassificationFields(code, Severity("", ""))[0]];
      && doc.fields == old(doc.fields) + fs
      && doc.yPos == old(doc.yPos) + 10.0 + FieldsAdvance(doc.metrics, doc.pageWidth, fs)
  {
    doc.Advance(10.0);
    var first := ClassificationFields(code, Severity("", ""))[0];
    FieldsAdvanceSnoc(doc.metrics, doc.pageWidth, [], first);
    assert [] + [first] == [first];
    var _ := doc.AddField("CLASSIFICA\U{00C7}\U{00C3}O:", Upper(code), false);
    if code !in damageLogic {
      return false;
    }
    known := true;
    var severity := damageLogic[code];
    ghost var fs := ClassificationFields(code, severity);
    assert fs[..1] == [first];
    FieldsAdvanceSnoc(doc.metrics, doc.pageWidth, fs[..1], fs[1]);
    assert fs[..1] + [fs[1]] == fs[..2];
    FieldsAdvanceSnoc(doc.metrics, doc.pageWidth, fs[..2], fs[2]);
    assert fs[..2] + [fs[2]] == fs;
    var _ := doc.AddField("N\U{00CD}VEL DE DESTRUI\U{00C7}\U{00C3}O:", Upper(severity.level), false);
    var _ := doc.AddField("PERCENTUAL ESTIMADO:", severity.percent, false);
  }
}
