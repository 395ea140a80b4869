/**
  The PDF label writer: an object list and its serialization with a cross-reference table
  (section 7.5 of ISO 32000-1).

  A file is a string whose characters stand for bytes. The page drawing programs (streams) and
  the text of the media box are parameters.
 */
module PdfWriter {
  import opened Text

  /** Offsets must have at most ten digits for a cross-reference entry to be twenty bytes. */
  const OFFSET_LIMIT: nat := 10_000_000_000

  /** The fixed texts between the variable parts of a document. */
  datatype Keywords = Keywords(
    header: string,
    reference: string,
    catalogPages: string, referenceEnd: string,
    pagesKids: string, kidsCount: string, dictionaryEnd: string,
    font: string,
    pageParent: string, parentBox: string, boxFont: string, fontContents: string,
    lengthStart: string, streamStart: string, streamEnd: string,
    objectStart: string, objectEnd: string,
    xrefStart: string, xrefSize: string, freeEntry: string, usedEntry: string,
    trailerSize: string, sizeRoot: string, rootEnd: string, startXref: string, fileEnd: string)

  const PDF := Keywords(
    header := "%PDF-1.4\n%\U{E2}\U{E3}\U{CF}\U{D3}\n",
    reference := " 0 R",
    catalogPages := "<< /Type /Catalog /Pages ", referenceEnd := " 0 R >>",
    pagesKids := "<< /Type /Pages /Kids [", kidsCount := "] /Count ", dictionaryEnd := " >>",
    font := "<< /Type /Font /Subtype /Type1 /BaseFont /Helvetica >>",
    pageParent := "<< /Type /Page /Parent ", parentBox := " 0 R /MediaBox [",
    boxFont := "] /Resources << /Font << /F1 ", fontContents := " 0 R >> >> /Contents ",
    lengthStart := "<< /Length ", streamStart := " >>\nstream\n", streamEnd := "\nendstream",
    objectStart := " 0 obj\n", objectEnd := "\nendobj\n",
    xrefStart := "xref\n0 ", xrefSize := "\n", freeEntry := "0000000000 65535 f \n", usedEntry := " 00000 n \n",
    trailerSize := "trailer\n<< /Size ", sizeRoot := " /Root ", rootEnd := " 0 R >>\n",
    startXref := "startxref\n", fileEnd := "\n%%EOF\n")

  // ----- Objects ----------------------------------------------------------------------------

  function Ref(k: Keywords, n: nat): string {
    Decimal(n) + k.reference
  }

  function PageReferences(k: Keywords, count: nat): string {
    Join(seq(count, i requires 0 <= i < count => Ref(k, 4 + 2 * i)), ' ')
  }

  datatype Object =
    | Unused
    | Catalog(pages: nat)
    | Pages(kids: string, count: nat)
    | Font
    | Page(parent: nat, mediaBox: string, font: nat, contents: nat)
    | Content(stream: string)

  function CatalogText(k: Keywords, pages: nat): string {
    k.catalogPages + Decimal(pages) + k.referenceEnd
  }

  function PagesText(k: Keywords, kids: string, count: nat): string {
    k.pagesKids + kids + (k.kidsCount + Decimal(count) + k.dictionaryEnd)
  }

  function PageText(k: Keywords, parent: nat, mediaBox: string, font: nat, contents: nat): string {
    (k.pageParent + Decimal(parent) + k.parentBox)
    + mediaBox
    + (k.boxFont + Decimal(font) + k.fontContents)
    + ("" + Decimal(contents) + k.referenceEnd)
  }

  function ContentText(k: Keywords, stream: string): string {
    (k.lengthStart + Decimal(|stream|) + k.streamStart) + stream + k.streamEnd
  }

  function BodyText(k: Keywords, item: Object): string {
    match item
    case Unused => ""
    case Catalog(pages) => CatalogText(k, pages)
    case Pages(kids, count) => PagesText(k, kids, count)
    case Font => k.font
    case Page(parent, mediaBox, font, contents) => PageText(k, parent, mediaBox, font, contents)
    case Content(stream) => ContentText(k, stream)
  }

  /** What object n must be: pages at the even numbers from 4, each followed by its stream. */
  function ObjectNumbered(k: Keywords, mediaBox: string, streams: seq<string>, n: nat): Object
    requires n < 4 + 2 * |streams|
  {
    if n == 0 then Unused
    else if n == 1 then Catalog(2)
    else if n == 2 then Pages(PageReferences(k, |streams|), |streams|)
    else if n == 3 then Font
    else if n % 2 == 0 then Page(2, mediaBox, 3, n + 1)
    else Content(streams[(n - 5) / 2])
  }

  function Objects(k: Keywords, mediaBox: string, streams: seq<string>): (objects: seq<Object>)
    ensures |objects| == 4 + 2 * |streams|
    ensures forall n :: 0 <= n < |objects| ==> objects[n] == ObjectNumbered(k, mediaBox, streams, n)
  {
    seq(4 + 2 * |streams|, n requires 0 <= n < 4 + 2 * |streams| => ObjectNumbered(k, mediaBox, streams, n))
  }

  // ----- Serialization ----------------------------------------------------------------------

  function ObjectText(k: Keywords, n: nat, item: Object): string {
    ("" + Decimal(n) + k.objectStart) + BodyText(k, item) + k.objectEnd
  }

  /** The numbered objects as they are written; there is no object 0. */
  function Texts(k: Keywords, objects: seq<Object>): (texts: seq<string>)
    ensures |texts| == |objects|
    ensures forall n :: 1 <= n < |objects| ==> texts[n] == ObjectText(k, n, objects[n])
  {
    seq(|objects|, n requires 0 <= n < |objects| => ObjectText(k, n, objects[n]))
  }

  /** The head and the texts below n. */
  function Body(head: string, texts: seq<string>, n: nat): string
    requires 1 <= n <= |texts|
  {
    if n == 1 then head else Body(head, texts, n - 1) + texts[n - 1]
  }

  /** Where each text starts. */
  function Offset(head: string, texts: seq<string>, n: nat): nat
    requires 1 <= n <= |texts|
  {
    if n == 1 then |head| else Offset(head, texts, n - 1) + |texts[n - 1]|
  }

  function Zeros(n: nat): (s: string)
    ensures |s| == n && AllDigits(s)
  {
    if n == 0 then "" else Zeros(n - 1) + "0"
  }

  function Padded(n: nat): string {
    Zeros(if |Decimal(n)| < 10 then 10 - |Decimal(n)| else 0) + Decimal(n)
  }

  function Entry(k: Keywords, offset: nat): string {
    Padded(offset) + k.usedEntry
  }

  /** The entries of the given offsets below n, after the free entry. */
  function Table(k: Keywords, offsets: seq<nat>, n: nat): string
    requires 1 <= n <= |offsets|
  {
    if n == 1 then k.freeEntry else Table(k, offsets, n - 1) + Entry(k, offsets[n - 1])
  }

  function TableHead(k: Keywords, count: nat): string {
    k.xrefStart + Decimal(count) + k.xrefSize
  }

  function Trailer(k: Keywords, count: nat): string {
    (k.trailerSize + Decimal(count) + k.sizeRoot) + ("" + Decimal(1) + k.rootEnd) + k.startXref
  }

  function Ending(k: Keywords, xref: nat): string {
    Decimal(xref) + k.fileEnd
  }

  function Offsets(head: string, texts: seq<string>): (offsets: seq<nat>)
    ensures |offsets| == |texts|
    ensures forall n {:trigger offsets[n]} :: 1 <= n < |texts| ==> offsets[n] == Offset(head, texts, n)
    ensures offsets != [] ==> offsets[0] == 0
  {
    seq(|texts|, n requires 0 <= n < |texts| => if n == 0 then 0 else Offset(head, texts, n))
  }

  function FileOf(k: Keywords, texts: seq<string>): string
    requires texts != []
  {
    Body(k.header, texts, |texts|) + TableHead(k, |texts|) + Table(k, Offsets(k.header, texts), |texts|)
    + Trailer(k, |texts|) + Ending(k, Offset(k.header, texts, |texts|))
  }

  function File(mediaBox: string, streams: seq<string>): string {
    FileOf(PDF, Texts(PDF, Objects(PDF, mediaBox, streams)))
  }

  // ----- The writer -------------------------------------------------------------------------

  method WritePageReferences(k: Keywords, count: nat) returns (r: string)
    ensures r == PageReferences(k, count)
  {
    var refs: seq<string> := [];
    for index := 0 to count
      invariant refs == seq(index, i requires 0 <= i < index => Ref(k, 4 + 2 * i))
    {
      refs := refs + [Ref(k, 4 + index * 2)];
    }
    r := Join(refs, ' ');
  }

  method BuildObjects(k: Keywords, mediaBox: string, streams: seq<string>) returns (objects: seq<Object>)
    ensures objects == Objects(k, mediaBox, streams)
  {
    var kids := WritePageReferences(k, |streams|);
    objects := [Unused, Catalog(2), Pages(kids, |streams|), Font];
    for index := 0 to |streams|
      invariant |objects| == 4 + 2 * index
      invariant forall n :: 0 <= n < |objects| ==> objects[n] == ObjectNumbered(k, mediaBox, streams, n)
    {
      var contentNumber := 5 + index * 2;
      objects := objects + [Page(2, mediaBox, 3, contentNumber)];
      objects := objects + [Content(streams[index])];
    }
  }

  /** Writes the numbered objects, remembering where each one starts. */
  method WriteObjects(head: string, texts: seq<string>, offsets: array<nat>) returns (pdf: string)
    requires texts != [] && offsets.Length == |texts|
    modifies offsets
    ensures pdf == Body(head, texts, |texts|)
    ensures forall n {:trigger offsets[n]} :: 1 <= n < |texts| ==> offsets[n] == Offset(head, texts, n)
    ensures |pdf| == Offset(head, texts, |texts|)
    ensures offsets[0] == old(offsets[0])
  {
    pdf := head;
    for index := 1 to |texts|
      invariant pdf == Body(head, texts, index)
      invariant |pdf| == Offset(head, texts, index)
      invariant forall n {:trigger offsets[n]} :: 1 <= n < index ==> offsets[n] == Offset(head, texts, n)
      invariant offsets[0] == old(offsets[0])
    {
      offsets[index] := |pdf|;
      pdf := pdf + texts[index];
    }
  }

  method WriteTable(k: Keywords, offsets: array<nat>) returns (table: string)
    requires offsets.Length > 0
    ensures table == Table(k, offsets[..], offsets.Length)
  {
    table := k.freeEntry;
    for index := 1 to offsets.Length
      invariant table == Table(k, offsets[..], index)
    {
      table := table + Entry(k, offsets[index]);
    }
  }

  method Assemble(k: Keywords, texts: seq<string>) returns (pdf: string)
    requires texts != []
    ensures pdf == FileOf(k, texts)
  {
    var offsets := new nat[|texts|](i => 0);
    var body := WriteObjects(k.header, texts, offsets);
    assert offsets[..] == Offsets(k.header, texts);
    var table := WriteTable(k, offsets);
    pdf := body + TableHead(k, |texts|) + table + Trailer(k, |texts|) + Ending(k, |body|);
  }

  method Render(mediaBox: string, streams: seq<string>) returns (pdf: string)
    ensures pdf == File(mediaBox, streams)
  {
    var objects := BuildObjects(PDF, mediaBox, streams);
    pdf := Assemble(PDF, Texts(PDF, objects));
  }
}
