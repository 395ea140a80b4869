/**
  An independent reader for the label documents: it starts at the end of the file, follows
  startxref to the cross-reference table, the table's offsets to objects, and the references
  from the catalog to the page tree, the pages and their streams (section 7.5 of ISO 32000-1).
 */
module PdfReader {
  import opened Text
  import opened PdfWriter

  // ----- Reading: words ---------------------------------------------------------------------

  /** The words of the format as the reader expects them. */
  const ISO := Keywords(
    header := "%PDF-1.4\n%\U{E2}\U{E3}\U{CF}\U{D3}\n",
    reference := " 0 R",
    catalogPages := "<< /Type /Catalog /Pages ", referenceEnd := " 0 R >>",
    pagesKids := "<< /Type /Pages /Kids [", kidsCount := "] /Count ", dictionaryEnd := " >>",
    font := "<< /Type /Font /Subtype /Type1 /BaseFont /Helvetica >>",
    pageParent := "<< /Type /Page /Parent ", parentBox := " 0 R /MediaBox [",
    boxFont := "] /Resources << /Font << /F1 ", fontContents := " 0 R >> >> /Contents ",
    lengthStart := "<< /Length ", streamStart := " >>\nstream\n", streamEnd := "\nendstream",
    objectStart := " 0 obj\n", objectEnd := "\nendobj\n",
    xrefStart := "xref\n0 ", xrefSize := "\n", freeEntry := "0000000000 65535 f \n", usedEntry := " 00000 n \n",
    trailerSize := "trailer\n<< /Size ", sizeRoot := " /Root ", rootEnd := " 0 R >>\n",
    startXref := "startxref\n", fileEnd := "\n%%EOF\n")

  /** The writer uses these words. */
  lemma WriterWords()
    ensures PDF == ISO
  {
  }

  // ----- Reading: tokens --------------------------------------------------------------------

  /** The text stands in s at the given place. */
  predicate At(s: string, pos: nat, text: string) {
    pos + |text| <= |s| && forall i :: 0 <= i < |text| ==> s[pos + i] == text[i]
  }

  datatype Reading<T> = Failed | Got(value: T, next: nat)

  /** Reads digits on to a value read so far. */
  function Digits(s: string, pos: nat, value: nat): Reading<nat>
    decreases |s| - pos
  {
    if pos < |s| && IsDigit(s[pos]) then Digits(s, pos + 1, 10 * value + DigitValue(s[pos]))
    else Got(value, pos)
  }

  function Number(s: string, pos: nat): Reading<nat> {
    if pos < |s| && IsDigit(s[pos]) then Digits(s, pos, 0) else Failed
  }

  /** A number between two fixed texts. */
  function Field(s: string, pos: nat, before: string, after: string): Reading<nat> {
    if !At(s, pos, before) then Failed
    else
      match Number(s, pos + |before|)
      case Failed => Failed
      case Got(n, next) => if At(s, next, after) then Got(n, next + |after|) else Failed
  }

  lemma AtConcat(s: string, pos: nat, a: string, b: string)
    requires At(s, pos, a + b)
    ensures At(s, pos, a) && At(s, pos + |a|, b)
  {
    forall i | 0 <= i < |a| ensures s[pos + i] == a[i] {
      assert a[i] == (a + b)[i];
    }
    forall i | 0 <= i < |b| ensures s[pos + |a| + i] == b[i] {
      assert b[i] == (a + b)[|a| + i];
    }
  }

  lemma AtExtended(s: string, more: string, pos: nat, text: string)
    requires At(s, pos, text)
    ensures At(s + more, pos, text)
  {
  }

  lemma {:induction false} DigitsRead(s: string, pos: nat, digits: string, i: nat)
    requires At(s, pos, digits) && AllDigits(digits) && i <= |digits|
    ensures AllDigits(digits[..i]) && Digits(s, pos, 0) == Digits(s, pos + i, NumeralValue(digits[..i]))
  {
    if i > 0 {
      DigitsRead(s, pos, digits, i - 1);
      assert digits[..i][..i - 1] == digits[..i - 1] && s[pos + (i - 1)] == digits[i - 1];
    }
  }

  lemma NumeralReads(s: string, pos: nat, digits: string)
    requires At(s, pos, digits) && AllDigits(digits) && digits != ""
    requires pos + |digits| < |s| ==> !IsDigit(s[pos + |digits|])
    ensures Number(s, pos) == Got(NumeralValue(digits), pos + |digits|)
  {
    DigitsRead(s, pos, digits, |digits|);
    assert digits[..|digits|] == digits;
    assert s[pos] == digits[0];
  }

  lemma FieldReads(s: string, pos: nat, before: string, n: nat, after: string)
    requires At(s, pos, before + Decimal(n) + after)
    requires after != "" && !IsDigit(after[0])
    ensures Field(s, pos, before, after) == Got(n, pos + |before + Decimal(n) + after|)
  {
    AtConcat(s, pos, before + Decimal(n), after);
    AtConcat(s, pos, before, Decimal(n));
    assert s[pos + |before| + |Decimal(n)|] == after[0];
    NumeralReads(s, pos + |before|, Decimal(n));
    DecimalRoundTrip(n);
  }

  /** A text that can follow a number. */
  predicate EndsNumber(text: string) {
    text != "" && !IsDigit(text[0])
  }

  /** What the proofs need to know of the fixed texts. */
  predicate WellChosen(k: Keywords) {
    && EndsNumber(k.reference) && EndsNumber(k.referenceEnd) && EndsNumber(k.dictionaryEnd)
    && EndsNumber(k.parentBox) && EndsNumber(k.fontContents) && EndsNumber(k.streamStart)
    && EndsNumber(k.objectStart) && EndsNumber(k.xrefSize) && EndsNumber(k.sizeRoot) && EndsNumber(k.rootEnd)
    && k.kidsCount != "" && k.kidsCount[0] == ']' && k.boxFont != "" && k.boxFont[0] == ']'
    && |k.freeEntry| == 20 && |k.usedEntry| == 10 && EndsNumber(k.usedEntry)
    && EndsNumber(k.fileEnd) && k.startXref != "" && !IsDigit(k.startXref[|k.startXref| - 1])
  }

  lemma PdfWellChosen()
    ensures WellChosen(PDF)
  {
  }

  // ----- Reading: the cross-reference table -------------------------------------------------

  /** Where the digits that end the first n characters of s start. */
  function DigitsStart(s: string, n: nat): (start: nat)
    requires n <= |s|
    ensures start <= n
  {
    if n > 0 && IsDigit(s[n - 1]) then DigitsStart(s, n - 1) else n
  }

  /** The number between the given word and the given ending of s. */
  function LastNumber(s: string, word: string, ending: string): Option<nat> {
    if |s| < |ending| || !At(s, |s| - |ending|, ending) then None
    else
      var start := DigitsStart(s, |s| - |ending|);
      if start < |word| || !At(s, start - |word|, word) then None
      else
        match Number(s, start)
        case Failed => None
        case Got(n, next) => if next == |s| - |ending| then Some(n) else None
  }

  function StartXref(k: Keywords, s: string): Option<nat> {
    LastNumber(s, k.startXref, k.fileEnd)
  }

  datatype Xref = Xref(count: nat, first: nat, root: nat)

  datatype TrailerEntries = TrailerEntries(size: nat, root: nat)

  function ReadTrailer(k: Keywords, s: string, pos: nat): Option<TrailerEntries> {
    match Field(s, pos, k.trailerSize, k.sizeRoot)
    case Failed => None
    case Got(size, next) =>
      match Field(s, next, "", k.rootEnd)
      case Failed => None
      case Got(root, end) => if At(s, end, k.startXref) then Some(TrailerEntries(size, root)) else None
  }

  /** The table head at the given place, the free entry and, past twenty bytes per entry, the trailer. */
  function ReadXref(k: Keywords, s: string, pos: nat): Option<Xref> {
    match Field(s, pos, k.xrefStart, k.xrefSize)
    case Failed => None
    case Got(count, first) =>
      match ReadTrailer(k, s, first + 20 * count)
      case None => None
      case Some(trailer) =>
        if trailer.size == count && At(s, first, k.freeEntry) then Some(Xref(count, first, trailer.root)) else None
  }

  /** The offset in the n-th entry of twenty bytes, when that entry is in use. */
  function ReadEntry(k: Keywords, s: string, first: nat, n: nat): Option<nat> {
    var pos := first + 20 * n;
    match Number(s, pos)
    case Failed => None
    case Got(offset, next) => if next == pos + 10 && At(s, next, k.usedEntry) then Some(offset) else None
  }

  /** Where the body of object n starts: its entry must lead to its own number. */
  function Locate(k: Keywords, s: string, x: Xref, n: nat): Option<nat> {
    if n >= x.count then None
    else
      match ReadEntry(k, s, x.first, n)
      case None => None
      case Some(offset) =>
        match Field(s, offset, "", k.objectStart)
        case Failed => None
        case Got(m, next) => if m == n then Some(next) else None
  }

  // ----- Reading: the document --------------------------------------------------------------

  function ReadCatalog(k: Keywords, s: string, pos: nat): Option<nat> {
    match Field(s, pos, k.catalogPages, k.referenceEnd)
    case Got(n, next) => if At(s, next, k.objectEnd) then Some(n) else None
    case Failed => None
  }

  /** References separated by single spaces; there may be none. */
  function ReadRefs(k: Keywords, s: string, pos: nat): Reading<seq<nat>>
    decreases |s| - pos
  {
    match Field(s, pos, "", k.reference)
    case Failed => Got([], pos)
    case Got(n, next) =>
      if next <= pos || next > |s| then Failed
      else if next < |s| && s[next] == ' ' then
        match ReadRefs(k, s, next + 1)
        case Failed => Failed
        case Got(more, end) => Got([n] + more, end)
      else Got([n], next)
  }

  function ReadCount(k: Keywords, s: string, pos: nat): Option<nat> {
    match Field(s, pos, k.kidsCount, k.dictionaryEnd)
    case Got(count, end) => if At(s, end, k.objectEnd) then Some(count) else None
    case Failed => None
  }

  function ReadKids(k: Keywords, s: string, pos: nat): Option<seq<nat>> {
    if !At(s, pos, k.pagesKids) then None
    else
      match ReadRefs(k, s, pos + |k.pagesKids|)
      case Failed => None
      case Got(kids, next) => if ReadCount(k, s, next) == Some(|kids|) then Some(kids) else None
  }

  datatype PageLinks = PageLinks(parent: nat, mediaBox: string, font: nat, contents: nat)

  /** What a page shows, and on what size. */
  datatype PageContents = PageContents(mediaBox: string, stream: string)

  /** The first place from pos on where the character is c. */
  function SkipTo(s: string, pos: nat, c: char): (end: nat)
    ensures pos <= |s| ==> pos <= end <= |s|
    decreases |s| - pos
  {
    if pos < |s| && s[pos] != c then SkipTo(s, pos + 1, c) else pos
  }

  function ReadPage(k: Keywords, s: string, pos: nat): Option<PageLinks> {
    match Field(s, pos, k.pageParent, k.parentBox)
    case Failed => None
    case Got(parent, box) =>
      var boxEnd := SkipTo(s, box, ']');
      match Field(s, boxEnd, k.boxFont, k.fontContents)
      case Failed => None
      case Got(font, next) =>
        match Field(s, next, "", k.referenceEnd)
        case Failed => None
        case Got(contents, end) =>
          if At(s, end, k.objectEnd) && box <= |s| then Some(PageLinks(parent, s[box..boxEnd], font, contents))
          else None
  }

  function ReadStream(k: Keywords, s: string, pos: nat): Option<string> {
    match Field(s, pos, k.lengthStart, k.streamStart)
    case Failed => None
    case Got(length, next) =>
      if next + length <= |s| && At(s, next + length, k.streamEnd) && At(s, next + length + |k.streamEnd|, k.objectEnd)
      then Some(s[next..next + length]) else None
  }

  predicate IsFont(k: Keywords, s: string, x: Xref, n: nat) {
    match Locate(k, s, x, n)
    case None => false
    case Some(pos) => At(s, pos, k.font) && At(s, pos + |k.font|, k.objectEnd)
  }

  /** The size and the drawing program of a page, found through the page's own references. */
  function ReadPageContents(k: Keywords, s: string, x: Xref, pages: nat, kid: nat): Option<PageContents> {
    match Locate(k, s, x, kid)
    case None => None
    case Some(pos) =>
      match ReadPage(k, s, pos)
      case None => None
      case Some(links) =>
        if links.parent != pages || !IsFont(k, s, x, links.font) then None
        else
          match Locate(k, s, x, links.contents)
          case None => None
          case Some(content) =>
            match ReadStream(k, s, content)
            case None => None
            case Some(stream) => Some(PageContents(links.mediaBox, stream))
  }

  function ReadPages(k: Keywords, s: string, x: Xref, pages: nat, kids: seq<nat>): Option<seq<PageContents>> {
    if forall i :: 0 <= i < |kids| ==> ReadPageContents(k, s, x, pages, kids[i]).Some? then
      Some(seq(|kids|, i requires 0 <= i < |kids| && ReadPageContents(k, s, x, pages, kids[i]).Some? =>
        ReadPageContents(k, s, x, pages, kids[i]).value))
    else None
  }

  function ReadPageTree(k: Keywords, s: string, x: Xref, pages: nat): Option<seq<PageContents>> {
    match Locate(k, s, x, pages)
    case None => None
    case Some(pos) =>
      match ReadKids(k, s, pos)
      case None => None
      case Some(kids) => ReadPages(k, s, x, pages, kids)
  }

  function ReadRoot(k: Keywords, s: string, x: Xref): Option<seq<PageContents>> {
    match Locate(k, s, x, x.root)
    case None => None
    case Some(pos) =>
      match ReadCatalog(k, s, pos)
      case None => None
      case Some(pages) => ReadPageTree(k, s, x, pages)
  }

  /** The pages of a document, in order. */
  function ReadDocument(k: Keywords, s: string): Option<seq<PageContents>> {
    match StartXref(k, s)
    case None => None
    case Some(pos) =>
      match ReadXref(k, s, pos)
      case None => None
      case Some(x) => if At(s, 0, k.header) then ReadRoot(k, s, x) else None
  }

  // ----- Widths of numbers ------------------------------------------------------------------

  lemma TenDigits(n: nat)
    ensures |Decimal(n)| <= 10 <==> n < OFFSET_LIMIT
  {
    DecimalWidth(n, 10);
    assert Power10(5) == 10 * (10 * (10 * (10 * (10 * Power10(0)))));
    assert Power10(10) == 10 * (10 * (10 * (10 * (10 * Power10(5)))));
  }

  lemma {:induction false} ZerosValue(k: nat, s: string)
    requires AllDigits(s)
    ensures NumeralValue(Zeros(k) + s) == NumeralValue(s)
    decreases k, |s|
  {
    if s != "" {
      assert (Zeros(k) + s)[..k + |s| - 1] == Zeros(k) + s[..|s| - 1];
      ZerosValue(k, s[..|s| - 1]);
    } else if k > 0 {
      assert Zeros(k) + s == Zeros(k) && Zeros(k)[..k - 1] == Zeros(k - 1) && Zeros(k - 1) + "" == Zeros(k - 1);
      ZerosValue(k - 1, "");
    }
  }

  /** An offset is written in ten digits, or in more when it has more. */
  lemma PaddedReads(n: nat)
    ensures AllDigits(Padded(n)) && NumeralValue(Padded(n)) == n
    ensures if n < OFFSET_LIMIT then |Padded(n)| == 10 else |Padded(n)| > 10
  {
    TenDigits(n);
    DecimalRoundTrip(n);
    ZerosValue(if |Decimal(n)| < 10 then 10 - |Decimal(n)| else 0, Decimal(n));
  }

  /** Section 7.5.4 of ISO 32000-1: an entry is twenty bytes, exactly while the offset has ten digits. */
  lemma EntryReads(k: Keywords, s: string, first: nat, n: nat, offset: nat)
    requires WellChosen(k)
    requires At(s, first + 20 * n, Entry(k, offset))
    ensures |Entry(k, offset)| == 20 <==> offset < OFFSET_LIMIT
    ensures ReadEntry(k, s, first, n) == if offset < OFFSET_LIMIT then Some(offset) else None
  {
    PaddedReads(offset);
    var pos := first + 20 * n;
    AtConcat(s, pos, Padded(offset), k.usedEntry);
    assert s[pos + |Padded(offset)|] == k.usedEntry[0];
    NumeralReads(s, pos, Padded(offset));
  }

  // ----- Places of objects and entries ------------------------------------------------------

  predicate TenDigit(offsets: seq<nat>, n: nat)
    requires n <= |offsets|
  {
    forall k :: 1 <= k < n ==> offsets[k] < OFFSET_LIMIT
  }

  lemma {:induction false} TableLength(k: Keywords, offsets: seq<nat>, n: nat)
    requires WellChosen(k)
    requires 1 <= n <= |offsets| && TenDigit(offsets, n)
    ensures |Table(k, offsets, n)| == 20 * n
  {
    if n > 1 {
      TableLength(k, offsets, n - 1);
      PaddedReads(offsets[n - 1]);
    }
  }

  lemma {:induction false} TableAt(k: Keywords, offsets: seq<nat>, n: nat, m: nat)
    requires WellChosen(k)
    requires 1 <= n < m <= |offsets| && TenDigit(offsets, n)
    ensures At(Table(k, offsets, m), 20 * n, Entry(k, offsets[n]))
    decreases m
  {
    var front := Table(k, offsets, m - 1);
    if n < m - 1 {
      TableAt(k, offsets, n, m - 1);
      AtExtended(front, Entry(k, offsets[m - 1]), 20 * n, Entry(k, offsets[n]));
    } else {
      TableLength(k, offsets, n);
      AtEnd(front, Entry(k, offsets[n]));
    }
  }

  lemma {:induction false} TableStarts(k: Keywords, offsets: seq<nat>, n: nat)
    requires 1 <= n <= |offsets|
    ensures At(Table(k, offsets, n), 0, k.freeEntry)
  {
    if n > 1 {
      TableStarts(k, offsets, n - 1);
      AtExtended(Table(k, offsets, n - 1), Entry(k, offsets[n - 1]), 0, k.freeEntry);
    }
  }

  lemma {:induction false} BodyStarts(head: string, texts: seq<string>, n: nat)
    requires 1 <= n <= |texts|
    ensures At(Body(head, texts, n), 0, head)
  {
    if n > 1 {
      BodyStarts(head, texts, n - 1);
      AtExtended(Body(head, texts, n - 1), texts[n - 1], 0, head);
    }
  }

  lemma AtEnd(a: string, b: string)
    ensures At(a + b, |a|, b)
  {
  }

  lemma {:induction false} BodyLength(head: string, texts: seq<string>, n: nat)
    requires 1 <= n <= |texts|
    ensures |Body(head, texts, n)| == Offset(head, texts, n)
  {
    if n > 1 {
      BodyLength(head, texts, n - 1);
    }
  }

  lemma {:induction false} BodyAt(head: string, texts: seq<string>, n: nat, m: nat)
    requires 1 <= n < m <= |texts|
    ensures At(Body(head, texts, m), Offset(head, texts, n), texts[n])
    ensures Offset(head, texts, n) + |texts[n]| <= Offset(head, texts, m)
    decreases m
  {
    var front := Body(head, texts, m - 1);
    BodyLength(head, texts, m - 1);
    if n < m - 1 {
      BodyAt(head, texts, n, m - 1);
      AtExtended(front, texts[m - 1], Offset(head, texts, n), texts[n]);
    } else {
      AtEnd(front, texts[n]);
    }
  }

  lemma ThreeParts(a: string, b: string, c: string, s: string, pos: nat)
    requires At(s, pos, a + b + c)
    ensures At(s, pos, a) && At(s, pos + |a|, b) && At(s, pos + |a| + |b|, c)
  {
    AtConcat(s, pos, a + b, c);
    AtConcat(s, pos, a, b);
  }

  lemma Parts(a: string, b: string, c: string, d: string, e: string, s: string)
    requires s == a + b + c + d + e
    ensures At(s, 0, a) && At(s, |a|, b) && At(s, |a| + |b|, c) && At(s, |a| + |b| + |c|, d)
  {
    WholeAt(s);
    FrontParts(a + b + c, d, e, s);
    ThreeParts(a, b, c, s, 0);
  }

  lemma FrontParts(front: string, d: string, e: string, s: string)
    requires At(s, 0, s) && s == front + d + e
    ensures At(s, 0, front) && At(s, |front|, d)
  {
    ThreeParts(front, d, e, s, 0);
  }

  lemma WholeAt(s: string)
    ensures At(s, 0, s)
  {
  }

  // ----- From the end of the file to the objects --------------------------------------------

  lemma {:induction false} DigitsStartAt(s: string, start: nat, n: nat)
    requires 0 < start <= n <= |s| && !IsDigit(s[start - 1])
    requires forall i :: start <= i < n ==> IsDigit(s[i])
    ensures DigitsStart(s, n) == start
  {
    if start < n {
      DigitsStartAt(s, start, n - 1);
    }
  }

  lemma LastNumberAt(s: string, word: string, start: nat, n: nat, end: nat, ending: string)
    requires word != "" && !IsDigit(word[|word| - 1]) && EndsNumber(ending)
    requires |word| <= start && At(s, start - |word|, word) && At(s, start, Decimal(n)) && At(s, end, ending)
    requires end == start + |Decimal(n)| == |s| - |ending|
    ensures LastNumber(s, word, ending) == Some(n)
  {
    assert s[start - |word| + (|word| - 1)] == word[|word| - 1];
    forall i | start <= i < end ensures IsDigit(s[i]) {
      assert s[start + (i - start)] == Decimal(n)[i - start];
    }
    DigitsStartAt(s, start, end);
    assert s[end + 0] == ending[0];
    NumeralReads(s, start, Decimal(n));
    DecimalRoundTrip(n);
  }

  lemma LastNumberReads(front: string, word: string, n: nat, ending: string, s: string)
    requires word != "" && !IsDigit(word[|word| - 1]) && EndsNumber(ending)
    requires |front| >= |word| && At(front, |front| - |word|, word) && s == front + (Decimal(n) + ending)
    ensures LastNumber(s, word, ending) == Some(n)
  {
    NumberPlaced(front, word, Decimal(n), ending, s);
    LastNumberAt(s, word, |front|, n, |front| + |Decimal(n)|, ending);
  }

  lemma NumberPlaced(front: string, word: string, numeral: string, ending: string, s: string)
    requires |front| >= |word| && At(front, |front| - |word|, word) && s == front + (numeral + ending)
    ensures At(s, |front| - |word|, word) && At(s, |front|, numeral) && At(s, |front| + |numeral|, ending)
    ensures |s| == |front| + |numeral| + |ending|
  {
    AtEnd(front, numeral + ending);
    AtConcat(s, |front|, numeral, ending);
    AtExtended(front, numeral + ending, |front| - |word|, word);
  }

  lemma XrefReads(k: Keywords, s: string, pos: nat, count: nat)
    requires WellChosen(k)
    requires At(s, pos, TableHead(k, count))
    requires At(s, pos + |TableHead(k, count)|, k.freeEntry)
    requires At(s, pos + |TableHead(k, count)| + 20 * count, Trailer(k, count))
    ensures ReadXref(k, s, pos) == Some(Xref(count, pos + |TableHead(k, count)|, 1))
  {
    FieldReads(s, pos, k.xrefStart, count, k.xrefSize);
    TrailerReads(k, s, pos + |TableHead(k, count)| + 20 * count, count);
  }

  lemma TrailerReads(k: Keywords, s: string, pos: nat, count: nat)
    requires WellChosen(k)
    requires At(s, pos, Trailer(k, count))
    ensures ReadTrailer(k, s, pos) == Some(TrailerEntries(count, 1))
  {
    var size, root := k.trailerSize + Decimal(count) + k.sizeRoot, "" + Decimal(1) + k.rootEnd;
    AtConcat(s, pos, size + root, k.startXref);
    AtConcat(s, pos, size, root);
    FieldReads(s, pos, k.trailerSize, count, k.sizeRoot);
    FieldReads(s, pos + |size|, "", 1, k.rootEnd);
  }

  /** Where the entries of the table start. */
  function FirstEntry(k: Keywords, texts: seq<string>): nat
    requires texts != []
  {
    Offset(k.header, texts, |texts|) + |TableHead(k, |texts|)|
  }

  /** The last object starts below the ten-digit limit. */
  predicate Fits(head: string, texts: seq<string>) {
    |texts| > 1 ==> Offset(head, texts, |texts| - 1) < OFFSET_LIMIT
  }

  lemma FitsAll(head: string, texts: seq<string>)
    requires texts != [] && Fits(head, texts)
    ensures TenDigit(Offsets(head, texts), |texts|)
  {
    forall k | 1 <= k < |texts| ensures Offsets(head, texts)[k] < OFFSET_LIMIT {
      if k < |texts| - 1 {
        BodyAt(head, texts, k, |texts| - 1);
      }
    }
  }

  /** Where the parts of a file are. */
  ghost predicate Laid(k: Keywords, texts: seq<string>, s: string)
    requires texts != []
  {
    && At(s, 0, Body(k.header, texts, |texts|))
    && At(s, Offset(k.header, texts, |texts|), TableHead(k, |texts|))
    && At(s, FirstEntry(k, texts), Table(k, Offsets(k.header, texts), |texts|))
    && At(s, FirstEntry(k, texts) + |Table(k, Offsets(k.header, texts), |texts|)|, Trailer(k, |texts|))
  }

  lemma FileLaid(k: Keywords, texts: seq<string>, s: string)
    requires texts != [] && s == FileOf(k, texts)
    ensures Laid(k, texts, s)
  {
    BodyLength(k.header, texts, |texts|);
    Parts(Body(k.header, texts, |texts|), TableHead(k, |texts|), Table(k, Offsets(k.header, texts), |texts|),
          Trailer(k, |texts|), Ending(k, Offset(k.header, texts, |texts|)), s);
  }

  lemma AtWithin(s: string, pos: nat, text: string, at: nat, part: string)
    requires At(s, pos, text) && At(text, at, part)
    ensures At(s, pos + at, part)
  {
    forall i | 0 <= i < |part| ensures s[pos + at + i] == part[i] {
      assert s[pos + (at + i)] == text[at + i] == part[i];
    }
  }

  lemma StartXrefAfter(k: Keywords, front: string, count: nat, x: nat, s: string)
    requires WellChosen(k) && s == front + Trailer(k, count) + Ending(k, x)
    ensures StartXref(k, s) == Some(x)
  {
    TrailerEnds(k, front, count);
    LastNumberReads(front + Trailer(k, count), k.startXref, x, k.fileEnd, s);
  }

  /** startxref leads to the table, in every file. */
  lemma StartXrefFound(k: Keywords, texts: seq<string>, s: string)
    requires WellChosen(k)
    requires texts != [] && s == FileOf(k, texts)
    ensures StartXref(k, s) == Some(Offset(k.header, texts, |texts|))
  {
    var front := Body(k.header, texts, |texts|) + TableHead(k, |texts|) + Table(k, Offsets(k.header, texts), |texts|);
    StartXrefAfter(k, front, |texts|, Offset(k.header, texts, |texts|), s);
  }

  lemma TableFits(k: Keywords, texts: seq<string>)
    requires WellChosen(k) && texts != [] && Fits(k.header, texts)
    ensures |Table(k, Offsets(k.header, texts), |texts|)| == 20 * |texts|
  {
    FitsAll(k.header, texts);
    TableLength(k, Offsets(k.header, texts), |texts|);
  }

  /** Past the entries is the trailer, which names the root. */
  lemma XrefFound(k: Keywords, texts: seq<string>, s: string)
    requires WellChosen(k)
    requires texts != [] && Laid(k, texts, s) && Fits(k.header, texts)
    ensures ReadXref(k, s, Offset(k.header, texts, |texts|)) == Some(Xref(|texts|, FirstEntry(k, texts), 1))
  {
    TableFits(k, texts);
    TableStarts(k, Offsets(k.header, texts), |texts|);
    AtWithin(s, FirstEntry(k, texts), Table(k, Offsets(k.header, texts), |texts|), 0, k.freeEntry);
    XrefAt(
      k, s, Offset(k.header, texts, |texts|), |texts|, FirstEntry(k, texts),
      |Table(k, Offsets(k.header, texts), |texts|)|);
  }

  lemma XrefAt(k: Keywords, s: string, pos: nat, count: nat, first: nat, length: nat)
    requires WellChosen(k) && first == pos + |TableHead(k, count)| && length == 20 * count
    requires At(s, pos, TableHead(k, count)) && At(s, first, k.freeEntry) && At(s, first + length, Trailer(k, count))
    ensures ReadXref(k, s, pos) == Some(Xref(count, first, 1))
  {
    XrefReads(k, s, pos, count);
  }

  lemma TrailerEnds(k: Keywords, front: string, count: nat)
    ensures |front + Trailer(k, count)| >= |k.startXref|
    ensures At(front + Trailer(k, count), |front + Trailer(k, count)| - |k.startXref|, k.startXref)
  {
    var start := (k.trailerSize + Decimal(count) + k.sizeRoot) + ("" + Decimal(1) + k.rootEnd);
    assert front + Trailer(k, count) == (front + start) + k.startXref;
    AtEnd(front + start, k.startXref);
  }

  /**
    Every entry of the table holds the byte offset of its object exactly when the last object
    starts within ten digits; otherwise some entry is wider than twenty bytes and is not an entry.
   */
  lemma EntriesExact(k: Keywords, texts: seq<string>, s: string)
    requires WellChosen(k)
    requires texts != [] && Laid(k, texts, s)
    ensures Fits(k.header, texts) <==> forall n :: 1 <= n < |texts| ==> EntryHolds(k, texts, s, n)
  {
    if Fits(k.header, texts) {
      FitsAll(k.header, texts);
      forall n | 1 <= n < |texts| ensures EntryHolds(k, texts, s, n) {
        assert Offsets(k.header, texts)[n] < OFFSET_LIMIT;
        EntryFound(k, texts, s, n);
      }
    } else {
      var n := FirstWide(Offsets(k.header, texts), |texts|);
      EntryFound(k, texts, s, n);
    }
  }

  /** The entry of object n is its exact byte offset. */
  predicate EntryHolds(k: Keywords, texts: seq<string>, s: string, n: nat)
    requires 1 <= n < |texts|
  {
    ReadEntry(k, s, FirstEntry(k, texts), n) == Some(Offset(k.header, texts, n))
  }

  lemma EntryFound(k: Keywords, texts: seq<string>, s: string, n: nat)
    requires WellChosen(k)
    requires texts != [] && Laid(k, texts, s) && 1 <= n < |texts| && TenDigit(Offsets(k.header, texts), n)
    ensures EntryHolds(k, texts, s, n) <==> Offset(k.header, texts, n) < OFFSET_LIMIT
  {
    var offsets := Offsets(k.header, texts);
    TableAt(k, offsets, n, |texts|);
    AtWithin(s, FirstEntry(k, texts), Table(k, offsets, |texts|), 20 * n, Entry(k, offsets[n]));
    EntryReads(k, s, FirstEntry(k, texts), n, offsets[n]);
  }

  function FirstWide(offsets: seq<nat>, n: nat): (k: nat)
    requires 1 < n <= |offsets| && !TenDigit(offsets, n)
    ensures 1 <= k < n && TenDigit(offsets, k) && offsets[k] >= OFFSET_LIMIT
  {
    if TenDigit(offsets, n - 1) then n - 1 else FirstWide(offsets, n - 1)
  }

  /** The object is where its entry says, under its own number. */
  predicate Holds(k: Keywords, s: string, x: Xref, n: nat, item: Object) {
    match Locate(k, s, x, n)
    case None => false
    case Some(pos) => At(s, pos, BodyText(k, item)) && At(s, pos + |BodyText(k, item)|, k.objectEnd)
  }

  lemma ObjectReads(k: Keywords, s: string, x: Xref, n: nat, offset: nat, item: Object)
    requires WellChosen(k)
    requires n < x.count && ReadEntry(k, s, x.first, n) == Some(offset) && At(s, offset, ObjectText(k, n, item))
    ensures Holds(k, s, x, n, item)
  {
    var prefix := "" + Decimal(n) + k.objectStart;
    AtConcat(s, offset, prefix + BodyText(k, item), k.objectEnd);
    AtConcat(s, offset, prefix, BodyText(k, item));
    FieldReads(s, offset, "", n, k.objectStart);
  }

  lemma ObjectFound(k: Keywords, objects: seq<Object>, s: string, n: nat)
    requires WellChosen(k)
    requires 1 <= n < |objects| && Laid(k, Texts(k, objects), s) && Fits(k.header, Texts(k, objects))
    ensures Holds(k, s, Xref(|objects|, FirstEntry(k, Texts(k, objects)), 1), n, objects[n])
  {
    var texts := Texts(k, objects);
    EntriesExact(k, texts, s);
    assert EntryHolds(k, texts, s, n);
    BodyAt(k.header, texts, n, |texts|);
    AtWithin(s, 0, Body(k.header, texts, |texts|), Offset(k.header, texts, n), texts[n]);
    ObjectReads(k, s, Xref(|objects|, FirstEntry(k, texts), 1), n, Offset(k.header, texts, n), objects[n]);
  }

  // ----- From the catalog to the streams ----------------------------------------------------

  lemma CatalogReads(k: Keywords, s: string, pos: nat, pages: nat)
    requires WellChosen(k)
    requires At(s, pos, CatalogText(k, pages)) && At(s, pos + |CatalogText(k, pages)|, k.objectEnd)
    ensures ReadCatalog(k, s, pos) == Some(pages)
  {
    FieldReads(s, pos, k.catalogPages, pages, k.referenceEnd);
  }

  function RefTexts(k: Keywords, numbers: seq<nat>): (texts: seq<string>)
    ensures |texts| == |numbers|
    ensures forall i :: 0 <= i < |numbers| ==> texts[i] == Ref(k, numbers[i])
  {
    seq(|numbers|, i requires 0 <= i < |numbers| => Ref(k, numbers[i]))
  }

  lemma RefReads(k: Keywords, s: string, pos: nat, n: nat)
    requires WellChosen(k)
    requires At(s, pos, Ref(k, n))
    ensures Field(s, pos, "", k.reference) == Got(n, pos + |Ref(k, n)|)
  {
    assert "" + Decimal(n) + k.reference == Ref(k, n);
    FieldReads(s, pos, "", n, k.reference);
  }

  lemma {:induction false} RefsRead(k: Keywords, s: string, pos: nat, numbers: seq<nat>)
    requires WellChosen(k)
    requires numbers != [] && At(s, pos, Join(RefTexts(k, numbers), ' '))
    requires pos + |Join(RefTexts(k, numbers), ' ')| < |s| && s[pos + |Join(RefTexts(k, numbers), ' ')|] == ']'
    ensures ReadRefs(k, s, pos) == Got(numbers, pos + |Join(RefTexts(k, numbers), ' ')|)
    decreases numbers
  {
    var first := Ref(k, numbers[0]);
    if |numbers| == 1 {
      RefReads(k, s, pos, numbers[0]);
      assert numbers == [numbers[0]];
    } else {
      var rest := numbers[1..];
      assert RefTexts(k, numbers)[1..] == RefTexts(k, rest);
      var more := Join(RefTexts(k, rest), ' ');
      AtConcat(s, pos, first + [' '], more);
      AtConcat(s, pos, first, [' ']);
      assert s[pos + |first|] == [' '][0];
      RefReads(k, s, pos, numbers[0]);
      RefsRead(k, s, pos + |first| + 1, rest);
      assert numbers == [numbers[0]] + rest;
    }
  }

  lemma NoRefs(k: Keywords, s: string, pos: nat)
    requires WellChosen(k)
    requires pos < |s| && s[pos] == ']'
    ensures ReadRefs(k, s, pos) == Got([], pos)
  {
  }

  lemma AnyRefsRead(k: Keywords, s: string, pos: nat, kids: seq<nat>, end: nat)
    requires WellChosen(k) && At(s, pos, Join(RefTexts(k, kids), ' '))
    requires end == pos + |Join(RefTexts(k, kids), ' ')| < |s| && s[end] == ']'
    ensures ReadRefs(k, s, pos) == Got(kids, end)
  {
    if kids == [] {
      NoRefs(k, s, pos);
    } else {
      RefsRead(k, s, pos, kids);
    }
  }

  lemma KidsRead(k: Keywords, s: string, pos: nat, kids: seq<nat>)
    requires WellChosen(k)
    requires At(s, pos, PagesText(k, Join(RefTexts(k, kids), ' '), |kids|))
    requires At(s, pos + |PagesText(k, Join(RefTexts(k, kids), ' '), |kids|)|, k.objectEnd)
    ensures ReadKids(k, s, pos) == Some(kids)
  {
    var refs, tail := Join(RefTexts(k, kids), ' '), k.kidsCount + Decimal(|kids|) + k.dictionaryEnd;
    ThreeParts(k.pagesKids, refs, tail, s, pos);
    var at := pos + |k.pagesKids|;
    var end := at + |refs|;
    CountReads(k, s, end, |kids|);
    AnyRefsRead(k, s, at, kids, end);
    KidsAt(k, s, pos, at, kids, end);
  }

  lemma KidsAt(k: Keywords, s: string, pos: nat, at: nat, kids: seq<nat>, end: nat)
    requires At(s, pos, k.pagesKids) && at == pos + |k.pagesKids|
    requires ReadRefs(k, s, at) == Got(kids, end) && ReadCount(k, s, end) == Some(|kids|)
    ensures ReadKids(k, s, pos) == Some(kids)
  {
  }

  lemma CountReads(k: Keywords, s: string, pos: nat, count: nat)
    requires WellChosen(k) && At(s, pos, k.kidsCount + Decimal(count) + k.dictionaryEnd)
    requires At(s, pos + |k.kidsCount + Decimal(count) + k.dictionaryEnd|, k.objectEnd)
    ensures ReadCount(k, s, pos) == Some(count) && s[pos] == ']'
  {
    FieldReads(s, pos, k.kidsCount, count, k.dictionaryEnd);
    ThreeParts(k.kidsCount, Decimal(count), k.dictionaryEnd, s, pos);
    assert s[pos + 0] == k.kidsCount[0];
  }

  lemma {:induction false} SkipReads(s: string, pos: nat, text: string, c: char)
    requires At(s, pos, text) && Free(text, c) && pos + |text| < |s| && s[pos + |text|] == c
    ensures SkipTo(s, pos, c) == pos + |text|
    decreases |text|
  {
    if text != "" {
      assert s[pos] == text[0];
      forall i | 0 <= i < |text| - 1 ensures s[pos + 1 + i] == text[1..][i] {
        assert s[pos + (1 + i)] == text[1 + i];
      }
      SkipReads(s, pos + 1, text[1..], c);
    }
  }

  lemma PageReads(k: Keywords, s: string, pos: nat, parent: nat, mediaBox: string, font: nat, contents: nat)
    requires WellChosen(k)
    requires Free(mediaBox, ']')
    requires At(s, pos, PageText(k, parent, mediaBox, font, contents))
    requires At(s, pos + |PageText(k, parent, mediaBox, font, contents)|, k.objectEnd)
    ensures ReadPage(k, s, pos) == Some(PageLinks(parent, mediaBox, font, contents))
  {
    var a := k.pageParent + Decimal(parent) + k.parentBox;
    var b := k.boxFont + Decimal(font) + k.fontContents;
    var c := "" + Decimal(contents) + k.referenceEnd;
    FourParts(a, mediaBox, b, c, s, pos);
    var box, end := pos + |a|, pos + |a| + |mediaBox|;
    BoxReads(s, box, mediaBox, b);
    PageFields(k, s, pos, parent, box, end, mediaBox, font, end + |b|, contents, end + |b| + |c|);
  }

  lemma PageFields(
      k: Keywords, s: string, pos: nat, parent: nat, box: nat, boxEnd: nat, mediaBox: string, font: nat, next: nat,
      contents: nat, end: nat)
    requires WellChosen(k)
    requires At(s, pos, k.pageParent + Decimal(parent) + k.parentBox)
    requires box == pos + |k.pageParent + Decimal(parent) + k.parentBox|
    requires box <= boxEnd <= |s| && SkipTo(s, box, ']') == boxEnd && s[box..boxEnd] == mediaBox
    requires At(s, boxEnd, k.boxFont + Decimal(font) + k.fontContents)
    requires next == boxEnd + |k.boxFont + Decimal(font) + k.fontContents|
    requires At(s, next, "" + Decimal(contents) + k.referenceEnd)
    requires end == next + |"" + Decimal(contents) + k.referenceEnd| && At(s, end, k.objectEnd)
    ensures ReadPage(k, s, pos) == Some(PageLinks(parent, mediaBox, font, contents))
  {
    FieldReads(s, pos, k.pageParent, parent, k.parentBox);
    FieldReads(s, boxEnd, k.boxFont, font, k.fontContents);
    FieldReads(s, next, "", contents, k.referenceEnd);
    PagePlaced(k, s, pos, parent, box, boxEnd, mediaBox, font, next, contents, end);
  }

  lemma FourParts(a: string, b: string, c: string, d: string, s: string, pos: nat)
    requires At(s, pos, a + b + c + d)
    ensures At(s, pos, a) && At(s, pos + |a|, b) && At(s, pos + |a| + |b|, c) && At(s, pos + |a| + |b| + |c|, d)
  {
    AtConcat(s, pos, a + b + c, d);
    ThreeParts(a, b, c, s, pos);
  }

  /** The text up to a bracket. */
  lemma BoxReads(s: string, box: nat, mediaBox: string, after: string)
    requires At(s, box, mediaBox) && At(s, box + |mediaBox|, after) && Free(mediaBox, ']')
    requires after != "" && after[0] == ']'
    ensures SkipTo(s, box, ']') == box + |mediaBox| && s[box..box + |mediaBox|] == mediaBox
  {
    assert s[box + |mediaBox| + 0] == after[0];
    SkipReads(s, box, mediaBox, ']');
  }

  lemma PagePlaced(
      k: Keywords, s: string, pos: nat, parent: nat, box: nat, boxEnd: nat, mediaBox: string, font: nat, next: nat,
      contents: nat, end: nat)
    requires Field(s, pos, k.pageParent, k.parentBox) == Got(parent, box)
    requires box <= boxEnd <= |s| && SkipTo(s, box, ']') == boxEnd && s[box..boxEnd] == mediaBox
    requires Field(s, boxEnd, k.boxFont, k.fontContents) == Got(font, next)
    requires Field(s, next, "", k.referenceEnd) == Got(contents, end) && At(s, end, k.objectEnd)
    ensures ReadPage(k, s, pos) == Some(PageLinks(parent, mediaBox, font, contents))
  {
  }

  lemma StreamReads(k: Keywords, s: string, pos: nat, stream: string)
    requires WellChosen(k)
    requires At(s, pos, ContentText(k, stream)) && At(s, pos + |ContentText(k, stream)|, k.objectEnd)
    ensures ReadStream(k, s, pos) == Some(stream)
  {
    var a := k.lengthStart + Decimal(|stream|) + k.streamStart;
    AtConcat(s, pos, a + stream, k.streamEnd);
    AtConcat(s, pos, a, stream);
    FieldReads(s, pos, k.lengthStart, |stream|, k.streamStart);
    assert s[pos + |a|..pos + |a| + |stream|] == stream;
  }

  /** A page, its size, its font and its own stream are found from the page's number. */
  lemma PageContentsRead(k: Keywords, s: string, x: Xref, mediaBox: string, kid: nat, stream: string)
    requires WellChosen(k)
    requires Free(mediaBox, ']')
    requires Holds(k, s, x, kid, Page(2, mediaBox, 3, kid + 1)) && Holds(k, s, x, 3, Font)
    requires Holds(k, s, x, kid + 1, Content(stream))
    ensures ReadPageContents(k, s, x, 2, kid) == Some(PageContents(mediaBox, stream))
  {
    var pos := PageHeld(k, s, x, mediaBox, kid);
    var content := StreamHeld(k, s, x, kid + 1, stream);
    ContentsPlaced(k, s, x, kid, pos, PageLinks(2, mediaBox, 3, kid + 1), content, stream);
  }

  lemma PageHeld(k: Keywords, s: string, x: Xref, mediaBox: string, kid: nat) returns (pos: nat)
    requires WellChosen(k) && Free(mediaBox, ']') && Holds(k, s, x, kid, Page(2, mediaBox, 3, kid + 1))
    ensures Locate(k, s, x, kid) == Some(pos) && ReadPage(k, s, pos) == Some(PageLinks(2, mediaBox, 3, kid + 1))
  {
    pos := Locate(k, s, x, kid).value;
    PageReads(k, s, pos, 2, mediaBox, 3, kid + 1);
  }

  lemma StreamHeld(k: Keywords, s: string, x: Xref, n: nat, stream: string) returns (pos: nat)
    requires WellChosen(k) && Holds(k, s, x, n, Content(stream))
    ensures Locate(k, s, x, n) == Some(pos) && ReadStream(k, s, pos) == Some(stream)
  {
    pos := Locate(k, s, x, n).value;
    StreamReads(k, s, pos, stream);
  }

  lemma ContentsPlaced(
      k: Keywords, s: string, x: Xref, kid: nat, pos: nat, links: PageLinks, content: nat, stream: string)
    requires Locate(k, s, x, kid) == Some(pos) && ReadPage(k, s, pos) == Some(links)
    requires Holds(k, s, x, links.font, Font)
    requires Locate(k, s, x, links.contents) == Some(content) && ReadStream(k, s, content) == Some(stream)
    ensures ReadPageContents(k, s, x, links.parent, kid) == Some(PageContents(links.mediaBox, stream))
  {
  }

  function KidNumbers(count: nat): (kids: seq<nat>)
    ensures |kids| == count
    ensures forall i :: 0 <= i < |kids| ==> kids[i] == 4 + 2 * i
  {
    seq(count, i => 4 + 2 * i)
  }

  ghost predicate Faithful(k: Keywords, s: string, x: Xref, mediaBox: string, streams: seq<string>) {
    forall n :: 1 <= n < 4 + 2 * |streams| ==> Holds(k, s, x, n, ObjectNumbered(k, mediaBox, streams, n))
  }

  lemma OnePageRead(k: Keywords, s: string, x: Xref, mediaBox: string, streams: seq<string>, i: nat)
    requires WellChosen(k)
    requires Free(mediaBox, ']') && i < |streams| && Faithful(k, s, x, mediaBox, streams)
    ensures ReadPageContents(k, s, x, 2, 4 + 2 * i) == Some(PageContents(mediaBox, streams[i]))
  {
    var kid := 4 + 2 * i;
    assert Holds(k, s, x, kid, ObjectNumbered(k, mediaBox, streams, kid));
    assert Holds(k, s, x, 3, ObjectNumbered(k, mediaBox, streams, 3));
    assert Holds(k, s, x, kid + 1, ObjectNumbered(k, mediaBox, streams, kid + 1));
    PageContentsRead(k, s, x, mediaBox, kid, streams[i]);
  }

  /** The document shows each stream on a page of its own, in order, every page of the given size. */
  ghost predicate Shows(document: Option<seq<PageContents>>, mediaBox: string, streams: seq<string>) {
    && document.Some? && |document.value| == |streams|
    && forall i :: 0 <= i < |streams| ==> document.value[i] == PageContents(mediaBox, streams[i])
  }

  lemma PagesRead(k: Keywords, s: string, x: Xref, kids: seq<nat>, mediaBox: string, streams: seq<string>)
    requires |kids| == |streams|
    requires forall i :: 0 <= i < |kids| ==>
               ReadPageContents(k, s, x, 2, kids[i]) == Some(PageContents(mediaBox, streams[i]))
    ensures Shows(ReadPages(k, s, x, 2, kids), mediaBox, streams)
  {
    assert forall i :: 0 <= i < |kids| ==> ReadPageContents(k, s, x, 2, kids[i]).Some?;
  }

  lemma ReferencesAreKids(k: Keywords, count: nat)
    ensures PageReferences(k, count) == Join(RefTexts(k, KidNumbers(count)), ' ')
  {
    assert seq(count, i requires 0 <= i < count => Ref(k, 4 + 2 * i)) == RefTexts(k, KidNumbers(count));
  }

  lemma RootReads(k: Keywords, s: string, x: Xref, mediaBox: string, streams: seq<string>)
    requires WellChosen(k)
    requires Free(mediaBox, ']') && x.root == 1 && Faithful(k, s, x, mediaBox, streams)
    ensures Shows(ReadRoot(k, s, x), mediaBox, streams)
  {
    assert Holds(k, s, x, 1, ObjectNumbered(k, mediaBox, streams, 1));
    CatalogReads(k, s, Locate(k, s, x, 1).value, 2);
    assert Holds(k, s, x, 2, ObjectNumbered(k, mediaBox, streams, 2));
    ReferencesAreKids(k, |streams|);
    KidsRead(k, s, Locate(k, s, x, 2).value, KidNumbers(|streams|));
    forall i | 0 <= i < |streams|
      ensures ReadPageContents(k, s, x, 2, 4 + 2 * i) == Some(PageContents(mediaBox, streams[i]))
    {
      OnePageRead(k, s, x, mediaBox, streams, i);
    }
    PagesRead(k, s, x, KidNumbers(|streams|), mediaBox, streams);
  }

  lemma AllObjectsFound(k: Keywords, mediaBox: string, streams: seq<string>, texts: seq<string>, s: string)
    requires WellChosen(k) && texts == Texts(k, Objects(k, mediaBox, streams))
    requires Laid(k, texts, s) && Fits(k.header, texts)
    ensures Faithful(k, s, Xref(|texts|, FirstEntry(k, texts), 1), mediaBox, streams)
  {
    forall n | 1 <= n < 4 + 2 * |streams|
      ensures Holds(k, s, Xref(|texts|, FirstEntry(k, texts), 1), n, ObjectNumbered(k, mediaBox, streams, n))
    {
      ObjectFound(k, Objects(k, mediaBox, streams), s, n);
    }
  }

  lemma ReadsBack(k: Keywords, mediaBox: string, streams: seq<string>, texts: seq<string>, s: string)
    requires WellChosen(k) && Free(mediaBox, ']') && texts == Texts(k, Objects(k, mediaBox, streams))
    requires s == FileOf(k, texts) && Fits(k.header, texts)
    ensures Shows(ReadDocument(k, s), mediaBox, streams)
  {
    StartXrefFound(k, texts, s);
    FileLaid(k, texts, s);
    XrefFound(k, texts, s);
    AllObjectsFound(k, mediaBox, streams, texts, s);
    BodyStarts(k.header, texts, |texts|);
    AtWithin(s, 0, Body(k.header, texts, |texts|), 0, k.header);
    DocumentAt(k, s, Offset(k.header, texts, |texts|), Xref(|texts|, FirstEntry(k, texts), 1), mediaBox, streams);
  }

  lemma DocumentAt(k: Keywords, s: string, pos: nat, x: Xref, mediaBox: string, streams: seq<string>)
    requires WellChosen(k) && Free(mediaBox, ']') && x.root == 1 && Faithful(k, s, x, mediaBox, streams)
    requires StartXref(k, s) == Some(pos) && ReadXref(k, s, pos) == Some(x) && At(s, 0, k.header)
    ensures Shows(ReadDocument(k, s), mediaBox, streams)
  {
    RootReads(k, s, x, mediaBox, streams);
  }

  /**
    Reading a written document gives every page's size and stream, in order: the places in the table, the
    object numbers, the Kids, the media boxes, the Contents and the lengths all agree. The media box is a
    list of numbers, so it contains no bracket.
   */
  lemma DocumentRoundTrip(mediaBox: string, streams: seq<string>)
    requires Free(mediaBox, ']') && Fits(PDF.header, Texts(PDF, Objects(PDF, mediaBox, streams)))
    ensures Shows(ReadDocument(ISO, File(mediaBox, streams)), mediaBox, streams)
  {
    PdfWellChosen();
    WriterWords();
    ReadsBack(PDF, mediaBox, streams, Texts(PDF, Objects(PDF, mediaBox, streams)), File(mediaBox, streams));
  }

  lemma SmallFits(k: Keywords, texts: seq<string>)
    requires |texts| > 1 && |FileOf(k, texts)| <= OFFSET_LIMIT && k.fileEnd != ""
    ensures Fits(k.header, texts)
  {
    BodyLength(k.header, texts, |texts|);
    BodyAt(k.header, texts, |texts| - 1, |texts|);
  }

  /** Every file of at most ten billion bytes is read back; the label service keeps files to four mebibytes. */
  lemma SmallDocumentRoundTrip(mediaBox: string, streams: seq<string>)
    requires Free(mediaBox, ']') && |File(mediaBox, streams)| <= OFFSET_LIMIT
    ensures Shows(ReadDocument(ISO, File(mediaBox, streams)), mediaBox, streams)
  {
    SmallFits(PDF, Texts(PDF, Objects(PDF, mediaBox, streams)));
    DocumentRoundTrip(mediaBox, streams);
  }
}
