/**
  Asset identifiers, the normalization of codes, display texts and sources, and the strict
  validators of the exchange format.
 */
module Identifiers {
  import opened Text
  import opened Ordering
  import opened Clock

  const MAXIMUM_CODE128_BYTES := 128
  const MAXIMUM_QR_BYTES := 512
  const MAXIMUM_DISPLAY_BYTES := 512
  const MAXIMUM_ACTOR_RUNES := 128
  const MAXIMUM_CHAIN := 10_000
  const LABEL_ROUTE := "/atlas/codes/"

  /** The absent name. */
  const NONE := Name("")

  /** Why a request is refused; MissingAsset stands for whatever the asset service answers. */
  datatype Error = InvalidInput | NotFound | Conflict | TooLarge | MissingAsset

  datatype Result<+T> = Ok(value: T) | Err(error: Error)

  datatype Status = Active | Replaced | Deactivated | OtherStatus(text: string)

  datatype Identifier = Identifier(
    id: Name,
    organization: Name,
    asset: Name,
    symbology: Name,
    value: Name,
    display: Name,
    source: Name,
    primary: bool,
    status: Status,
    supersedes: Name,
    replacedBy: Name,
    revision: int,
    createdBy: Name,
    createdCorrelation: Name,
    updatedBy: Name,
    updatedCorrelation: Name,
    createdAt: Time,
    updatedAt: Time,
    deactivatedAt: Option<Time>)

  datatype Code = Code(symbology: Name, value: Name)

  const CODE128 := Name("code128")
  const QR := Name("qr")
  const IMPORTED := Name("imported")
  const USER_ENTERED := Name("user_entered")
  const GENERATED := Name("generated")

  // ----- Text rules -------------------------------------------------------------------------

  /** The text operations the service uses: trimming, lower case, and the tests on texts. */
  datatype TextRules = TextRules(
    clean: Name -> Name,
    lower: Name -> Name,
    stable: Name -> bool,
    codeFits: Code -> bool,
    displayFits: Name -> bool,
    shortActor: Name -> bool,
    isRoute: Name -> bool)

  /** All that the proofs use of the text operations. */
  ghost predicate Lawful(t: TextRules) {
    && (forall n {:trigger t.clean(n)} :: t.clean(t.clean(n)) == t.clean(n))
    && (forall n {:trigger t.lower(n)} :: t.lower(t.lower(n)) == t.lower(n))
    && (forall n {:trigger t.stable(n)} :: t.stable(n) ==> n != NONE && t.clean(n) == n)
    && t.lower(USER_ENTERED) == USER_ENTERED
  }

  /** The organization served and its text rules. */
  datatype Service = Service(organization: Name, text: TextRules)

  // ----- The Unicode text rules -------------------------------------------------------------

  predicate Printable(isPrint: char -> bool, s: string) {
    s != "" && forall i :: 0 <= i < |s| ==> isPrint(s[i])
  }

  predicate PlainAscii(s: string) {
    forall i :: 0 <= i < |s| ==> ' ' <= s[i] <= '~'
  }

  predicate CodeFits(isPrint: char -> bool, c: Code) {
    && Printable(isPrint, c.value.text)
    && if c.symbology == CODE128 then ByteLength(c.value.text) <= MAXIMUM_CODE128_BYTES && PlainAscii(c.value.text)
       else c.symbology == QR && ByteLength(c.value.text) <= MAXIMUM_QR_BYTES
  }

  function Cleaned(n: Name): Name {
    Name(Trim(n.text))
  }

  function Lowered(lower: char -> char, n: Name): Name {
    Name(LowerTrim(lower, n.text))
  }

  /** The rules as written, for given tables of printable characters and of lower-case letters. */
  function UnicodeRules(isPrint: char -> bool, lower: char -> char): TextRules {
    TextRules(
      (n: Name) => Cleaned(n),
      (n: Name) => Lowered(lower, n),
      (n: Name) => StableId(n.text),
      (c: Code) => CodeFits(isPrint, c),
      (n: Name) => ByteLength(n.text) <= MAXIMUM_DISPLAY_BYTES && Printable(isPrint, n.text),
      (n: Name) => |n.text| <= MAXIMUM_ACTOR_RUNES,
      (n: Name) => |LABEL_ROUTE| <= |n.text| && n.text[..|LABEL_ROUTE|] == LABEL_ROUTE)
  }

  lemma CleanTwice(n: Name)
    ensures Cleaned(Cleaned(n)) == Cleaned(n)
  {
    TrimFixed(Trim(n.text));
  }

  lemma LowerTwice(lower: char -> char, n: Name)
    requires CaseTable(lower)
    ensures Lowered(lower, Lowered(lower, n)) == Lowered(lower, n)
  {
    LowerTrimTwice(lower, n.text);
  }

  lemma StableIsClean(n: Name)
    requires n.text != "" && Trim(n.text) == n.text
    ensures n != NONE && Cleaned(n) == n
  {
  }

  lemma UserEnteredLowered(lower: char -> char)
    requires CaseTable(lower)
    ensures Lowered(lower, USER_ENTERED) == USER_ENTERED
  {
    LowerTrimFixed(lower, "user_entered");
  }

  /** The written rules are lawful, whatever characters are printable and whatever the lower-case letters. */
  lemma UnicodeLawful(isPrint: char -> bool, lower: char -> char)
    requires CaseTable(lower)
    ensures Lawful(UnicodeRules(isPrint, lower))
  {
    forall n ensures Cleaned(Cleaned(n)) == Cleaned(n) && Lowered(lower, Lowered(lower, n)) == Lowered(lower, n) {
      CleanTwice(n);
      LowerTwice(lower, n);
    }
    forall n: Name | StableId(n.text) ensures n != NONE && Cleaned(n) == n {
      StableIdTrimmed(n.text);
      StableIsClean(n);
    }
    UserEnteredLowered(lower);
  }

  // ----- Normalization ----------------------------------------------------------------------

  function NormalizeCode(t: TextRules, symbology: Name, value: Name): Option<Code> {
    var c := Code(t.lower(symbology), t.clean(value));
    if t.codeFits(c) then Some(c) else None
  }

  function NormalizeDisplay(t: TextRules, display: Name, fallback: Name): Option<Name> {
    var d := if t.clean(display) == NONE then fallback else t.clean(display);
    if t.displayFits(d) then Some(d) else None
  }

  predicate KnownSource(source: Name) {
    source == IMPORTED || source == USER_ENTERED || source == GENERATED
  }

  function NormalizeSource(t: TextRules, source: Name): Option<Name> {
    var s := if t.lower(source) == NONE then USER_ENTERED else t.lower(source);
    if KnownSource(s) then Some(s) else None
  }

  /** A normalized code is a fixed point. */
  lemma NormalizeCodeFixed(t: TextRules, symbology: Name, value: Name, c: Code)
    requires Lawful(t) && NormalizeCode(t, symbology, value) == Some(c)
    ensures NormalizeCode(t, c.symbology, c.value) == Some(c) && t.clean(c.value) == c.value
  {
  }

  /** A normalized display text is a fixed point, whether it was given or taken from the code. */
  lemma NormalizeDisplayFixed(t: TextRules, display: Name, fallback: Name, d: Name)
    requires Lawful(t) && t.clean(fallback) == fallback && NormalizeDisplay(t, display, fallback) == Some(d)
    ensures NormalizeDisplay(t, d, fallback) == Some(d)
  {
  }

  lemma NormalizeSourceFixed(t: TextRules, source: Name, s: Name)
    requires Lawful(t) && NormalizeSource(t, source) == Some(s)
    ensures NormalizeSource(t, s) == Some(s)
  {
  }

  // ----- The exchange validators ------------------------------------------------------------

  predicate ValidActor(t: TextRules, actor: Name) {
    actor != NONE && t.clean(actor) == actor && t.shortActor(actor)
  }

  /** The parts of an identifier that no later step changes. */
  predicate ValidContent(svc: Service, item: Identifier) {
    && item.organization == svc.organization
    && svc.text.stable(item.id) && svc.text.stable(item.asset)
    && NormalizeCode(svc.text, item.symbology, item.value) == Some(Code(item.symbology, item.value))
    && NormalizeDisplay(svc.text, item.display, item.value) == Some(item.display)
    && NormalizeSource(svc.text, item.source) == Some(item.source)
    && (item.supersedes != NONE ==> svc.text.stable(item.supersedes))
    && ValidActor(svc.text, item.createdBy) && svc.text.stable(item.createdCorrelation) && Portable(item.createdAt)
  }

  /** The parts that replacement and deactivation change. */
  predicate ValidChange(svc: Service, item: Identifier) {
    && (item.replacedBy != NONE ==> svc.text.stable(item.replacedBy))
    && ValidActor(svc.text, item.updatedBy) && svc.text.stable(item.updatedCorrelation) && Portable(item.updatedAt)
    && !Earlier(item.updatedAt, item.createdAt)
  }

  predicate ClosedAtUpdate(item: Identifier) {
    item.deactivatedAt.Some? && Same(item.deactivatedAt.value, item.updatedAt)
  }

  predicate ValidStatus(item: Identifier) {
    && 1 <= item.revision <= 2
    && match item.status
       case Active =>
         && item.revision == 1 && item.replacedBy == NONE && item.deactivatedAt == None
         && item.createdBy == item.updatedBy && item.createdCorrelation == item.updatedCorrelation
         && Same(item.createdAt, item.updatedAt)
       case Replaced => item.revision == 2 && item.replacedBy != NONE && ClosedAtUpdate(item)
       case Deactivated => item.revision == 2 && item.replacedBy == NONE && ClosedAtUpdate(item)
       case OtherStatus(_) => false
  }

  predicate ValidIdentifier(svc: Service, item: Identifier) {
    ValidContent(svc, item) && ValidChange(svc, item) && ValidStatus(item)
  }

  /** The validator of single identifiers, as a value. */
  function Accepts(svc: Service): (ok: Identifier -> bool)
    ensures forall item :: ok(item) <==> ValidIdentifier(svc, item)
  {
    item => ValidIdentifier(svc, item)
  }

  // ----- Chains -----------------------------------------------------------------------------

  datatype Chain = Chain(terminal: Name, items: seq<Identifier>)

  /** What must hold between an item and the one that replaced it. */
  predicate Linked(previous: Identifier, item: Identifier) {
    && item.supersedes == previous.id && previous.replacedBy == item.id
    && Same(previous.updatedAt, item.createdAt) && previous.updatedBy == item.createdBy
    && previous.updatedCorrelation == item.createdCorrelation && previous.primary == item.primary
  }

  predicate InnerItem(item: Identifier) {
    item.status == Replaced && item.replacedBy != NONE && item.revision == 2 && ClosedAtUpdate(item)
  }

  function Ids(items: seq<Identifier>): (ids: set<Name>)
    ensures forall x :: x in ids <==> exists i :: 0 <= i < |items| && items[i].id == x
  {
    set i | 0 <= i < |items| :: items[i].id
  }

  predicate DistinctIds(items: seq<Identifier>) {
    forall i, j :: 0 <= i < j < |items| ==> items[i].id != items[j].id
  }

  predicate ItemFits(ok: Identifier -> bool, items: seq<Identifier>, index: nat)
    requires index < |items|
  {
    && ok(items[index]) && items[index].asset == items[0].asset
    && (if index == 0 then items[0].supersedes == NONE else Linked(items[index - 1], items[index]))
    && (index < |items| - 1 ==> InnerItem(items[index]))
  }

  predicate LastFits(chain: Chain)
    requires chain.items != []
  {
    var last := chain.items[|chain.items| - 1];
    last.id == chain.terminal && last.replacedBy == NONE && last.status != Replaced
  }

  /** A whole replacement history, in order, whatever its length. */
  predicate Lineage(ok: Identifier -> bool, chain: Chain) {
    && chain.items != []
    && (forall i :: 0 <= i < |chain.items| ==> ItemFits(ok, chain.items, i))
    && DistinctIds(chain.items)
    && LastFits(chain)
  }

  predicate ValidChain(ok: Identifier -> bool, chain: Chain) {
    |chain.items| <= 10_000 && Lineage(ok, chain)
  }

  lemma IdsAppend(items: seq<Identifier>, item: Identifier)
    ensures Ids(items + [item]) == Ids(items) + {item.id}
    ensures DistinctIds(items + [item]) <==> DistinctIds(items) && item.id !in Ids(items)
  {
    var more := items + [item];
    assert more[|items|] == item;
    assert forall i :: 0 <= i < |items| ==> more[i] == items[i];
  }

  /** Decides whether the items are in order by one pass, remembering the names seen. */
  method CheckItems(ok: Identifier -> bool, items: seq<Identifier>) returns (valid: bool)
    ensures valid <==> (forall i :: 0 <= i < |items| ==> ItemFits(ok, items, i)) && DistinctIds(items)
  {
    var seen := {};
    for index := 0 to |items|
      invariant forall i :: 0 <= i < index ==> ItemFits(ok, items, i)
      invariant DistinctIds(items[..index]) && seen == Ids(items[..index])
    {
      var item := items[index];
      IdsAppend(items[..index], item);
      assert items[..index + 1] == items[..index] + [item];
      if !ItemFits(ok, items, index) {
        return false;
      }
      if item.id in seen {
        var earlier :| 0 <= earlier < index && items[..index][earlier].id == item.id;
        assert items[earlier].id == items[index].id;
        return false;
      }
      seen := seen + {item.id};
    }
    assert items[..|items|] == items;
    return true;
  }

  /** The whole check. A malformed terminal name needs no mention: it is the name of a checked row. */
  method CheckChain(svc: Service, chain: Chain) returns (valid: bool)
    ensures valid <==> ValidChain(Accepts(svc), chain)
  {
    if !svc.text.stable(chain.terminal) || |chain.items| < 1 || |chain.items| > MAXIMUM_CHAIN {
      if Lineage(Accepts(svc), chain) {
        assert ItemFits(Accepts(svc), chain.items, |chain.items| - 1);
      }
      return false;
    }
    valid := CheckItems(Accepts(svc), chain.items);
    valid := valid && LastFits(chain);
  }
}
