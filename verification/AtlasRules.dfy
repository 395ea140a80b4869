/**
  The text rules of the asset service as written, and that they obey the laws the proofs use.
 */
module AtlasRules {
  import opened Text
  import opened Ordering
  import opened AtlasRecords
  import Identifiers

  predicate HexDigit(c: char) {
    '0' <= c <= '9' || 'a' <= c <= 'f'
  }

  /** The pattern `^[a-f0-9]{32}$` of generated and referenced names. */
  predicate Hex32(s: string) {
    |s| == 32 && forall i :: 0 <= i < |s| ==> HexDigit(s[i])
  }

  predicate HostChar(c: char) {
    IsLetterOrDigit(c) || c == '.' || c == '-'
  }

  /** The host name pattern: letters, digits, dots and hyphens, with a letter or digit at both ends. */
  predicate HostName(s: string) {
    && 1 <= |s| <= 253 && IsLetterOrDigit(s[0]) && IsLetterOrDigit(s[|s| - 1])
    && forall i :: 0 <= i < |s| ==> HostChar(s[i])
  }

  predicate IsKind(s: string) {
    s in ["server", "computer", "desktop", "laptop", "tablet", "phone", "network", "peripheral", "virtual", "other"]
  }

  predicate IsStatus(s: string) {
    s in ["draft", "active", "inactive", "retired", "disposed"]
  }

  function WrittenRules(
      lower: char -> char, url: Name -> bool, extras: Extras -> Option<Extras>,
      defaults: Extras -> Option<Extras>, inherit: (Extras, Extras) -> Extras): Rules
  {
    Rules(
      (n: Name) => Identifiers.Cleaned(n),
      (n: Name) => Identifiers.Lowered(lower, n),
      (n: Name, m: nat) => |n.text| <= m,
      (n: Name) => StableId(n.text),
      (n: Name) => Hex32(n.text),
      (n: Name) => HostName(n.text),
      (n: Name) => IsKind(n.text),
      (n: Name) => IsStatus(n.text),
      url, extras, defaults, inherit)
  }

  lemma HexIsStable(s: string)
    requires Hex32(s)
    ensures StableId(s)
  {
    assert HexDigit(s[0]);
  }

  lemma DraftLowered(lower: char -> char)
    requires CaseTable(lower)
    ensures Identifiers.Lowered(lower, DRAFT) == DRAFT && IsStatus("draft")
  {
    LowerTrimFixed(lower, "draft");
  }

  lemma NoneCleaned()
    ensures Identifiers.Cleaned(NONE) == NONE
  {
    TrimFixed("");
  }

  lemma ListedNotEmpty(n: Name)
    requires IsKind(n.text) || IsStatus(n.text)
    ensures n != NONE
  {
  }

  lemma WrittenLaws(lower: char -> char, n: Name)
    requires CaseTable(lower)
    ensures Identifiers.Cleaned(Identifiers.Cleaned(n)) == Identifiers.Cleaned(n)
    ensures Identifiers.Lowered(lower, Identifiers.Lowered(lower, n)) == Identifiers.Lowered(lower, n)
  {
    Identifiers.CleanTwice(n);
    Identifiers.LowerTwice(lower, n);
  }

  lemma StableLaws(n: Name)
    ensures StableId(n.text) ==> n != NONE && Identifiers.Cleaned(n) == n
    ensures Hex32(n.text) ==> StableId(n.text)
  {
    if StableId(n.text) {
      StableIdTrimmed(n.text);
      Identifiers.StableIsClean(n);
    }
    if Hex32(n.text) {
      HexIsStable(n.text);
    }
  }

  lemma ListedLaws(r: Rules)
    requires forall n :: r.kind(n) <==> IsKind(n.text)
    requires forall n :: r.status(n) <==> IsStatus(n.text)
    ensures forall n :: (r.kind(n) ==> n != NONE) && (r.status(n) ==> n != NONE)
  {
    forall n ensures (r.kind(n) ==> n != NONE) && (r.status(n) ==> n != NONE) {
      if r.kind(n) || r.status(n) {
        ListedNotEmpty(n);
      }
    }
  }

  lemma WrittenNameLaws(lower: char -> char, r: Rules)
    requires CaseTable(lower)
    requires forall n :: r.clean(n) == Identifiers.Cleaned(n)
    requires forall n :: r.lower(n) == Identifiers.Lowered(lower, n)
    requires forall n :: r.stable(n) <==> StableId(n.text)
    requires forall n :: r.reference(n) <==> Hex32(n.text)
    requires forall n :: (r.kind(n) ==> n != NONE) && (r.status(n) ==> n != NONE)
    ensures NameLaws(r)
  {
    forall n: Name
      ensures r.clean(r.clean(n)) == r.clean(n) && r.lower(r.lower(n)) == r.lower(n)
      ensures (r.stable(n) ==> n != NONE && r.clean(n) == n) && (r.reference(n) ==> r.stable(n))
    {
      WrittenLaws(lower, n);
      StableLaws(n);
    }
  }

  lemma ShortTexts(r: Rules)
    requires forall n, m :: r.atMost(n, m) <==> |n.text| <= m
    ensures r.atMost(SYSTEM, MAXIMUM_ACTOR) && r.atMost(REGISTERED, MAXIMUM_NOTE)
    ensures r.atMost(REGISTERED_IN_BULK, MAXIMUM_NOTE) && r.atMost(STATUS_CHANGED, MAXIMUM_NOTE)
  {
  }

  lemma WrittenTextLaws(lower: char -> char, r: Rules)
    requires CaseTable(lower)
    requires forall n :: r.clean(n) == Identifiers.Cleaned(n)
    requires forall n :: r.lower(n) == Identifiers.Lowered(lower, n)
    requires forall n :: r.status(n) <==> IsStatus(n.text)
    requires forall n, m :: r.atMost(n, m) <==> |n.text| <= m
    ensures TextLaws(r)
  {
    ShortTexts(r);
    DraftLowered(lower);
    NoneCleaned();
  }

  /**
    The written rules are lawful, whatever the lower-case letters, the rules for addresses and the remaining
    fields.
   */
  lemma WrittenLawful(
      lower: char -> char, url: Name -> bool, extras: Extras -> Option<Extras>,
      defaults: Extras -> Option<Extras>, inherit: (Extras, Extras) -> Extras)
    requires CaseTable(lower)
    ensures Lawful(WrittenRules(lower, url, extras, defaults, inherit))
  {
    ListedLaws(WrittenRules(lower, url, extras, defaults, inherit));
    WrittenNameLaws(lower, WrittenRules(lower, url, extras, defaults, inherit));
    WrittenTextLaws(lower, WrittenRules(lower, url, extras, defaults, inherit));
  }
}
