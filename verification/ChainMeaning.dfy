/**
  What the validators of rows and chains demand, field by field, and what a valid chain therefore tells:
  one asset's code over time, each row ending at the instant and by the hand that began the next.
 */
module ChainMeaning {
  import opened Text
  import opened Ordering
  import opened Clock
  import opened Identifiers
  import opened IdentifierEffects

  // ----- Rows -------------------------------------------------------------------------------

  /** UTC, whole microseconds, from 1970 to 9999. */
  predicate PortableInstant(t: Time) {
    t.utc && t.nanos % 1000 == 0 && 0 <= t.nanos < 253_402_300_800_000_000_000
  }

  predicate NamesActor(t: TextRules, actor: Name) {
    actor != Name("") && t.clean(actor) == actor && t.shortActor(actor)
  }

  predicate BlankOrStable(t: TextRules, n: Name) {
    n == Name("") || t.stable(n)
  }

  predicate NormalRowTexts(t: TextRules, item: Identifier) {
    && t.lower(item.symbology) == item.symbology && t.clean(item.value) == item.value
    && t.codeFits(Code(item.symbology, item.value))
    && item.display == ShownText(t, item.display, item.value) && t.displayFits(item.display)
    && item.source == SourceText(t, item.source)
    && item.source in {Name("imported"), Name("user_entered"), Name("generated")}
  }

  /** An active row is at revision 1 and as it was made; a replaced or deactivated one ended at its last change. */
  predicate NormalRowStatus(item: Identifier) {
    match item.status
    case Active =>
      && item.revision == 1 && item.replacedBy == Name("") && item.deactivatedAt == None
      && item.updatedBy == item.createdBy && item.updatedCorrelation == item.createdCorrelation
      && item.updatedAt.nanos == item.createdAt.nanos
    case Replaced => item.revision == 2 && item.replacedBy != Name("") && EndedAtUpdate(item)
    case Deactivated => item.revision == 2 && item.replacedBy == Name("") && EndedAtUpdate(item)
    case OtherStatus(_) => false
  }

  predicate EndedAtUpdate(item: Identifier) {
    match item.deactivatedAt case None => false case Some(t) => t.nanos == item.updatedAt.nanos
  }

  predicate NormalRow(svc: Service, item: Identifier) {
    var t := svc.text;
    && item.organization == svc.organization && t.stable(item.id) && t.stable(item.asset)
    && NormalRowTexts(t, item) && BlankOrStable(t, item.supersedes) && BlankOrStable(t, item.replacedBy)
    && NamesActor(t, item.createdBy) && t.stable(item.createdCorrelation)
    && NamesActor(t, item.updatedBy) && t.stable(item.updatedCorrelation)
    && PortableInstant(item.createdAt) && PortableInstant(item.updatedAt)
    && item.createdAt.nanos <= item.updatedAt.nanos && NormalRowStatus(item)
  }

  lemma RowTextsExactly(t: TextRules, item: Identifier)
    requires Lawful(t)
    ensures NormalRowTexts(t, item) <==>
              && NormalizeCode(t, item.symbology, item.value) == Some(Code(item.symbology, item.value))
              && NormalizeDisplay(t, item.display, item.value) == Some(item.display)
              && NormalizeSource(t, item.source) == Some(item.source)
  {
  }

  /** The validator of single rows accepts exactly these. */
  lemma RowExactly(svc: Service, item: Identifier)
    requires Lawful(svc.text)
    ensures ValidIdentifier(svc, item) <==> NormalRow(svc, item)
  {
    RowTextsExactly(svc.text, item);
  }

  // ----- Chains -----------------------------------------------------------------------------

  /** The row and the one after it: each names the other, and the one begins as the other ends. */
  predicate HandsOver(item: Identifier, next: Identifier) {
    && item.replacedBy == next.id && next.supersedes == item.id && item.status == Replaced && item.revision == 2
    && item.updatedAt.nanos == next.createdAt.nanos && item.updatedBy == next.createdBy
    && item.updatedCorrelation == next.createdCorrelation && item.primary == next.primary
  }

  ghost predicate NormalChain(svc: Service, terminal: Name, items: seq<Identifier>) {
    && 1 <= |items| <= 10_000
    && (forall i :: 0 <= i < |items| ==> NormalRow(svc, items[i]) && items[i].asset == items[0].asset)
    && (forall i :: 0 <= i < |items| - 1 ==> HandsOver(items[i], items[i + 1]))
    && (forall i, j :: 0 <= i < j < |items| ==> items[i].id != items[j].id)
    && items[0].supersedes == Name("")
    && var last := items[|items| - 1];
       last.id == terminal && last.replacedBy == Name("") && (last.status == Active || last.status == Deactivated)
  }

  lemma FitsExactly(svc: Service, items: seq<Identifier>, i: nat)
    requires Lawful(svc.text) && i < |items|
    ensures ItemFits(Accepts(svc), items, i) <==>
              && NormalRow(svc, items[i]) && items[i].asset == items[0].asset
              && (if i == 0 then items[0].supersedes == NONE else Linked(items[i - 1], items[i]))
              && (i < |items| - 1 ==> InnerItem(items[i]))
  {
    RowExactly(svc, items[i]);
  }

  lemma HandsOverExactly(svc: Service, item: Identifier, next: Identifier)
    requires NormalRow(svc, item) && svc.text.stable(next.id) && next.id != NONE
    ensures HandsOver(item, next) <==> Linked(item, next) && InnerItem(item)
  {
  }

  lemma ValidIsNormal(svc: Service, chain: Chain)
    requires Lawful(svc.text) && ValidChain(Accepts(svc), chain)
    ensures NormalChain(svc, chain.terminal, chain.items)
  {
    var items := chain.items;
    forall i | 0 <= i < |items| ensures NormalRow(svc, items[i]) && items[i].asset == items[0].asset {
      assert ItemFits(Accepts(svc), items, i);
      FitsExactly(svc, items, i);
    }
    forall i | 0 <= i < |items| - 1 ensures HandsOver(items[i], items[i + 1]) {
      assert ItemFits(Accepts(svc), items, i) && ItemFits(Accepts(svc), items, i + 1);
      HandsOverExactly(svc, items[i], items[i + 1]);
    }
    assert ItemFits(Accepts(svc), items, 0);
  }

  lemma NormalIsValid(svc: Service, chain: Chain)
    requires Lawful(svc.text) && NormalChain(svc, chain.terminal, chain.items)
    ensures ValidChain(Accepts(svc), chain)
  {
    var items := chain.items;
    forall i | 0 <= i < |items| ensures ItemFits(Accepts(svc), items, i) {
      FitsExactly(svc, items, i);
      if i > 0 {
        HandsOverExactly(svc, items[i - 1], items[i]);
      }
      if i < |items| - 1 {
        HandsOverExactly(svc, items[i], items[i + 1]);
      }
    }
  }

  /** The validator of chains accepts exactly these. */
  lemma ChainExactly(svc: Service, chain: Chain)
    requires Lawful(svc.text)
    ensures ValidChain(Accepts(svc), chain) <==> NormalChain(svc, chain.terminal, chain.items)
  {
    if ValidChain(Accepts(svc), chain) {
      ValidIsNormal(svc, chain);
    }
    if NormalChain(svc, chain.terminal, chain.items) {
      NormalIsValid(svc, chain);
    }
  }

  /** A valid chain is one history in order of time: at every instant at most one of its rows is in force. */
  lemma {:induction false} HistoryInOrder(svc: Service, terminal: Name, items: seq<Identifier>, i: nat, j: nat)
    requires NormalChain(svc, terminal, items) && i < j < |items|
    ensures items[i].updatedAt.nanos <= items[j].createdAt.nanos
    ensures items[i].primary == items[j].primary && items[i].status == Replaced
    decreases j
  {
    assert HandsOver(items[j - 1], items[j]);
    if i < j - 1 {
      HistoryInOrder(svc, terminal, items, i, j - 1);
      assert NormalRow(svc, items[j - 1]);
    }
  }
}
