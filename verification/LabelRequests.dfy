/**
  Label batch requests: normalization, and the digest that identifies what a request asks for.
 */
module LabelRequests {
  import opened Text
  import opened Sequences

  const MAXIMUM_LABEL_BATCH: nat := 50

  // ----- Requests and their digests ---------------------------------------------------------

  datatype Output = Svg | Pdf | Zpl

  function OutputName(o: Output): string {
    match o
    case Svg => "svg"
    case Pdf => "pdf"
    case Zpl => "zpl"
  }

  datatype Error = InvalidInput | UnsupportedOutput

  datatype Result<+T> = Ok(value: T) | Err(error: Error)

  datatype LabelInput = LabelInput(
    idempotencyKey: string, templateId: string, templateVersion: int,
    identifierIds: seq<string>, output: string, testPrint: bool)

  /** What a request asks for, apart from its idempotency key. */
  datatype Selection = Selection(
    templateId: string, templateVersion: nat, output: Output, testPrint: bool, identifierIds: seq<string>)

  /** SHA-256, as an injective constructor. */
  datatype Digest = Sha256(preimage: string)

  function BoolName(b: bool): string {
    if b then "true" else "false"
  }

  function DigestParts(s: Selection): seq<string> {
    [s.templateId, Decimal(s.templateVersion), OutputName(s.output), BoolName(s.testPrint),
     Join(s.identifierIds, '\0')]
  }

  function DigestOf(s: Selection): Digest {
    Sha256(Join(DigestParts(s), '\U{1F}'))
  }

  predicate ValidIds(ids: seq<string>) {
    && 1 <= |ids| <= 50
    && Distinct(ids)
    && AllStable(ids)
  }

  /** What normalization and the template lookup establish before the first critical section. */
  predicate ValidSelection(s: Selection) {
    StableId(s.templateId) && s.templateVersion >= 1 && ValidIds(s.identifierIds)
  }

  function TrimAll(ids: seq<string>): (r: seq<string>)
    ensures |r| == |ids| && forall i :: 0 <= i < |ids| ==> r[i] == Trim(ids[i])
  {
    seq(|ids|, i requires 0 <= i < |ids| => Trim(ids[i]))
  }

  function OutputOf(name: string): Option<Output> {
    if name == "" || name == "svg" then Some(Svg)
    else if name == "pdf" then Some(Pdf)
    else if name == "zpl" then Some(Zpl)
    else None
  }

  /** The name of an output stands for it; no name stands for the first. */
  lemma OutputsRead(name: string, o: Output)
    ensures OutputOf(name) == Some(o) <==> name == OutputName(o) || (name == "" && o == Svg)
  {
    assert |"svg"| == 3 && "svg"[0] == 's' && "pdf"[0] == 'p' && "zpl"[0] == 'z';
  }

  predicate AllStable(ids: seq<string>) {
    forall i :: 0 <= i < |ids| ==> StableId(ids[i])
  }

  /** A checked prefix extends by an identifier that is stable and new; otherwise the whole list is refused. */
  lemma PrefixExtends(ids: seq<string>, n: nat)
    requires n < |ids| && Distinct(ids[..n]) && AllStable(ids[..n])
    ensures ids[..n + 1] == ids[..n] + [ids[n]]
    ensures Elements(ids[..n + 1]) == Elements(ids[..n]) + {ids[n]}
    ensures StableId(ids[n]) && ids[n] !in Elements(ids[..n]) ==> Distinct(ids[..n + 1]) && AllStable(ids[..n + 1])
    ensures !StableId(ids[n]) || ids[n] in Elements(ids[..n]) ==> !ValidIds(ids)
  {
    assert ids[..n + 1] == ids[..n] + [ids[n]];
    if ids[n] in Elements(ids[..n]) {
      var i :| 0 <= i < n && ids[..n][i] == ids[n];
      assert ids[i] == ids[n];
    } else {
      DistinctAppend(ids[..n], ids[n]);
    }
  }

  /** Trims the identifiers, refusing a malformed or repeated one. */
  method NormalizeIds(raw: seq<string>) returns (r: Option<seq<string>>)
    requires 1 <= |raw| <= 50
    ensures r.Some? <==> ValidIds(TrimAll(raw))
    ensures r.Some? ==> r.value == TrimAll(raw)
  {
    ghost var trimmed := TrimAll(raw);
    var ids, seen: set<string> := [], {};
    for index := 0 to |raw|
      invariant ids == trimmed[..index]
      invariant seen == Elements(ids) && Distinct(ids) && AllStable(ids)
    {
      PrefixExtends(trimmed, index);
      var id := Trim(raw[index]);
      if !StableId(id) || id in seen {
        return None;
      }
      seen := seen + {id};
      ids := ids + [id];
    }
    assert trimmed[..|raw|] == trimmed;
    r := Some(ids);
  }

  /** Trims and checks an input; succeeds exactly on the inputs a digest can be taken of. */
  method NormalizeInput(input: LabelInput) returns (r: Result<(string, Selection)>)
    ensures r.Ok? <==>
            && StableId(Trim(input.idempotencyKey)) && input.templateVersion >= 1
            && OutputOf(input.output).Some? && ValidIds(TrimAll(input.identifierIds))
    ensures r.Ok? ==>
              r.value == (Trim(input.idempotencyKey),
                          Selection(Trim(input.templateId), input.templateVersion, OutputOf(input.output).value,
                                    input.testPrint, TrimAll(input.identifierIds)))
    ensures r.Err? && r.error == UnsupportedOutput ==> OutputOf(input.output).None?
  {
    var key := Trim(input.idempotencyKey);
    if !StableId(key) || input.templateVersion < 1 ||
       |input.identifierIds| < 1 || |input.identifierIds| > MAXIMUM_LABEL_BATCH {
      return Err(InvalidInput);
    }
    var output := OutputOf(input.output);
    if output.None? {
      return Err(UnsupportedOutput);
    }
    var ids := NormalizeIds(input.identifierIds);
    if ids.None? {
      return Err(InvalidInput);
    }
    r := Ok((key, Selection(Trim(input.templateId), input.templateVersion, output.value, input.testPrint, ids.value)));
  }

  lemma StableIdFree(s: string, sep: char)
    requires StableId(s) && !IsStableChar(sep)
    ensures Free(s, sep)
  {
  }

  lemma {:induction false} JoinedIdsFree(ids: seq<string>)
    requires forall i :: 0 <= i < |ids| ==> StableId(ids[i])
    ensures Free(Join(ids, '\0'), '\U{1F}')
  {
    if |ids| > 1 {
      JoinedIdsFree(ids[1..]);
    }
  }

  lemma DigestPartsFree(s: Selection)
    requires ValidSelection(s)
    ensures forall i :: 0 <= i < |DigestParts(s)| ==> Free(DigestParts(s)[i], '\U{1F}')
  {
    StableIdFree(s.templateId, '\U{1F}');
    JoinedIdsFree(s.identifierIds);
    assert Free(OutputName(s.output), '\U{1F}');
    assert Free(BoolName(s.testPrint), '\U{1F}');
  }

  /** Requests with one digest ask for one thing: no two selections share an encoding. */
  lemma DigestDeterminesSelection(a: Selection, b: Selection)
    requires ValidSelection(a) && ValidSelection(b)
    requires DigestOf(a) == DigestOf(b)
    ensures a == b
  {
    DigestPartsFree(a);
    DigestPartsFree(b);
    var p, q := DigestParts(a), DigestParts(b);
    JoinInjective(p, q, '\U{1F}');
    assert p[0] == q[0] && p[1] == q[1] && p[2] == q[2] && p[3] == q[3] && p[4] == q[4];
    DecimalInjective(a.templateVersion, b.templateVersion);
    assert OutputName(a.output)[0] == OutputName(b.output)[0];
    assert |BoolName(a.testPrint)| == |BoolName(b.testPrint)|;
    JoinInjective(a.identifierIds, b.identifierIds, '\0');
  }

  /** Which selections a request may make, and their digests. */
  datatype Digests = Digests(valid: Selection -> bool, of: Selection -> Digest)

  /** One digest, one selection. */
  ghost predicate Tells(d: Digests) {
    forall a, b {:trigger d.of(a), d.of(b)} :: d.valid(a) && d.valid(b) && d.of(a) == d.of(b) ==> a == b
  }

  /** The digests as they are written tell selections apart. */
  lemma WrittenTells()
    ensures Tells(Digests((s: Selection) => ValidSelection(s), (s: Selection) => DigestOf(s)))
  {
    forall a, b | ValidSelection(a) && ValidSelection(b) && DigestOf(a) == DigestOf(b) ensures a == b {
      DigestDeterminesSelection(a, b);
    }
  }

  function WrittenDigests(): (d: Digests)
    ensures Tells(d)
  {
    WrittenTells();
    Digests((s: Selection) => ValidSelection(s), (s: Selection) => DigestOf(s))
  }

  /** Digests without collisions, such as the written ones. */
  type Digester = d: Digests | Tells(d) ghost witness WrittenDigests()
}
