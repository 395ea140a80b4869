/**
  The Code 128-B encoder: start code B, one symbol per payload byte, a weighted check symbol
  modulo 103 and the stop symbol, drawn as alternating dark and light modules between two quiet
  zones (ISO/IEC 15417).
 */
module Code128 {
  import opened Text
  import opened Code128Reader

  const MAXIMUM_PAYLOAD: nat := 128
  const START_B: nat := 104
  const STOP: nat := 106
  const MODULUS: int := 103
  const QUIET_MODULES: nat := 10

  // ----- The symbol table -------------------------------------------------------------------

  function SymbolWidths(code: nat): Widths
    requires code < STOP
  {
    match code
    case 0 => Widths(2, 1, 2, 2, 2, 2) case 1 => Widths(2, 2, 2, 1, 2, 2) case 2 => Widths(2, 2, 2, 2, 2, 1)
    case 3 => Widths(1, 2, 1, 2, 2, 3) case 4 => Widths(1, 2, 1, 3, 2, 2) case 5 => Widths(1, 3, 1, 2, 2, 2)
    case 6 => Widths(1, 2, 2, 2, 1, 3) case 7 => Widths(1, 2, 2, 3, 1, 2) case 8 => Widths(1, 3, 2, 2, 1, 2)
    case 9 => Widths(2, 2, 1, 2, 1, 3) case 10 => Widths(2, 2, 1, 3, 1, 2) case 11 => Widths(2, 3, 1, 2, 1, 2)
    case 12 => Widths(1, 1, 2, 2, 3, 2) case 13 => Widths(1, 2, 2, 1, 3, 2) case 14 => Widths(1, 2, 2, 2, 3, 1)
    case 15 => Widths(1, 1, 3, 2, 2, 2) case 16 => Widths(1, 2, 3, 1, 2, 2) case 17 => Widths(1, 2, 3, 2, 2, 1)
    case 18 => Widths(2, 2, 3, 2, 1, 1) case 19 => Widths(2, 2, 1, 1, 3, 2) case 20 => Widths(2, 2, 1, 2, 3, 1)
    case 21 => Widths(2, 1, 3, 2, 1, 2) case 22 => Widths(2, 2, 3, 1, 1, 2) case 23 => Widths(3, 1, 2, 1, 3, 1)
    case 24 => Widths(3, 1, 1, 2, 2, 2) case 25 => Widths(3, 2, 1, 1, 2, 2) case 26 => Widths(3, 2, 1, 2, 2, 1)
    case 27 => Widths(3, 1, 2, 2, 1, 2) case 28 => Widths(3, 2, 2, 1, 1, 2) case 29 => Widths(3, 2, 2, 2, 1, 1)
    case 30 => Widths(2, 1, 2, 1, 2, 3) case 31 => Widths(2, 1, 2, 3, 2, 1) case 32 => Widths(2, 3, 2, 1, 2, 1)
    case 33 => Widths(1, 1, 1, 3, 2, 3) case 34 => Widths(1, 3, 1, 1, 2, 3) case 35 => Widths(1, 3, 1, 3, 2, 1)
    case 36 => Widths(1, 1, 2, 3, 1, 3) case 37 => Widths(1, 3, 2, 1, 1, 3) case 38 => Widths(1, 3, 2, 3, 1, 1)
    case 39 => Widths(2, 1, 1, 3, 1, 3) case 40 => Widths(2, 3, 1, 1, 1, 3) case 41 => Widths(2, 3, 1, 3, 1, 1)
    case 42 => Widths(1, 1, 2, 1, 3, 3) case 43 => Widths(1, 1, 2, 3, 3, 1) case 44 => Widths(1, 3, 2, 1, 3, 1)
    case 45 => Widths(1, 1, 3, 1, 2, 3) case 46 => Widths(1, 1, 3, 3, 2, 1) case 47 => Widths(1, 3, 3, 1, 2, 1)
    case 48 => Widths(3, 1, 3, 1, 2, 1) case 49 => Widths(2, 1, 1, 3, 3, 1) case 50 => Widths(2, 3, 1, 1, 3, 1)
    case 51 => Widths(2, 1, 3, 1, 1, 3) case 52 => Widths(2, 1, 3, 3, 1, 1) case 53 => Widths(2, 1, 3, 1, 3, 1)
    case 54 => Widths(3, 1, 1, 1, 2, 3) case 55 => Widths(3, 1, 1, 3, 2, 1) case 56 => Widths(3, 3, 1, 1, 2, 1)
    case 57 => Widths(3, 1, 2, 1, 1, 3) case 58 => Widths(3, 1, 2, 3, 1, 1) case 59 => Widths(3, 3, 2, 1, 1, 1)
    case 60 => Widths(3, 1, 4, 1, 1, 1) case 61 => Widths(2, 2, 1, 4, 1, 1) case 62 => Widths(4, 3, 1, 1, 1, 1)
    case 63 => Widths(1, 1, 1, 2, 2, 4) case 64 => Widths(1, 1, 1, 4, 2, 2) case 65 => Widths(1, 2, 1, 1, 2, 4)
    case 66 => Widths(1, 2, 1, 4, 2, 1) case 67 => Widths(1, 4, 1, 1, 2, 2) case 68 => Widths(1, 4, 1, 2, 2, 1)
    case 69 => Widths(1, 1, 2, 2, 1, 4) case 70 => Widths(1, 1, 2, 4, 1, 2) case 71 => Widths(1, 2, 2, 1, 1, 4)
    case 72 => Widths(1, 2, 2, 4, 1, 1) case 73 => Widths(1, 4, 2, 1, 1, 2) case 74 => Widths(1, 4, 2, 2, 1, 1)
    case 75 => Widths(2, 4, 1, 2, 1, 1) case 76 => Widths(2, 2, 1, 1, 1, 4) case 77 => Widths(4, 1, 3, 1, 1, 1)
    case 78 => Widths(2, 4, 1, 1, 1, 2) case 79 => Widths(1, 3, 4, 1, 1, 1) case 80 => Widths(1, 1, 1, 2, 4, 2)
    case 81 => Widths(1, 2, 1, 1, 4, 2) case 82 => Widths(1, 2, 1, 2, 4, 1) case 83 => Widths(1, 1, 4, 2, 1, 2)
    case 84 => Widths(1, 2, 4, 1, 1, 2) case 85 => Widths(1, 2, 4, 2, 1, 1) case 86 => Widths(4, 1, 1, 2, 1, 2)
    case 87 => Widths(4, 2, 1, 1, 1, 2) case 88 => Widths(4, 2, 1, 2, 1, 1) case 89 => Widths(2, 1, 2, 1, 4, 1)
    case 90 => Widths(2, 1, 4, 1, 2, 1) case 91 => Widths(4, 1, 2, 1, 2, 1) case 92 => Widths(1, 1, 1, 1, 4, 3)
    case 93 => Widths(1, 1, 1, 3, 4, 1) case 94 => Widths(1, 3, 1, 1, 4, 1) case 95 => Widths(1, 1, 4, 1, 1, 3)
    case 96 => Widths(1, 1, 4, 3, 1, 1) case 97 => Widths(4, 1, 1, 1, 1, 3) case 98 => Widths(4, 1, 1, 3, 1, 1)
    case 99 => Widths(1, 1, 3, 1, 4, 1) case 100 => Widths(1, 1, 4, 1, 3, 1) case 101 => Widths(3, 1, 1, 1, 4, 1)
    case 102 => Widths(4, 1, 1, 1, 3, 1) case 103 => Widths(2, 1, 1, 4, 1, 2) case 104 => Widths(2, 1, 1, 2, 1, 4)
    case 105 => Widths(2, 1, 1, 2, 3, 2)
  }

  /** Every element is between one and four modules wide, and a symbol is eleven modules. */
  predicate WellFormed(w: Widths) {
    && 1 <= w.bar1 <= 4 && 1 <= w.space1 <= 4 && 1 <= w.bar2 <= 4
    && 1 <= w.space2 <= 4 && 1 <= w.bar3 <= 4 && 1 <= w.space3 <= 4
    && w.bar1 + w.space1 + w.bar2 + w.space2 + w.bar3 + w.space3 == 11
  }

  lemma KnownWidths(w: Widths)
    requires SymbolOf(w) != STOP
    ensures WellFormed(w)
  {
  }

  lemma SymbolsFrom0(code: nat)
    requires 0 <= code < 27
    ensures SymbolOf(SymbolWidths(code)) == code
  {
  }

  lemma SymbolsFrom27(code: nat)
    requires 27 <= code < 53
    ensures SymbolOf(SymbolWidths(code)) == code
  {
  }

  lemma SymbolsFrom53(code: nat)
    requires 53 <= code < 80
    ensures SymbolOf(SymbolWidths(code)) == code
  {
  }

  lemma SymbolsFrom80(code: nat)
    requires 80 <= code < 93
    ensures SymbolOf(SymbolWidths(code)) == code
  {
  }

  lemma SymbolsFrom93(code: nat)
    requires 93 <= code < 106
    ensures SymbolOf(SymbolWidths(code)) == code
  {
  }

  /** The table has no repetitions: a symbol is known by its widths, which are well formed. */
  lemma SymbolRoundTrip(code: nat)
    requires code < STOP
    ensures SymbolOf(SymbolWidths(code)) == code && WellFormed(SymbolWidths(code))
  {
    if code < 27 {
      SymbolsFrom0(code);
    } else if code < 53 {
      SymbolsFrom27(code);
    } else if code < 80 {
      SymbolsFrom53(code);
    } else if code < 93 {
      SymbolsFrom80(code);
    } else {
      SymbolsFrom93(code);
    }
    KnownWidths(SymbolWidths(code));
  }

  // ----- Modules ----------------------------------------------------------------------------

  function ElementWidths(code: nat): seq<nat>
    requires code <= STOP
  {
    if code == STOP then [2, 3, 3, 1, 1, 1, 2]
    else
      var w := SymbolWidths(code);
      [w.bar1, w.space1, w.bar2, w.space2, w.bar3, w.space3]
  }

  function Run(n: nat, dark: bool): (m: seq<bool>)
    ensures |m| == n && forall i :: 0 <= i < n ==> m[i] == dark
  {
    seq(n, i => dark)
  }

  /** Alternating runs of the given widths. */
  function Runs(widths: seq<nat>, dark: bool): seq<bool>
    decreases widths
  {
    if widths == [] then [] else Run(widths[0], dark) + Runs(widths[1..], !dark)
  }

  function SymbolModules(code: nat): seq<bool>
    requires code <= STOP
  {
    Runs(ElementWidths(code), true)
  }

  function Drawn(codes: seq<nat>): seq<bool>
    requires forall i :: 0 <= i < |codes| ==> codes[i] <= STOP
    decreases codes
  {
    if codes == [] then [] else SymbolModules(codes[0]) + Drawn(codes[1..])
  }

  predicate Printable(payload: seq<Byte>) {
    forall i :: 0 <= i < |payload| ==> 32 <= payload[i] <= 126
  }

  predicate Encodable(payload: seq<Byte>) {
    1 <= |payload| <= 128 && Printable(payload)
  }

  /** Each symbol value times its one-based position. */
  function WeightedSum(payload: seq<Byte>): int {
    if payload == [] then 0
    else WeightedSum(payload[..|payload| - 1]) + (payload[|payload| - 1] - 32) * |payload|
  }

  function CheckValue(payload: seq<Byte>): nat {
    (START_B + WeightedSum(payload)) % MODULUS
  }

  function DataCodes(payload: seq<Byte>): (codes: seq<nat>)
    requires Printable(payload)
    ensures |codes| == |payload| && forall i :: 0 <= i < |codes| ==> codes[i] == payload[i] - 32 < 95
  {
    seq(|payload|, i requires 0 <= i < |payload| => payload[i] - 32)
  }

  function SymbolCodes(data: seq<nat>, check: nat): seq<nat> {
    [START_B] + data + [check, STOP]
  }

  function Framed(inner: seq<bool>): seq<bool> {
    Run(QUIET_MODULES, false) + inner + Run(QUIET_MODULES, false)
  }

  /** The module list of a payload, symbol by symbol. */
  function Modules(payload: seq<Byte>): seq<bool>
    requires Encodable(payload)
  {
    Framed(Drawn(SymbolCodes(DataCodes(payload), CheckValue(payload))))
  }

  lemma Associative(a: seq<bool>, b: seq<bool>, c: seq<bool>)
    ensures a + (b + c) == a + b + c
  {
  }

  lemma {:induction false} DrawnAppend(codes: seq<nat>, code: nat)
    requires forall i :: 0 <= i < |codes| ==> codes[i] <= STOP
    requires code <= STOP
    ensures Drawn(codes + [code]) == Drawn(codes) + SymbolModules(code)
    decreases codes
  {
    if codes == [] {
      assert codes + [code] == [code] && Drawn([code]) == SymbolModules(code) + Drawn([]);
    } else {
      assert (codes + [code])[1..] == codes[1..] + [code];
      DrawnAppend(codes[1..], code);
      Associative(SymbolModules(codes[0]), Drawn(codes[1..]), SymbolModules(code));
    }
  }

  lemma {:induction false} RunsAppend(widths: seq<nat>, width: nat, dark: bool)
    ensures Runs(widths + [width], dark) == Runs(widths, dark) + Run(width, dark == (|widths| % 2 == 0))
    decreases widths
  {
    if widths == [] {
      assert widths + [width] == [width] && Runs([width], dark) == Run(width, dark) + Runs([], !dark);
    } else {
      assert (widths + [width])[1..] == widths[1..] + [width];
      RunsAppend(widths[1..], width, !dark);
    }
  }

  method AppendRun(modules: seq<bool>, width: nat, dark: bool) returns (r: seq<bool>)
    ensures r == modules + Run(width, dark)
  {
    r := modules;
    for n := 0 to width
      invariant r == modules + Run(n, dark)
    {
      r := r + [dark];
    }
  }

  method AppendRuns(modules: seq<bool>, widths: seq<nat>) returns (r: seq<bool>)
    ensures r == modules + Runs(widths, true)
  {
    r := modules;
    var dark := true;
    for index := 0 to |widths|
      invariant r == modules + Runs(widths[..index], true)
      invariant dark == (index % 2 == 0)
    {
      RunsAppend(widths[..index], widths[index], true);
      assert widths[..index + 1] == widths[..index] + [widths[index]];
      Associative(modules, Runs(widths[..index], true), Run(widths[index], dark));
      r := AppendRun(r, widths[index], dark);
      dark := !dark;
    }
    assert widths[..|widths|] == widths;
  }

  method ComputeCodes(payload: seq<Byte>) returns (r: Option<seq<nat>>)
    ensures r.Some? <==> Printable(payload)
    ensures r.Some? ==> r.value == SymbolCodes(DataCodes(payload), CheckValue(payload))
  {
    var data: seq<nat> := [];
    var checksum := START_B;
    for index := 0 to |payload|
      invariant Printable(payload[..index])
      invariant data == DataCodes(payload[..index])
      invariant checksum == START_B + WeightedSum(payload[..index])
    {
      if payload[index] < 32 || payload[index] > 126 {
        return None;
      }
      assert payload[..index + 1] == payload[..index] + [payload[index]];
      data := data + [payload[index] - 32];
      checksum := checksum + (payload[index] - 32) * (index + 1);
    }
    assert payload[..|payload|] == payload;
    r := Some([START_B] + data + [checksum % MODULUS, STOP]);
  }

  method AppendSymbol(modules: seq<bool>, code: nat) returns (r: seq<bool>)
    requires code <= STOP
    ensures r == modules + SymbolModules(code)
  {
    r := AppendRuns(modules, ElementWidths(code));
  }

  lemma DrawnSlice(codes: seq<nat>, index: nat)
    requires index < |codes| && forall i :: 0 <= i < |codes| ==> codes[i] <= STOP
    ensures Drawn(codes[..index + 1]) == Drawn(codes[..index]) + SymbolModules(codes[index])
  {
    assert codes[..index + 1] == codes[..index] + [codes[index]];
    DrawnAppend(codes[..index], codes[index]);
  }

  lemma Longer(quiet: seq<bool>, drawn: seq<bool>, symbol: seq<bool>, next: seq<bool>)
    requires next == drawn + symbol
    ensures quiet + next == quiet + drawn + symbol
  {
  }

  lemma DrawnStep(codes: seq<nat>, index: nat, start: seq<bool>)
    requires index < |codes| && forall i :: 0 <= i < |codes| ==> codes[i] <= STOP
    ensures start + Drawn(codes[..index + 1]) == start + Drawn(codes[..index]) + SymbolModules(codes[index])
  {
    DrawnSlice(codes, index);
    Longer(start, Drawn(codes[..index]), SymbolModules(codes[index]), Drawn(codes[..index + 1]));
  }

  method DrawSymbols(start: seq<bool>, codes: seq<nat>) returns (modules: seq<bool>)
    requires forall i :: 0 <= i < |codes| ==> codes[i] <= STOP
    ensures modules == start + Drawn(codes)
  {
    modules := start;
    for index := 0 to |codes|
      invariant modules == start + Drawn(codes[..index])
    {
      DrawnStep(codes, index, start);
      modules := AppendSymbol(modules, codes[index]);
    }
    assert codes[..|codes|] == codes;
  }

  method DrawAll(codes: seq<nat>) returns (r: seq<bool>)
    requires forall i :: 0 <= i < |codes| ==> codes[i] <= STOP
    ensures r == Framed(Drawn(codes))
  {
    var modules := DrawSymbols(Run(QUIET_MODULES, false), codes);
    r := modules + Run(QUIET_MODULES, false);
  }

  /**
    The encoder: fails exactly on a payload that is empty, too long or not printable ASCII; otherwise the
    reader gets the payload back from its modules.
   */
  method Encode(payload: seq<Byte>) returns (r: Option<seq<bool>>)
    ensures r.Some? <==> Encodable(payload)
    ensures r.Some? ==> r.value == Modules(payload) && Decode(r.value) == Some(payload)
  {
    if |payload| < 1 || |payload| > MAXIMUM_PAYLOAD {
      return None;
    }
    var codes := ComputeCodes(payload);
    if codes.None? {
      return None;
    }
    var modules := DrawAll(codes.value);
    RoundTrip(payload);
    r := Some(modules);
  }

  // ----- Reading ----------------------------------------------------------------------------

  predicate AllPositive(widths: seq<nat>) {
    forall i :: 0 <= i < |widths| ==> widths[i] > 0
  }

  lemma {:induction false} MeasuredRuns(widths: seq<nat>, dark: bool)
    requires AllPositive(widths)
    ensures Measured(Runs(widths, dark), dark) == widths
    decreases widths
  {
    if widths != [] {
      var m, rest := Runs(widths, dark), Runs(widths[1..], !dark);
      RunsStart(widths[1..], !dark);
      var n := Leading(m, dark);
      assert forall i :: 0 <= i < widths[0] ==> m[i] == dark;
      if rest != [] {
        assert m[widths[0]] == rest[0];
      }
      assert n == widths[0];
      assert m[n..] == rest;
      MeasuredRuns(widths[1..], !dark);
    }
  }

  lemma RunsStart(widths: seq<nat>, dark: bool)
    requires AllPositive(widths)
    ensures if widths == [] then Runs(widths, dark) == [] else Runs(widths, dark) != [] && Runs(widths, dark)[0] == dark
  {
  }

  lemma SymbolForWidths(code: nat)
    requires code <= STOP
    ensures SymbolFor(ElementWidths(code)) == Some(code) && AllPositive(ElementWidths(code))
  {
    if code < STOP {
      SymbolRoundTrip(code);
    }
  }

  lemma ReadDrawnSymbol(code: nat)
    requires code <= STOP
    ensures ReadSymbol(SymbolModules(code)) == Some(code)
  {
    var w := ElementWidths(code);
    assert AllPositive(w) && SymbolFor(w) == Some(code) by {
      SymbolForWidths(code);
    }
    MeasuredRuns(w, true);
  }

  function Total(widths: seq<nat>): nat {
    if widths == [] then 0 else widths[0] + Total(widths[1..])
  }

  lemma {:induction false} RunsLength(widths: seq<nat>, dark: bool)
    ensures |Runs(widths, dark)| == Total(widths)
    decreases widths
  {
    if widths != [] {
      RunsLength(widths[1..], !dark);
    }
  }

  lemma TotalFrom(w: seq<nat>, k: nat)
    requires k < |w|
    ensures Total(w[k..]) == w[k] + Total(w[k + 1..])
    ensures k == 0 ==> Total(w[k..]) == Total(w)
  {
    assert w[k..][1..] == w[k + 1..];
    assert w[0..] == w;
  }

  lemma SixTotal(w: seq<nat>)
    requires |w| >= 6
    ensures Total(w) == w[0] + w[1] + w[2] + w[3] + w[4] + w[5] + Total(w[6..])
    ensures |w| == 7 ==> Total(w[6..]) == w[6]
  {
    TotalFrom(w, 0);
    TotalFrom(w, 1);
    TotalFrom(w, 2);
    TotalFrom(w, 3);
    TotalFrom(w, 4);
    TotalFrom(w, 5);
    if |w| == 7 {
      TotalFrom(w, 6);
    }
  }

  lemma SymbolLength(code: nat)
    requires code <= STOP
    ensures |SymbolModules(code)| == if code == STOP then 13 else 11
  {
    var w := ElementWidths(code);
    RunsLength(w, true);
    SixTotal(w);
    if code < STOP {
      SymbolRoundTrip(code);
    }
  }

  lemma InnerFramed(inner: seq<bool>)
    ensures Inner(Framed(inner)) == Some(inner)
  {
    var m := Framed(inner);
    assert m[QUIET_MODULES..|m| - QUIET_MODULES] == inner;
  }

  /** The reader's weighted sum over the symbols is the encoder's over the payload. */
  lemma {:induction false} WeightedSymbols(payload: seq<Byte>, codes: seq<nat>, n: nat)
    requires Printable(payload) && n <= |payload| < |codes|
    requires forall i :: 0 <= i < n ==> codes[i + 1] == payload[i] - 32
    ensures Weighted(codes, n + 1) == WeightedSum(payload[..n])
  {
    if n > 0 {
      WeightedSymbols(payload, codes, n - 1);
      assert payload[..n][..n - 1] == payload[..n - 1];
      assert codes[n - 1 + 1] == payload[n - 1] - 32;
    } else {
      assert Weighted(codes, 0) == 0;
    }
  }

  lemma CodesShape(payload: seq<Byte>, codes: seq<nat>, check: nat)
    requires Encodable(payload) && codes == SymbolCodes(DataCodes(payload), check)
    ensures |codes| == |payload| + 3 && codes[0] == 104 && codes[|payload| + 1] == check
    ensures forall i :: 0 <= i < |payload| ==> codes[i + 1] == payload[i] - 32
  {
  }

  lemma CheckedExactly(payload: seq<Byte>, codes: seq<nat>, check: nat)
    requires Encodable(payload) && |codes| == |payload| + 3 && codes[0] == 104 && codes[|payload| + 1] == check
    requires forall i :: 0 <= i < |payload| ==> codes[i + 1] == payload[i] - 32
    ensures Checks(codes) <==> check == CheckValue(payload)
  {
    WeightedSymbols(payload, codes, |payload|);
    assert payload[..|payload|] == payload;
  }

  lemma PayloadOfCodes(payload: seq<Byte>, check: nat)
    requires Encodable(payload)
    ensures PayloadOf(SymbolCodes(DataCodes(payload), check))
         == if check == CheckValue(payload) then Some(payload) else None
  {
    var data := DataCodes(payload);
    var codes := SymbolCodes(data, check);
    CodesShape(payload, codes, check);
    CheckedExactly(payload, codes, check);
    assert codes[1..|codes| - 2] == data;
    assert Bytes(data) == payload;
  }

  lemma ReadBlock(block: seq<bool>, rest: seq<bool>, code: nat, codes: seq<nat>)
    requires |block| == 11 && ReadSymbol(block) == Some(code) && code != STOP
    requires |rest| >= 13 && ReadSymbols(rest) == Some(codes)
    ensures ReadSymbols(block + rest) == Some([code] + codes)
  {
    assert (block + rest)[..11] == block && (block + rest)[11..] == rest;
  }

  lemma ReadStop()
    ensures ReadSymbols(Drawn([STOP])) == Some([STOP])
    ensures |Drawn([STOP])| == 13
  {
    DrawnFirst(STOP, []);
    assert [STOP] + [] == [STOP] && SymbolModules(STOP) + Drawn([]) == SymbolModules(STOP);
    SymbolLength(STOP);
    ReadDrawnSymbol(STOP);
  }

  lemma DrawnFirst(code: nat, rest: seq<nat>)
    requires code <= STOP && forall i :: 0 <= i < |rest| ==> rest[i] <= STOP
    ensures Drawn([code] + rest) == SymbolModules(code) + Drawn(rest)
  {
    assert ([code] + rest)[1..] == rest;
  }

  lemma ReadFirst(code: nat, codes: seq<nat>)
    requires code < STOP && Terminated(codes)
    requires |Drawn(codes)| >= 13 && ReadSymbols(Drawn(codes)) == Some(codes)
    ensures ReadSymbols(Drawn([code] + codes)) == Some([code] + codes)
    ensures |Drawn([code] + codes)| == 11 + |Drawn(codes)|
  {
    DrawnFirst(code, codes);
    SymbolLength(code);
    ReadDrawnSymbol(code);
    ReadBlock(SymbolModules(code), Drawn(codes), code, codes);
  }

  /** Only the last symbol is the stop symbol. */
  predicate Terminated(codes: seq<nat>) {
    codes != [] && codes[|codes| - 1] == STOP && forall i :: 0 <= i < |codes| - 1 ==> codes[i] < STOP
  }

  lemma {:induction false} ReadDrawn(codes: seq<nat>)
    requires Terminated(codes)
    ensures ReadSymbols(Drawn(codes)) == Some(codes)
    ensures |Drawn(codes)| == 11 * |codes| + 2
    decreases codes
  {
    if |codes| == 1 {
      ReadStop();
      assert codes == [STOP];
    } else {
      var rest := codes[1..];
      ReadDrawn(rest);
      assert [codes[0]] + rest == codes;
      ReadFirst(codes[0], rest);
    }
  }

  /** Reading symbols drawn with any check value gives the payload exactly when the check value is its own. */
  lemma DecodeDrawn(payload: seq<Byte>, check: nat)
    requires Encodable(payload) && check < MODULUS
    ensures Decode(Framed(Drawn(SymbolCodes(DataCodes(payload), check))))
         == if check == CheckValue(payload) then Some(payload) else None
  {
    var codes := SymbolCodes(DataCodes(payload), check);
    CodesTerminated(payload, check);
    DecodeTerminated(codes);
    PayloadOfCodes(payload, check);
  }

  lemma CodesTerminated(payload: seq<Byte>, check: nat)
    requires Encodable(payload) && check < MODULUS
    ensures Terminated(SymbolCodes(DataCodes(payload), check))
  {
  }

  lemma DecodeTerminated(codes: seq<nat>)
    requires Terminated(codes)
    ensures Decode(Framed(Drawn(codes))) == PayloadOf(codes)
  {
    ReadDrawn(codes);
    InnerFramed(Drawn(codes));
    DecodeParts(Framed(Drawn(codes)), Drawn(codes), codes);
  }

  lemma DecodeParts(m: seq<bool>, inner: seq<bool>, codes: seq<nat>)
    requires Inner(m) == Some(inner) && ReadSymbols(inner) == Some(codes)
    ensures Decode(m) == PayloadOf(codes)
  {
  }

  lemma DrawnLength(payload: seq<Byte>, check: nat)
    requires Encodable(payload) && check < MODULUS
    ensures |Framed(Drawn(SymbolCodes(DataCodes(payload), check)))| == 11 * |payload| + 55
  {
    CodesTerminated(payload, check);
    ReadDrawn(SymbolCodes(DataCodes(payload), check));
  }

  /** Decoding an encoded payload gives it back; the module list is 11n + 55 long. */
  lemma RoundTrip(payload: seq<Byte>)
    requires Encodable(payload)
    ensures Decode(Modules(payload)) == Some(payload)
    ensures |Modules(payload)| == 11 * |payload| + 55
  {
    DecodeDrawn(payload, CheckValue(payload));
    DrawnLength(payload, CheckValue(payload));
  }

  // ----- The check value --------------------------------------------------------------------

  lemma {:induction false} WeightedSumUpdate(payload: seq<Byte>, i: nat, b: Byte)
    requires i < |payload|
    ensures WeightedSum(payload[i := b]) == WeightedSum(payload) + (b - payload[i]) * (i + 1)
  {
    var n := |payload| - 1;
    var changed := payload[i := b];
    if i == n {
      assert changed[..n] == payload[..n];
    } else {
      assert changed[..n] == payload[..n][i := b];
      WeightedSumUpdate(payload[..n], i, b);
    }
  }

  lemma ResidueShift(x: int, d: int)
    ensures (x + d) % 103 == x % 103 <==> d % 103 == 0
  {
  }

  /** Adding d to the weighted sum changes the check value unless 103 divides d. */
  lemma CheckShift(a: seq<Byte>, b: seq<Byte>, d: int)
    requires WeightedSum(b) == WeightedSum(a) + d
    ensures CheckValue(b) == CheckValue(a) <==> d % MODULUS == 0
  {
    ResidueShift(START_B + WeightedSum(a), d);
  }

  /** No number strictly between 1 and 103 divides 103. */
  lemma ModulusIsPrime(w: nat)
    requires 1 < w < MODULUS
    ensures MODULUS % w != 0
  {
  }

  /** The rest of the modulus after q times w, as a factor. */
  lemma RestTimes(q: int, w: int, r: int, x: int)
    requires MODULUS == q * w + r
    ensures r * x == MODULUS * x - q * (w * x)
  {
    assert (q * w + r) * x == (q * w) * x + r * x;
    assert (q * w) * x == q * (w * x);
  }

  lemma MultiplesDiffer(q: int, x: int, k: int)
    ensures (MODULUS * x - q * (MODULUS * k)) % MODULUS == 0
  {
    var y := q * k;
    assert q * (MODULUS * k) == MODULUS * y;
  }

  /** A prime divides a product only by dividing a factor. */
  lemma {:induction false} PrimeFactor(w: nat, x: int)
    requires 0 < w < MODULUS && (w * x) % MODULUS == 0
    ensures x % MODULUS == 0
    decreases w
  {
    if w > 1 {
      ModulusIsPrime(w);
      var q, r, k := MODULUS / w, MODULUS % w, (w * x) / MODULUS;
      RestTimes(q, w, r, x);
      MultiplesDiffer(q, x, k);
      PrimeFactor(r, x);
    }
  }

  lemma LessModulus(d: int, w: int)
    requires (d * w) % MODULUS == 0
    ensures (w * d) % MODULUS == 0 && ((w - MODULUS) * d) % MODULUS == 0
  {
    var p := d * w;
    assert w * d == p && (w - MODULUS) * d == p - MODULUS * d;
    ResidueShift(p, -MODULUS * d);
  }

  lemma WeightVanishesAt103(d: int, w: nat)
    requires d != 0 && -MODULUS < d < MODULUS && 0 < w < 2 * MODULUS
    ensures (d * w) % MODULUS == 0 <==> w == MODULUS
  {
    if w != MODULUS && (d * w) % MODULUS == 0 {
      LessModulus(d, w);
      PrimeFactor(if w < MODULUS then w else w - MODULUS, d);
    }
  }

  /** Replacing one character is detected, except at the position whose weight vanishes modulo 103. */
  lemma SubstitutionDetected(payload: seq<Byte>, i: nat, b: Byte)
    requires Encodable(payload) && i < |payload| && 32 <= b <= 126 && b != payload[i]
    ensures CheckValue(payload[i := b]) != CheckValue(payload) <==> i + 1 != MODULUS
  {
    var d: int := b as int - payload[i] as int;
    WeightedSumUpdate(payload, i, b);
    CheckShift(payload, payload[i := b], d * (i + 1));
    WeightVanishesAt103(d, i + 1);
  }

  lemma SwapSum(payload: seq<Byte>, i: nat)
    requires i + 1 < |payload|
    ensures WeightedSum(payload[i := payload[i + 1]][i + 1 := payload[i]])
         == WeightedSum(payload) + (payload[i] as int - payload[i + 1] as int)
  {
    var a: int, b: int := payload[i], payload[i + 1];
    WeightedSumUpdate(payload, i, b);
    WeightedSumUpdate(payload[i := b], i + 1, a);
    assert (b - a) * (i + 1) + (a - b) * (i + 2) == a - b;
  }

  /** Exchanging two adjacent different characters is always detected. */
  lemma TranspositionDetected(payload: seq<Byte>, i: nat)
    requires Encodable(payload) && i + 1 < |payload| && payload[i] != payload[i + 1]
    ensures CheckValue(payload[i := payload[i + 1]][i + 1 := payload[i]]) != CheckValue(payload)
  {
    SwapSum(payload, i);
    var d: int := payload[i] as int - payload[i + 1] as int;
    CheckShift(payload, payload[i := payload[i + 1]][i + 1 := payload[i]], d);
  }

  /** A symbol with two adjacent data characters exchanged, or one replaced, does not decode. */
  lemma CorruptionRefused(payload: seq<Byte>, corrupted: seq<Byte>, i: nat)
    requires Encodable(payload) && Encodable(corrupted) && i < |payload| == |corrupted|
    requires || (i + 1 != MODULUS && corrupted == payload[i := corrupted[i]] && corrupted[i] != payload[i])
             || (i + 1 < |payload| && payload[i] != payload[i + 1] &&
                 corrupted == payload[i := payload[i + 1]][i + 1 := payload[i]])
    ensures Decode(Framed(Drawn(SymbolCodes(DataCodes(corrupted), CheckValue(payload))))) == None
  {
    if i + 1 < |payload| && payload[i] != payload[i + 1] &&
       corrupted == payload[i := payload[i + 1]][i + 1 := payload[i]] {
      TranspositionDetected(payload, i);
    } else {
      SubstitutionDetected(payload, i, corrupted[i]);
    }
    DecodeDrawn(corrupted, CheckValue(payload));
  }
}
