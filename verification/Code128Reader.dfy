/**
  A reader for Code 128-B symbols (ISO/IEC 15417). It shares nothing with the encoder: the table from
  widths to symbol values, the quiet zones, the start and stop symbols and the check symbol are its own.
 */
module Code128Reader {
  import opened Text

  type Byte = x: int | 0 <= x < 256

  // ----- Symbols ----------------------------------------------------------------------------

  /** The widths of the six elements of a symbol, dark and light in turn. */
  datatype Widths = Widths(bar1: nat, space1: nat, bar2: nat, space2: nat, bar3: nat, space3: nat)

  /** The value of a symbol of six elements; 106 when there is none. */
  function SymbolOf(w: Widths): nat {
    match w
    case Widths(2, 1, 2, 2, 2, 2) => 0
    case Widths(2, 2, 2, 1, 2, 2) => 1
    case Widths(2, 2, 2, 2, 2, 1) => 2
    case Widths(1, 2, 1, 2, 2, 3) => 3
    case Widths(1, 2, 1, 3, 2, 2) => 4
    case Widths(1, 3, 1, 2, 2, 2) => 5
    case Widths(1, 2, 2, 2, 1, 3) => 6
    case Widths(1, 2, 2, 3, 1, 2) => 7
    case Widths(1, 3, 2, 2, 1, 2) => 8
    case Widths(2, 2, 1, 2, 1, 3) => 9
    case Widths(2, 2, 1, 3, 1, 2) => 10
    case Widths(2, 3, 1, 2, 1, 2) => 11
    case Widths(1, 1, 2, 2, 3, 2) => 12
    case Widths(1, 2, 2, 1, 3, 2) => 13
    case Widths(1, 2, 2, 2, 3, 1) => 14
    case Widths(1, 1, 3, 2, 2, 2) => 15
    case Widths(1, 2, 3, 1, 2, 2) => 16
    case Widths(1, 2, 3, 2, 2, 1) => 17
    case Widths(2, 2, 3, 2, 1, 1) => 18
    case Widths(2, 2, 1, 1, 3, 2) => 19
    case Widths(2, 2, 1, 2, 3, 1) => 20
    case Widths(2, 1, 3, 2, 1, 2) => 21
    case Widths(2, 2, 3, 1, 1, 2) => 22
    case Widths(3, 1, 2, 1, 3, 1) => 23
    case Widths(3, 1, 1, 2, 2, 2) => 24
    case Widths(3, 2, 1, 1, 2, 2) => 25
    case Widths(3, 2, 1, 2, 2, 1) => 26
    case Widths(3, 1, 2, 2, 1, 2) => 27
    case Widths(3, 2, 2, 1, 1, 2) => 28
    case Widths(3, 2, 2, 2, 1, 1) => 29
    case Widths(2, 1, 2, 1, 2, 3) => 30
    case Widths(2, 1, 2, 3, 2, 1) => 31
    case Widths(2, 3, 2, 1, 2, 1) => 32
    case Widths(1, 1, 1, 3, 2, 3) => 33
    case Widths(1, 3, 1, 1, 2, 3) => 34
    case Widths(1, 3, 1, 3, 2, 1) => 35
    case Widths(1, 1, 2, 3, 1, 3) => 36
    case Widths(1, 3, 2, 1, 1, 3) => 37
    case Widths(1, 3, 2, 3, 1, 1) => 38
    case Widths(2, 1, 1, 3, 1, 3) => 39
    case Widths(2, 3, 1, 1, 1, 3) => 40
    case Widths(2, 3, 1, 3, 1, 1) => 41
    case Widths(1, 1, 2, 1, 3, 3) => 42
    case Widths(1, 1, 2, 3, 3, 1) => 43
    case Widths(1, 3, 2, 1, 3, 1) => 44
    case Widths(1, 1, 3, 1, 2, 3) => 45
    case Widths(1, 1, 3, 3, 2, 1) => 46
    case Widths(1, 3, 3, 1, 2, 1) => 47
    case Widths(3, 1, 3, 1, 2, 1) => 48
    case Widths(2, 1, 1, 3, 3, 1) => 49
    case Widths(2, 3, 1, 1, 3, 1) => 50
    case Widths(2, 1, 3, 1, 1, 3) => 51
    case Widths(2, 1, 3, 3, 1, 1) => 52
    case Widths(2, 1, 3, 1, 3, 1) => 53
    case Widths(3, 1, 1, 1, 2, 3) => 54
    case Widths(3, 1, 1, 3, 2, 1) => 55
    case Widths(3, 3, 1, 1, 2, 1) => 56
    case Widths(3, 1, 2, 1, 1, 3) => 57
    case Widths(3, 1, 2, 3, 1, 1) => 58
    case Widths(3, 3, 2, 1, 1, 1) => 59
    case Widths(3, 1, 4, 1, 1, 1) => 60
    case Widths(2, 2, 1, 4, 1, 1) => 61
    case Widths(4, 3, 1, 1, 1, 1) => 62
    case Widths(1, 1, 1, 2, 2, 4) => 63
    case Widths(1, 1, 1, 4, 2, 2) => 64
    case Widths(1, 2, 1, 1, 2, 4) => 65
    case Widths(1, 2, 1, 4, 2, 1) => 66
    case Widths(1, 4, 1, 1, 2, 2) => 67
    case Widths(1, 4, 1, 2, 2, 1) => 68
    case Widths(1, 1, 2, 2, 1, 4) => 69
    case Widths(1, 1, 2, 4, 1, 2) => 70
    case Widths(1, 2, 2, 1, 1, 4) => 71
    case Widths(1, 2, 2, 4, 1, 1) => 72
    case Widths(1, 4, 2, 1, 1, 2) => 73
    case Widths(1, 4, 2, 2, 1, 1) => 74
    case Widths(2, 4, 1, 2, 1, 1) => 75
    case Widths(2, 2, 1, 1, 1, 4) => 76
    case Widths(4, 1, 3, 1, 1, 1) => 77
    case Widths(2, 4, 1, 1, 1, 2) => 78
    case Widths(1, 3, 4, 1, 1, 1) => 79
    case Widths(1, 1, 1, 2, 4, 2) => 80
    case Widths(1, 2, 1, 1, 4, 2) => 81
    case Widths(1, 2, 1, 2, 4, 1) => 82
    case Widths(1, 1, 4, 2, 1, 2) => 83
    case Widths(1, 2, 4, 1, 1, 2) => 84
    case Widths(1, 2, 4, 2, 1, 1) => 85
    case Widths(4, 1, 1, 2, 1, 2) => 86
    case Widths(4, 2, 1, 1, 1, 2) => 87
    case Widths(4, 2, 1, 2, 1, 1) => 88
    case Widths(2, 1, 2, 1, 4, 1) => 89
    case Widths(2, 1, 4, 1, 2, 1) => 90
    case Widths(4, 1, 2, 1, 2, 1) => 91
    case Widths(1, 1, 1, 1, 4, 3) => 92
    case Widths(1, 1, 1, 3, 4, 1) => 93
    case Widths(1, 3, 1, 1, 4, 1) => 94
    case Widths(1, 1, 4, 1, 1, 3) => 95
    case Widths(1, 1, 4, 3, 1, 1) => 96
    case Widths(4, 1, 1, 1, 1, 3) => 97
    case Widths(4, 1, 1, 3, 1, 1) => 98
    case Widths(1, 1, 3, 1, 4, 1) => 99
    case Widths(1, 1, 4, 1, 3, 1) => 100
    case Widths(3, 1, 1, 1, 4, 1) => 101
    case Widths(4, 1, 1, 1, 3, 1) => 102
    case Widths(2, 1, 1, 4, 1, 2) => 103
    case Widths(2, 1, 1, 2, 1, 4) => 104
    case Widths(2, 1, 1, 2, 3, 2) => 105
    case _ => 106
  }

  // ----- Runs -------------------------------------------------------------------------------

  /** How many leading modules are of the given shade. */
  function Leading(m: seq<bool>, dark: bool): (n: nat)
    ensures n <= |m| && (forall i :: 0 <= i < n ==> m[i] == dark) && (n < |m| ==> m[n] != dark)
  {
    if m == [] || m[0] != dark then 0
    else
      var n := 1 + Leading(m[1..], dark);
      assert forall i :: 1 <= i < n ==> m[i] == m[1..][i - 1];
      n
  }

  /** The widths of the alternating runs of m, the first of the given shade. */
  function Measured(m: seq<bool>, dark: bool): seq<nat>
    decreases |m|
  {
    var n := Leading(m, dark);
    if n == 0 then [] else [n] + Measured(m[n..], !dark)
  }

  /** The symbol of a list of element widths, if there is one. */
  function SymbolFor(w: seq<nat>): Option<nat> {
    if w == [2, 3, 3, 1, 1, 1, 2] then Some(106)
    else if |w| == 6 && SymbolOf(Widths(w[0], w[1], w[2], w[3], w[4], w[5])) != 106 then
      Some(SymbolOf(Widths(w[0], w[1], w[2], w[3], w[4], w[5])))
    else None
  }

  /** The symbol drawn by a block of modules, if there is one. */
  function ReadSymbol(m: seq<bool>): Option<nat> {
    SymbolFor(Measured(m, true))
  }

  /** Reads blocks of eleven modules up to the thirteen of the stop symbol. */
  function ReadSymbols(m: seq<bool>): Option<seq<nat>>
    decreases |m|
  {
    if |m| <= 13 then
      if |m| == 13 && ReadSymbol(m) == Some(106) then Some([106]) else None
    else
      var first := ReadSymbol(m[..11]);
      var rest := ReadSymbols(m[11..]);
      if first.Some? && first.value != 106 && rest.Some? then Some([first.value] + rest.value) else None
  }

  predicate Light(m: seq<bool>) {
    forall i :: 0 <= i < |m| ==> !m[i]
  }

  /** What lies between two quiet zones of ten modules. */
  function Inner(m: seq<bool>): Option<seq<bool>> {
    if |m| < 20 || !Light(m[..10]) || !Light(m[|m| - 10..]) then None
    else Some(m[10..|m| - 10])
  }

  // ----- The payload ------------------------------------------------------------------------

  /** Each of the first n symbol values times its position; the start symbol is at position 0. */
  function Weighted(codes: seq<nat>, n: nat): nat
    requires n <= |codes|
  {
    if n == 0 then 0 else Weighted(codes, n - 1) + (n - 1) * codes[n - 1]
  }

  /** The check symbol before the stop symbol is the start value and the weighted data, modulo 103. */
  predicate Checks(codes: seq<nat>)
    requires |codes| >= 3
  {
    codes[|codes| - 2] == (codes[0] + Weighted(codes, |codes| - 2)) % 103
  }

  /** The characters of code set B, from the space on. */
  function Bytes(data: seq<nat>): (payload: seq<Byte>)
    requires forall i :: 0 <= i < |data| ==> data[i] < 95
    ensures |payload| == |data| && forall i :: 0 <= i < |data| ==> payload[i] == data[i] + 32
  {
    seq(|data|, i requires 0 <= i < |data| => data[i] + 32)
  }

  /** The payload of a symbol list: start code B, data, a matching check symbol and stop. */
  function PayloadOf(codes: seq<nat>): Option<seq<Byte>> {
    if |codes| < 4 || codes[0] != 104 || codes[|codes| - 1] != 106 then None
    else
      var data := codes[1..|codes| - 2];
      if exists i :: 0 <= i < |data| && data[i] >= 95 then None
      else if !Checks(codes) then None
      else Some(Bytes(data))
  }

  /** The payload a symbol carries, if it is one. */
  function Decode(m: seq<bool>): Option<seq<Byte>> {
    match Inner(m)
    case None => None
    case Some(inner) =>
      match ReadSymbols(inner)
      case None => None
      case Some(codes) => PayloadOf(codes)
  }
}
