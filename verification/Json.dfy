/** JSON trees, the serializer (`ser`) and the recursive parser (`parse_value`) of
    the source. Numbers are carried as the lexemes the scanner accepts, strings as
    the C strings a node can own. */
module Json {
  import opened Bytes
  import Digits

  datatype Value =
    | Null
    | Bool(b: bool)
    | Number(lexeme: Text)
    | Str(s: CStr)
    | Arr(items: seq<Value>)
    | Obj(pairs: seq<Pair>)

  datatype Pair = Pair(key: CStr, value: Value)

  const MAX_DEPTH: nat := 512

  const QUOTE: byte := 34
  const BACKSLASH: byte := 92
  const COMMA: byte := 44
  const COLON: byte := 58
  const OPEN_ARR: byte := 91
  const CLOSE_ARR: byte := 93
  const OPEN_OBJ: byte := 123
  const CLOSE_OBJ: byte := 125

  predicate IsSpace(c: byte) { c == 32 || c == 9 || c == 10 || c == 13 }

  function SkipSpace(s: Text): (r: Text)
    ensures |r| <= |s| && (r != [] ==> !IsSpace(r[0]))
  {
    if s != [] && IsSpace(s[0]) then SkipSpace(s[1..]) else s
  }

  /** What a NUL-terminated copy of a buffer holds. */
  function TruncNul(s: Text): (r: CStr)
    ensures 0 !in s ==> r == s
  {
    if s == [] || s[0] == 0 then [] else [s[0]] + TruncNul(s[1..])
  }

  // ---------------------------------------------------------------------
  // Strings
  // ---------------------------------------------------------------------

  /** One character as `ser_string` writes it. */
  function EscapeChar(c: byte): Text {
    if c == QUOTE || c == BACKSLASH then [BACKSLASH, c]
    else if c == 8 then [BACKSLASH, 98]
    else if c == 12 then [BACKSLASH, 102]
    else if c == 10 then [BACKSLASH, 110]
    else if c == 13 then [BACKSLASH, 114]
    else if c == 9 then [BACKSLASH, 116]
    else if c < 32 then [BACKSLASH, 117, 48, 48, Digits.HexDigit(c / 16), Digits.HexDigit(c % 16)]
    else [c]
  }

  function Escape(s: Text): Text {
    if s == [] then [] else EscapeChar(s[0]) + Escape(s[1..])
  }

  /** `ser_string`. */
  function SerString(s: Text): (r: Text)
    ensures r != [] && r[0] == QUOTE
  {
    [QUOTE] + Escape(s) + [QUOTE]
  }

  function Hex4(s: Text): Parsed<nat> {
    if |s| < 4 then Bad
    else
      var a, b, c, d := Digits.HexValue(s[0]), Digits.HexValue(s[1]), Digits.HexValue(s[2]), Digits.HexValue(s[3]);
      if a == 16 || b == 16 || c == 16 || d == 16 then Bad
      else Got(a * 4096 + b * 256 + c * 16 + d, s[4..])
  }

  function Utf8(cp: nat): Text
    requires cp < 0x11_0000
  {
    if cp < 0x80 then [cp]
    else if cp < 0x800 then [0xC0 + cp / 64, 0x80 + cp % 64]
    else if cp < 0x1_0000 then [0xE0 + cp / 4096, 0x80 + cp / 64 % 64, 0x80 + cp % 64]
    else [0xF0 + cp / 262144, 0x80 + cp / 4096 % 64, 0x80 + cp / 64 % 64, 0x80 + cp % 64]
  }

  /** The code point of a \u escape, its high surrogate already read as `cp`. */
  function LowSurrogate(cp: nat, s: Text): (r: Parsed<nat>)
    requires 0xD800 <= cp <= 0xDBFF
    ensures r.Got? ==> r.value < 0x11_0000 && |r.rest| < |s|
  {
    if |s| >= 2 && s[0] == BACKSLASH && s[1] == 117 then
      match Hex4(s[2..])
      case Bad => Bad
      case Got(lo, rest) =>
        if 0xDC00 <= lo <= 0xDFFF then Got(0x1_0000 + (cp - 0xD800) * 1024 + (lo - 0xDC00), rest) else Bad
    else Bad
  }

  function UnicodeEscape(s: Text): (r: Parsed<Text>)
    ensures r.Got? ==> |r.rest| < |s|
  {
    match Hex4(s)
    case Bad => Bad
    case Got(cp, rest) =>
      if 0xD800 <= cp <= 0xDBFF then
        match LowSurrogate(cp, rest)
        case Bad => Bad
        case Got(full, rest') => Got(Utf8(full), rest')
      else if 0xDC00 <= cp <= 0xDFFF then Bad
      else Got(Utf8(cp), rest)
  }

  /** An escape sequence after its backslash. */
  function ReadEscape(s: Text): (r: Parsed<Text>)
    ensures r.Got? ==> |r.rest| < |s|
  {
    if s == [] then Bad
    else
      var e := s[0];
      if e == QUOTE || e == BACKSLASH || e == 47 then Got([e], s[1..])
      else if e == 98 then Got([8], s[1..])
      else if e == 102 then Got([12], s[1..])
      else if e == 110 then Got([10], s[1..])
      else if e == 114 then Got([13], s[1..])
      else if e == 116 then Got([9], s[1..])
      else if e == 117 then UnicodeEscape(s[1..])
      else Bad
  }

  function PrependText(t: Text, r: Parsed<Text>): Parsed<Text> {
    if r.Bad? then Bad else Got(t + r.value, r.rest)
  }

  /** The loop of `parse_string_raw`, after the opening quote. */
  function ReadChars(s: Text): (r: Parsed<Text>)
    ensures r.Got? ==> |r.rest| < |s|
    decreases |s|
  {
    if s == [] then Bad
    else if s[0] == QUOTE then Got([], s[1..])
    else if s[0] == BACKSLASH then
      match ReadEscape(s[1..])
      case Bad => Bad
      case Got(t, rest) => PrependText(t, ReadChars(rest))
    else if s[0] < 32 then Bad
    else PrependText([s[0]], ReadChars(s[1..]))
  }

  /** `parse_string_raw`, and the NUL terminator its callers append. */
  function ReadString(s: Text): (r: Parsed<CStr>)
    ensures r.Got? ==> |r.rest| < |s|
  {
    if s == [] || s[0] != QUOTE then Bad
    else
      match ReadChars(s[1..])
      case Bad => Bad
      case Got(t, rest) => Got(TruncNul(t), rest)
  }

  // ---------------------------------------------------------------------
  // Numbers
  // ---------------------------------------------------------------------

  predicate IsDigit(c: byte) { 48 <= c <= 57 }

  function SkipDigits(s: Text): (r: Text)
    ensures |r| <= |s|
  {
    if s != [] && IsDigit(s[0]) then SkipDigits(s[1..]) else s
  }

  /** At least one digit. */
  function SomeDigits(s: Text): (r: Option<Text>)
    ensures r.Some? ==> |r.value| < |s|
  {
    if s != [] && IsDigit(s[0]) then Some(SkipDigits(s)) else None
  }

  function ScanFraction(s: Text): (r: Option<Text>)
    ensures r.Some? ==> |r.value| <= |s|
  {
    if s != [] && s[0] == 46 then SomeDigits(s[1..]) else Some(s)
  }

  function ScanExponent(s: Text): (r: Option<Text>)
    ensures r.Some? ==> |r.value| <= |s|
  {
    if s != [] && (s[0] == 101 || s[0] == 69) then
      var t := s[1..];
      SomeDigits(if t != [] && (t[0] == 43 || t[0] == 45) then t[1..] else t)
    else Some(s)
  }

  /** The scan of `parse_number`: what follows the number. */
  function ScanNumber(s: Text): (r: Option<Text>)
    ensures r.Some? ==> |r.value| < |s|
  {
    match SomeDigits(if s != [] && s[0] == 45 then s[1..] else s)
    case None => None
    case Some(a) =>
      match ScanFraction(a)
      case None => None
      case Some(b) => ScanExponent(b)
  }

  /** `parse_number`; a lexeme of 64 octets or more is refused. */
  function ReadNumber(s: Text): (r: Parsed<Value>)
    ensures r.Got? ==> |r.rest| < |s|
  {
    match ScanNumber(s)
    case None => Bad
    case Some(rest) =>
      var len := |s| - |rest|;
      if len >= 64 then Bad else Got(Number(s[..len]), rest)
  }

  /** What the scanner takes whole. */
  predicate IsLexeme(lex: Text) {
    |lex| < 64 && ScanNumber(lex) == Some([])
  }

  // ---------------------------------------------------------------------
  // The serializer
  // ---------------------------------------------------------------------

  function Spaces(n: nat): (r: Text)
    ensures |r| == n && forall i :: 0 <= i < n ==> r[i] == 32
  {
    seq(n, i => 32)
  }

  /** `indent` when pretty, nothing when compact. */
  function Break(depth: nat, spaces: nat): Text {
    if spaces > 0 then [10] + Spaces(depth * spaces) else []
  }

  function Colon(spaces: nat): Text {
    if spaces > 0 then [COLON, 32] else [COLON]
  }

  /** `ser`: compact for 0 spaces, otherwise pretty. */
  function Ser(v: Value, depth: nat, spaces: nat): Text
    decreases v, 1
  {
    match v
    case Null => Ascii("null")
    case Bool(b) => if b then Ascii("true") else Ascii("false")
    case Number(lex) => lex
    case Str(s) => SerString(s)
    case Arr(items) =>
      if items == [] then [OPEN_ARR, CLOSE_ARR]
      else [OPEN_ARR] + SerItems(items, depth, spaces) + Break(depth, spaces) + [CLOSE_ARR]
    case Obj(pairs) =>
      if pairs == [] then [OPEN_OBJ, CLOSE_OBJ]
      else [OPEN_OBJ] + SerPairs(pairs, depth, spaces) + Break(depth, spaces) + [CLOSE_OBJ]
  }

  function SerItems(items: seq<Value>, depth: nat, spaces: nat): Text
    requires items != []
    decreases items, 0
  {
    Break(depth + 1, spaces) + Ser(items[0], depth + 1, spaces)
    + (if |items| == 1 then [] else [COMMA] + SerItems(items[1..], depth, spaces))
  }

  function SerPair(p: Pair, depth: nat, spaces: nat): Text
    decreases p, 0
  {
    SerString(p.key) + Colon(spaces) + Ser(p.value, depth + 1, spaces)
  }

  function SerPairs(pairs: seq<Pair>, depth: nat, spaces: nat): Text
    requires pairs != []
    decreases pairs, 0
  {
    Break(depth + 1, spaces) + SerPair(pairs[0], depth, spaces)
    + (if |pairs| == 1 then [] else [COMMA] + SerPairs(pairs[1..], depth, spaces))
  }

  // ---------------------------------------------------------------------
  // The parser
  // ---------------------------------------------------------------------

  /** `json_object_set`: a key already there keeps its place and takes the value. */
  function ObjectSet(pairs: seq<Pair>, key: CStr, value: Value): seq<Pair> {
    if pairs == [] then [Pair(key, value)]
    else if pairs[0].key == key then [Pair(key, value)] + pairs[1..]
    else [pairs[0]] + ObjectSet(pairs[1..], key, value)
  }

  function Literal(s: Text, word: Text, v: Value): (r: Parsed<Value>)
    requires word != []
    ensures r.Got? ==> |r.rest| < |s|
  {
    if word <= s then Got(v, s[|word|..]) else Bad
  }

  /** `parse_value`. */
  function ParseValue(s0: Text, depth: nat): (r: Parsed<Value>)
    ensures r.Got? ==> |r.rest| < |s0|
    decreases |s0|, 3
  {
    var s := SkipSpace(s0);
    if depth > MAX_DEPTH || s == [] then Bad
    else if s[0] == OPEN_OBJ then ParseObject(s[1..], depth + 1)
    else if s[0] == OPEN_ARR then ParseArray(s[1..], depth + 1)
    else if s[0] == QUOTE then
      match ReadString(s)
      case Bad => Bad
      case Got(t, rest) => Got(Str(t), rest)
    else if s[0] == 110 then Literal(s, Ascii("null"), Null)
    else if s[0] == 116 then Literal(s, Ascii("true"), Bool(true))
    else if s[0] == 102 then Literal(s, Ascii("false"), Bool(false))
    else if s[0] == 45 || IsDigit(s[0]) then ReadNumber(s)
    else Bad
  }

  /** `parse_array`, after the bracket. */
  function ParseArray(s0: Text, depth: nat): (r: Parsed<Value>)
    ensures r.Got? ==> |r.rest| < |s0|
    decreases |s0|, 5
  {
    var s := SkipSpace(s0);
    if s != [] && s[0] == CLOSE_ARR then Got(Arr([]), s[1..])
    else
      match ParseItems(s, depth)
      case Bad => Bad
      case Got(items, rest) => Got(Arr(items), rest)
  }

  function ParseItems(s: Text, depth: nat): (r: Parsed<seq<Value>>)
    ensures r.Got? ==> |r.rest| < |s|
    decreases |s|, 4
  {
    match ParseValue(s, depth)
    case Bad => Bad
    case Got(v, r0) =>
      var r := SkipSpace(r0);
      if r == [] then Bad
      else if r[0] == CLOSE_ARR then Got([v], r[1..])
      else if r[0] == COMMA then
        match ParseItems(r[1..], depth)
        case Bad => Bad
        case Got(items, rest) => Got([v] + items, rest)
      else Bad
  }

  /** `parse_object`, after the brace. */
  function ParseObject(s0: Text, depth: nat): (r: Parsed<Value>)
    ensures r.Got? ==> |r.rest| < |s0|
    decreases |s0|, 5
  {
    var s := SkipSpace(s0);
    if s != [] && s[0] == CLOSE_OBJ then Got(Obj([]), s[1..])
    else
      match ParsePairs(s, depth, [])
      case Bad => Bad
      case Got(pairs, rest) => Got(Obj(pairs), rest)
  }

  /** A key and its colon. */
  function ReadKey(s: Text): (r: Parsed<CStr>)
    ensures r.Got? ==> |r.rest| < |s|
  {
    match ReadString(SkipSpace(s))
    case Bad => Bad
    case Got(key, r0) =>
      var r := SkipSpace(r0);
      if r == [] || r[0] != COLON then Bad else Got(key, r[1..])
  }

  /** One key, colon and value. */
  function ParsePair(s: Text, depth: nat): (r: Parsed<Pair>)
    ensures r.Got? ==> |r.rest| < |s|
    decreases |s|, 3
  {
    match ReadKey(s)
    case Bad => Bad
    case Got(key, r) =>
      match ParseValue(r, depth)
      case Bad => Bad
      case Got(v, rest) => Got(Pair(key, v), rest)
  }

  function ParsePairs(s: Text, depth: nat, sofar: seq<Pair>): (r: Parsed<seq<Pair>>)
    ensures r.Got? ==> |r.rest| < |s|
    decreases |s|, 4
  {
    match ParsePair(s, depth)
    case Bad => Bad
    case Got(p, r0) =>
      var pairs := ObjectSet(sofar, p.key, p.value);
      var r := SkipSpace(r0);
      if r == [] then Bad
      else if r[0] == CLOSE_OBJ then Got(pairs, r[1..])
      else if r[0] == COMMA then ParsePairs(r[1..], depth, pairs)
      else Bad
  }

  /** `json_parse`. */
  function Parse(s: Text): Option<Value> {
    match ParseValue(s, 0)
    case Bad => None
    case Got(v, rest) => if SkipSpace(rest) == [] then Some(v) else None
  }

  // ---------------------------------------------------------------------
  // Trees that survive
  // ---------------------------------------------------------------------

  ghost predicate DistinctKeys(pairs: seq<Pair>) {
    forall i, j :: 0 <= i < j < |pairs| ==> pairs[i].key != pairs[j].key
  }

  /** Numbers the scanner takes whole, no key twice, and at most `room` containers
      around any value inside. */
  ghost predicate Fits(v: Value, room: int)
    decreases v
  {
    && room >= 0
    && (match v
        case Number(lex) => IsLexeme(lex)
        case Arr(items) => forall x :: x in items ==> Fits(x, room - 1)
        case Obj(pairs) => DistinctKeys(pairs) && forall p :: p in pairs ==> Fits(p.value, room - 1)
        case _ => true)
  }
}
