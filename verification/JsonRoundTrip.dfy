/** Parsing undoes serializing, compact or pretty, for exactly the trees that
    respect the parser's limits, whatever surrounds the text of a value. */
module JsonRoundTrip {
  import opened Bytes
  import opened Json
  import Digits

  // ---------------------------------------------------------------------
  // Space
  // ---------------------------------------------------------------------

  lemma {:induction false} SkipSpaceOver(a: Text, b: Text)
    requires forall i :: 0 <= i < |a| ==> IsSpace(a[i])
    ensures SkipSpace(a + b) == SkipSpace(b)
    decreases |a|
  {
    if a == [] {
      assert a + b == b;
    } else {
      assert (a + b)[1..] == a[1..] + b;
      SkipSpaceOver(a[1..], b);
    }
  }

  lemma BreakSkipped(depth: nat, spaces: nat, rest: Text)
    ensures SkipSpace(Break(depth, spaces) + rest) == SkipSpace(rest)
  {
    SkipSpaceOver(Break(depth, spaces), rest);
  }

  /** Leading space makes no difference to a value. */
  lemma ParseAfterSpace(s: Text, depth: nat)
    ensures ParseValue(SkipSpace(s), depth) == ParseValue(s, depth)
  {
    assert SkipSpace(SkipSpace(s)) == SkipSpace(s);
  }

  lemma ParseAfterBreak(n: nat, spaces: nat, s: Text, depth: nat)
    ensures ParseValue(Break(n, spaces) + s, depth) == ParseValue(s, depth)
  {
    BreakSkipped(n, spaces, s);
    ParseAfterSpace(Break(n, spaces) + s, depth);
    ParseAfterSpace(s, depth);
  }

  // ---------------------------------------------------------------------
  // Strings
  // ---------------------------------------------------------------------

  lemma ControlEscape(c: byte, rest: Text)
    requires c < 32
    ensures UnicodeEscape([48, 48, Digits.HexDigit(c / 16), Digits.HexDigit(c % 16)] + rest) == Got([c], rest)
  {
    var s := [48, 48, Digits.HexDigit(c / 16), Digits.HexDigit(c % 16)] + rest;
    assert s[4..] == rest;
    assert c / 16 * 16 + c % 16 == c;
  }

  lemma ReadHexEscape(c: byte, rest: Text)
    requires c != 0 && |EscapeChar(c)| > 2
    ensures ReadChars(EscapeChar(c) + rest) == PrependText([c], ReadChars(rest))
  {
    var s := EscapeChar(c) + rest;
    var hex := [48, 48, Digits.HexDigit(c / 16), Digits.HexDigit(c % 16)];
    assert s[1..] == [117] + (hex + rest);
    assert s[1..][1..] == hex + rest;
    ControlEscape(c, rest);
  }

  lemma ReadEscapedChar(c: byte, rest: Text)
    requires c != 0
    ensures ReadChars(EscapeChar(c) + rest) == PrependText([c], ReadChars(rest))
  {
    var e := EscapeChar(c);
    var s := e + rest;
    if |e| == 1 {
      assert s[1..] == rest;
    } else if |e| == 2 {
      assert s[1..] == [e[1]] + rest;
      assert s[1..][1..] == rest;
    } else {
      ReadHexEscape(c, rest);
    }
  }

  lemma {:induction false} ReadEscaped(s: Text, rest: Text)
    requires 0 !in s
    ensures ReadChars(Escape(s) + ([QUOTE] + rest)) == Got(s, rest)
    decreases |s|
  {
    var tail := [QUOTE] + rest;
    if s == [] {
      assert Escape(s) + tail == tail && tail[1..] == rest;
    } else {
      assert Escape(s) + tail == EscapeChar(s[0]) + (Escape(s[1..]) + tail);
      ReadEscapedChar(s[0], Escape(s[1..]) + tail);
      ReadEscaped(s[1..], rest);
      assert [s[0]] + s[1..] == s;
    }
  }

  lemma StringRoundTrip(s: CStr, rest: Text)
    ensures ReadString(SerString(s) + rest) == Got(s, rest)
  {
    var all := SerString(s) + rest;
    assert all[1..] == Escape(s) + ([QUOTE] + rest);
    ReadEscaped(s, rest);
  }

  // ---------------------------------------------------------------------
  // Numbers
  // ---------------------------------------------------------------------

  /** What may follow a number without being taken for part of it. */
  ghost predicate Stop(rest: Text) {
    rest == [] || !(IsDigit(rest[0]) || rest[0] == 46 || rest[0] == 101 || rest[0] == 69)
  }

  lemma {:induction false} SkipDigitsThen(s: Text, rest: Text)
    requires Stop(rest)
    ensures SkipDigits(s + rest) == SkipDigits(s) + rest
    decreases |s|
  {
    if s == [] {
      assert s + rest == rest;
    } else {
      assert (s + rest)[1..] == s[1..] + rest;
      SkipDigitsThen(s[1..], rest);
    }
  }

  lemma SomeDigitsThen(s: Text, rest: Text)
    requires Stop(rest) && SomeDigits(s).Some?
    ensures SomeDigits(s + rest) == Some(SomeDigits(s).value + rest)
  {
    SkipDigitsThen(s, rest);
  }

  lemma FractionThen(s: Text, rest: Text)
    requires Stop(rest) && ScanFraction(s).Some?
    ensures ScanFraction(s + rest) == Some(ScanFraction(s).value + rest)
  {
    if s != [] && s[0] == 46 {
      assert (s + rest)[1..] == s[1..] + rest;
      SomeDigitsThen(s[1..], rest);
    }
  }

  lemma ExponentThen(s: Text, rest: Text)
    requires Stop(rest) && ScanExponent(s).Some?
    ensures ScanExponent(s + rest) == Some(ScanExponent(s).value + rest)
  {
    if s != [] && (s[0] == 101 || s[0] == 69) {
      var t := s[1..];
      assert (s + rest)[1..] == t + rest;
      if t[0] == 43 || t[0] == 45 {
        assert (t + rest)[1..] == t[1..] + rest;
        SomeDigitsThen(t[1..], rest);
      } else {
        SomeDigitsThen(t, rest);
      }
    }
  }

  lemma NumberRoundTrip(lex: Text, rest: Text)
    requires IsLexeme(lex) && Stop(rest)
    ensures ReadNumber(lex + rest) == Got(Number(lex), rest)
    ensures lex != [] && (lex[0] == 45 || IsDigit(lex[0]))
  {
    var s := lex + rest;
    var body := if lex[0] == 45 then lex[1..] else lex;
    assert lex[0] == 45 ==> s[1..] == lex[1..] + rest;
    SomeDigitsThen(body, rest);
    var a := SomeDigits(body).value;
    FractionThen(a, rest);
    ExponentThen(ScanFraction(a).value, rest);
    assert [] + rest == rest;
    assert s[..|lex|] == lex;
  }

  // ---------------------------------------------------------------------
  // Values
  // ---------------------------------------------------------------------

  /** A rendered value starts with neither space nor a closing bracket. */
  lemma SerStart(v: Value, room: int, depth: nat, spaces: nat)
    requires Fits(v, room)
    ensures var s := Ser(v, depth, spaces);
            s != [] && !IsSpace(s[0]) && s[0] != CLOSE_ARR && s[0] != CLOSE_OBJ
  {
    if v.Number? {
      NumberRoundTrip(v.lexeme, []);
    }
  }

  lemma SkipNothing(s: Text)
    requires s != [] && !IsSpace(s[0])
    ensures SkipSpace(s) == s
  {
  }

  ghost function Close(depth: nat, spaces: nat, c: byte, rest: Text): Text {
    Break(depth, spaces) + ([c] + rest)
  }

  lemma CloseSkipped(depth: nat, spaces: nat, c: byte, rest: Text)
    requires c == CLOSE_ARR || c == CLOSE_OBJ
    ensures SkipSpace(Close(depth, spaces, c, rest)) == [c] + rest
    ensures ([c] + rest)[1..] == rest
    ensures Stop(Close(depth, spaces, c, rest))
  {
    BreakSkipped(depth, spaces, [c] + rest);
  }

  lemma ScalarRoundTrip(v: Value, d: nat, spaces: nat, depth: nat, rest: Text)
    requires !v.Arr? && !v.Obj? && Fits(v, MAX_DEPTH - depth) && Stop(rest)
    ensures ParseValue(Ser(v, d, spaces) + rest, depth) == Got(v, rest)
  {
    var s := Ser(v, d, spaces) + rest;
    SerStart(v, MAX_DEPTH - depth, d, spaces);
    SkipNothing(s);
    match v
    case Number(lex) => NumberRoundTrip(lex, rest);
    case Str(t) => StringRoundTrip(t, rest);
    case Null => assert s[4..] == rest && Ascii("null") <= s;
    case Bool(b) =>
      if b {
        assert s[4..] == rest && Ascii("true") <= s;
      } else {
        assert s[5..] == rest && Ascii("false") <= s;
      }
    case _ =>
  }

  // ---------------------------------------------------------------------
  // One level of the parser at a time
  // ---------------------------------------------------------------------

  lemma ArrayOf(s: Text, inner: Text, depth: nat, items: seq<Value>, rest: Text)
    requires s == [OPEN_ARR] + inner && depth <= MAX_DEPTH
    requires ParseItems(inner, depth + 1) == Got(items, rest)
    requires SkipSpace(inner) != [] && SkipSpace(inner)[0] != CLOSE_ARR
    ensures ParseValue(s, depth) == Got(Arr(items), rest)
  {
    SkipNothing(s);
    assert s[1..] == inner;
    ItemsAfterSpace(inner, depth + 1);
    assert ParseArray(inner, depth + 1) == Got(Arr(items), rest);
  }

  lemma ItemsAfterSpace(s: Text, depth: nat)
    ensures ParseItems(SkipSpace(s), depth) == ParseItems(s, depth)
  {
    ParseAfterSpace(s, depth);
  }

  lemma ItemsLast(s: Text, depth: nat, v: Value, t: Text, rest: Text)
    requires ParseValue(s, depth) == Got(v, t) && SkipSpace(t) == [CLOSE_ARR] + rest
    ensures ParseItems(s, depth) == Got([v], rest)
  {
    assert ([CLOSE_ARR] + rest)[1..] == rest;
  }

  lemma ItemsMore(s: Text, depth: nat, v: Value, more: Text, items: seq<Value>, rest: Text)
    requires ParseValue(s, depth) == Got(v, [COMMA] + more) && ParseItems(more, depth) == Got(items, rest)
    ensures ParseItems(s, depth) == Got([v] + items, rest)
  {
    var t := [COMMA] + more;
    SkipNothing(t);
    assert t[1..] == more;
  }

  lemma ObjectOf(s: Text, inner: Text, depth: nat, pairs: seq<Pair>, rest: Text)
    requires s == [OPEN_OBJ] + inner && depth <= MAX_DEPTH
    requires ParsePairs(inner, depth + 1, []) == Got(pairs, rest)
    requires SkipSpace(inner) != [] && SkipSpace(inner)[0] != CLOSE_OBJ
    ensures ParseValue(s, depth) == Got(Obj(pairs), rest)
  {
    SkipNothing(s);
    assert s[1..] == inner;
    ParsePairsAfterSpace(inner, depth + 1);
    assert ParseObject(inner, depth + 1) == Got(Obj(pairs), rest);
  }

  lemma ParsePairsAfterSpace(s: Text, depth: nat)
    ensures ParsePairs(SkipSpace(s), depth, []) == ParsePairs(s, depth, [])
  {
    ParsePairAfterSpace(s, depth);
  }

  lemma ParsePairAfterSpace(s: Text, depth: nat)
    ensures ParsePair(SkipSpace(s), depth) == ParsePair(s, depth)
  {
    assert SkipSpace(SkipSpace(s)) == SkipSpace(s);
  }

  lemma PairOf(s: Text, key: CStr, value: Text, depth: nat, v: Value, rest: Text)
    requires ReadString(SkipSpace(s)) == Got(key, [COLON] + value) && ParseValue(value, depth) == Got(v, rest)
    ensures ParsePair(s, depth) == Got(Pair(key, v), rest)
  {
    var t := [COLON] + value;
    SkipNothing(t);
    assert t[1..] == value;
  }

  lemma PairsLast(s: Text, depth: nat, sofar: seq<Pair>, p: Pair, t: Text, rest: Text)
    requires ParsePair(s, depth) == Got(p, t) && SkipSpace(t) == [CLOSE_OBJ] + rest
    ensures ParsePairs(s, depth, sofar) == Got(ObjectSet(sofar, p.key, p.value), rest)
  {
    assert ([CLOSE_OBJ] + rest)[1..] == rest;
  }

  lemma PairsMore(s: Text, depth: nat, sofar: seq<Pair>, p: Pair, more: Text)
    requires ParsePair(s, depth) == Got(p, [COMMA] + more)
    ensures ParsePairs(s, depth, sofar) == ParsePairs(more, depth, ObjectSet(sofar, p.key, p.value))
  {
    var t := [COMMA] + more;
    SkipNothing(t);
    assert t[1..] == more;
  }

  lemma EmptyContainers(depth: nat, rest: Text)
    requires depth <= MAX_DEPTH
    ensures ParseValue([OPEN_ARR, CLOSE_ARR] + rest, depth) == Got(Arr([]), rest)
    ensures ParseValue([OPEN_OBJ, CLOSE_OBJ] + rest, depth) == Got(Obj([]), rest)
  {
    var a := [OPEN_ARR, CLOSE_ARR] + rest;
    var o := [OPEN_OBJ, CLOSE_OBJ] + rest;
    SkipNothing(a);
    SkipNothing(a[1..]);
    SkipNothing(o);
    SkipNothing(o[1..]);
    assert a[1..][1..] == rest && o[1..][1..] == rest;
  }

  // ---------------------------------------------------------------------
  // Whole trees
  // ---------------------------------------------------------------------

  /** Every tree within the limits is read back whole, wherever it stands. */
  lemma {:induction false} RoundTrip(v: Value, d: nat, spaces: nat, depth: nat, rest: Text)
    requires Fits(v, MAX_DEPTH - depth) && Stop(rest)
    ensures ParseValue(Ser(v, d, spaces) + rest, depth) == Got(v, rest)
    decreases v, 2
  {
    match v
    case Arr(items) => ArrayRoundTrip(items, d, spaces, depth, rest);
    case Obj(pairs) => ObjectRoundTrip(pairs, d, spaces, depth, rest);
    case _ => ScalarRoundTrip(v, d, spaces, depth, rest);
  }

  lemma SerSplit(items: seq<Value>, pairs: seq<Pair>, d: nat, spaces: nat, rest: Text)
    ensures items != [] ==>
              Ser(Arr(items), d, spaces) + rest
              == [OPEN_ARR] + (SerItems(items, d, spaces) + Close(d, spaces, CLOSE_ARR, rest))
    ensures pairs != [] ==>
              Ser(Obj(pairs), d, spaces) + rest
              == [OPEN_OBJ] + (SerPairs(pairs, d, spaces) + Close(d, spaces, CLOSE_OBJ, rest))
  {
  }

  lemma {:induction false} ArrayRoundTrip(items: seq<Value>, d: nat, spaces: nat, depth: nat, rest: Text)
    requires Fits(Arr(items), MAX_DEPTH - depth)
    ensures ParseValue(Ser(Arr(items), d, spaces) + rest, depth) == Got(Arr(items), rest)
    decreases items, 1
  {
    if items == [] {
      EmptyContainers(depth, rest);
    } else {
      var close := Close(d, spaces, CLOSE_ARR, rest);
      var inner := SerItems(items, d, spaces) + close;
      SerSplit(items, [], d, spaces, rest);
      assert items[0] in items;
      ItemsRoundTrip(items, d, spaces, depth + 1, rest);
      ItemsStart(items, MAX_DEPTH - depth - 1, d, spaces, close);
      ArrayOf([OPEN_ARR] + inner, inner, depth, items, rest);
    }
  }

  lemma {:induction false} ObjectRoundTrip(pairs: seq<Pair>, d: nat, spaces: nat, depth: nat, rest: Text)
    requires Fits(Obj(pairs), MAX_DEPTH - depth)
    ensures ParseValue(Ser(Obj(pairs), d, spaces) + rest, depth) == Got(Obj(pairs), rest)
    decreases pairs, 1
  {
    if pairs == [] {
      EmptyContainers(depth, rest);
    } else {
      var close := Close(d, spaces, CLOSE_OBJ, rest);
      var inner := SerPairs(pairs, d, spaces) + close;
      SerSplit([], pairs, d, spaces, rest);
      assert [] + pairs == pairs;
      PairsRoundTrip([], pairs, d, spaces, depth + 1, rest);
      PairsStart(pairs, d, spaces, close);
      ObjectOf([OPEN_OBJ] + inner, inner, depth, pairs, rest);
    }
  }

  /** How a list of items continues after its first one. */
  ghost function AfterItem(items: seq<Value>, d: nat, spaces: nat, close: Text): Text
    requires items != []
  {
    if |items| == 1 then close else [COMMA] + (SerItems(items[1..], d, spaces) + close)
  }

  lemma Regroup(gap: Text, text: Text, comma: Text, tail: Text, close: Text)
    ensures gap + text + (comma + tail) + close == gap + (text + (comma + (tail + close)))
    ensures comma == tail == [] ==>
              gap + text + [] + close == gap + (text + close)
  {
    Associate(gap + text, comma + tail, close);
    Associate(comma, tail, close);
    Associate(gap, text, comma + (tail + close));
    Associate(gap, text, close);
    assert gap + text + [] == gap + text;
  }

  lemma ItemsSplit(items: seq<Value>, d: nat, spaces: nat, close: Text)
    requires items != []
    ensures SerItems(items, d, spaces) + close
            == Break(d + 1, spaces) + (Ser(items[0], d + 1, spaces) + AfterItem(items, d, spaces, close))
  {
    var gap, text := Break(d + 1, spaces), Ser(items[0], d + 1, spaces);
    if |items| == 1 {
      Regroup(gap, text, [], [], close);
    } else {
      Regroup(gap, text, [COMMA], SerItems(items[1..], d, spaces), close);
    }
  }

  lemma ItemsStart(items: seq<Value>, room: int, d: nat, spaces: nat, close: Text)
    requires items != [] && Fits(items[0], room)
    ensures var s := SkipSpace(SerItems(items, d, spaces) + close); s != [] && s[0] != CLOSE_ARR
  {
    var body := Ser(items[0], d + 1, spaces) + AfterItem(items, d, spaces, close);
    ItemsSplit(items, d, spaces, close);
    BreakSkipped(d + 1, spaces, body);
    SerStart(items[0], room, d + 1, spaces);
    SkipNothing(body);
  }

  lemma {:induction false} FirstItem(items: seq<Value>, d: nat, spaces: nat, depth: nat, close: Text)
    requires items != [] && depth <= MAX_DEPTH + 1 && Fits(items[0], MAX_DEPTH - depth) && Stop(close)
    ensures ParseValue(SerItems(items, d, spaces) + close, depth) == Got(items[0], AfterItem(items, d, spaces, close))
    decreases items, 0, 0
  {
    var after := AfterItem(items, d, spaces, close);
    ItemsSplit(items, d, spaces, close);
    ParseAfterBreak(d + 1, spaces, Ser(items[0], d + 1, spaces) + after, depth);
    RoundTrip(items[0], d + 1, spaces, depth, after);
  }

  lemma {:induction false} ItemsRoundTrip(items: seq<Value>, d: nat, spaces: nat, depth: nat, rest: Text)
    requires items != [] && depth <= MAX_DEPTH + 1 && forall x :: x in items ==> Fits(x, MAX_DEPTH - depth)
    ensures ParseItems(SerItems(items, d, spaces) + Close(d, spaces, CLOSE_ARR, rest), depth) == Got(items, rest)
    decreases items, 0, 1
  {
    var close := Close(d, spaces, CLOSE_ARR, rest);
    var s := SerItems(items, d, spaces) + close;
    CloseSkipped(d, spaces, CLOSE_ARR, rest);
    assert items[0] in items;
    FirstItem(items, d, spaces, depth, close);
    if |items| == 1 {
      ItemsLast(s, depth, items[0], close, rest);
      assert items == [items[0]];
    } else {
      assert forall x :: x in items[1..] ==> x in items;
      ItemsRoundTrip(items[1..], d, spaces, depth, rest);
      ItemsMore(s, depth, items[0], SerItems(items[1..], d, spaces) + close, items[1..], rest);
      assert items == [items[0]] + items[1..];
    }
  }

  ghost function AfterPair(pairs: seq<Pair>, d: nat, spaces: nat, close: Text): Text
    requires pairs != []
  {
    if |pairs| == 1 then close else [COMMA] + (SerPairs(pairs[1..], d, spaces) + close)
  }

  lemma PairsSplit(pairs: seq<Pair>, d: nat, spaces: nat, close: Text)
    requires pairs != []
    ensures SerPairs(pairs, d, spaces) + close
            == Break(d + 1, spaces) + (SerPair(pairs[0], d, spaces) + AfterPair(pairs, d, spaces, close))
  {
    var gap, text := Break(d + 1, spaces), SerPair(pairs[0], d, spaces);
    if |pairs| == 1 {
      Regroup(gap, text, [], [], close);
    } else {
      Regroup(gap, text, [COMMA], SerPairs(pairs[1..], d, spaces), close);
    }
  }

  lemma PairsStart(pairs: seq<Pair>, d: nat, spaces: nat, close: Text)
    requires pairs != []
    ensures var s := SkipSpace(SerPairs(pairs, d, spaces) + close); s != [] && s[0] != CLOSE_OBJ
  {
    var body := SerPair(pairs[0], d, spaces) + AfterPair(pairs, d, spaces, close);
    PairsSplit(pairs, d, spaces, close);
    BreakSkipped(d + 1, spaces, body);
    SkipNothing(body);
  }

  /** A new key goes to the end. */
  lemma {:induction false} SetNewKey(pairs: seq<Pair>, p: Pair)
    requires forall i :: 0 <= i < |pairs| ==> pairs[i].key != p.key
    ensures ObjectSet(pairs, p.key, p.value) == pairs + [p]
    decreases |pairs|
  {
    if pairs != [] {
      SetNewKey(pairs[1..], p);
      assert pairs == [pairs[0]] + pairs[1..];
    }
  }

  lemma PairSplit(p: Pair, d: nat, spaces: nat, rest: Text)
    ensures SerPair(p, d, spaces) + rest
            == SerString(p.key) + ([COLON] + (Colon(spaces)[1..] + (Ser(p.value, d + 1, spaces) + rest)))
  {
    assert Colon(spaces) == [COLON] + Colon(spaces)[1..];
  }

  lemma {:induction false} PairRoundTrip(p: Pair, d: nat, spaces: nat, depth: nat, rest: Text)
    requires Fits(p.value, MAX_DEPTH - depth) && Stop(rest)
    ensures ParsePair(Break(d + 1, spaces) + (SerPair(p, d, spaces) + rest), depth) == Got(p, rest)
    decreases p, 0
  {
    var value := Ser(p.value, d + 1, spaces) + rest;
    var gap := Colon(spaces)[1..];
    var all := SerPair(p, d, spaces) + rest;
    PairSplit(p, d, spaces, rest);
    BreakSkipped(d + 1, spaces, all);
    SkipNothing(all);
    StringRoundTrip(p.key, [COLON] + (gap + value));
    RoundTrip(p.value, d + 1, spaces, depth, rest);
    SkipSpaceOver(gap, value);
    ParseAfterSpace(gap + value, depth);
    ParseAfterSpace(value, depth);
    PairOf(Break(d + 1, spaces) + all, p.key, gap + value, depth, p.value, rest);
  }

  lemma PairsRest(sofar: seq<Pair>, pairs: seq<Pair>)
    requires pairs != []
    ensures sofar + pairs == sofar + [pairs[0]] + pairs[1..]
    ensures |pairs| == 1 ==> sofar + pairs == sofar + [pairs[0]]
  {
  }

  /** The first member of a rendered object, and what stands behind it. */
  lemma {:induction false} FirstPair(pairs: seq<Pair>, d: nat, spaces: nat, depth: nat, rest: Text)
    requires pairs != [] && Fits(pairs[0].value, MAX_DEPTH - depth)
    ensures var close := Close(d, spaces, CLOSE_OBJ, rest);
            ParsePair(SerPairs(pairs, d, spaces) + close, depth) == Got(pairs[0], AfterPair(pairs, d, spaces, close))
    decreases pairs[0], 1
  {
    var close := Close(d, spaces, CLOSE_OBJ, rest);
    PairsSplit(pairs, d, spaces, close);
    CloseSkipped(d, spaces, CLOSE_OBJ, rest);
    PairRoundTrip(pairs[0], d, spaces, depth, AfterPair(pairs, d, spaces, close));
  }

  lemma {:induction false} PairsRoundTrip(sofar: seq<Pair>, pairs: seq<Pair>, d: nat, spaces: nat, depth: nat,
                                          rest: Text)
    requires pairs != [] && depth <= MAX_DEPTH + 1 && DistinctKeys(sofar + pairs)
    requires forall p :: p in pairs ==> Fits(p.value, MAX_DEPTH - depth)
    ensures ParsePairs(SerPairs(pairs, d, spaces) + Close(d, spaces, CLOSE_OBJ, rest), depth, sofar)
            == Got(sofar + pairs, rest)
    decreases pairs, 0
  {
    var close := Close(d, spaces, CLOSE_OBJ, rest);
    var s := SerPairs(pairs, d, spaces) + close;
    assert pairs[0] in pairs;
    FirstPair(pairs, d, spaces, depth, rest);
    NewToPrefix(sofar, pairs);
    SetNewKey(sofar, pairs[0]);
    PairsRest(sofar, pairs);
    if |pairs| == 1 {
      CloseSkipped(d, spaces, CLOSE_OBJ, rest);
      PairsLast(s, depth, sofar, pairs[0], close, rest);
    } else {
      PairsMore(s, depth, sofar, pairs[0], SerPairs(pairs[1..], d, spaces) + close);
      assert forall p :: p in pairs[1..] ==> p in pairs;
      PairsRoundTrip(sofar + [pairs[0]], pairs[1..], d, spaces, depth, rest);
    }
  }

  lemma NewToPrefix(sofar: seq<Pair>, pairs: seq<Pair>)
    requires pairs != [] && DistinctKeys(sofar + pairs)
    ensures forall i :: 0 <= i < |sofar| ==> sofar[i].key != pairs[0].key
  {
    var all := sofar + pairs;
    assert all[|sofar|] == pairs[0] && forall i :: 0 <= i < |sofar| ==> all[i] == sofar[i];
  }

  // ---------------------------------------------------------------------
  // Nothing else comes out of the parser
  // ---------------------------------------------------------------------

  /** Dropping k octets of what a scan left over drops them from its result. */
  lemma {:induction false} CutDigits(s: Text, k: nat)
    requires k <= |SkipDigits(s)|
    ensures SkipDigits(s[..|s| - k]) == SkipDigits(s)[..|SkipDigits(s)| - k]
    decreases |s|
  {
    if s != [] && IsDigit(s[0]) {
      CutDigits(s[1..], k);
      assert s[..|s| - k][1..] == s[1..][..|s[1..]| - k];
    }
  }

  lemma CutSomeDigits(s: Text, k: nat)
    requires SomeDigits(s).Some? && k <= |SomeDigits(s).value|
    ensures SomeDigits(s[..|s| - k]) == Some(SomeDigits(s).value[..|SomeDigits(s).value| - k])
  {
    CutDigits(s, k);
  }

  lemma CutFraction(s: Text, k: nat)
    requires ScanFraction(s).Some? && k <= |ScanFraction(s).value|
    ensures ScanFraction(s[..|s| - k]) == Some(ScanFraction(s).value[..|ScanFraction(s).value| - k])
  {
    if s != [] && s[0] == 46 {
      CutSomeDigits(s[1..], k);
      assert s[..|s| - k][1..] == s[1..][..|s[1..]| - k];
    }
  }

  lemma CutExponent(s: Text, k: nat)
    requires ScanExponent(s).Some? && k <= |ScanExponent(s).value|
    ensures ScanExponent(s[..|s| - k]) == Some(ScanExponent(s).value[..|ScanExponent(s).value| - k])
  {
    if s != [] && (s[0] == 101 || s[0] == 69) {
      var t := s[1..];
      assert s[..|s| - k][1..] == t[..|t| - k];
      if t[0] == 43 || t[0] == 45 {
        CutSomeDigits(t[1..], k);
        assert t[..|t| - k][1..] == t[1..][..|t[1..]| - k];
      } else {
        CutSomeDigits(t, k);
      }
    }
  }

  /** What the scanner consumed is a lexeme by itself. */
  lemma ScannedLexeme(s: Text)
    requires ScanNumber(s).Some? && |s| - |ScanNumber(s).value| < 64
    ensures IsLexeme(s[..|s| - |ScanNumber(s).value|])
  {
    var body := if s != [] && s[0] == 45 then s[1..] else s;
    var a := SomeDigits(body).value;
    var b := ScanFraction(a).value;
    var rest := ScanExponent(b).value;
    var k := |rest|;
    CutSomeDigits(body, k);
    CutFraction(a, k);
    CutExponent(b, k);
    if s[0] == 45 {
      assert s[..|s| - k][1..] == body[..|body| - k];
    }
  }

  /** Setting keeps every key in its place, or adds a new one at the end. */
  lemma {:induction false} SetKeys(pairs: seq<Pair>, key: CStr, v: Value)
    ensures var r := ObjectSet(pairs, key, v);
            && |pairs| <= |r| <= |pairs| + 1
            && (forall i :: 0 <= i < |pairs| ==> r[i].key == pairs[i].key)
            && (|r| > |pairs| ==> r[|pairs|].key == key && forall i :: 0 <= i < |pairs| ==> pairs[i].key != key)
            && (forall i :: 0 <= i < |r| ==> r[i] == Pair(key, v) || (i < |pairs| && r[i] == pairs[i]))
    decreases |pairs|
  {
    if pairs != [] && pairs[0].key != key {
      SetKeys(pairs[1..], key, v);
      var tail := ObjectSet(pairs[1..], key, v);
      var r := [pairs[0]] + tail;
      assert forall i :: 0 < i < |r| ==> r[i] == tail[i - 1];
      assert forall i :: 0 < i < |pairs| ==> pairs[i] == pairs[1..][i - 1];
    }
  }

  lemma SetKeepsFit(pairs: seq<Pair>, key: CStr, v: Value, room: int)
    requires DistinctKeys(pairs) && Fits(v, room) && forall p :: p in pairs ==> Fits(p.value, room)
    ensures var r := ObjectSet(pairs, key, v);
            DistinctKeys(r) && forall p :: p in r ==> Fits(p.value, room)
  {
    SetKeys(pairs, key, v);
    var r := ObjectSet(pairs, key, v);
    forall p | p in r
      ensures Fits(p.value, room)
    {
      var i :| 0 <= i < |r| && r[i] == p;
      assert p == Pair(key, v) || p == pairs[i];
    }
  }

  /** Whatever the parser returns is within the limits. */
  lemma {:induction false} ParsedFits(s0: Text, depth: nat)
    requires ParseValue(s0, depth).Got?
    ensures Fits(ParseValue(s0, depth).value, MAX_DEPTH - depth)
    decreases |s0|, 3
  {
    var s := SkipSpace(s0);
    if s[0] == OPEN_OBJ {
      ParsedObjectFits(s[1..], depth + 1);
    } else if s[0] == OPEN_ARR {
      ParsedArrayFits(s[1..], depth + 1);
    } else if s[0] == 45 || IsDigit(s[0]) {
      ScannedLexeme(s);
    }
  }

  lemma {:induction false} ParsedArrayFits(s0: Text, depth: nat)
    requires ParseArray(s0, depth).Got? && depth <= MAX_DEPTH + 1
    ensures Fits(ParseArray(s0, depth).value, MAX_DEPTH - depth + 1)
    decreases |s0|, 5
  {
    var s := SkipSpace(s0);
    if s != [] && s[0] == CLOSE_ARR {
    } else {
      ParsedItemsFit(s, depth);
    }
  }

  lemma {:induction false} ParsedObjectFits(s0: Text, depth: nat)
    requires ParseObject(s0, depth).Got? && depth <= MAX_DEPTH + 1
    ensures Fits(ParseObject(s0, depth).value, MAX_DEPTH - depth + 1)
    decreases |s0|, 5
  {
    var s := SkipSpace(s0);
    if s != [] && s[0] == CLOSE_OBJ {
    } else {
      ParsedPairsFit(s, depth, []);
    }
  }

  lemma {:induction false} ParsedItemsFit(s: Text, depth: nat)
    requires ParseItems(s, depth).Got?
    ensures forall x :: x in ParseItems(s, depth).value ==> Fits(x, MAX_DEPTH - depth)
    decreases |s|, 4
  {
    ParsedFits(s, depth);
    var r := SkipSpace(ParseValue(s, depth).rest);
    if r[0] == COMMA {
      ParsedItemsFit(r[1..], depth);
    }
  }

  lemma {:induction false} ParsedPairsFit(s: Text, depth: nat, sofar: seq<Pair>)
    requires ParsePairs(s, depth, sofar).Got?
    requires DistinctKeys(sofar) && forall p :: p in sofar ==> Fits(p.value, MAX_DEPTH - depth)
    ensures var pairs := ParsePairs(s, depth, sofar).value;
            DistinctKeys(pairs) && forall p :: p in pairs ==> Fits(p.value, MAX_DEPTH - depth)
    decreases |s|, 4
  {
    var p := ParsePair(s, depth).value;
    ParsedPairFits(s, depth);
    SetKeepsFit(sofar, p.key, p.value, MAX_DEPTH - depth);
    var r := SkipSpace(ParsePair(s, depth).rest);
    if r[0] == COMMA {
      ParsedPairsFit(r[1..], depth, ObjectSet(sofar, p.key, p.value));
    }
  }

  lemma {:induction false} ParsedPairFits(s: Text, depth: nat)
    requires ParsePair(s, depth).Got?
    ensures Fits(ParsePair(s, depth).value.value, MAX_DEPTH - depth)
    decreases |s|, 3
  {
    ParsedFits(ReadKey(s).rest, depth);
  }

  /** Serialized compactly or at any indent, a tree is parsed back, with nothing
      left over, exactly when it respects the limits. */
  lemma ParseSerialized(v: Value, spaces: nat)
    ensures Parse(Ser(v, 0, spaces)) == Some(v) <==> Fits(v, MAX_DEPTH)
  {
    var s := Ser(v, 0, spaces);
    if Fits(v, MAX_DEPTH) {
      RoundTrip(v, 0, spaces, 0, []);
      assert s + [] == s;
    }
    if Parse(s) == Some(v) {
      ParsedFits(s, 0);
    }
  }
}
