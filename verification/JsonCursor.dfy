/** The parser and the serializer of the source as they run: a cursor moved over
    the input, a buffer appended to, and loops over digits, escapes, items and
    members, each against the function of `Json` that says what it computes. */
module JsonCursor {
  import opened Bytes
  import Digits
  import opened Json

  ghost function After<T>(done: seq<T>, r: Parsed<seq<T>>): Parsed<seq<T>> {
    if r.Bad? then Bad else Got(done + r.value, r.rest)
  }

  lemma AfterOne<T>(done: seq<T>, x: T, r: Parsed<seq<T>>)
    ensures After(done, After([x], r)) == After(done + [x], r)
  {
    if r.Got? {
      assert done + ([x] + r.value) == done + [x] + r.value;
    }
  }

  /** A value and whether a closing bracket or a comma stands behind it. */
  function ItemAndMark(s: Text, depth: nat): Parsed<(Value, bool)> {
    match ParseValue(s, depth)
    case Bad => Bad
    case Got(v, r0) =>
      var r := SkipSpace(r0);
      if r == [] || (r[0] != COMMA && r[0] != CLOSE_ARR) then Bad else Got((v, r[0] == CLOSE_ARR), r[1..])
  }

  lemma ItemsByMark(s: Text, depth: nat)
    ensures ParseItems(s, depth)
            == match ItemAndMark(s, depth)
               case Bad => Bad
               case Got(m, rest) => if m.1 then Got([m.0], rest) else After([m.0], ParseItems(rest, depth))
  {
  }

  /** The pairs after one more member, and what stands behind it. */
  function PairAndMark(s: Text, depth: nat, sofar: seq<Pair>): Parsed<(seq<Pair>, bool)> {
    match ParsePair(s, depth)
    case Bad => Bad
    case Got(p, r0) =>
      var r := SkipSpace(r0);
      if r == [] || (r[0] != COMMA && r[0] != CLOSE_OBJ) then Bad
      else Got((ObjectSet(sofar, p.key, p.value), r[0] == CLOSE_OBJ), r[1..])
  }

  lemma PairsByMark(s: Text, depth: nat, sofar: seq<Pair>)
    ensures ParsePairs(s, depth, sofar)
            == match PairAndMark(s, depth, sofar)
               case Bad => Bad
               case Got(m, rest) => if m.1 then Got(m.0, rest) else ParsePairs(rest, depth, m.0)
  {
  }

  /** The first n of some hexadecimal digits. */
  function HexPrefix(s: Text, n: nat): nat
    requires n <= |s|
  {
    if n == 0 then 0 else HexPrefix(s, n - 1) * 16 + Digits.HexValue(s[n - 1])
  }

  lemma HexPrefixOfFour(s: Text)
    requires |s| >= 4 && forall j :: 0 <= j < 4 ==> Digits.HexValue(s[j]) != 16
    ensures Hex4(s) == Got(HexPrefix(s, 4), s[4..]) && HexPrefix(s, 4) < 0x1_0000
  {
    assert HexPrefix(s, 1) == Digits.HexValue(s[0]);
    assert HexPrefix(s, 2) == HexPrefix(s, 1) * 16 + Digits.HexValue(s[1]);
    assert HexPrefix(s, 3) == HexPrefix(s, 2) * 16 + Digits.HexValue(s[2]);
  }

  class Parser {
    const src: Text
    var p: nat

    constructor (src: Text)
      ensures this.src == src && p == 0
    {
      this.src := src;
      p := 0;
    }

    /** `skip_ws`. */
    method SkipWs()
      requires p <= |src|
      modifies this
      ensures old(p) <= p <= |src| && src[p..] == SkipSpace(src[old(p)..])
    {
      while p < |src| && IsSpace(src[p])
        invariant old(p) <= p <= |src| && SkipSpace(src[p..]) == SkipSpace(src[old(p)..])
      {
        assert src[p..][1..] == src[p + 1..];
        p := p + 1;
      }
    }

    /** `parse_hex4`. */
    method FourHex() returns (ok: bool, v: nat)
      requires p <= |src|
      modifies this
      ensures p <= |src| && Agrees(Hex4(src[old(p)..]), ok, v, src[p..])
      ensures ok ==> v < 0x1_0000 && p == old(p) + 4
    {
      ok, v := false, 0;
      if |src| - p < 4 { return; }
      var i := 0;
      while i < 4
        invariant i <= 4 && p == old(p) && v == HexPrefix(src[p..], i)
        invariant forall j :: 0 <= j < i ==> Digits.HexValue(src[p..][j]) != 16
      {
        var d := Digits.HexValue(src[p + i]);
        if d == 16 { return; }
        v := v * 16 + d;
        i := i + 1;
      }
      HexPrefixOfFour(src[p..]);
      assert src[p..][4..] == src[p + 4..];
      ok, p := true, p + 4;
    }

    /** `utf8_append`. */
    static method AppendUtf8(out: Text, cp: nat) returns (r: Text)
      requires cp < 0x11_0000
      ensures r == out + Utf8(cp)
    {
      r := out;
      if cp < 0x80 {
        r := r + [cp];
      } else if cp < 0x800 {
        r := r + [0xC0 + cp / 64] + [0x80 + cp % 64];
      } else if cp < 0x1_0000 {
        r := r + [0xE0 + cp / 4096] + [0x80 + cp / 64 % 64] + [0x80 + cp % 64];
      } else {
        r := r + [0xF0 + cp / 262144] + [0x80 + cp / 4096 % 64] + [0x80 + cp / 64 % 64] + [0x80 + cp % 64];
      }
    }

    /** The low half of a surrogate pair. */
    method LowHalf(high: nat) returns (ok: bool, cp: nat)
      requires p <= |src| && 0xD800 <= high <= 0xDBFF
      modifies this
      ensures p <= |src| && Agrees(LowSurrogate(high, src[old(p)..]), ok, cp, src[p..])
      ensures ok ==> cp < 0x11_0000 && p > old(p)
    {
      ok, cp := false, 0;
      if |src| - p < 2 || src[p] != BACKSLASH || src[p + 1] != 117 { return; }
      assert src[p..][2..] == src[p + 2..];
      p := p + 2;
      var lo;
      ok, lo := FourHex();
      if !ok { return; }
      if lo < 0xDC00 || lo > 0xDFFF {
        ok := false;
        return;
      }
      cp := 0x1_0000 + (high - 0xD800) * 1024 + (lo - 0xDC00);
    }

    /** A \u escape, surrogate pairs joined. */
    method UnicodeSequence(out: Text) returns (ok: bool, r: Text)
      requires p <= |src|
      modifies this
      ensures p <= |src| && Agrees(PrependText(out, UnicodeEscape(src[old(p)..])), ok, r, src[p..])
      ensures ok ==> p > old(p)
    {
      r := out;
      var cp;
      ok, cp := FourHex();
      if !ok { return; }
      if 0xD800 <= cp <= 0xDBFF {
        ok, cp := LowHalf(cp);
        if !ok { return; }
      } else if 0xDC00 <= cp <= 0xDFFF {
        ok := false;
        return;
      }
      r := AppendUtf8(out, cp);
    }

    /** The switch of `parse_string_raw` on the octet after a backslash. */
    method EscapeSequence(out: Text) returns (ok: bool, r: Text)
      requires p <= |src|
      modifies this
      ensures p <= |src| && Agrees(PrependText(out, ReadEscape(src[old(p)..])), ok, r, src[p..])
      ensures ok ==> p > old(p)
    {
      ok, r := false, out;
      if p >= |src| { return; }
      var e := src[p];
      assert src[p..][0] == e && src[p..][1..] == src[p + 1..];
      p := p + 1;
      match e
      case 34 => ok, r := true, out + [e];
      case 92 => ok, r := true, out + [e];
      case 47 => ok, r := true, out + [e];
      case 98 => ok, r := true, out + [8];
      case 102 => ok, r := true, out + [12];
      case 110 => ok, r := true, out + [10];
      case 114 => ok, r := true, out + [13];
      case 116 => ok, r := true, out + [9];
      case 117 => ok, r := UnicodeSequence(out);
      case _ =>
    }

    /** The loop of `parse_string_raw`. */
    method StringRaw() returns (ok: bool, out: Text)
      requires p < |src| && src[p] == QUOTE
      modifies this
      ensures p <= |src| && Agrees(ReadChars(src[old(p) + 1..]), ok, out, src[p..])
      ensures ok ==> p > old(p)
    {
      p := p + 1;
      ghost var goal := ReadChars(src[p..]);
      ok, out := false, [];
      assert goal.Got? ==> [] + goal.value == goal.value;
      while p < |src|
        invariant old(p) < p <= |src| && !ok
        invariant goal == PrependText(out, ReadChars(src[p..]))
        decreases |src| - p
      {
        var c := src[p];
        ghost var s := src[p..];
        p := p + 1;
        assert s[1..] == src[p..];
        if c == QUOTE {
          assert out + [] == out;
          return true, out;
        } else if c == BACKSLASH {
          ghost var esc := ReadEscape(src[p..]);
          var good, longer := EscapeSequence(out);
          if !good { return; }
          PrependTwice(out, esc.value, ReadChars(src[p..]));
          out := longer;
        } else if c < 32 {
          return;
        } else {
          PrependTwice(out, [c], ReadChars(src[p..]));
          out := out + [c];
        }
      }
    }

    /** `parse_string_raw` and the terminator. */
    method StringValue() returns (ok: bool, t: CStr)
      requires p <= |src|
      modifies this
      ensures p <= |src| && Agrees(ReadString(src[old(p)..]), ok, t, src[p..])
      ensures ok ==> p > old(p)
    {
      if p >= |src| || src[p] != QUOTE {
        return false, [];
      }
      assert src[p..][1..] == src[p + 1..];
      var raw;
      ok, raw := StringRaw();
      t := TruncNul(raw);
    }

    /** At least one digit, from q on. */
    method TakeDigits(q: nat) returns (ok: bool, next: nat)
      requires q <= |src|
      ensures q <= next <= |src| && (ok ==> q < next)
      ensures SomeDigits(src[q..]) == if ok then Some(src[next..]) else None
    {
      ok, next := false, q;
      if next >= |src| || !IsDigit(src[next]) { return; }
      ok := true;
      while next < |src| && IsDigit(src[next])
        invariant q <= next <= |src| && SkipDigits(src[next..]) == SkipDigits(src[q..])
        invariant next == q ==> IsDigit(src[q])
      {
        assert src[next..][1..] == src[next + 1..];
        next := next + 1;
      }
    }

    method TakeFraction(q: nat) returns (ok: bool, next: nat)
      requires q <= |src|
      ensures q <= next <= |src|
      ensures ScanFraction(src[q..]) == if ok then Some(src[next..]) else None
    {
      ok, next := true, q;
      if next < |src| && src[next] == 46 {
        assert src[q..][1..] == src[q + 1..];
        ok, next := TakeDigits(next + 1);
      }
    }

    method TakeExponent(q: nat) returns (ok: bool, next: nat)
      requires q <= |src|
      ensures q <= next <= |src|
      ensures ScanExponent(src[q..]) == if ok then Some(src[next..]) else None
    {
      ok, next := true, q;
      if next < |src| && (src[next] == 101 || src[next] == 69) {
        assert src[q..][1..] == src[q + 1..];
        next := next + 1;
        if next < |src| && (src[next] == 43 || src[next] == 45) {
          assert src[next..][1..] == src[next + 1..];
          next := next + 1;
        }
        ok, next := TakeDigits(next);
      }
    }

    /** The three parts of a number, from its sign on. */
    method TakeNumber(start: nat) returns (ok: bool, next: nat)
      requires start <= |src|
      ensures start <= next <= |src|
      ensures ScanNumber(src[start..]) == if ok then Some(src[next..]) else None
    {
      next := start;
      if next < |src| && src[next] == 45 {
        assert src[next..][1..] == src[next + 1..];
        next := next + 1;
      }
      ok, next := TakeDigits(next);
      if ok {
        ok, next := TakeFraction(next);
      }
      if ok {
        ok, next := TakeExponent(next);
      }
    }

    /** `parse_number`. */
    method NumberValue() returns (ok: bool, v: Value)
      requires p <= |src|
      modifies this
      ensures p <= |src| && Agrees(ReadNumber(src[old(p)..]), ok, v, src[p..])
      ensures ok ==> p > old(p)
    {
      v := Null;
      var q;
      ok, q := TakeNumber(p);
      if !ok { return; }
      var len := q - p;
      assert |src[p..]| - |src[q..]| == len && src[p..][..len] == src[p..q];
      if len >= 64 {
        ok := false;
        return;
      }
      v := Number(src[p..q]);
      p := q;
    }

    method Word(word: Text, v: Value) returns (ok: bool, r: Value)
      requires p <= |src| && word != []
      modifies this
      ensures p <= |src| && Agrees(Literal(src[old(p)..], word, v), ok, r, src[p..])
      ensures ok ==> p > old(p)
    {
      ok, r := word <= src[p..], v;
      if ok {
        assert src[p..][|word|..] == src[p + |word|..];
        p := p + |word|;
      }
    }

    /** `parse_value`. */
    method ParseAny(depth: nat) returns (ok: bool, v: Value)
      requires p <= |src|
      modifies this
      ensures p <= |src| && Agrees(ParseValue(src[old(p)..], depth), ok, v, src[p..])
      ensures ok ==> p > old(p)
      decreases |src| - p, 3
    {
      ok, v := false, Null;
      if depth > MAX_DEPTH { return; }
      SkipWs();
      if p >= |src| { return; }
      var c := src[p];
      ghost var s := src[p..];
      assert s[0] == c && s[1..] == src[p + 1..];
      if c == OPEN_OBJ {
        ok, v := ObjectValue(depth + 1);
      } else if c == OPEN_ARR {
        ok, v := ArrayValue(depth + 1);
      } else if c == QUOTE {
        var t;
        ok, t := StringValue();
        v := Str(t);
      } else if c == 110 {
        ok, v := Word(Ascii("null"), Null);
      } else if c == 116 {
        ok, v := Word(Ascii("true"), Bool(true));
      } else if c == 102 {
        ok, v := Word(Ascii("false"), Bool(false));
      } else if c == 45 || IsDigit(c) {
        ok, v := NumberValue();
      }
    }

    /** `parse_array`. */
    method ArrayValue(depth: nat) returns (ok: bool, v: Value)
      requires p < |src|
      modifies this
      ensures p <= |src| && Agrees(ParseArray(src[old(p) + 1..], depth), ok, v, src[p..])
      ensures ok ==> p > old(p)
      decreases |src| - p, 2
    {
      ok, v := false, Arr([]);
      p := p + 1;
      SkipWs();
      if p < |src| && src[p] == CLOSE_ARR {
        assert src[p..][1..] == src[p + 1..];
        p := p + 1;
        return true, v;
      }
      var items;
      ok, items := Items(depth);
      v := Arr(items);
    }

    /** One turn of the loop of `parse_array`: a value and the delimiter behind it. */
    method Item(depth: nat) returns (ok: bool, x: Value, closed: bool)
      requires p <= |src|
      modifies this
      ensures p <= |src| && Agrees(ItemAndMark(src[old(p)..], depth), ok, (x, closed), src[p..])
      ensures ok ==> p > old(p)
      decreases |src| - p, 4
    {
      closed := false;
      ok, x := ParseAny(depth);
      if !ok { return; }
      SkipWs();
      if p >= |src| || (src[p] != COMMA && src[p] != CLOSE_ARR) {
        ok := false;
        return;
      }
      closed := src[p] == CLOSE_ARR;
      assert src[p..][1..] == src[p + 1..];
      p := p + 1;
    }

    /** The loop of `parse_array`. */
    method Items(depth: nat) returns (ok: bool, items: seq<Value>)
      requires p <= |src|
      modifies this
      ensures p <= |src| && Agrees(ParseItems(src[old(p)..], depth), ok, items, src[p..])
      ensures ok ==> p > old(p)
      decreases |src| - p, 5
    {
      ghost var goal := ParseItems(src[p..], depth);
      items := [];
      assert goal.Got? ==> [] + goal.value == goal.value;
      var closed := false;
      while !closed
        invariant old(p) <= p <= |src| && (closed ==> p > old(p))
        invariant if closed then goal == Got(items, src[p..]) else goal == After(items, ParseItems(src[p..], depth))
        decreases |src| - p, !closed
      {
        ItemsByMark(src[p..], depth);
        var x;
        ok, x, closed := Item(depth);
        if !ok { return; }
        AfterOne(items, x, ParseItems(src[p..], depth));
        items := items + [x];
      }
      ok := true;
    }

    /** `parse_object`. */
    method ObjectValue(depth: nat) returns (ok: bool, v: Value)
      requires p < |src|
      modifies this
      ensures p <= |src| && Agrees(ParseObject(src[old(p) + 1..], depth), ok, v, src[p..])
      ensures ok ==> p > old(p)
      decreases |src| - p, 2
    {
      ok, v := false, Obj([]);
      p := p + 1;
      SkipWs();
      if p < |src| && src[p] == CLOSE_OBJ {
        assert src[p..][1..] == src[p + 1..];
        p := p + 1;
        return true, v;
      }
      var pairs;
      ok, pairs := Members(depth);
      v := Obj(pairs);
    }

    /** Key and colon. */
    method MemberKey() returns (ok: bool, key: CStr)
      requires p <= |src|
      modifies this
      ensures p <= |src| && Agrees(ReadKey(src[old(p)..]), ok, key, src[p..])
      ensures ok ==> p > old(p)
    {
      SkipWs();
      ok, key := StringValue();
      if !ok { return; }
      SkipWs();
      if p >= |src| || src[p] != COLON {
        ok := false;
        return;
      }
      assert src[p..][1..] == src[p + 1..];
      p := p + 1;
    }

    /** Key, colon and value. */
    method Member(depth: nat) returns (ok: bool, m: Pair)
      requires p <= |src|
      modifies this
      ensures p <= |src| && Agrees(ParsePair(src[old(p)..], depth), ok, m, src[p..])
      ensures ok ==> p > old(p)
      decreases |src| - p, 4
    {
      ok, m := false, Pair([], Null);
      var keyed, key := MemberKey();
      if !keyed { return; }
      var valued, v := ParseAny(depth);
      if !valued { return; }
      ok, m := true, Pair(key, v);
    }

    /** One turn of the loop of `parse_object`: a member and the delimiter behind it. */
    method MemberTurn(depth: nat, sofar: seq<Pair>) returns (ok: bool, pairs: seq<Pair>, closed: bool)
      requires p <= |src|
      modifies this
      ensures p <= |src| && Agrees(PairAndMark(src[old(p)..], depth, sofar), ok, (pairs, closed), src[p..])
      ensures ok ==> p > old(p)
      decreases |src| - p, 5
    {
      pairs, closed := sofar, false;
      var m;
      ok, m := Member(depth);
      if !ok { return; }
      pairs := SetMember(pairs, m.key, m.value);
      SkipWs();
      if p >= |src| || (src[p] != COMMA && src[p] != CLOSE_OBJ) {
        ok := false;
        return;
      }
      closed := src[p] == CLOSE_OBJ;
      assert src[p..][1..] == src[p + 1..];
      p := p + 1;
    }

    /** The loop of `parse_object`. */
    method Members(depth: nat) returns (ok: bool, pairs: seq<Pair>)
      requires p <= |src|
      modifies this
      ensures p <= |src| && Agrees(ParsePairs(src[old(p)..], depth, []), ok, pairs, src[p..])
      ensures ok ==> p > old(p)
      decreases |src| - p, 6
    {
      ghost var goal := ParsePairs(src[p..], depth, []);
      pairs := [];
      var closed := false;
      while !closed
        invariant old(p) <= p <= |src| && (closed ==> p > old(p))
        invariant goal == if closed then Got(pairs, src[p..]) else ParsePairs(src[p..], depth, pairs)
        decreases |src| - p, !closed
      {
        PairsByMark(src[p..], depth, pairs);
        ok, pairs, closed := MemberTurn(depth, pairs);
        if !ok { return; }
      }
      ok := true;
    }

    /** `json_parse`. */
    method Document() returns (r: Option<Value>)
      requires p == 0
      modifies this
      ensures r == Parse(src)
    {
      assert src[0..] == src;
      var ok, v := ParseAny(0);
      if !ok {
        return None;
      }
      SkipWs();
      r := if p == |src| then Some(v) else None;
    }
  }

  lemma PrependTwice(a: Text, b: Text, r: Parsed<Text>)
    ensures PrependText(a, PrependText(b, r)) == PrependText(a + b, r)
  {
    if r.Got? {
      assert a + (b + r.value) == a + b + r.value;
    }
  }

  /** `json_object_set` as written. */
  method SetMember(pairs: seq<Pair>, key: CStr, value: Value) returns (r: seq<Pair>)
    ensures r == ObjectSet(pairs, key, value)
  {
    var i := 0;
    while i < |pairs| && pairs[i].key != key
      invariant i <= |pairs| && forall j :: 0 <= j < i ==> pairs[j].key != key
    {
      i := i + 1;
    }
    ObjectSetAt(pairs, key, value, i);
    r := if i < |pairs| then pairs[i := Pair(key, value)] else pairs + [Pair(key, value)];
  }

  /** Where the first pair with the key is, if there is one. */
  lemma {:induction false} ObjectSetAt(pairs: seq<Pair>, key: CStr, value: Value, i: nat)
    requires i <= |pairs| && (forall j :: 0 <= j < i ==> pairs[j].key != key)
    requires i < |pairs| ==> pairs[i].key == key
    ensures ObjectSet(pairs, key, value)
            == if i < |pairs| then pairs[i := Pair(key, value)] else pairs + [Pair(key, value)]
    decreases |pairs|
  {
    if i == 0 {
      if pairs == [] {
        assert [] + [Pair(key, value)] == [Pair(key, value)];
      } else {
        assert pairs[0 := Pair(key, value)] == [Pair(key, value)] + pairs[1..];
      }
    } else {
      ObjectSetAt(pairs[1..], key, value, i - 1);
      assert pairs == [pairs[0]] + pairs[1..];
    }
  }

  lemma Bracketed(out: Text, open: Text, body: Text, gap: Text, close: Text)
    ensures out + open + body + gap + close == out + (open + body + gap + close)
    ensures gap == [] ==> out + open + body + close == out + open + body + gap + close
  {
  }

  lemma EmptyBrackets(open: byte, close: byte)
    ensures [open] + [] + [] + [close] == [open, close]
  {
  }

  class Writer {
    var out: Text

    constructor ()
      ensures out == []
    {
      out := [];
    }

    /** `ser_string`. */
    method WriteString(s: CStr)
      modifies this
      ensures out == old(out) + SerString(s)
    {
      out := out + [QUOTE];
      ghost var base := out;
      var i := 0;
      assert s[0..] == s;
      while i < |s|
        invariant i <= |s| && out + Escape(s[i..]) == base + Escape(s)
      {
        assert s[i..][1..] == s[i + 1..];
        Associate(out, EscapeChar(s[i]), Escape(s[i + 1..]));
        out := out + EscapeChar(s[i]);
        i := i + 1;
      }
      assert out == base + Escape(s);
      out := out + [QUOTE];
    }

    /** `indent`, when pretty. */
    method Indent(depth: nat, spaces: nat)
      modifies this
      ensures out == old(out) + Break(depth, spaces)
    {
      if spaces == 0 { return; }
      out := out + [10];
      for i := 0 to depth * spaces
        invariant out == old(out) + [10] + Spaces(i)
      {
        assert Spaces(i + 1) == Spaces(i) + [32];
        out := out + [32];
      }
    }

    /** `ser`. */
    method Write(v: Value, depth: nat, spaces: nat)
      modifies this
      ensures out == old(out) + Ser(v, depth, spaces)
      decreases v, 1
    {
      match v
      case Null => out := out + Ascii("null");
      case Bool(b) => out := out + if b then Ascii("true") else Ascii("false");
      case Number(lex) => out := out + lex;
      case Str(s) => WriteString(s);
      case Arr(items) => WriteArray(items, depth, spaces);
      case Obj(pairs) => WriteObject(pairs, depth, spaces);
    }

    /** The array case of `ser`. */
    method WriteArray(items: seq<Value>, depth: nat, spaces: nat)
      modifies this
      ensures out == old(out) + Ser(Arr(items), depth, spaces)
      decreases items, 2
    {
      ghost var body := if items == [] then [] else SerItems(items, depth, spaces);
      ghost var gap := if items == [] then [] else Break(depth, spaces);
      Bracketed(out, [OPEN_ARR], body, gap, [CLOSE_ARR]);
      EmptyBrackets(OPEN_ARR, CLOSE_ARR);
      out := out + [OPEN_ARR];
      WriteItems(items, depth, spaces);
      if |items| > 0 { Indent(depth, spaces); }
      out := out + [CLOSE_ARR];
    }

    /** The object case of `ser`. */
    method WriteObject(pairs: seq<Pair>, depth: nat, spaces: nat)
      modifies this
      ensures out == old(out) + Ser(Obj(pairs), depth, spaces)
      decreases pairs, 2
    {
      ghost var body := if pairs == [] then [] else SerPairs(pairs, depth, spaces);
      ghost var gap := if pairs == [] then [] else Break(depth, spaces);
      Bracketed(out, [OPEN_OBJ], body, gap, [CLOSE_OBJ]);
      EmptyBrackets(OPEN_OBJ, CLOSE_OBJ);
      out := out + [OPEN_OBJ];
      WritePairs(pairs, depth, spaces);
      if |pairs| > 0 { Indent(depth, spaces); }
      out := out + [CLOSE_OBJ];
    }

    /** One turn of the loop over array items. */
    method WriteItem(items: seq<Value>, i: nat, depth: nat, spaces: nat)
      requires i < |items|
      modifies this
      ensures out == old(out) + ItemText(items, i, depth, spaces)
      decreases items, 0
    {
      if i > 0 { out := out + [COMMA]; }
      Indent(depth + 1, spaces);
      Write(items[i], depth + 1, spaces);
    }

    /** The loop over array items. */
    method WriteItems(items: seq<Value>, depth: nat, spaces: nat)
      modifies this
      ensures out == old(out) + if items == [] then [] else SerItems(items, depth, spaces)
      decreases items, 1
    {
      ghost var base := out;
      var i := 0;
      assert items[0..] == items;
      while i < |items|
        invariant i <= |items| && out + Rest(items, i, depth, spaces) == base + Rest(items, 0, depth, spaces)
      {
        RestStep(items, i, depth, spaces);
        Associate(out, ItemText(items, i, depth, spaces), Rest(items, i + 1, depth, spaces));
        WriteItem(items, i, depth, spaces);
        i := i + 1;
      }
      RestAll(items, [], depth, spaces);
      assert out + [] == out;
    }

    /** One turn of the loop over object members. */
    method WritePair(pairs: seq<Pair>, i: nat, depth: nat, spaces: nat)
      requires i < |pairs|
      modifies this
      ensures out == old(out) + PairText(pairs, i, depth, spaces)
      decreases pairs, 0
    {
      ghost var comma: Text := if i > 0 then [COMMA] else [];
      ghost var member := SerPair(pairs[i], depth, spaces);
      Associate(out, comma, Break(depth + 1, spaces) + member);
      Associate(out + comma, Break(depth + 1, spaces), member);
      if i > 0 { out := out + [COMMA]; }
      Indent(depth + 1, spaces);
      WriteMember(pairs[i], depth, spaces);
    }

    /** Key, colon and value. */
    method WriteMember(p: Pair, depth: nat, spaces: nat)
      modifies this
      ensures out == old(out) + SerPair(p, depth, spaces)
      decreases p, 0
    {
      WriteString(p.key);
      out := out + Colon(spaces);
      Write(p.value, depth + 1, spaces);
    }

    /** The loop over object members. */
    method WritePairs(pairs: seq<Pair>, depth: nat, spaces: nat)
      modifies this
      ensures out == old(out) + if pairs == [] then [] else SerPairs(pairs, depth, spaces)
      decreases pairs, 1
    {
      ghost var base := out;
      var i := 0;
      assert pairs[0..] == pairs;
      while i < |pairs|
        invariant i <= |pairs| && out + RestPairs(pairs, i, depth, spaces) == base + RestPairs(pairs, 0, depth, spaces)
      {
        RestPairsStep(pairs, i, depth, spaces);
        Associate(out, PairText(pairs, i, depth, spaces), RestPairs(pairs, i + 1, depth, spaces));
        WritePair(pairs, i, depth, spaces);
        i := i + 1;
      }
      RestAll([], pairs, depth, spaces);
      assert out + [] == out;
    }
  }

  ghost function ItemText(items: seq<Value>, i: nat, depth: nat, spaces: nat): Text
    requires i < |items|
  {
    (if i > 0 then [COMMA] else []) + (Break(depth + 1, spaces) + Ser(items[i], depth + 1, spaces))
  }

  /** What the item loop still has to write, comma first unless it is the start. */
  ghost function Rest(items: seq<Value>, i: nat, depth: nat, spaces: nat): Text
    requires i <= |items|
  {
    if i == |items| then []
    else (if i > 0 then [COMMA] else []) + SerItems(items[i..], depth, spaces)
  }

  lemma RestStep(items: seq<Value>, i: nat, depth: nat, spaces: nat)
    requires i < |items|
    ensures Rest(items, i, depth, spaces) == ItemText(items, i, depth, spaces) + Rest(items, i + 1, depth, spaces)
  {
    assert items[i..][1..] == items[i + 1..];
    var comma: Text := if i > 0 then [COMMA] else [];
    var text, tail := Break(depth + 1, spaces) + Ser(items[i], depth + 1, spaces), Rest(items, i + 1, depth, spaces);
    assert SerItems(items[i..], depth, spaces) == text + tail;
    Associate(comma, text, tail);
  }

  ghost function PairText(pairs: seq<Pair>, i: nat, depth: nat, spaces: nat): Text
    requires i < |pairs|
  {
    (if i > 0 then [COMMA] else []) + (Break(depth + 1, spaces) + SerPair(pairs[i], depth, spaces))
  }

  ghost function RestPairs(pairs: seq<Pair>, i: nat, depth: nat, spaces: nat): Text
    requires i <= |pairs|
  {
    if i == |pairs| then []
    else (if i > 0 then [COMMA] else []) + SerPairs(pairs[i..], depth, spaces)
  }

  lemma RestPairsStep(pairs: seq<Pair>, i: nat, depth: nat, spaces: nat)
    requires i < |pairs|
    ensures RestPairs(pairs, i, depth, spaces) == PairText(pairs, i, depth, spaces) + RestPairs(pairs, i + 1, depth, spaces)
  {
    assert pairs[i..][1..] == pairs[i + 1..];
    var comma: Text := if i > 0 then [COMMA] else [];
    var text, tail := Break(depth + 1, spaces) + SerPair(pairs[i], depth, spaces), RestPairs(pairs, i + 1, depth, spaces);
    assert SerPairs(pairs[i..], depth, spaces) == text + tail;
    Associate(comma, text, tail);
  }

  lemma RestAll(items: seq<Value>, pairs: seq<Pair>, depth: nat, spaces: nat)
    ensures Rest(items, 0, depth, spaces) == if items == [] then [] else SerItems(items, depth, spaces)
    ensures RestPairs(pairs, 0, depth, spaces) == if pairs == [] then [] else SerPairs(pairs, depth, spaces)
  {
    assert items[0..] == items && pairs[0..] == pairs;
  }
}
