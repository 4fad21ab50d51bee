/** The response encoder (`hpack_encode_status`, `hpack_encode_field`): it never
    touches a dynamic table, and the decoder reads back exactly its input. */
module HpackResponse {
  import opened Bytes
  import opened HpackTable
  import opened HpackBlock
  import Int = HpackInteger
  import Digits

  const STATUS: string := ":status"

  /** One-based position of the first static entry with this name, or 0. */
  function StaticIndex(statics: seq<Field>, name: Text, from: nat): (r: nat)
    requires from <= |statics|
    ensures r != 0 ==> from < r <= |statics| && statics[r - 1].name == name
    decreases |statics| - from
  {
    if from == |statics| then 0
    else if statics[from].name == name then from + 1
    else StaticIndex(statics, name, from + 1)
  }

  /** `hp_static_index` as written. */
  method FindStatic(statics: seq<Field>, name: Text) returns (r: nat)
    ensures r == StaticIndex(statics, name, 0)
    ensures r == 0 ==> forall i :: 0 <= i < |statics| ==> statics[i].name != name
  {
    for i := 0 to |statics|
      invariant StaticIndex(statics, name, 0) == StaticIndex(statics, name, i)
      invariant forall j :: 0 <= j < i ==> statics[j].name != name
    {
      if statics[i].name == name {
        return i + 1;
      }
    }
    r := 0;
  }

  function StatusIndex(status: nat): nat {
    match status
    case 200 => 8
    case 204 => 9
    case 206 => 10
    case 304 => 11
    case 400 => 12
    case 404 => 13
    case 500 => 14
    case _ => 0
  }

  /** The static rows the status shortcut relies on. */
  predicate StatusRows(c: Codec)
    requires Sized(c)
  {
    forall s :: 0 <= s < 65536 && StatusIndex(s) != 0 ==>
      c.statics[StatusIndex(s) - 1] == Field(Ascii(STATUS), Digits.Decimal(s))
  }

  function StatusRep(status: nat): Rep {
    if StatusIndex(status) != 0 then Indexed(StatusIndex(status))
    else Unindexed(false, Lit(Raw(Ascii(STATUS))), Raw(Digits.Decimal(status)))
  }

  function FieldRep(c: Codec, f: Field): Rep
    requires Sized(c)
  {
    var i := StaticIndex(c.statics, f.name, 0);
    Unindexed(false, if i == 0 then Lit(Raw(f.name)) else Ref(i), Raw(f.value))
  }

  method WriteRaw(c: Codec, out: Text, text: Text) returns (r: Text)
    requires Sized(c)
    ensures r == out + WriteString(c, Raw(text))
  {
    var len := Int.Write(|text|, 128, 0);
    r := out + len + text;
  }

  /** `hpack_encode_status`. */
  method EncodeStatus(c: Codec, out: Text, status: nat) returns (r: Text)
    requires Sized(c) && status < 65536
    ensures r == out + Write(c, StatusRep(status))
  {
    if StatusIndex(status) != 0 {
      return out + [128 + StatusIndex(status)];
    }
    var zero := Int.Write(0, 16, 0);
    ghost var name, value := WriteString(c, Raw(Ascii(STATUS))), WriteString(c, Raw(Digits.Decimal(status)));
    Associate(out, zero, name);
    Associate(out, zero + name, value);
    r := WriteRaw(c, out + zero, Ascii(STATUS));
    r := WriteRaw(c, r, Digits.Decimal(status));
  }

  /** `hpack_encode_field`. */
  method EncodeField(c: Codec, out: Text, f: Field) returns (r: Text)
    requires Sized(c)
    ensures r == out + Write(c, FieldRep(c, f))
  {
    var index := FindStatic(c.statics, f.name);
    var head := Int.Write(index, 16, 0);
    r := out + head;
    if index == 0 {
      r := WriteRaw(c, r, f.name);
      Associate(out, head, WriteString(c, Raw(f.name)));
    }
    ghost var name := FieldRep(c, f).name;
    assert r == out + WriteName(c, name, 16, 0);
    Associate(out, WriteName(c, name, 16, 0), WriteString(c, Raw(f.value)));
    r := WriteRaw(c, r, f.value);
  }

  function WriteFields(c: Codec, fields: seq<Field>): Text
    requires Sized(c)
  {
    if fields == [] then [] else Write(c, FieldRep(c, fields[0])) + WriteFields(c, fields[1..])
  }

  predicate Encodable(f: Field) {
    |f.name| < U32 && |f.value| < U32
  }

  /** Within the decoder's string limit; a static name is sent by index, so its
      length does not count. */
  predicate Fits(c: Codec, f: Field)
    requires Sized(c)
  {
    && |f.value| <= MAX_STRING
    && (|f.name| <= MAX_STRING || StaticIndex(c.statics, f.name, 0) != 0)
  }

  predicate AllEncodable(fields: seq<Field>) {
    fields == [] || (Encodable(fields[0]) && AllEncodable(fields[1..]))
  }

  predicate AllFit(c: Codec, fields: seq<Field>)
    requires Sized(c)
  {
    fields == [] || (Fits(c, fields[0]) && AllFit(c, fields[1..]))
  }

  lemma FieldRead(c: Codec, d: Dyn, f: Field, rest: Text)
    requires Good(c) && Encodable(f)
    ensures var s := Write(c, FieldRep(c, f)) + rest;
            && s[0] < 32
            && ReadLiteral(c, d.entries, s, 16) == if Fits(c, f) then Got(f, rest) else Bad
  {
    var rep := FieldRep(c, f);
    var s := Write(c, rep) + rest;
    assert s[0] == WriteName(c, rep.name, 16, 0)[0];
    ReadWriteLiteral(c, d.entries, Peer(d.entries, d.max), rep.name, rep.value, 16, 0, rest);
  }

  lemma FieldStep(c: Codec, d: Dyn, f: Field, rest: Text, any: bool)
    requires Good(c) && Encodable(f)
    ensures DecodeFrom(c, d, Write(c, FieldRep(c, f)) + rest, any)
            == if Fits(c, f) then Cons(f, DecodeFrom(c, d, rest, true)) else Fail
  {
    FieldRead(c, d, f, rest);
  }

  lemma {:induction false} FieldsRoundTrip(c: Codec, d: Dyn, fields: seq<Field>, any: bool)
    requires Good(c) && AllEncodable(fields)
    ensures DecodeFrom(c, d, WriteFields(c, fields), any) == if AllFit(c, fields) then Done(fields, d) else Fail
    decreases |fields|
  {
    if fields != [] {
      FieldStep(c, d, fields[0], WriteFields(c, fields[1..]), any);
      FieldsRoundTrip(c, d, fields[1..], true);
      assert fields == [fields[0]] + fields[1..];
    }
  }

  lemma OtherStatusRead(c: Codec, d: Dyn, status: nat, rest: Text)
    requires Good(c) && status < 65536 && StatusIndex(status) == 0
    ensures var s := Write(c, StatusRep(status)) + rest;
            && KindOf(s[0]) == Plain
            && ReadLiteral(c, d.entries, s, 16) == Got(Field(Ascii(STATUS), Digits.Decimal(status)), rest)
  {
    var rep := StatusRep(status);
    var s := Write(c, rep) + rest;
    assert s[0] == WriteName(c, rep.name, 16, 0)[0];
    ShortDecimal(status);
    ReadWriteLiteral(c, d.entries, Peer(d.entries, d.max), rep.name, rep.value, 16, 0, rest);
  }

  lemma KnownStatusRead(c: Codec, d: Dyn, status: nat, rest: Text)
    requires Good(c) && StatusRows(c) && status < 65536 && StatusIndex(status) != 0
    ensures var s := Write(c, StatusRep(status)) + rest;
            && KindOf(s[0]) == Indexing
            && ReadIndexed(c, d.entries, s) == Got(Field(Ascii(STATUS), Digits.Decimal(status)), rest)
  {
    var i := StatusIndex(status);
    var s := Write(c, StatusRep(status)) + rest;
    Int.RoundTrip(i, 128, 128, rest);
    assert s[0] == Write(c, Indexed(i))[0];
    assert Lookup(c, d.entries, i) == Some(c.statics[i - 1]);
  }

  lemma StatusRead(c: Codec, d: Dyn, status: nat, rest: Text)
    requires Good(c) && StatusRows(c) && status < 65536
    ensures var s := Write(c, StatusRep(status)) + rest;
            && (KindOf(s[0]) == Plain || KindOf(s[0]) == Indexing)
            && ReadField(c, d.entries, s) == Got(Field(Ascii(STATUS), Digits.Decimal(status)), rest)
  {
    if StatusIndex(status) != 0 {
      KnownStatusRead(c, d, status, rest);
    } else {
      OtherStatusRead(c, d, status, rest);
    }
  }

  lemma StatusStep(c: Codec, d: Dyn, status: nat, rest: Text)
    requires Good(c) && StatusRows(c) && status < 65536
    ensures DecodeFrom(c, d, Write(c, StatusRep(status)) + rest, false)
            == Cons(Field(Ascii(STATUS), Digits.Decimal(status)), DecodeFrom(c, d, rest, true))
  {
    StatusRead(c, d, status, rest);
  }

  lemma {:induction false} ShortDecimal(n: nat)
    requires n < 65536
    ensures |Digits.Decimal(n)| <= 5
  {
    assert |Digits.Decimal(n / 10000)| == 1;
    assert n >= 10 ==> Digits.Decimal(n) == Digits.Decimal(n / 10) + [Digits.ZERO + n % 10];
    assert n >= 100 ==> |Digits.Decimal(n / 10)| == |Digits.Decimal(n / 100)| + 1;
    assert n >= 1000 ==> |Digits.Decimal(n / 100)| == |Digits.Decimal(n / 1000)| + 1;
    assert n >= 10000 ==> |Digits.Decimal(n / 1000)| == |Digits.Decimal(n / 10000)| + 1;
  }

  /** Whatever the decoder's table holds, a response head is accepted exactly when
      its strings are within the limit; the decoder then sees the status and the
      fields in order and its table has not moved. */
  lemma ResponseRoundTrip(c: Codec, d: Dyn, status: nat, fields: seq<Field>)
    requires Good(c) && StatusRows(c) && status < 65536
    requires AllEncodable(fields)
    ensures DecodeFrom(c, d, Write(c, StatusRep(status)) + WriteFields(c, fields), false)
            == if AllFit(c, fields) then Done([Field(Ascii(STATUS), Digits.Decimal(status))] + fields, d)
               else Fail
  {
    StatusStep(c, d, status, WriteFields(c, fields));
    FieldsRoundTrip(c, d, fields, true);
  }
}
