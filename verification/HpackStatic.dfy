/** The static table of RFC 7541, Appendix A, as the decoder and encoder have it. */
module HpackStatic {
  import opened Bytes
  import opened HpackTable
  import HpackBlock
  import HpackResponse
  import Digits

  function Row(name: string, value: string): Field {
    Field(Ascii(name), Ascii(value))
  }

  const PSEUDO: seq<Field> := [
    Row(":authority", ""),
    Row(":method", "GET"),
    Row(":method", "POST"),
    Row(":path", "/"),
    Row(":path", "/index.html"),
    Row(":scheme", "http"),
    Row(":scheme", "https"),
    Row(":status", "200"),
    Row(":status", "204"),
    Row(":status", "206"),
    Row(":status", "304"),
    Row(":status", "400"),
    Row(":status", "404"),
    Row(":status", "500")
  ]

  const HEADERS: seq<Field> := [
    Row("accept-charset", ""),
    Row("accept-encoding", "gzip, deflate"),
    Row("accept-language", ""),
    Row("accept-ranges", ""),
    Row("accept", ""),
    Row("access-control-allow-origin", ""),
    Row("age", ""),
    Row("allow", ""),
    Row("authorization", ""),
    Row("cache-control", ""),
    Row("content-disposition", ""),
    Row("content-encoding", ""),
    Row("content-language", ""),
    Row("content-length", ""),
    Row("content-location", ""),
    Row("content-range", ""),
    Row("content-type", ""),
    Row("cookie", ""),
    Row("date", ""),
    Row("etag", ""),
    Row("expect", ""),
    Row("expires", ""),
    Row("from", ""),
    Row("host", ""),
    Row("if-match", ""),
    Row("if-modified-since", ""),
    Row("if-none-match", ""),
    Row("if-range", ""),
    Row("if-unmodified-since", ""),
    Row("last-modified", ""),
    Row("link", ""),
    Row("location", ""),
    Row("max-forwards", ""),
    Row("proxy-authenticate", ""),
    Row("proxy-authorization", ""),
    Row("range", ""),
    Row("referer", ""),
    Row("refresh", ""),
    Row("retry-after", ""),
    Row("server", ""),
    Row("set-cookie", ""),
    Row("strict-transport-security", ""),
    Row("transfer-encoding", ""),
    Row("user-agent", ""),
    Row("vary", ""),
    Row("via", ""),
    Row("www-authenticate", "")
  ]

  const TABLE: seq<Field> := PSEUDO + HEADERS

  lemma ThreeDigits(n: nat)
    requires 100 <= n <= 999
    ensures Digits.Decimal(n) == [48 + n / 100, 48 + n / 10 % 10, 48 + n % 10]
  {
    assert n / 10 / 10 == n / 100;
    assert Digits.Decimal(n / 100) == [48 + n / 100];
    assert Digits.Decimal(n / 10) == Digits.Decimal(n / 100) + [48 + n / 10 % 10];
  }

  lemma StatusRow(n: nat, value: string)
    requires 100 <= n <= 999 && |value| == 3
    requires value[0] as int == 48 + n / 100 && value[1] as int == 48 + n / 10 % 10
             && value[2] as int == 48 + n % 10
    ensures Row(HpackResponse.STATUS, value) == Field(Ascii(HpackResponse.STATUS), Digits.Decimal(n))
  {
    ThreeDigits(n);
    ThreeLetters(value);
  }

  lemma ThreeLetters(s: string)
    requires |s| == 3 && s[0] as int < 128 && s[1] as int < 128 && s[2] as int < 128
    ensures Ascii(s) == [s[0] as int, s[1] as int, s[2] as int]
  {
  }

  /** The status shortcut of the encoder names the right rows. */
  lemma StatusRowsHold(c: HpackBlock.Codec)
    requires HpackBlock.Sized(c) && c.statics == TABLE
    ensures HpackResponse.StatusRows(c)
  {
    StatusRow(200, "200");
    StatusRow(204, "204");
    StatusRow(206, "206");
    StatusRow(304, "304");
    StatusRow(400, "400");
    StatusRow(404, "404");
    StatusRow(500, "500");
    assert forall i :: 7 <= i < 14 ==> TABLE[i] == PSEUDO[i];
  }
}
