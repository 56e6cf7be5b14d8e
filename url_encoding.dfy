/**
 * PHP's two percent-encoders, as pure functions over byte strings:
 *  - urlencode: the application/x-www-form-urlencoded style; letters,
 *    digits and "-_." pass, space becomes '+', every other byte %XX;
 *  - rawurlencode: percent-encoding as in section 2.1 of RFC 3986; the
 *    unreserved set of section 2.3 (letters, digits, "-._~") passes,
 *    every other byte becomes %XX.
 * Both write upper-case hex digits. The decoders are the partners that
 * show no information is lost.
 */
module UrlEncoding {
  import opened PhpStrings

  predicate IsAlnum(c: char)
  {
    'a' <= c <= 'z' || 'A' <= c <= 'Z' || '0' <= c <= '9'
  }

  predicate IsHexDigit(c: char)
  {
    '0' <= c <= '9' || 'A' <= c <= 'F' || 'a' <= c <= 'f'
  }

  /** Bytes urlencode leaves as they are. */
  predicate FormUnreserved(c: char)
  {
    IsAlnum(c) || c == '-' || c == '_' || c == '.'
  }

  /** The unreserved characters of section 2.3 of RFC 3986. */
  predicate Unreserved(c: char)
  {
    IsAlnum(c) || c == '-' || c == '.' || c == '_' || c == '~'
  }

  /** Every character urlencode can write. */
  predicate FormEncoded(s: string)
  {
    forall i :: 0 <= i < |s| ==> FormUnreserved(s[i]) || s[i] == '+' || s[i] == '%'
  }

  /** Every character rawurlencode can write. */
  predicate RawEncoded(s: string)
  {
    forall i :: 0 <= i < |s| ==> Unreserved(s[i]) || s[i] == '%'
  }

  /** urlencode's output holds none of the separators '&', '=', '|' and '"'. */
  lemma FormEncodedExcludes(s: string)
    requires FormEncoded(s)
    ensures '&' !in s && '=' !in s && '|' !in s && '"' !in s
  {
    assert forall i :: 0 <= i < |s| ==> s[i] != '&' && s[i] != '=' && s[i] != '|' && s[i] != '"';
  }

  /** rawurlencode's output holds none of the separators '&', '=', '|' and '"'. */
  lemma RawEncodedExcludes(s: string)
    requires RawEncoded(s)
    ensures '&' !in s && '=' !in s && '|' !in s && '"' !in s
  {
    assert forall i :: 0 <= i < |s| ==> s[i] != '&' && s[i] != '=' && s[i] != '|' && s[i] != '"';
  }

  function HexDigit(n: nat): (c: char)
    requires n < 16
    ensures IsAlnum(c) && IsHexDigit(c)
  {
    if n < 10 then ('0' as int + n) as char else ('A' as int + n - 10) as char
  }

  function HexValue(c: char): (n: nat)
    requires IsHexDigit(c)
    ensures n < 16
  {
    if '0' <= c <= '9' then c as int - '0' as int
    else if 'A' <= c <= 'F' then c as int - 'A' as int + 10
    else c as int - 'a' as int + 10
  }

  /** "%XX" with the byte's value in two upper-case hex digits. */
  function Percent(b: Byte): (r: string)
    ensures |r| == 3 && r[0] == '%' && IsAlnum(r[1]) && IsAlnum(r[2])
  {
    ['%', HexDigit(b as int / 16), HexDigit(b as int % 16)]
  }

  function UrlEncodeByte(b: Byte): (r: string)
    ensures FormEncoded(r) && |r| >= 1
  {
    if FormUnreserved(b) then [b]
    else if b == ' ' then "+"
    else Percent(b)
  }

  /** PHP urlencode. */
  function UrlEncode(s: Bytes): (r: string)
    ensures FormEncoded(r)
    ensures |r| >= |s|
  {
    if s == [] then "" else UrlEncodeByte(s[0]) + UrlEncode(s[1..])
  }

  function RawUrlEncodeByte(b: Byte): (r: string)
    ensures RawEncoded(r) && |r| >= 1
    ensures |r| == 1 <==> Unreserved(b)
  {
    if Unreserved(b) then [b] else Percent(b)
  }

  /** PHP rawurlencode. */
  function RawUrlEncode(s: Bytes): (r: string)
    ensures RawEncoded(r)
    ensures |r| >= |s|
  {
    if s == [] then "" else RawUrlEncodeByte(s[0]) + RawUrlEncode(s[1..])
  }

  /**
   * urlencode leaves letters, digits and "-_." as they are and writes a
   * space as '+', one character for one.
   */
  lemma {:induction false} UrlEncodeSpaces(s: Bytes)
    requires forall i :: 0 <= i < |s| ==> FormUnreserved(s[i]) || s[i] == ' '
    ensures |UrlEncode(s)| == |s|
    ensures forall i :: 0 <= i < |s| ==> UrlEncode(s)[i] == if s[i] == ' ' then '+' else s[i]
  {
    if s != [] {
      UrlEncodeSpaces(s[1..]);
      assert UrlEncode(s) == UrlEncodeByte(s[0]) + UrlEncode(s[1..]);
    }
  }

  /** A text of letters, digits and "-_." is its own urlencoding. */
  lemma UrlEncodeKeeps(s: Bytes)
    requires forall i :: 0 <= i < |s| ==> FormUnreserved(s[i])
    ensures UrlEncode(s) == s
  {
    UrlEncodeSpaces(s);
  }

  /** A text of RFC 3986 unreserved characters is its own rawurlencoding. */
  lemma {:induction false} RawUrlEncodeKeeps(s: Bytes)
    requires forall i :: 0 <= i < |s| ==> Unreserved(s[i])
    ensures RawUrlEncode(s) == s
  {
    if s != [] {
      RawUrlEncodeKeeps(s[1..]);
      assert s == [s[0]] + s[1..];
    }
  }

  /** PHP urldecode: '+' is a space, a valid %XX is its byte. */
  function UrlDecode(s: string): string
  {
    if s == [] then []
    else if s[0] == '+' then [' '] + UrlDecode(s[1..])
    else if s[0] == '%' && |s| >= 3 && IsHexDigit(s[1]) && IsHexDigit(s[2]) then
      [(HexValue(s[1]) * 16 + HexValue(s[2])) as char] + UrlDecode(s[3..])
    else [s[0]] + UrlDecode(s[1..])
  }

  /** PHP rawurldecode: as urldecode, but '+' stays '+'. */
  function RawUrlDecode(s: string): string
  {
    if s == [] then []
    else if s[0] == '%' && |s| >= 3 && IsHexDigit(s[1]) && IsHexDigit(s[2]) then
      [(HexValue(s[1]) * 16 + HexValue(s[2])) as char] + RawUrlDecode(s[3..])
    else [s[0]] + RawUrlDecode(s[1..])
  }

  lemma PercentValue(b: Byte)
    ensures IsHexDigit(Percent(b)[1]) && IsHexDigit(Percent(b)[2])
    ensures (HexValue(Percent(b)[1]) * 16 + HexValue(Percent(b)[2])) as char == b
  {
  }

  lemma UrlDecodeByte(b: Byte, rest: string)
    ensures UrlDecode(UrlEncodeByte(b) + rest) == [b] + UrlDecode(rest)
  {
    var e := UrlEncodeByte(b);
    if FormUnreserved(b) {
      assert (e + rest)[1..] == rest;
    } else if b == ' ' {
      assert (e + rest)[1..] == rest;
    } else {
      PercentValue(b);
      assert (e + rest)[3..] == rest;
    }
  }

  lemma RawUrlDecodeByte(b: Byte, rest: string)
    ensures RawUrlDecode(RawUrlEncodeByte(b) + rest) == [b] + RawUrlDecode(rest)
  {
    var e := RawUrlEncodeByte(b);
    if Unreserved(b) {
      assert (e + rest)[1..] == rest;
    } else {
      PercentValue(b);
      assert (e + rest)[3..] == rest;
    }
  }

  /** urldecode gives back exactly the bytes urlencode was given. */
  lemma {:induction false} UrlDecodeEncode(s: Bytes)
    ensures UrlDecode(UrlEncode(s)) == s
  {
    if s != [] {
      UrlDecodeByte(s[0], UrlEncode(s[1..]));
      UrlDecodeEncode(s[1..]);
    }
  }

  /** rawurldecode gives back exactly the bytes rawurlencode was given. */
  lemma {:induction false} RawUrlDecodeEncode(s: Bytes)
    ensures RawUrlDecode(RawUrlEncode(s)) == s
  {
    if s != [] {
      RawUrlDecodeByte(s[0], RawUrlEncode(s[1..]));
      RawUrlDecodeEncode(s[1..]);
    }
  }

  /**
   * The encoded text is PHP-empty exactly when the input was: "" encodes
   * to "", "0" to "0", and anything else to a longer or different text.
   */
  lemma {:induction false} RawUrlEncodeEmpty(s: Bytes)
    ensures PhpEmpty(RawUrlEncode(s)) <==> PhpEmpty(s)
  {
    if s != [] {
      var r := RawUrlEncode(s);
      assert r == RawUrlEncodeByte(s[0]) + RawUrlEncode(s[1..]);
      if |s| == 1 {
        assert s[1..] == [];
      } else {
        assert |RawUrlEncode(s[1..])| >= 1;
      }
    }
  }
}
