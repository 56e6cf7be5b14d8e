/**
 * PHP string facts the command builders rely on: PHP strings are byte
 * strings, `empty()` treats "0" like "", integers are concatenated as
 * decimal text, and `str_replace('"', '\"', ...)` escapes quotes.
 * Also the '&'-separated join that the `$amp` loops produce, with the
 * split that undoes it.
 */
module PhpStrings {

  datatype Option<T> = None | Some(value: T)

  /** One byte of a PHP string, written as the character with that code. */
  type Byte = c: char | c as int < 256 witness 'a'

  /** A PHP string: a sequence of bytes. */
  type Bytes = seq<Byte>

  /** PHP's empty() on a string: both '' and "0" are empty. */
  predicate PhpEmpty(s: string)
  {
    s == "" || s == "0"
  }

  // ---------------------------------------------------------------------
  // Decimal text of a non-negative integer ('-sortfield.' . $n)
  // ---------------------------------------------------------------------

  predicate IsDigit(c: char)
  {
    '0' <= c <= '9'
  }

  predicate AllDigits(s: string)
  {
    forall i :: 0 <= i < |s| ==> IsDigit(s[i])
  }

  function DigitChar(d: nat): (c: char)
    requires d < 10
    ensures IsDigit(c)
  {
    ('0' as int + d) as char
  }

  function DigitValue(c: char): (d: nat)
    requires IsDigit(c)
    ensures d < 10
  {
    c as int - '0' as int
  }

  /** The text PHP produces when it converts a non-negative integer to a string. */
  function NatToString(n: nat): (r: string)
    ensures |r| >= 1 && AllDigits(r)
    ensures r[0] == '0' ==> n == 0
    decreases n
  {
    if n < 10 then [DigitChar(n)] else NatToString(n / 10) + [DigitChar(n % 10)]
  }

  /** Reads a string of decimal digits back as a number. */
  function ParseDecimal(s: string): nat
    requires AllDigits(s)
  {
    if s == [] then 0 else ParseDecimal(s[..|s| - 1]) * 10 + DigitValue(s[|s| - 1])
  }

  /** The decimal text is read back as the number it was made from. */
  lemma {:induction false} ParseNatToString(n: nat)
    ensures ParseDecimal(NatToString(n)) == n
    decreases n
  {
    var r := NatToString(n);
    if n >= 10 {
      ParseNatToString(n / 10);
      assert r[..|r| - 1] == NatToString(n / 10);
    }
  }

  // ---------------------------------------------------------------------
  // Splitting at a delimiter and joining with one
  // ---------------------------------------------------------------------

  /** Splits s at the first occurrence of c, if there is one. */
  function SplitAt(s: string, c: char): (r: Option<(string, string)>)
    ensures r.Some? ==> s == r.value.0 + [c] + r.value.1 && c !in r.value.0
    ensures r.None? <==> c !in s
  {
    if s == [] then None
    else if s[0] == c then Some(([], s[1..]))
    else
      match SplitAt(s[1..], c)
      case None => None
      case Some((a, b)) => assert s == [s[0]] + s[1..]; Some(([s[0]] + a, b))
  }

  /** A prefix free of c is exactly what SplitAt cuts off. */
  lemma {:induction false} SplitAtFirst(a: string, c: char, b: string)
    requires c !in a
    ensures SplitAt(a + [c] + b, c) == Some((a, b))
  {
    if a != [] {
      assert (a + [c] + b)[1..] == a[1..] + [c] + b;
      SplitAtFirst(a[1..], c, b);
      assert [a[0]] + a[1..] == a;
    } else {
      assert a + [c] + b == [c] + b;
    }
  }

  /** The pieces separated by one sep each, with no leading or trailing sep. */
  function Join(ps: seq<string>, sep: char): string
  {
    if ps == [] then ""
    else if |ps| == 1 then ps[0]
    else ps[0] + [sep] + Join(ps[1..], sep)
  }

  /** Cuts s at every sep. */
  function SplitOn(s: string, sep: char): (r: seq<string>)
    ensures |r| >= 1
    decreases |s|
  {
    match SplitAt(s, sep)
    case None => [s]
    case Some((a, b)) => [a] + SplitOn(b, sep)
  }

  /** Appending one piece adds one separator, unless it is the first piece. */
  lemma {:induction false} JoinSnoc(ps: seq<string>, p: string, sep: char)
    ensures Join(ps + [p], sep) == if ps == [] then p else Join(ps, sep) + [sep] + p
  {
    if |ps| == 1 {
      assert ps + [p] == [ps[0], p];
    } else if |ps| > 1 {
      assert (ps + [p])[1..] == ps[1..] + [p];
      JoinSnoc(ps[1..], p, sep);
    }
  }

  /** The same, with the separator written before the new piece as the `$amp` loops do. */
  lemma JoinSnocLead(ps: seq<string>, p: string, sep: char, lead: string)
    requires lead == if ps == [] then "" else [sep]
    ensures Join(ps + [p], sep) == Join(ps, sep) + lead + p
  {
    JoinSnoc(ps, p, sep);
    if ps == [] {
      assert Join(ps, sep) + lead + p == p;
    }
  }

  /** A joined string starts with its first piece. */
  lemma {:induction false} JoinHead(ps: seq<string>, sep: char)
    requires |ps| >= 1
    ensures ps[0] <= Join(ps, sep)
  {
  }

  /** Splitting undoes joining when no piece contains the separator. */
  lemma {:induction false} SplitOnJoin(ps: seq<string>, sep: char)
    requires |ps| >= 1
    requires forall i :: 0 <= i < |ps| ==> sep !in ps[i]
    ensures SplitOn(Join(ps, sep), sep) == ps
  {
    if |ps| > 1 {
      SplitAtFirst(ps[0], sep, Join(ps[1..], sep));
      SplitOnJoin(ps[1..], sep);
    }
  }

  // ---------------------------------------------------------------------
  // str_replace('"', '\"', $value)
  // ---------------------------------------------------------------------

  /** Puts a backslash before every double quote. */
  function EscapeQuotes(s: Bytes): (r: Bytes)
    ensures |r| >= |s|
    ensures |r| > 0 ==> r[0] != '"'
    ensures forall i :: 0 <= i < |r| && r[i] == '"' ==> i > 0 && r[i - 1] == '\\'
  {
    if s == [] then []
    else (if s[0] == '"' then ['\\', '"'] else [s[0]]) + EscapeQuotes(s[1..])
  }

  /** Reads each backslash-quote pair back as a quote. */
  function UnescapeQuotes(s: string): string
  {
    if s == [] then []
    else if |s| >= 2 && s[0] == '\\' && s[1] == '"' then ['"'] + UnescapeQuotes(s[2..])
    else [s[0]] + UnescapeQuotes(s[1..])
  }

  /** Escaping loses nothing: unescaping gives the original value back. */
  lemma {:induction false} UnescapeEscape(s: Bytes)
    ensures UnescapeQuotes(EscapeQuotes(s)) == s
  {
    if s != [] {
      var rest := EscapeQuotes(s[1..]);
      UnescapeEscape(s[1..]);
      if s[0] == '"' {
        assert EscapeQuotes(s) == ['\\', '"'] + rest;
        assert (['\\', '"'] + rest)[2..] == rest;
      } else {
        assert EscapeQuotes(s) == [s[0]] + rest;
        assert ([s[0]] + rest)[1..] == rest;
      }
    }
  }
}
