/**
 * `urllib.parse.urlencode` over a form given as an ordered list of text
 * fields: each key and value goes through `quote_plus` (UTF-8, then
 * percent-encoding of every byte outside letters, digits and `_.-~`, with
 * space written as `+`), pairs are joined by `=` and fields by `&`.
 */
module FormEncoding {
  import opened Wrappers
  import opened Encoding

  /** The bytes `quote` never escapes: ASCII letters, digits and `_.-~`. */
  predicate AlwaysSafe(b: byte) {
    ('A' as byte <= b <= 'Z' as byte) || ('a' as byte <= b <= 'z' as byte)
    || ('0' as byte <= b <= '9' as byte)
    || b == '_' as byte || b == '.' as byte || b == '-' as byte || b == '~' as byte
  }

  function HexDigit(d: nat): (c: char)
    requires d < 16
  {
    if d < 10 then DigitChar(d) else ('A' as int + d - 10) as char
  }

  function HexValue(c: char): (r: Option<nat>)
    ensures r.Some? ==> r.value < 16
  {
    if '0' <= c <= '9' then Some(c as int - '0' as int)
    else if 'A' <= c <= 'F' then Some(c as int - 'A' as int + 10)
    else if 'a' <= c <= 'f' then Some(c as int - 'a' as int + 10)
    else None
  }

  /** How `quote_plus` writes one byte. */
  function QuoteByte(b: byte): (r: string)
    ensures |r| == 1 || |r| == 3
  {
    if AlwaysSafe(b) then [(b as int) as char]
    else if b == 0x20 then "+"
    else ['%', HexDigit(b as int / 16), HexDigit(b as int % 16)]
  }

  function QuoteBytes(bs: seq<byte>): string {
    if bs == [] then [] else QuoteByte(bs[0]) + QuoteBytes(bs[1..])
  }

  /** `quote_plus(s)`. */
  function QuotePlus(s: string): string {
    QuoteBytes(Utf8(s))
  }

  /** A character `quote_plus` may emit: ASCII, and never a field or pair separator. */
  predicate QuotedChar(c: char) {
    c as int < 0x80 && c != '&' && c != '='
  }

  lemma {:induction false} QuoteBytesChars(bs: seq<byte>)
    ensures forall i :: 0 <= i < |QuoteBytes(bs)| ==> QuotedChar(QuoteBytes(bs)[i])
  {
    if bs != [] {
      QuoteBytesChars(bs[1..]);
      var q, rest := QuoteByte(bs[0]), QuoteBytes(bs[1..]);
      assert QuoteBytes(bs) == q + rest;
      forall i | 0 <= i < |q + rest| ensures QuotedChar((q + rest)[i]) {
        if i >= |q| { assert (q + rest)[i] == rest[i - |q|]; }
      }
    }
  }

  /** Each byte becomes one character or a three-character escape. */
  lemma {:induction false} QuoteBytesLength(bs: seq<byte>)
    ensures |bs| <= |QuoteBytes(bs)| <= 3 * |bs|
  {
    if bs != [] {
      QuoteBytesLength(bs[1..]);
    }
  }

  /**
   * `unquote_plus` down to bytes: `+` is a space, `%XY` the byte with hex
   * value XY, and any other ASCII character stands for itself; `None` on
   * anything `quote_plus` could not have produced.
   */
  function UnquoteBytes(s: string): Option<seq<byte>>
    decreases |s|
  {
    if s == [] then Some([])
    else
      var head: Option<(byte, nat)> :=
        if s[0] == '+' then Some((0x20 as byte, 1))
        else if s[0] == '%' then
          if |s| < 3 || HexValue(s[1]).None? || HexValue(s[2]).None? then None
          else Some(((HexValue(s[1]).value * 16 + HexValue(s[2]).value) as byte, 3))
        else if s[0] as int < 0x80 then Some(((s[0] as int) as byte, 1))
        else None;
      match head
      case None => None
      case Some((b, k)) =>
        match UnquoteBytes(s[k..])
        case None => None
        case Some(rest) => Some([b] + rest)
  }

  lemma UnquoteQuoteByte(b: byte, tail: string)
    ensures var q := QuoteByte(b);
      UnquoteBytes(q + tail) ==
        match UnquoteBytes(tail)
        case None => None
        case Some(rest) => Some([b] + rest)
  {
    var q := QuoteByte(b);
    assert (q + tail)[|q|..] == tail;
    if !AlwaysSafe(b) && b != 0x20 {
      var hi, lo := b as int / 16, b as int % 16;
      assert HexValue(HexDigit(hi)) == Some(hi);
      assert HexValue(HexDigit(lo)) == Some(lo);
    }
  }

  /** Unquoting undoes `quote_plus` byte for byte. */
  lemma {:induction false} UnquoteQuote(bs: seq<byte>)
    ensures UnquoteBytes(QuoteBytes(bs)) == Some(bs)
  {
    if bs != [] {
      UnquoteQuoteByte(bs[0], QuoteBytes(bs[1..]));
      UnquoteQuote(bs[1..]);
      assert [bs[0]] + bs[1..] == bs;
    }
  }

  // ---------------------------------------------------------------------
  // Whole forms

  /** One field of a form: `quote_plus(key) + '=' + quote_plus(value)`. */
  function EncodeField(f: (string, string)): string {
    QuotePlus(f.0) + "=" + QuotePlus(f.1)
  }

  /** `urlencode(fields)`: the encoded fields joined by `&`. */
  function UrlEncode(fields: seq<(string, string)>): (r: string)
    ensures r == "" <==> fields == []
    decreases |fields|
  {
    if fields == [] then ""
    else if |fields| == 1 then EncodeField(fields[0])
    else EncodeField(fields[0]) + "&" + UrlEncode(fields[1..])
  }

  /** Index of the first occurrence of `sep` in `s`, or `|s|`. */
  function Find(s: string, sep: char): (r: nat)
    ensures r <= |s|
    ensures forall i :: 0 <= i < r ==> s[i] != sep
    ensures r < |s| ==> s[r] == sep
  {
    if s == [] || s[0] == sep then 0 else 1 + Find(s[1..], sep)
  }

  /** `s.split(sep)`. */
  function Split(s: string, sep: char): (r: seq<string>)
    ensures |r| > 0
    decreases |s|
  {
    var k := Find(s, sep);
    if k == |s| then [s] else [s[..k]] + Split(s[k + 1..], sep)
  }

  /** `parse_qsl(s, keep_blank_values=True, strict_parsing=True)` down to bytes. */
  function ParseForm(s: string): Option<seq<(seq<byte>, seq<byte>)>> {
    ParseFields(Split(s, '&'))
  }

  function ParseFields(parts: seq<string>): Option<seq<(seq<byte>, seq<byte>)>> {
    if parts == [] then Some([])
    else
      var p := parts[0];
      var k := Find(p, '=');
      if k == |p| then None
      else match (UnquoteBytes(p[..k]), UnquoteBytes(p[k + 1..]), ParseFields(parts[1..]))
        case (Some(key), Some(value), Some(rest)) => Some([(key, value)] + rest)
        case _ => None
  }

  /** The bytes each field of a form stands for. */
  function FieldBytes(fields: seq<(string, string)>): seq<(seq<byte>, seq<byte>)> {
    if fields == [] then [] else [(Utf8(fields[0].0), Utf8(fields[0].1))] + FieldBytes(fields[1..])
  }

  lemma FindAfterQuoted(a: string, sep: char, b: string)
    requires forall i :: 0 <= i < |a| ==> a[i] != sep
    ensures Find(a + [sep] + b, sep) == |a|
    ensures Find(a, sep) == |a|
  {
    var s := a + [sep] + b;
    assert s[|a|] == sep;
    assert forall i :: 0 <= i < |a| ==> s[i] == a[i];
  }

  lemma QuotePlusChars(s: string)
    ensures forall i :: 0 <= i < |QuotePlus(s)| ==> QuotedChar(QuotePlus(s)[i])
  {
    QuoteBytesChars(Utf8(s));
  }

  /** A quoted text is at least as long as the text and at most twelve characters per character. */
  lemma QuotePlusLength(s: string)
    ensures |s| <= |QuotePlus(s)| <= 12 * |s|
  {
    QuoteBytesLength(Utf8(s));
  }

  /** An encoded field contains no `&` and exactly one `=`, the one between key and value. */
  lemma EncodeFieldShape(f: (string, string))
    ensures forall i :: 0 <= i < |EncodeField(f)| ==> EncodeField(f)[i] != '&'
    ensures Find(EncodeField(f), '=') == |QuotePlus(f.0)|
    ensures EncodeField(f)[..|QuotePlus(f.0)|] == QuotePlus(f.0)
    ensures EncodeField(f)[|QuotePlus(f.0)| + 1..] == QuotePlus(f.1)
  {
    var k, v := QuotePlus(f.0), QuotePlus(f.1);
    QuotePlusChars(f.0);
    QuotePlusChars(f.1);
    var e := EncodeField(f);
    assert e == k + ['='] + v;
    forall i | 0 <= i < |e| ensures e[i] != '&' {
      if i < |k| { assert e[i] == k[i]; }
      else if i > |k| { assert e[i] == v[i - |k| - 1]; }
    }
    FindAfterQuoted(k, '=', v);
  }

  /** Splitting at a separator the first piece lacks peels that piece off. */
  lemma SplitFirst(e: string, sep: char, rest: string)
    requires forall i :: 0 <= i < |e| ==> e[i] != sep
    ensures Split(e, sep) == [e]
    ensures Split(e + [sep] + rest, sep) == [e] + Split(rest, sep)
  {
    FindAfterQuoted(e, sep, rest);
    var s := e + [sep] + rest;
    assert s[..|e|] == e && s[|e| + 1..] == rest;
  }

  /** An encoded field never contains the pair separator. */
  lemma EncodeFieldNoSeparator(f: (string, string))
    ensures forall i :: 0 <= i < |EncodeField(f)| ==> EncodeField(f)[i] != '&'
  {
    EncodeFieldShape(f);
  }

  /** Splitting several encoded fields peels off the first one. */
  lemma SplitUrlEncodeStep(fields: seq<(string, string)>)
    requires |fields| > 1
    ensures Split(UrlEncode(fields), '&') == [EncodeField(fields[0])] + Split(UrlEncode(fields[1..]), '&')
  {
    var e, rest := EncodeField(fields[0]), UrlEncode(fields[1..]);
    EncodeFieldNoSeparator(fields[0]);
    SplitFirst(e, '&', rest);
    assert UrlEncode(fields) == e + ['&'] + rest;
  }

  lemma {:induction false} SplitUrlEncode(fields: seq<(string, string)>)
    requires |fields| > 0
    ensures |Split(UrlEncode(fields), '&')| == |fields|
    ensures forall i :: 0 <= i < |fields| ==> Split(UrlEncode(fields), '&')[i] == EncodeField(fields[i])
    decreases |fields|
  {
    if |fields| == 1 {
      EncodeFieldNoSeparator(fields[0]);
      SplitFirst(EncodeField(fields[0]), '&', "");
    } else {
      SplitUrlEncodeStep(fields);
      SplitUrlEncode(fields[1..]);
      var parts, tail := Split(UrlEncode(fields), '&'), Split(UrlEncode(fields[1..]), '&');
      forall i | 0 < i < |fields| ensures parts[i] == EncodeField(fields[i]) {
        assert parts[i] == tail[i - 1];
        assert fields[1..][i - 1] == fields[i];
      }
    }
  }


  lemma {:induction false} ParseEncodedFields(fields: seq<(string, string)>, parts: seq<string>)
    requires |parts| == |fields|
    requires forall i :: 0 <= i < |fields| ==> parts[i] == EncodeField(fields[i])
    ensures ParseFields(parts) == Some(FieldBytes(fields))
    decreases |fields|
  {
    if fields != [] {
      var f := fields[0];
      EncodeFieldShape(f);
      var p := parts[0];
      var k := |QuotePlus(f.0)|;
      assert p[..k] == QuotePlus(f.0) && p[k + 1..] == QuotePlus(f.1);
      UnquoteQuote(Utf8(f.0));
      UnquoteQuote(Utf8(f.1));
      ParseEncodedFields(fields[1..], parts[1..]);
    }
  }

  /**
   * A URL-encoded form parses back to the UTF-8 bytes of its fields, in
   * order: the encoding loses nothing. (An empty form encodes to the empty
   * string and is never sent, see `Transport.BuildBody`.)
   */
  lemma UrlEncodeRoundTrip(fields: seq<(string, string)>)
    requires |fields| > 0
    ensures ParseForm(UrlEncode(fields)) == Some(FieldBytes(fields))
  {
    SplitUrlEncode(fields);
    ParseEncodedFields(fields, Split(UrlEncode(fields), '&'));
  }

  predicate Ascii(s: string) {
    forall i :: 0 <= i < |s| ==> s[i] as int < 0x80
  }

  lemma AsciiJoin(a: string, sep: char, b: string)
    requires Ascii(a) && Ascii(b) && sep as int < 0x80
    ensures Ascii(a + [sep] + b)
  {
    var s := a + [sep] + b;
    forall i | 0 <= i < |s| ensures s[i] as int < 0x80 {
      if i < |a| { assert s[i] == a[i]; }
      else if i > |a| { assert s[i] == b[i - |a| - 1]; }
    }
  }

  /**
   * The encoded form is pure ASCII, so its length in characters (what
   * `len(body)` measures on the `str` that `urlencode` returns) is its length
   * in bytes on the wire.
   */
  lemma {:induction false} UrlEncodeAscii(fields: seq<(string, string)>)
    ensures Ascii(UrlEncode(fields))
    decreases |fields|
  {
    if fields != [] {
      QuotePlusChars(fields[0].0);
      QuotePlusChars(fields[0].1);
      var e := EncodeField(fields[0]);
      AsciiJoin(QuotePlus(fields[0].0), '=', QuotePlus(fields[0].1));
      assert Ascii(e);
      if |fields| > 1 {
        UrlEncodeAscii(fields[1..]);
        AsciiJoin(e, '&', UrlEncode(fields[1..]));
      }
    }
  }
}
