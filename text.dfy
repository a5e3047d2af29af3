/**
 * Text operations the form fields and the database apply to strings:
 * whitespace stripping of submitted text (Python's `str.strip`), the
 * case-insensitive substring test behind `__icontains`, and the character
 * order behind `ordering = ['name']`.
 */
module Text {

  /** Python's `str.isspace` for one character. */
  predicate IsSpace(c: char)
  {
    || c == ' '
    || '\t' <= c <= '\r'
    || '\U{1c}' <= c <= '\U{1f}'
    || c == '\U{85}' || c == '\U{a0}' || c == '\U{1680}'
    || '\U{2000}' <= c <= '\U{200a}'
    || c == '\U{2028}' || c == '\U{2029}' || c == '\U{202f}' || c == '\U{205f}' || c == '\U{3000}'
  }

  /** Drops leading whitespace: the result is the suffix that starts at the first non-space. */
  function TrimLeft(s: string): (r: string)
    ensures |r| <= |s| && r == s[|s| - |r|..]
    ensures forall k :: 0 <= k < |s| - |r| ==> IsSpace(s[k])
    ensures r == [] || !IsSpace(r[0])
  {
    if s != [] && IsSpace(s[0]) then TrimLeft(s[1..]) else s
  }

  /** Drops trailing whitespace: the result is the prefix that ends at the last non-space. */
  function TrimRight(s: string): (r: string)
    ensures |r| <= |s| && r == s[..|r|]
    ensures forall k :: |r| <= k < |s| ==> IsSpace(s[k])
    ensures r == [] || !IsSpace(r[|r| - 1])
  {
    if s != [] && IsSpace(s[|s| - 1]) then TrimRight(s[..|s| - 1]) else s
  }

  /** `r` is the piece of `s` at offset `i`, and everything around it is whitespace. */
  predicate SpaceAround(s: string, r: string, i: int)
  {
    && 0 <= i <= |s| - |r| && r == s[i..i + |r|]
    && (forall k :: 0 <= k < i ==> IsSpace(s[k]))
    && (forall k :: i + |r| <= k < |s| ==> IsSpace(s[k]))
  }

  /**
   * `str.strip()`, which Django's `CharField` applies to every submitted value:
   * the result is a contiguous piece of `s`, everything cut away is whitespace,
   * and the result neither starts nor ends with whitespace.
   */
  function Strip(s: string): (r: string)
    ensures exists i :: SpaceAround(s, r, i)
    ensures r == [] || (!IsSpace(r[0]) && !IsSpace(r[|r| - 1]))
  {
    var left := TrimLeft(s);
    var r := TrimRight(left);
    var i := |s| - |left|;
    assert SpaceAround(s, r, i);
    r
  }

  // ─── URL quoting of stored file names ─────────────────────────────────────

  /** The UTF-8 encoding of one character, as byte values. */
  function Utf8(c: char): (r: seq<int>)
    ensures 1 <= |r| <= 4
    ensures forall k :: 0 <= k < |r| ==> 0 <= r[k] < 256
    ensures |r| == 1 <==> c as int < 0x80
    ensures c as int < 0x80 ==> r == [c as int]
  {
    var n := c as int;
    if n < 0x80 then [n]
    else if n < 0x800 then [0xC0 + n / 0x40, 0x80 + n % 0x40]
    else if n < 0x1_0000 then [0xE0 + n / 0x1000, 0x80 + n / 0x40 % 0x40, 0x80 + n % 0x40]
    else [0xF0 + n / 0x4_0000, 0x80 + n / 0x1000 % 0x40, 0x80 + n / 0x40 % 0x40, 0x80 + n % 0x40]
  }

  function Utf8Encode(s: string): seq<int>
  {
    if s == [] then [] else Utf8(s[0]) + Utf8Encode(s[1..])
  }

  /**
   * The characters `urllib.parse.quote(..., safe="/~!*()'")` leaves as they
   * are: ASCII letters and digits, `_.-~`, and the extra safe ones.
   */
  predicate UrlSafe(c: char)
  {
    || 'A' <= c <= 'Z' || 'a' <= c <= 'z' || '0' <= c <= '9'
    || c == '_' || c == '.' || c == '-' || c == '~'
    || c == '/' || c == '!' || c == '*' || c == '(' || c == ')' || c == '\''
  }

  predicate IsHexDigit(c: char)
  {
    '0' <= c <= '9' || 'A' <= c <= 'F'
  }

  function HexDigit(d: int): (c: char)
    requires 0 <= d < 16
    ensures IsHexDigit(c)
  {
    if d < 10 then ('0' as int + d) as char else ('A' as int + d - 10) as char
  }

  function HexValue(c: char): int
  {
    if '0' <= c <= '9' then c as int - '0' as int else c as int - 'A' as int + 10
  }

  /** `%XX` with upper-case hex digits, one per byte. */
  function PercentBytes(bytes: seq<int>): (r: string)
    requires forall k :: 0 <= k < |bytes| ==> 0 <= bytes[k] < 256
    ensures |r| == 3 * |bytes|
    ensures forall k :: 0 <= k < |r| ==> r[k] == '%' || IsHexDigit(r[k])
  {
    if bytes == [] then []
    else ['%', HexDigit(bytes[0] / 16), HexDigit(bytes[0] % 16)] + PercentBytes(bytes[1..])
  }

  function QuoteChar(c: char): (r: string)
    ensures forall k :: 0 <= k < |r| ==> UrlSafe(r[k]) || r[k] == '%' || IsHexDigit(r[k])
  {
    if UrlSafe(c) then [c] else PercentBytes(Utf8(c))
  }

  /** `quote(s, safe="/~!*()'")`: each unsafe character becomes its UTF-8 bytes, percent-encoded. */
  function Quote(s: string): (r: string)
    ensures forall k :: 0 <= k < |r| ==> UrlSafe(r[k]) || r[k] == '%' || IsHexDigit(r[k])
  {
    if s == [] then [] else QuoteChar(s[0]) + Quote(s[1..])
  }

  function ForwardSlashes(s: string): (r: string)
    ensures |r| == |s| && '\\' !in r
    ensures forall k :: 0 <= k < |s| ==> r[k] == if s[k] == '\\' then '/' else s[k]
  {
    seq(|s|, k requires 0 <= k < |s| => if s[k] == '\\' then '/' else s[k])
  }

  /**
   * `filepath_to_uri`, which the file storage applies to a stored name before
   * joining it to the media URL: backslashes become slashes, then the name is
   * quoted. The result is plain URL text.
   */
  function FilepathToUri(name: string): (r: string)
    ensures forall k :: 0 <= k < |r| ==> UrlSafe(r[k]) || r[k] == '%' || IsHexDigit(r[k])
  {
    Quote(ForwardSlashes(name))
  }

  /** `unquote_to_bytes`: a `%` followed by two hex digits is one byte; any other character stands for itself. */
  function PercentDecode(u: string): seq<int>
  {
    if u == [] then []
    else if u[0] == '%' && |u| >= 3 && IsHexDigit(u[1]) && IsHexDigit(u[2]) then
      [HexValue(u[1]) * 16 + HexValue(u[2])] + PercentDecode(u[3..])
    else [u[0] as int] + PercentDecode(u[1..])
  }

  lemma HexRoundTrip(d: int)
    requires 0 <= d < 16
    ensures HexValue(HexDigit(d)) == d
  {
  }

  lemma {:induction false} DecodePercentBytes(bytes: seq<int>, rest: string)
    requires forall k :: 0 <= k < |bytes| ==> 0 <= bytes[k] < 256
    ensures PercentDecode(PercentBytes(bytes) + rest) == bytes + PercentDecode(rest)
  {
    if bytes == [] {
      assert PercentBytes(bytes) + rest == rest;
    } else {
      var b := bytes[0];
      var tail := PercentBytes(bytes[1..]) + rest;
      var u := PercentBytes(bytes) + rest;
      assert u == ['%', HexDigit(b / 16), HexDigit(b % 16)] + tail;
      assert u[0] == '%' && u[1] == HexDigit(b / 16) && u[2] == HexDigit(b % 16) && u[3..] == tail;
      HexRoundTrip(b / 16);
      HexRoundTrip(b % 16);
      DecodePercentBytes(bytes[1..], rest);
      assert bytes == [b] + bytes[1..];
    }
  }

  lemma DecodeQuoteChar(c: char, rest: string)
    ensures PercentDecode(QuoteChar(c) + rest) == Utf8(c) + PercentDecode(rest)
  {
    if UrlSafe(c) {
      var u := [c] + rest;
      assert u[0] == c && u[1..] == rest;
    } else {
      DecodePercentBytes(Utf8(c), rest);
    }
  }

  /** Unquoting the quoted name gives back the name's UTF-8 bytes: quoting loses nothing. */
  lemma {:induction false} QuoteRoundTrip(s: string)
    ensures PercentDecode(Quote(s)) == Utf8Encode(s)
  {
    if s != [] {
      DecodeQuoteChar(s[0], Quote(s[1..]));
      QuoteRoundTrip(s[1..]);
    }
  }

  /** A name of safe characters only is its own quoting. */
  lemma {:induction false} QuoteKeepsSafe(s: string)
    requires forall k :: 0 <= k < |s| ==> UrlSafe(s[k])
    ensures Quote(s) == s
  {
    if s != [] {
      QuoteKeepsSafe(s[1..]);
      assert s == [s[0]] + s[1..];
    }
  }

  /** An accented letter is percent-encoded as its two UTF-8 bytes: "José" gives "Jos%C3%A9". */
  lemma QuoteAccent()
    ensures Quote("Jos\U{e9}") == "Jos%C3%A9"
  {
    assert Utf8('\U{e9}') == [0xC3, 0xA9];
    assert QuoteChar('\U{e9}') == "%C3%A9";
    assert Quote("\U{e9}") == "%C3%A9" + Quote([]);
    assert Quote("s\U{e9}") == "s" + Quote("\U{e9}");
    assert Quote("os\U{e9}") == "o" + Quote("s\U{e9}");
    assert Quote("Jos\U{e9}") == "J" + Quote("os\U{e9}");
  }

  /** ASCII case folding, as SQLite's `LIKE` performs it. */
  function LowerChar(c: char): char
  {
    if 'A' <= c <= 'Z' then (c as int + 32) as char else c
  }

  function Lower(s: string): (r: string)
    ensures |r| == |s| && forall k :: 0 <= k < |s| ==> r[k] == LowerChar(s[k])
  {
    seq(|s|, k requires 0 <= k < |s| => LowerChar(s[k]))
  }

  /** `needle` occurs somewhere in `hay`. */
  predicate Contains(hay: string, needle: string)
  {
    needle <= hay || (hay != [] && Contains(hay[1..], needle))
  }

  predicate OccursAt(hay: string, needle: string, i: int)
  {
    0 <= i <= |hay| - |needle| && hay[i..i + |needle|] == needle
  }

  /** Every occurrence `Contains` reports is at some position. */
  lemma {:induction false} ContainsSound(hay: string, needle: string)
    requires Contains(hay, needle)
    ensures exists i :: OccursAt(hay, needle, i)
  {
    if needle <= hay {
      assert OccursAt(hay, needle, 0);
    } else {
      ContainsSound(hay[1..], needle);
      var i :| OccursAt(hay[1..], needle, i);
      assert hay[1..][i..i + |needle|] == hay[i + 1..i + 1 + |needle|];
      assert OccursAt(hay, needle, i + 1);
    }
  }

  /** An occurrence at any position is reported by `Contains`. */
  lemma {:induction false} ContainsComplete(hay: string, needle: string, i: int)
    requires OccursAt(hay, needle, i)
    ensures Contains(hay, needle)
  {
    if i == 0 {
      assert needle <= hay;
    } else {
      assert hay[1..][i - 1..i - 1 + |needle|] == hay[i..i + |needle|];
      ContainsComplete(hay[1..], needle, i - 1);
    }
  }

  /** `field__icontains=needle`: an ASCII-case-insensitive substring test. */
  predicate IContains(hay: string, needle: string)
  {
    Contains(Lower(hay), Lower(needle))
  }

  /** Code-point lexicographic order of names. */
  predicate NameLeq(a: string, b: string)
  {
    a == [] || (b != [] && (a[0] < b[0] || (a[0] == b[0] && NameLeq(a[1..], b[1..]))))
  }

  lemma {:induction false} NameLeqTotal(a: string, b: string)
    ensures NameLeq(a, b) || NameLeq(b, a)
  {
    if a != [] && b != [] && a[0] == b[0] {
      NameLeqTotal(a[1..], b[1..]);
    }
  }

  lemma {:induction false} NameLeqTransitive(a: string, b: string, c: string)
    requires NameLeq(a, b) && NameLeq(b, c)
    ensures NameLeq(a, c)
  {
    if a != [] && a[0] == b[0] && b[0] == c[0] {
      NameLeqTransitive(a[1..], b[1..], c[1..]);
    }
  }
}
