/** The base 64 encoding of RFC 4648: the standard alphabet of section 4
    (with '=' padding) and the URL- and filename-safe alphabet of
    section 5, here without padding as section 3.2 allows. This is the
    reference the push-key decoder of the page is checked against. */
module Base64 {
  import opened Wrappers

  type byte = b: int | 0 <= b < 256
  type sextet = v: int | 0 <= v < 64

  /** Table 1 of section 4: the standard alphabet. */
  function StdChar(v: sextet): char {
    if v < 26 then ('A' as int + v) as char
    else if v < 52 then ('a' as int + v - 26) as char
    else if v < 62 then ('0' as int + v - 52) as char
    else if v == 62 then '+'
    else '/'
  }

  /** Table 2 of section 5: positions 62 and 63 become '-' and '_'. */
  function UrlChar(v: sextet): char {
    if v == 62 then '-' else if v == 63 then '_' else StdChar(v)
  }

  predicate IsStdChar(c: char) {
    'A' <= c <= 'Z' || 'a' <= c <= 'z' || '0' <= c <= '9' || c == '+' || c == '/'
  }

  /** The position of a character in the standard alphabet. */
  function StdValue(c: char): (v: sextet)
    requires IsStdChar(c)
    ensures StdChar(v) == c
  {
    if 'A' <= c <= 'Z' then c as int - 'A' as int
    else if 'a' <= c <= 'z' then c as int - 'a' as int + 26
    else if '0' <= c <= '9' then c as int - '0' as int + 52
    else if c == '+' then 62
    else 63
  }

  lemma StdCharValue(v: sextet)
    ensures IsStdChar(StdChar(v)) && StdChar(v) != '=' && StdValue(StdChar(v)) == v
  {
  }

  /** Splits bytes into 6-bit groups, 24 bits at a time; a final group of
      one or two bytes is zero-filled on the right to two or three
      sextets (section 4). */
  function ToSextets(b: seq<byte>): (v: seq<sextet>)
    ensures |v| == (4 * |b| + 2) / 3
    ensures |v| % 4 != 1
  {
    if |b| == 0 then []
    else if |b| == 1 then [b[0] / 4, (b[0] % 4) * 16]
    else if |b| == 2 then [b[0] / 4, (b[0] % 4) * 16 + b[1] / 16, (b[1] % 16) * 4]
    else [b[0] / 4, (b[0] % 4) * 16 + b[1] / 16, (b[1] % 16) * 4 + b[2] / 64, b[2] % 64] + ToSextets(b[3..])
  }

  /** Joins 6-bit groups back into bytes; a final group of two or three
      sextets gives one or two bytes, and its leftover low bits are
      dropped, as atob does. */
  function FromSextets(v: seq<sextet>): (b: seq<byte>)
    requires |v| % 4 != 1
    ensures |b| == 3 * |v| / 4
  {
    if |v| == 0 then []
    else if |v| == 2 then [v[0] as int * 4 + v[1] / 16]
    else if |v| == 3 then [v[0] as int * 4 + v[1] / 16, (v[1] as int % 16) * 16 + v[2] / 4]
    else
      [v[0] as int * 4 + v[1] / 16, (v[1] as int % 16) * 16 + v[2] / 4, (v[2] as int % 4) * 64 + v[3]]
      + FromSextets(v[4..])
  }

  lemma {:induction false} SextetsRoundTrip(b: seq<byte>)
    ensures FromSextets(ToSextets(b)) == b
  {
    if |b| >= 3 {
      SextetsRoundTrip(b[3..]);
      var v := ToSextets(b);
      assert v[4..] == ToSextets(b[3..]);
      assert b == b[..3] + b[3..];
    }
  }

  function StdChars(v: seq<sextet>): (s: string)
    ensures |s| == |v| && forall k :: 0 <= k < |v| ==> s[k] == StdChar(v[k])
  {
    seq(|v|, k requires 0 <= k < |v| => StdChar(v[k]))
  }

  /** Number of '=' characters that complete a string of `n` characters
      to a multiple of four. */
  function PadCount(n: nat): (p: nat)
    ensures p < 4 && (n + p) % 4 == 0
  {
    (4 - n % 4) % 4
  }

  function Pad(s: string): (r: string)
    ensures |r| >= |s| && |r| % 4 == 0 && r[..|s|] == s
    ensures |r| - |s| == PadCount(|s|)
    ensures forall k :: |s| <= k < |r| ==> r[k] == '='
  {
    s + seq(PadCount(|s|), _ => '=')
  }

  /** Section 4 encoding, padded. */
  function EncodeStd(b: seq<byte>): string {
    Pad(StdChars(ToSextets(b)))
  }

  /** Section 5 encoding with the padding left off (section 3.2). */
  function EncodeUrl(b: seq<byte>): (s: string)
    ensures |s| == (4 * |b| + 2) / 3
    ensures forall k :: 0 <= k < |s| ==> s[k] != '='
  {
    var v := ToSextets(b);
    seq(|v|, k requires 0 <= k < |v| => UrlChar(v[k]))
  }

  /** How many '=' end a string of length divisible by four: two if it
      ends in "==", else one if it ends in '=', else none. */
  function TrailingPad(s: string): (n: nat)
    ensures n <= 2 && n <= |s|
    ensures forall k :: |s| - n <= k < |s| ==> s[k] == '='
  {
    if |s| >= 2 && s[|s| - 2] == '=' && s[|s| - 1] == '=' then 2
    else if |s| >= 1 && s[|s| - 1] == '=' then 1
    else 0
  }

  /** Section 4 decoding: the length must be a multiple of four, at most
      two '=' may end it, and every other character must belong to the
      standard alphabet; otherwise the input is rejected. */
  function DecodeStd(s: string): (r: Option<seq<byte>>)
    ensures r.Some? ==> |s| % 4 == 0
    ensures r.Some? ==> |r.value| == 3 * (|s| - TrailingPad(s)) / 4
  {
    if |s| % 4 != 0 then None
    else
      var body := s[..|s| - TrailingPad(s)];
      if forall k :: 0 <= k < |body| ==> IsStdChar(body[k]) then
        Some(FromSextets(seq(|body|, k requires 0 <= k < |body| => StdValue(body[k]))))
      else None
  }

  /** Decoding a padded section 4 encoding gives back the bytes. */
  lemma StdRoundTrip(b: seq<byte>)
    ensures DecodeStd(EncodeStd(b)) == Some(b)
  {
    var v := ToSextets(b);
    var s := EncodeStd(b);
    var chars := StdChars(v);
    DecodeOfPadded(v);
    SextetsRoundTrip(b);
  }

  /** The padded standard spelling of a sextet sequence decodes to the
      bytes those sextets carry. */
  lemma DecodeOfPadded(v: seq<sextet>)
    requires |v| % 4 != 1
    ensures DecodeStd(Pad(StdChars(v))) == Some(FromSextets(v))
  {
    var chars := StdChars(v);
    forall k | 0 <= k < |v| ensures chars[k] != '=' && IsStdChar(chars[k]) && StdValue(chars[k]) == v[k] {
      StdCharValue(v[k]);
    }
    var s := Pad(chars);
    PadIsTrailing(chars);
    var body := s[..|s| - TrailingPad(s)];
    assert body == chars;
    assert seq(|body|, k requires 0 <= k < |body| => StdValue(body[k])) == v;
  }

  /** The padding Pad adds is exactly what TrailingPad counts, provided
      the padded text holds no '=' of its own. */
  lemma PadIsTrailing(chars: string)
    requires |chars| % 4 != 1
    requires forall k :: 0 <= k < |chars| ==> chars[k] != '='
    ensures TrailingPad(Pad(chars)) == PadCount(|chars|)
  {
    var s := Pad(chars);
    var p := PadCount(|chars|);
    assert forall k :: 0 <= k < |chars| ==> s[k] == chars[k];
    if p == 0 {
      assert |chars| > 0 ==> s[|s| - 1] == chars[|chars| - 1];
    } else if p == 1 {
      assert |chars| % 4 == 3;
      assert s[|s| - 2] == chars[|chars| - 1];
    }
  }
}
