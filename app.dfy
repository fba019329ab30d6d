/** js/app.js: the push-key decoder handed to PushManager.subscribe, the
    number formatter and the filter of the global error handler. */
module App {
  import opened Wrappers
  import opened Base64
  import JsStrings
  import Decimal

  /** window.atob, taken as the section 4 decoder of RFC 4648: the bytes
      come back as a "binary string" whose code units are the bytes, and
      malformed input throws (None). */
  function Atob(s: string): (r: Option<string>)
    ensures r.Some? <==> DecodeStd(s).Some?
    ensures r.Some? ==> |r.value| == |DecodeStd(s).value|
    ensures r.Some? ==> forall k :: 0 <= k < |r.value| ==> r.value[k] as int == DecodeStd(s).value[k]
  {
    match DecodeStd(s)
    case None => None
    case Some(b) => Some(seq(|b|, k requires 0 <= k < |b| => b[k] as char))
  }

  /** '='.repeat((4 - length % 4) % 4): the fewest '=' that bring the
      length to a multiple of four. */
  function Padding(base64String: string): (p: string)
    ensures |p| <= 3 && (|base64String| + |p|) % 4 == 0
    ensures forall k :: 0 <= k < |p| ==> p[k] == '='
  {
    JsStrings.Repeat('=', (4 - |base64String| % 4) % 4)
  }

  /** String.prototype.replace with a global one-character pattern. */
  function ReplaceAll(s: string, from: char, to: char): (r: string)
    ensures |r| == |s|
    ensures forall k :: 0 <= k < |s| ==> r[k] == (if s[k] == from then to else s[k])
  {
    seq(|s|, k requires 0 <= k < |s| => if s[k] == from then to else s[k])
  }

  /** The two replace calls: section 5 spelling to section 4 spelling.
      Every '-' becomes '+', every '_' becomes '/', all else is kept, and
      neither '-' nor '_' is left. */
  function ToStandardAlphabet(s: string): (r: string)
    ensures |r| == |s|
    ensures forall k :: 0 <= k < |s| ==> (s[k] == '-' ==> r[k] == '+')
    ensures forall k :: 0 <= k < |s| ==> (s[k] == '_' ==> r[k] == '/')
    ensures forall k :: 0 <= k < |s| ==> (s[k] != '-' && s[k] != '_' ==> r[k] == s[k])
    ensures forall k :: 0 <= k < |r| ==> r[k] != '-' && r[k] != '_'
  {
    ReplaceAll(ReplaceAll(s, '-', '+'), '_', '/')
  }

  /** Storing a code unit into a Uint8Array keeps it modulo 256. */
  function ToUint8(code: int): (b: byte)
    ensures 0 <= code < 256 ==> b == code
    ensures (code - b) % 256 == 0
  {
    code % 256
  }

  /** What urlBase64ToUint8Array computes: the bytes of the padded,
      re-spelled key, or None where atob throws. */
  function KeyBytes(base64String: string): (r: Option<seq<byte>>)
    ensures var std := ToStandardAlphabet(base64String + Padding(base64String));
            && (r.None? <==> DecodeStd(std).None?)
            && (r.Some? ==> r.value == DecodeStd(std).value)
  {
    match Atob(ToStandardAlphabet(base64String + Padding(base64String)))
    case None => None
    case Some(raw) => Some(seq(|raw|, k requires 0 <= k < |raw| => ToUint8(raw[k] as int)))
  }

  /** urlBase64ToUint8Array: pads, re-spells, decodes, and copies the
      decoded string code unit by code unit into a fresh Uint8Array.
      None stands for the exception atob throws on a malformed key. */
  method UrlBase64ToUint8Array(base64String: string) returns (outputArray: Option<array<byte>>)
    ensures outputArray.None? <==> KeyBytes(base64String).None?
    ensures outputArray.Some? ==> outputArray.value[..] == KeyBytes(base64String).value
  {
    var padding := Padding(base64String);
    var base64 := ToStandardAlphabet(base64String + padding);
    var rawData := Atob(base64);
    if rawData.None? {
      return None;
    }
    var out := CopyCodeUnits(rawData.value);
    return Some(out);
  }

  /** The loop of urlBase64ToUint8Array: a fresh Uint8Array of the same
      length receives each code unit in order. */
  method CopyCodeUnits(raw: string) returns (out: array<byte>)
    ensures fresh(out)
    ensures out[..] == seq(|raw|, k requires 0 <= k < |raw| => ToUint8(raw[k] as int))
  {
    out := new byte[|raw|];
    for i := 0 to |raw|
      invariant forall k :: 0 <= k < i ==> out[k] == ToUint8(raw[k] as int)
    {
      out[i] := ToUint8(raw[i] as int);
    }
  }

  /** Round trip: the section 5 encoding of any bytes, without padding,
      decodes back to those bytes. */
  lemma KeyRoundTrip(b: seq<byte>)
    ensures KeyBytes(EncodeUrl(b)) == Some(b)
  {
    var v := ToSextets(b);
    var s := EncodeUrl(b);
    RespellUrlEncoding(b);
    DecodeOfPadded(v);
    SextetsRoundTrip(b);
    KeyBytesOfDecoded(s, b);
  }

  /** Padding and re-spelling the section 5 encoding yields the padded
      section 4 encoding of the same sextets. */
  lemma RespellUrlEncoding(b: seq<byte>)
    ensures ToStandardAlphabet(EncodeUrl(b) + Padding(EncodeUrl(b))) == Pad(StdChars(ToSextets(b)))
  {
    var v := ToSextets(b);
    var s := EncodeUrl(b);
    var std := ToStandardAlphabet(s + Padding(s));
    var want := Pad(StdChars(v));
    assert |Padding(s)| == PadCount(|s|);
    forall k | 0 <= k < |std| ensures std[k] == want[k] {
      RespellAt(v, s, k);
    }
  }

  /** RespellUrlEncoding at one index of the URL-safe spelling `s` of the
      sextets `v`: a sextet's character, or padding. */
  lemma RespellAt(v: seq<sextet>, s: string, k: nat)
    requires |s| == |v| && forall i :: 0 <= i < |v| ==> s[i] == UrlChar(v[i])
    requires k < |s + Padding(s)| && k < |Pad(StdChars(v))|
    ensures ToStandardAlphabet(s + Padding(s))[k] == Pad(StdChars(v))[k]
  {
    var padded := s + Padding(s);
    if k < |v| {
      assert padded[k] == UrlChar(v[k]);
      assert Pad(StdChars(v))[..|v|][k] == StdChar(v[k]);
      RespellChar(v[k]);
    } else {
      assert padded[k] == '=';
    }
  }

  /** Re-spelling one character of the section 5 alphabet gives the
      section 4 character of the same sextet. */
  lemma RespellChar(v: sextet)
    ensures UrlChar(v) == '-' ==> StdChar(v) == '+'
    ensures UrlChar(v) == '_' ==> StdChar(v) == '/'
    ensures UrlChar(v) != '-' && UrlChar(v) != '_' ==> UrlChar(v) == StdChar(v)
  {
  }

  /** Once the re-spelled, padded key decodes to some bytes, the copy
      loop hands back exactly those bytes. */
  lemma KeyBytesOfDecoded(base64String: string, b: seq<byte>)
    requires DecodeStd(ToStandardAlphabet(base64String + Padding(base64String))) == Some(b)
    ensures KeyBytes(base64String) == Some(b)
  {
    var raw := Atob(ToStandardAlphabet(base64String + Padding(base64String))).value;
    assert seq(|raw|, k requires 0 <= k < |raw| => ToUint8(raw[k] as int)) == b;
  }

  /** The decoder also accepts the padded section 4 spelling, since it
      leaves '+', '/' and a complete padding untouched. */
  lemma AcceptsStandardSpelling(b: seq<byte>)
    ensures KeyBytes(EncodeStd(b)) == Some(b)
  {
    var s := EncodeStd(b);
    var v := ToSextets(b);
    assert Padding(s) == [];
    assert s + Padding(s) == s;
    forall k | 0 <= k < |s| ensures s[k] != '-' && s[k] != '_' {
      if k < |v| {
        assert s[k] == StdChars(v)[k];
      }
    }
    assert ToStandardAlphabet(s) == s;
    StdRoundTrip(b);
    KeyBytesOfDecoded(s, b);
  }

  /** A key whose length leaves remainder 1 modulo 4 cannot be a base 64
      spelling: three '=' are appended and atob throws. */
  lemma RejectsLengthOneModFour(base64String: string)
    requires |base64String| % 4 == 1
    ensures KeyBytes(base64String) == None
  {
    var s := ToStandardAlphabet(base64String + Padding(base64String));
    var n := |base64String|;
    assert |s| == n + 3 && s[n] == '=' && s[n + 1] == '=' && s[n + 2] == '=';
    assert TrailingPad(s) == 2;
    assert !IsStdChar(s[..|s| - 2][n]);
  }

  /** formatNumber: the tier decides the suffix; the scaled value is
      rendered with toFixed(1), which is not modelled. */
  datatype NumberText = Scaled(num: int, divisor: int, suffix: string) | Plain(text: string)

  function FormatNumber(num: int): (r: NumberText)
    ensures (r.Scaled? && r.suffix == "M") <==> num >= 1000000
    ensures (r.Scaled? && r.suffix == "K") <==> 1000 <= num < 1000000
    ensures r.Plain? <==> num < 1000
    ensures r.Scaled? ==> r.num == num && r.divisor == (if r.suffix == "M" then 1000000 else 1000)
    ensures r.Plain? && num >= 0 ==> Decimal.AllDigits(r.text) && Decimal.ParseNat(r.text) == num
    ensures r.Plain? && num < 0 ==> |r.text| >= 2 && r.text[0] == '-'
  {
    if num >= 1000000 then Scaled(num, 1000000, "M")
    else if num >= 1000 then Scaled(num, 1000, "K")
    else
      var text := Decimal.IntToString(num);
      if num >= 0 then Decimal.ParseNatToString(num); Plain(text) else Plain(text)
  }

  datatype JsError = JsError(message: Option<string>)

  /** The window 'error' listener raises an alert exactly when the event
      carries an error whose message is non-empty and does not mention
      ResizeObserver. */
  function RaisesErrorAlert(error: Option<JsError>): (b: bool)
    ensures b ==> error.Some? && error.value.message.Some? && error.value.message.value != ""
    ensures b <==> error.Some? && error.value.message.Some? && error.value.message.value != ""
                   && !(exists i :: JsStrings.OccursAt(error.value.message.value, "ResizeObserver", i))
  {
    match error
    case None => false
    case Some(e) =>
      match e.message
      case None => false
      case Some(m) => m != "" && !JsStrings.Contains(m, "ResizeObserver")
  }
}
