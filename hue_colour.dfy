/** The colour text of a `<hue>` element (hues.js:543-559): an optional `#` and six hex
    digits, matched case-insensitively, split into three 0..255 components. */
module HueColour {
  import opened Wrappers

  /** A parsed hue colour: the text as stored in `hue["hex"]` and its three components. */
  datatype Colour = Colour(hex: string, red: nat, green: nat, blue: nat) {
    /** `hue["rgb"]`: each component scaled into [0, 1]. */
    function Rgb(): (real, real, real) {
      (red as real / 255.0, green as real / 255.0, blue as real / 255.0)
    }
  }

  /** A character of the regular-expression class `[a-f\d]` under the `i` flag. */
  predicate IsHexDigit(c: char) {
    '0' <= c <= '9' || 'a' <= c <= 'f' || 'A' <= c <= 'F'
  }

  predicate AllHex(s: string) {
    forall k :: 0 <= k < |s| ==> IsHexDigit(s[k])
  }

  function HexDigitValue(c: char): (v: nat)
    requires IsHexDigit(c)
    ensures v < 16
  {
    if '0' <= c <= '9' then c as int - '0' as int
    else if 'a' <= c <= 'f' then c as int - 'a' as int + 10
    else c as int - 'A' as int + 10
  }

  /** `parseInt(pair, 16)` of a two-digit group. */
  function PairValue(hi: char, lo: char): (v: nat)
    requires IsHexDigit(hi) && IsHexDigit(lo)
    ensures v <= 255
  {
    16 * HexDigitValue(hi) + HexDigitValue(lo)
  }

  /** The texts the pattern `^#?([a-f\d]{2})([a-f\d]{2})([a-f\d]{2})$` with flag `i` accepts. */
  ghost predicate MatchesColourPattern(text: string) {
    (|text| == 6 && AllHex(text)) || (|text| == 7 && text[0] == '#' && AllHex(text[1..]))
  }

  /** The digits after the optional `#`. */
  function Digits(text: string): string {
    if |text| == 7 then text[1..] else text
  }

  /** Parses one hue's colour text; a rejected text is returned as the error. The
      `#`-prefixing guard at hues.js:544 compares a boolean with `"#"` and is never true,
      so the stored hex is the text itself. */
  function ParseColour(text: string): (r: Result<Colour, string>)
    ensures r.Success? <==> MatchesColourPattern(text)
    ensures r.Failure? ==> r.error == text
    ensures r.Success? ==> r.value.hex == text
    ensures r.Success? ==>
      var d := Digits(text);
      && r.value.red == PairValue(d[0], d[1]) && r.value.red <= 255
      && r.value.green == PairValue(d[2], d[3]) && r.value.green <= 255
      && r.value.blue == PairValue(d[4], d[5]) && r.value.blue <= 255
  {
    var digits := if |text| > 0 && text[0] == '#' then text[1..] else text;
    if |digits| == 6 && AllHex(digits) then
      Success(Colour(text, PairValue(digits[0], digits[1]), PairValue(digits[2], digits[3]),
                     PairValue(digits[4], digits[5])))
    else
      Failure(text)
  }

  /** Reference formatter: `#` and two lower-case hex digits per component. */
  function HexChar(v: nat): char
    requires v < 16
  {
    "0123456789abcdef"[v]
  }

  function FormatColour(red: nat, green: nat, blue: nat): string
    requires red <= 255 && green <= 255 && blue <= 255
  {
    ['#', HexChar(red / 16), HexChar(red % 16), HexChar(green / 16), HexChar(green % 16),
     HexChar(blue / 16), HexChar(blue % 16)]
  }

  lemma HexCharValue(v: nat)
    requires v < 16
    ensures IsHexDigit(HexChar(v)) && HexDigitValue(HexChar(v)) == v
  {
  }

  /** Two formatted digits read back as the component they came from. */
  lemma PairRoundTrip(v: nat)
    requires v <= 255
    ensures IsHexDigit(HexChar(v / 16)) && IsHexDigit(HexChar(v % 16))
    ensures PairValue(HexChar(v / 16), HexChar(v % 16)) == v
  {
    HexCharValue(v / 16);
    HexCharValue(v % 16);
  }

  /** Every colour the formatter writes parses back to the same components. */
  lemma FormatThenParse(red: nat, green: nat, blue: nat)
    requires red <= 255 && green <= 255 && blue <= 255
    ensures ParseColour(FormatColour(red, green, blue))
         == Success(Colour(FormatColour(red, green, blue), red, green, blue))
  {
    var t := FormatColour(red, green, blue);
    PairRoundTrip(red);
    PairRoundTrip(green);
    PairRoundTrip(blue);
    var d := t[1..];
    assert d == [HexChar(red / 16), HexChar(red % 16), HexChar(green / 16), HexChar(green % 16),
                 HexChar(blue / 16), HexChar(blue % 16)];
    assert AllHex(d);
  }

  /** Upper- and lower-case digits denote the same colour. */
  lemma CaseInsensitive()
    ensures ParseColour("#FF8000") == Success(Colour("#FF8000", 255, 128, 0))
    ensures ParseColour("ff8000") == Success(Colour("ff8000", 255, 128, 0))
  {
    assert AllHex("#FF8000"[1..]);
    assert AllHex("ff8000");
  }

  /** Texts the pattern refuses: a missing digit, a doubled `#`, a non-hex letter. */
  lemma RejectedTexts()
    ensures ParseColour("#12345").Failure?
    ensures ParseColour("##123456").Failure?
    ensures ParseColour("#12345g").Failure?
  {
    assert !IsHexDigit("#12345g"[6]);
    assert !AllHex("#12345g"[1..]);
  }
}
