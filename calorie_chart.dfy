/**
 * CalorieChart: the calorie line chart, drawn in `chartColor` (orange '#f46409' when none is
 * given) through `hexToRgba`, which reads a '#rrggbb' colour as one hexadecimal number and
 * takes its red, green and blue bytes with 32-bit shifts and masks.
 */
module CalorieChart {
  import opened Wrappers
  import Text
  import ChartAxis
  import CaloriesService

  const DefaultChartColor: string := "#f46409"

  /** `chartColor || defaultChartColor`: a missing or empty colour falls back to the default. */
  function LineColor(chartColor: Option<string>): (c: string)
    ensures chartColor.None? || chartColor == Some("") ==> c == DefaultChartColor
    ensures chartColor.Some? && chartColor.value != "" ==> c == chartColor.value
  {
    match chartColor
    case Some(color) => if color != "" then color else DefaultChartColor
    case None => DefaultChartColor
  }

  /** The chart of the day's samples: nothing without data, else the calories in order. */
  function CalorieChartData(data: seq<CaloriesService.CalorieSample>): Option<ChartAxis.ChartData> {
    ChartAxis.Chart(data, (s: CaloriesService.CalorieSample) => s.calories)
  }

  /**
   * Nothing is drawn exactly for no data; otherwise the values are the samples' calories in
   * order, under n labels of which the last is "00:00".
   */
  lemma CalorieChartShape(data: seq<CaloriesService.CalorieSample>)
    ensures CalorieChartData(data).None? <==> data == []
    ensures data != [] ==> var c := CalorieChartData(data).value;
      |c.values| == |data| && (forall i :: 0 <= i < |data| ==> c.values[i] == data[i].calories) &&
      |c.labels| == |data| && c.labels[|data| - 1] == "00:00"
  {
    if data != [] {
      ChartAxis.LastLabelMidnight(|data|);
    }
  }

  predicate IsHexDigit(c: char) {
    '0' <= c <= '9' || 'a' <= c <= 'f' || 'A' <= c <= 'F'
  }

  function HexDigitValue(c: char): (v: nat)
    requires IsHexDigit(c)
    ensures v < 16
  {
    if '0' <= c <= '9' then c as int - '0' as int
    else if 'a' <= c <= 'f' then c as int - 'a' as int + 10
    else c as int - 'A' as int + 10
  }

  predicate AllHex(s: string) {
    forall i :: 0 <= i < |s| ==> IsHexDigit(s[i])
  }

  /** The value of a string of hexadecimal digits, most significant first. */
  function HexValue(s: string): (v: nat)
    requires AllHex(s)
    ensures v < Pow16(|s|)
  {
    if s == [] then 0
    else
      var init := s[..|s| - 1];
      assert AllHex(init);
      HexValue(init) * 16 + HexDigitValue(s[|s| - 1])
  }

  function Pow16(k: nat): (p: nat)
    ensures p >= 1
  {
    if k == 0 then 1 else 16 * Pow16(k - 1)
  }

  /** The length of the longest prefix of s made of hexadecimal digits. */
  function HexPrefixLength(s: string): (k: nat)
    ensures k <= |s| && AllHex(s[..k])
    ensures k < |s| ==> !IsHexDigit(s[k])
  {
    if s == [] || !IsHexDigit(s[0]) then 0
    else
      var k := 1 + HexPrefixLength(s[1..]);
      assert s[..k] == [s[0]] + s[1..][..k - 1];
      k
  }

  /** `parseInt(s, 16)`: the value of the leading hexadecimal digits, NaN (None) without any. */
  function ParseHex(s: string): (v: Option<nat>)
    ensures AllHex(s) && s != [] ==> v == Some(HexValue(s))
  {
    var k := HexPrefixLength(s);
    if k == 0 then None
    else
      assert AllHex(s) ==> k == |s| && s[..k] == s;
      Some(HexValue(s[..k]))
  }

  /** `hex.replace('#', '')`: the first '#' removed. */
  function RemoveHash(s: string): (r: string)
    ensures '#' !in s ==> r == s
    ensures forall t: string :: s == "#" + t ==> r == t
  {
    if '#' in s then
      var i := Text.FirstIndex(s, '#');
      s[..i] + s[i + 1..]
    else s
  }

  /** ToInt32: the number taken modulo 2^32 as a signed 32-bit value; NaN is 0. */
  function ToInt32(v: Option<nat>): (x: int)
    ensures -0x8000_0000 <= x < 0x8000_0000
    ensures v.Some? && v.value < 0x8000_0000 ==> x == v.value
  {
    match v
    case None => 0
    case Some(n) =>
      var w := n % 0x1_0000_0000;
      if w >= 0x8000_0000 then w - 0x1_0000_0000 else w
  }

  datatype Rgb = Rgb(r: int, g: int, b: int)

  /**
   * `(bigint >> 16) & 255`, `(bigint >> 8) & 255` and `bigint & 255`: an arithmetic shift
   * is a floor division by a power of two, and masking with 255 keeps the low byte.
   */
  function Channels(bigint: int): (c: Rgb)
    ensures 0 <= c.r < 256 && 0 <= c.g < 256 && 0 <= c.b < 256
  {
    Rgb((bigint / 65536) % 256, (bigint / 256) % 256, bigint % 256)
  }

  function HexToRgb(hex: string): Rgb {
    Channels(ToInt32(ParseHex(RemoveHash(hex))))
  }

  /** The template literal `rgba(${r}, ${g}, ${b}, ${alpha})`. */
  function RgbaText(c: Rgb, alpha: string): string {
    "rgba(" + Text.IntToString(c.r) + ", " + Text.IntToString(c.g) + ", " + Text.IntToString(c.b) + ", " + alpha + ")"
  }

  /**
   * `hexToRgba`: for '#' and six hexadecimal digits the string shows, in decimal, the three
   * bytes of the digits' value, most significant first, then alpha.
   */
  function HexToRgba(hex: string, alpha: string): (css: string)
    ensures |hex| == 7 && hex[0] == '#' && AllHex(hex[1..]) ==>
      var v := HexValue(hex[1..]);
      css == "rgba(" + Text.NatToString(v / 65536) + ", " + Text.NatToString(v / 256 % 256) + ", " +
        Text.NatToString(v % 256) + ", " + alpha + ")"
  {
    if |hex| == 7 && hex[0] == '#' && AllHex(hex[1..]) then
      SixDigitChannels(hex);
      RgbaText(HexToRgb(hex), alpha)
    else RgbaText(HexToRgb(hex), alpha)
  }

  /** For '#' and six hexadecimal digits the channels are the three bytes of their value. */
  lemma SixDigitChannels(hex: string)
    requires |hex| == 7 && hex[0] == '#' && AllHex(hex[1..])
    ensures var v := HexValue(hex[1..]);
      HexToRgb(hex) == Rgb(v / 65536, v / 256 % 256, v % 256)
  {
    var digits := hex[1..];
    assert hex == "#" + digits;
    assert Pow16(6) == 0x100_0000;
    assert RemoveHash(hex) == digits;
    var v := HexValue(digits);
    assert v / 65536 < 256;
  }

  /** The default colour at full opacity is "rgba(244, 100, 9, 1)". */
  lemma DefaultColourRgba()
    ensures HexToRgba(DefaultChartColor, "1") == "rgba(244, 100, 9, 1)"
  {
    DefaultColourTextIsRgba();
    DefaultRgbaText();
  }

  lemma DefaultColourTextIsRgba()
    ensures HexToRgba(DefaultChartColor, "1") == RgbaText(Rgb(244, 100, 9), "1")
  {
    DefaultColourChannels();
  }

  lemma DefaultRgbaText()
    ensures RgbaText(Rgb(244, 100, 9), "1") == "rgba(244, 100, 9, 1)"
  {
    DefaultNumerals();
  }

  lemma DefaultNumerals()
    ensures Text.IntToString(244) == "244" && Text.IntToString(100) == "100" && Text.IntToString(9) == "9"
  {
    assert Text.NatToString(24) == Text.NatToString(2) + "4";
    assert Text.NatToString(10) == Text.NatToString(1) + "0";
  }

  /** The bytes of a 24-bit value recombine to it. */
  lemma ChannelsRecombine(v: int)
    requires 0 <= v < 0x100_0000
    ensures 65536 * Channels(v).r + 256 * Channels(v).g + Channels(v).b == v
  {
    var q := v / 256;
    assert v == 256 * q + v % 256;
    assert q / 256 == v / 65536;
    assert q == 256 * (q / 256) + q % 256;
  }

  /**
   * For '#' followed by six hexadecimal digits the channels are the colour's three bytes:
   * 65536 * r + 256 * g + b is the colour's value.
   */
  lemma SixDigitColourRoundTrip(digits: string)
    requires |digits| == 6 && AllHex(digits)
    ensures var c := HexToRgb("#" + digits);
      65536 * c.r + 256 * c.g + c.b == HexValue(digits)
  {
    assert Pow16(6) == 0x100_0000;
    assert RemoveHash("#" + digits) == digits;
    ChannelsRecombine(HexValue(digits));
  }

  /** The default orange is rgb(244, 100, 9). */
  lemma DefaultColourChannels()
    ensures HexToRgb(DefaultChartColor) == Rgb(244, 100, 9)
  {
    DefaultColourParse();
    DefaultChannelsOf();
  }

  lemma DefaultChannelsOf()
    ensures Channels(0xf46409) == Rgb(244, 100, 9)
  {
    var v := 0xf46409;
    assert v / 65536 == 244 && v / 256 == 0xf464 && 0xf464 % 256 == 100 && v % 256 == 9;
  }

  lemma DefaultColourParse()
    ensures ToInt32(ParseHex(RemoveHash(DefaultChartColor))) == 0xf46409
  {
    DefaultDigits();
    DefaultColourValue();
    assert ParseHex("f46409") == Some(0xf46409);
  }

  lemma DefaultDigits()
    ensures RemoveHash(DefaultChartColor) == "f46409" && AllHex("f46409")
  {
    assert DefaultChartColor == "#" + "f46409";
  }

  /** One more digit multiplies the value so far by 16 and adds the digit. */
  lemma HexAppend(s: string, c: char)
    requires AllHex(s + [c])
    ensures AllHex(s) && IsHexDigit(c) && HexValue(s + [c]) == HexValue(s) * 16 + HexDigitValue(c)
  {
    assert (s + [c])[..|s|] == s;
    assert (s + [c])[|s|] == c;
  }

  lemma DefaultColourValue()
    ensures HexValue("f46409") == 0xf46409
  {
    DefaultValueHigh();
    HexAppend("f46", '4');
    assert "f46" + ['4'] == "f464";
    HexAppend("f464", '0');
    assert "f464" + ['0'] == "f4640";
    HexAppend("f4640", '9');
    assert "f4640" + ['9'] == "f46409";
  }

  lemma DefaultValueHigh()
    ensures AllHex("f46") && HexValue("f46") == 0xf46
  {
    assert HexValue("") == 0;
    HexAppend("", 'f');
    assert "" + ['f'] == "f";
    HexAppend("f", '4');
    assert "f" + ['4'] == "f4";
    HexAppend("f4", '6');
    assert "f4" + ['6'] == "f46";
  }
}
