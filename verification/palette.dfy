/**
 * ColorPalette::get_color_value: the table from a colour name to its normal
 * and dimmed background colours.  Styles and escape sequences built from
 * these values are not part of this model; the values are kept as RGB
 * triples.
 */
module Palette {
  import opened Models

  datatype Rgb = Rgb(red: int, green: int, blue: int)

  datatype ColorValue = ColorValue(normal: Rgb, dimmed: Rgb)

  const ColorNames: set<string> := {
    "orange", "yellow", "green", "blue", "purple", "red", "cyan", "gray",
    "light_orange", "light_yellow", "light_green", "light_blue",
    "light_purple", "light_red", "light_cyan"
  }

  predicate IsChannel(c: int) {
    0 <= c <= 255
  }

  /** A dimmed channel is the normal channel at 70 %, rounded to a nearest integer. */
  predicate DimmedChannel(normal: int, dimmed: int) {
    7 * normal - 5 <= 10 * dimmed <= 7 * normal + 5
  }

  predicate WellFormed(v: ColorValue) {
    && IsChannel(v.normal.red) && IsChannel(v.normal.green) && IsChannel(v.normal.blue)
    && DimmedChannel(v.normal.red, v.dimmed.red)
    && DimmedChannel(v.normal.green, v.dimmed.green)
    && DimmedChannel(v.normal.blue, v.dimmed.blue)
  }

  /** The name table; an unknown name has no colour. */
  function GetColorValue(name: string): (v: Option<ColorValue>)
    ensures v.Some? <==> name in ColorNames
    ensures v.Some? ==> WellFormed(v.value)
  {
    if name == "orange" then Some(ColorValue(Rgb(255, 143, 64), Rgb(178, 100, 45)))
    else if name == "yellow" then Some(ColorValue(Rgb(230, 180, 80), Rgb(161, 126, 56)))
    else if name == "green" then Some(ColorValue(Rgb(170, 217, 76), Rgb(119, 152, 53)))
    else if name == "blue" then Some(ColorValue(Rgb(89, 194, 255), Rgb(62, 136, 179)))
    else if name == "purple" then Some(ColorValue(Rgb(210, 166, 255), Rgb(147, 116, 179)))
    else if name == "red" then Some(ColorValue(Rgb(240, 113, 120), Rgb(168, 79, 84)))
    else if name == "cyan" then Some(ColorValue(Rgb(149, 230, 203), Rgb(104, 161, 142)))
    else if name == "gray" then Some(ColorValue(Rgb(95, 99, 110), Rgb(67, 69, 77)))
    else if name == "light_orange" then Some(ColorValue(Rgb(255, 180, 84), Rgb(179, 126, 59)))
    else if name == "light_yellow" then Some(ColorValue(Rgb(249, 175, 79), Rgb(174, 123, 55)))
    else if name == "light_green" then Some(ColorValue(Rgb(145, 179, 98), Rgb(102, 125, 69)))
    else if name == "light_blue" then Some(ColorValue(Rgb(83, 189, 250), Rgb(58, 132, 175)))
    else if name == "light_purple" then Some(ColorValue(Rgb(210, 166, 255), Rgb(147, 116, 179)))
    else if name == "light_red" then Some(ColorValue(Rgb(234, 108, 115), Rgb(164, 76, 81)))
    else if name == "light_cyan" then Some(ColorValue(Rgb(144, 225, 198), Rgb(101, 158, 139)))
    else None
  }

  /** A dimmed colour is never brighter than its normal colour, channel by channel. */
  lemma DimmedNeverBrighter(name: string)
    requires name in ColorNames
    ensures GetColorValue(name).Some?
    ensures var v := GetColorValue(name).value;
      v.dimmed.red <= v.normal.red && v.dimmed.green <= v.normal.green && v.dimmed.blue <= v.normal.blue
  {
  }
}
