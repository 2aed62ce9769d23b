/** The two IONEX file naming conventions: the legacy short name
    `tttdddf.yyi.Z` and the long name of the IGS file naming convention
    (`AAA0OPSFIN_YYYYDDD0000_01D_RRR_CNT.FMT.gz`), with the table of the
    dates from which each analysis centre publishes under the long name. */
module Ionex {
  import opened Wrappers
  import opened Decimal
  import opened Calendar

  /** `format_ionex_short`: the map type, the day of the year in three digits,
      the session digit `0`, a dot, the year's last two digits (`%y`) and `i.Z`. */
  function FormatShort(d: ValidDate, ionexType: string): string {
    ionexType + Pad(DayOfYear(d), 3) + "0." + Pad(d.year % 100, 2) + "i.Z"
  }

  /** The fields of a short name, for every type string and date: the type, the
      day of the year in three digits, `0.`, the year modulo 100 in two digits
      and `i.Z`; ten characters besides the type. */
  lemma ShortNameFields(d: ValidDate, ionexType: string)
    ensures var name := FormatShort(d, ionexType);
      var k := |ionexType|;
      && |name| == k + 10
      && name[..k] == ionexType
      && AllDigits(name[k..k + 3]) && DecimalValue(name[k..k + 3]) == DayOfYear(d)
      && name[k + 3..k + 5] == "0."
      && AllDigits(name[k + 5..k + 7]) && DecimalValue(name[k + 5..k + 7]) == d.year % 100
      && name[k + 7..] == "i.Z"
  {
    var doy := Pad(DayOfYear(d), 3);
    var yy := Pad(d.year % 100, 2);
    PadWidth(DayOfYear(d), 3);
    PadWidth(d.year % 100, 2);
    PadValue(DayOfYear(d), 3);
    PadValue(d.year % 100, 2);
    var name := FormatShort(d, ionexType);
    var k := |ionexType|;
    assert name[k..k + 3] == doy;
    assert name[k + 5..k + 7] == yy;
  }

  /** The long name for one agency, product resolution and content/format tag. */
  function LongName(agency: string, year: nat, doy: nat, resolution: string, content: string): string {
    agency + "0OPSFIN_" + Digits(year) + Pad(doy, 3) + "0000_01D_" + resolution + content
  }

  /** The types that have a long name at all; every other type, `casg`, `upcg`
      and `uqrg` among them, keeps the short name. */
  predicate HasLongName(ionexType: string) {
    ionexType == "igsg" || ionexType == "codg" || ionexType == "esag" || ionexType == "jplg"
  }

  /** `format_ionex_long`: the long name from the type's cutover onwards, None
      before it and for every type without a cutover. */
  function FormatLong(d: ValidDate, ionexType: string): (name: Option<string>)
    ensures name.Some? ==> HasLongName(ionexType)
  {
    var doy := DayOfYear(d);
    var year := d.year;
    if ionexType == "igsg" then
      if year > 2022 then Some(LongName("IGS", year, doy, "02H", "_GIM.INX.gz")) else None
    else if ionexType == "codg" then
      if (year == 2022 && doy > 330) || year > 2022 then Some(LongName("COD", year, doy, "01H", "_GIM.INX.gz")) else None
    else if ionexType == "esag" then
      if (year == 2022 && doy > 330) || year > 2022 then Some(LongName("ESA", year, doy, "02H", "_ION.IOX.gz")) else None
    else if ionexType == "jplg" then
      if year == 2023 && doy == 212 then Some(LongName("JPL", year, doy, "02H", "_GIM.INX.gz"))
      else if (year == 2023 && doy > 218) || year > 2023 then Some(LongName("JPL", year, doy, "02H", "_GIM.INX.gz"))
      else None
    else
      None
  }

  /** ASCII upper case, as the agency code is the type's first three letters. */
  function UpperAscii(s: string): (u: string)
    ensures |u| == |s|
    ensures forall i :: 0 <= i < |s| ==> u[i] == if 'a' <= s[i] <= 'z' then (s[i] as int - 32) as char else s[i]
  {
    if s == [] then []
    else
      var c := s[0];
      [if 'a' <= c <= 'z' then (c as int - 32) as char else c] + UpperAscii(s[1..])
  }

  /** IGS combined maps use the long name from 2023-01-01 on. */
  lemma IgsCutover(d: ValidDate)
    ensures FormatLong(d, "igsg").Some? <==> OnOrBefore(Date(2023, 1, 1), d)
  {
  }

  /** CODE and ESA maps use the long name from 2022-11-27 (day 331) on. */
  lemma CodeEsaCutover(d: ValidDate, ionexType: string)
    requires ionexType == "codg" || ionexType == "esag"
    ensures FormatLong(d, ionexType).Some? <==> OnOrBefore(Date(2022, 11, 27), d)
  {
    var cutover: ValidDate := Date(2022, 11, 27);
    assert DayOfYear(cutover) == 331;
    if d.year == 2022 {
      OrderByDayOfYear(cutover, d);
    }
  }

  /** JPL maps use the long name on 2023-07-31 (day 212) and from 2023-08-07
      (day 219) on, but not from 2023-08-01 to 2023-08-06 (days 213 to 218). */
  lemma JplCutover(d: ValidDate)
    ensures FormatLong(d, "jplg").Some? <==> d == Date(2023, 7, 31) || OnOrBefore(Date(2023, 8, 7), d)
  {
    var single: ValidDate := Date(2023, 7, 31);
    var resumed: ValidDate := Date(2023, 8, 7);
    assert DayOfYear(single) == 212;
    assert DayOfYear(resumed) == 219;
    if d.year == 2023 {
      OrderByDayOfYear(single, d);
      OrderByDayOfYear(resumed, d);
    }
  }

  /** For IGS, CODE and ESA, once a date has the long name, every later date has it. */
  lemma LongNameMonotone(d1: ValidDate, d2: ValidDate, ionexType: string)
    requires ionexType == "igsg" || ionexType == "codg" || ionexType == "esag"
    requires OnOrBefore(d1, d2) && FormatLong(d1, ionexType).Some?
    ensures FormatLong(d2, ionexType).Some?
  {
    if ionexType == "igsg" {
      IgsCutover(d1);
      IgsCutover(d2);
    } else {
      CodeEsaCutover(d1, ionexType);
      CodeEsaCutover(d2, ionexType);
    }
  }

  /** JPL is not monotone: day 212 of 2023 has the long name, day 213 does not. */
  lemma JplNotMonotone()
    ensures FormatLong(Date(2023, 7, 31), "jplg").Some?
    ensures FormatLong(Date(2023, 8, 1), "jplg").None?
    ensures FormatLong(Date(2023, 8, 6), "jplg").None?
    ensures FormatLong(Date(2023, 8, 7), "jplg").Some?
  {
    JplCutover(Date(2023, 7, 31));
    JplCutover(Date(2023, 8, 1));
    JplCutover(Date(2023, 8, 6));
    JplCutover(Date(2023, 8, 7));
  }

  /** The fields of a long name: agency (the type's first three letters in upper
      case), campaign and sample `0OPSFIN_`, the year and the three-digit day of
      the year, `0000_01D_` (a daily file from midnight), the map sampling
      (`01H` for CODE, `02H` otherwise) and the content and format
      (`_ION.IOX.gz` for ESA, `_GIM.INX.gz` otherwise). */
  lemma LongNameFields(d: ValidDate, ionexType: string)
    requires FormatLong(d, ionexType).Some?
    ensures var name := FormatLong(d, ionexType).value;
      && |name| == 41
      && name[..3] == UpperAscii(ionexType[..3]) && ionexType[3..] == "g"
      && name[3..11] == "0OPSFIN_"
      && AllDigits(name[11..15]) && DecimalValue(name[11..15]) == d.year
      && AllDigits(name[15..18]) && DecimalValue(name[15..18]) == DayOfYear(d)
      && name[18..27] == "0000_01D_"
      && name[27..30] == (if ionexType == "codg" then "01H" else "02H")
      && name[30..] == (if ionexType == "esag" then "_ION.IOX.gz" else "_GIM.INX.gz")
  {
    var resolution := if ionexType == "codg" then "01H" else "02H";
    var content := if ionexType == "esag" then "_ION.IOX.gz" else "_GIM.INX.gz";
    LongNameOfType(d, ionexType);
    LongNameLayout(UpperAscii(ionexType[..3]), d.year, DayOfYear(d), resolution, content);
  }

  lemma LongNameOfType(d: ValidDate, ionexType: string)
    requires FormatLong(d, ionexType).Some?
    ensures ionexType[3..] == "g"
    ensures FormatLong(d, ionexType).value
      == LongName(UpperAscii(ionexType[..3]), d.year, DayOfYear(d),
                  if ionexType == "codg" then "01H" else "02H",
                  if ionexType == "esag" then "_ION.IOX.gz" else "_GIM.INX.gz")
  {
    if ionexType == "igsg" {
      AgencyOfType(ionexType, "IGS");
    } else if ionexType == "codg" {
      AgencyOfType(ionexType, "COD");
    } else if ionexType == "esag" {
      AgencyOfType(ionexType, "ESA");
    } else {
      AgencyOfType(ionexType, "JPL");
    }
  }

  lemma AgencyOfType(ionexType: string, agency: string)
    requires (ionexType, agency) in {("igsg", "IGS"), ("codg", "COD"), ("esag", "ESA"), ("jplg", "JPL")}
    ensures UpperAscii(ionexType[..3]) == agency && ionexType[3..] == "g"
  {
  }

  /** Where each field sits in a long name with a four-digit year. */
  lemma LongNameLayout(agency: string, year: nat, doy: nat, resolution: string, content: string)
    requires |agency| == 3 && |resolution| == 3 && |content| == 11
    requires 1000 <= year <= 9999 && doy < 1000
    ensures var name := LongName(agency, year, doy, resolution, content);
      && |name| == 41
      && name[..3] == agency
      && name[3..11] == "0OPSFIN_"
      && AllDigits(name[11..15]) && DecimalValue(name[11..15]) == year
      && AllDigits(name[15..18]) && DecimalValue(name[15..18]) == doy
      && name[18..27] == "0000_01D_"
      && name[27..30] == resolution
      && name[30..] == content
  {
    var y := Digits(year);
    var p := Pad(doy, 3);
    DigitsAtMost(year, 4);
    DigitsMoreThan(year, 3);
    DigitsValue(year);
    PadWidth(doy, 3);
    PadValue(doy, 3);
    var name := LongName(agency, year, doy, resolution, content);
    assert name == agency + "0OPSFIN_" + y + p + "0000_01D_" + resolution + content;
    assert name[11..15] == y;
    assert name[15..18] == p;
  }

  /** CODE switches from day 330 to day 331 of 2022. */
  lemma CodeCutoverExample()
    ensures FormatLong(Date(2022, 11, 26), "codg").None?
    ensures FormatLong(Date(2022, 11, 27), "codg").Some?
  {
    CodeEsaCutover(Date(2022, 11, 26), "codg");
    CodeEsaCutover(Date(2022, 11, 27), "codg");
  }

  /** The short name of CODE's map of 2024-02-05, day 36: the day of the year
      takes three digits. */
  lemma CodeShortNameExample(d: ValidDate, codg: string)
    requires d == Date(2024, 2, 5) && codg == "codg"
    ensures FormatShort(d, codg) == "codg0360.24i.Z"
  {
    assert DayOfYear(d) == 36;
    assert Pad(36, 3) == "036" && Pad(24, 2) == "24";
  }
}
