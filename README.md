# IONEX download planning (ionFR `url_download.py`)

A Dafny model of the planning part of `url_download.py`: the script that fetches
daily IONEX total-electron-content maps from the CDDIS archive. Given a date or a
date range and a map type, it works out which file to request for each day and
under which name to save it. The model covers:

- `get_date_range`, the loop that lists every day from a start date to an end
  date. It is an imperative `method` proved against the recursive function
  `DateRange`. Properties of `DateRange` are proved as lemmas: the day count, the
  successor chain, both ends, and membership.
- `format_ionex_short`, the legacy name `tttddd0.yyi.Z`. The day of the year
  always takes three digits here, following `{dayofyear:03d}` on line 58.
- `format_ionex_long`, the long name of the IGS naming convention,
  `AAA0OPSFIN_YYYYDDD0000_01D_RRR_CNT.FMT.gz`. It exists only from each
  analysis centre's cutover date on. The branches on year and day of the year
  in the code are restated as plain date comparisons, and the two are proved to
  agree.
- The body of the loop in `main`. The URL is the archive root, the year, the
  three-digit day of the year and the long name, or the short name when there is
  no long name. The local file is always saved under the short name. The model
  also proves that no two dates of one run request the same URL. Local names can
  repeat, though: the short name keeps only the last two digits of the year. In a
  range that spans a century, a later date is therefore saved under an earlier
  date's name and overwrites its file (`LocalNamesRepeatAcrossCentury`).

Dates are proleptic Gregorian `(year, month, day)` with years 1 to 9999, as in
Python's `datetime`; the `Calendar` module models the parts of `datetime` this
code relies on. `date <= end` is compared field by field. `tm_yday` is the day
of the year, and `toordinal` the day count used for termination and ordering.
`+ timedelta(days=1)` is `Successor`. It has no result on 9999-12-31, where
Python raises `OverflowError`. So `get_date_range` returns
`Failure(DateOverflow)` exactly when the start is on or before the end and the
end is 9999-12-31.

Years are rendered as Python renders an `int` in an f-string: plain decimal,
with no padding (`Decimal.Digits`). `%y` is the last two digits of the year,
zero-padded (`Decimal.Pad`). Every rendering is proved against reading the
digits back (`Decimal.DecimalValue`).

Modules: `Wrappers` (Option and Result), `Decimal`, `Calendar`, `DateRanges`,
`Ionex` (the two name formats) and `Download` (the loop in `main`).

## Model

| member | source | states |
|---|---|---|
| Calendar.OnOrBefore | url_download.py:34 | no ensures: Python's `<=` on dates, by year, then month, then day; `Calendar.OrderByOrdinal` ties it to the day count |
| Calendar.OrderByOrdinal | url_download.py:34 | `a <= b` on dates holds exactly when the day count of `a` is at most that of `b`, and two dates are equal exactly when their day counts are |
| Calendar.Successor | url_download.py:36 | stepping one day fails exactly on 9999-12-31, the last date `datetime` can hold |
| Calendar.SuccessorOrdinal | url_download.py:36 | the next date's day count is one more than the date's |
| Calendar.DayOfYear | url_download.py:57 | `tm_yday` lies between 1 and the number of days in the date's year |
| Calendar.OrderByDayOfYear | url_download.py:88 | within one year, comparing dates is comparing days of the year, both for `<=` and for equality |
| DateRanges.DateRange | url_download.py:32-37 | no ensures: the list of the start date and, while the date is not after the end, its successors; the four lemmas below pin it down |
| DateRanges.GetDateRange | url_download.py:16-37 | the loop returns exactly the `DateRange` list of start and end; it returns Failure(DateOverflow) exactly when the start is on or before the end and the end is the last representable date |
| DateRanges.DateRangeOrdinals | url_download.py:32-37 | the list holds the end's day count minus the start's plus one dates, or none when the start is after the end; the i-th date is i days after the start |
| DateRanges.DateRangeSteps | url_download.py:34-36 | every date of the list is followed by its calendar successor |
| DateRanges.DateRangeEnds | url_download.py:32-36 | when the start is not after the end, the list is non-empty, starts with the start date and ends with the end date |
| DateRanges.DateRangeMembers | url_download.py:34-35 | a date is in the list exactly when it lies between the start and the end, both included |
| Ionex.FormatShort | url_download.py:40-59 | no ensures: the type, the zero-padded day of the year, `0.`, the zero-padded year modulo 100 and `i.Z`; `Ionex.ShortNameFields` reads it back |
| Ionex.ShortNameFields | url_download.py:57-58 | the short name is the type followed by ten characters: three digits reading back as the day of the year, `0.`, two digits reading back as the year modulo 100, and `i.Z` |
| Ionex.CodeShortNameExample | url_download.py:58 | the short CODE name of 2024-02-05, day 36, is `codg0360.24i.Z` |
| Ionex.FormatLong | url_download.py:81-98 | a long name exists only for `igsg`, `codg`, `esag` and `jplg`; any other type string gives None |
| Ionex.IgsCutover | url_download.py:84-86 | `igsg` has a long name exactly from 2023-01-01 on |
| Ionex.CodeEsaCutover | url_download.py:87-92 | `codg` and `esag` have a long name exactly from 2022-11-27 (day 331 of 2022) on |
| Ionex.CodeCutoverExample | url_download.py:88-89 | CODE has no long name on 2022-11-26 and has one on 2022-11-27 |
| Ionex.JplCutover | url_download.py:93-97 | `jplg` has a long name exactly on 2023-07-31 and from 2023-08-07 on |
| Ionex.JplNotMonotone | url_download.py:94-97 | `jplg` has a long name on 2023-07-31 and 2023-08-07 but none on 2023-08-01 or 2023-08-06 |
| Ionex.LongNameMonotone | url_download.py:84-92 | for `igsg`, `codg` and `esag`, a later date keeps the long name once an earlier date has it |
| Ionex.LongNameOfType | url_download.py:84-97 | every long name is built from the agency (the type's first three letters in upper case), the year, the day of the year, `01H` for CODE or `02H` otherwise, and `_ION.IOX.gz` for ESA or `_GIM.INX.gz` otherwise |
| Ionex.LongNameLayout | url_download.py:86 | with a four-digit year, the long name is 41 characters long and each field sits at a fixed offset; the year and the day of the year read back as given |
| Ionex.LongNameFields | url_download.py:81-97 | every long name is 41 characters long: agency, `0OPSFIN_`, four digits reading back as the year, three reading back as the day of the year, `0000_01D_`, the sampling and the content tag |
| Decimal.Digits | url_download.py:86 | `str(n)` for a year: at least one character, all decimal digits; `Decimal.DigitsValue` reads it back |
| Decimal.Pad | url_download.py:58 | `{n:03d}`: all digits, as long as the width or as `str(n)` when that is longer; `Decimal.PadValue` reads it back |
| Decimal.DigitsValue | url_download.py:86 | the plain decimal rendering of a year reads back as that year and starts with `0` only for zero |
| Decimal.PadValue | url_download.py:58 | a zero-padded number reads back as the number |
| Decimal.PadWidth | url_download.py:58 | a number below 10^w is zero-padded to exactly w characters |
| Download.UrlFor | url_download.py:134-136 | no ensures: the archive root, the year, `/`, the three-digit day of the year, `/` and the file name; `Download.UrlForFields` reads it back |
| Download.RemoteName | url_download.py:130-136 | no ensures: the long name when there is one, the short name otherwise; `Download.UrlFields` states the choice |
| Download.ResolveTarget | url_download.py:129-142 | no ensures: one iteration's URL and local name; pinned down by `Download.UrlFields` and `Download.LocalNameIsRemoteNameIff` |
| Download.UrlForFields | url_download.py:131-136 | past the archive root the URL holds 1 to 4 decimal digits reading back as the year, `/`, three digits reading back as the day of the year, `/`, and then exactly the file name |
| Download.UrlFields | url_download.py:128-142 | the file name at the end of the URL is the long name when the date has one, and it is the short name exactly when the date has none; the local name is always the short name |
| Download.RemoteNameChoice | url_download.py:133-136 | the remote file name is the long name when the date has one, and it equals the short name exactly when the date has none |
| Download.DatesFor | url_download.py:119-126 | no ensures: the start date alone without an end date, the `get_date_range` list otherwise; `Download.Plan` ties it to the loop |
| Download.LocalNamesRepeatAcrossCentury | url_download.py:58 | 2000-01-01 and 2100-01-01 both lie in the range from the first to the second, and they are saved under the same local name |
| Download.LocalNameIsRemoteNameIff | url_download.py:129-142 | the saved file has the remote file's name exactly when the date has no long name |
| Download.DistinctDatesDistinctUrls | url_download.py:131-136 | two distinct dates are requested from two distinct URLs, for every type string |
| Download.ResolveTargets | url_download.py:128-136 | the loop yields one target per date, in order, each the URL and local name of its date |
| Download.Plan | url_download.py:119-136 | without an end date, only the start date is processed; with one, the dates are those of `get_date_range`; it fails before any request exactly when that range overflows |
| Download.PlannedTargetsDistinct | url_download.py:126-136 | no URL is requested twice in one run |

## Left out

- Command-line parsing (lines 102-118 and 122-125): `argparse`, `strptime` and `parser.error`. The model takes the start date as a valid date, and the end date as an optional valid date; a malformed date string ends the script before any of the modelled code runs.
- The type is any string in the model. The command line only offers the six types of line 102, which do not include `esag`, so `FormatLong`'s `esag` branch cannot be reached from the command line; it is modelled all the same.
- The time of day carried by a `datetime`: `strptime` sets it to midnight, and none of the modelled code reads it.
- Printing, the HTTP request and the write of the file (lines 138-144). Network failures, HTTP error statuses and saving an error page under the short name are therefore not modelled.
- Years outside 1 to 9999, which `datetime` cannot represent.
- DateRanges.GetDateRange: the partial list Python has built before `OverflowError` is not returned, just as the exception discards it.
- The two URL f-strings of lines 134 and 136 differ only in the file name, so the model builds both with one function.
