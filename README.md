# bizwiz: business days, column helpers and the email builder

A Dafny model of the two self-contained pieces of the bizwiz helper library:

- the data tools in `bizwiz/datatools.py`. This is the business-day counter `__business_days`. It also covers three helpers that change a data frame in place:
  - `date_diff` writes a calendar-day or business-day difference per row.
  - `retain_leading_zero` wraps text values as the spreadsheet formula `="v"`.
  - `fill_leading_zero` zero-fills values the way `str.zfill` does.
- the `email` class in `bizwiz/compose_email.py`. It builds an HTML message by appending fixed fragments to its one `html` field.

Files:

- `calendar.dfy` (module `Calendar`): dates are proleptic Gregorian day ordinals, as `date.toordinal()` numbers them. The weekday is `(d + 6) % 7` (Monday 0, as `date.weekday()`). The start and end are normalised, and then comes the week/remainder arithmetic of `__business_days`. The main result is `BusinessDaysCorrect`: the function equals the number of Monday–Friday days in the inclusive range.
- `strings.dfy` (module `Strings`): `str.zfill`, the `="v"` wrapping and its inverse, ASCII `str.lower`, and `str(n)` for integers.
- `datatools.dfy` (module `DataTools`): a `Frame` class whose one field maps column names to columns of cells (text, integer or date; float and boolean cells are not modelled).
  - `RetainLeadingZero`, `FillLeadingZero` and `DateDiff` are methods that change that field in place.
  - Each method is tied to a specification function.
  - Lemmas state what those functions promise.
  - A raised exception becomes an error value (`KeyError`, `TypeError`, `ValueError`, `AttributeError`). Whatever the Python code had already written into the frame before raising stays written.
- `compose_email.dfy` (module `ComposeEmail`): class `Email` with one `string` field `html`. Every builder method states the new `html` exactly, says that the old `html` is a prefix of the new one, and returns the new `html`.
- `wrappers.dfy` (module `Wrappers`): `Option`.

Three points where the code does something other than a quick reading suggests (the last two assume the missing imports; see "Imports" under "## Left out"):

- `str.zfill` keeps a leading `+` or `-` in front of the zeros (`"-5".zfill(3) == "-05"`). The zeros are therefore not always the very first characters, and a negative calendar difference keeps its minus sign first when zero-filled.
- `date_diff`'s "calendar days" is `end - start` with no `+1`. Only the business-day count is inclusive.
- `date_diff`'s "business days" on a frame with no rows raises `AttributeError` after both date columns are converted. `df.apply(..., axis=1)` then returns an empty DataFrame rather than a Series, and a DataFrame has no `tolist`.

## Model

| member | source | states |
|---|---|---|
| Calendar.Weekday | bizwiz/datatools.py:161 | `date.weekday()` of a day ordinal lies in 0..6 (Monday 0) |
| Calendar.ForwardToMonday | bizwiz/datatools.py:161-162 | a Saturday or Sunday start moves forward by `7 - weekday` to a Monday; a weekday is kept; the result is the first business day on or after the date |
| Calendar.RewindToFriday | bizwiz/datatools.py:165-166 | a Saturday or Sunday end moves back by `weekday - 4` to a Friday; a weekday is kept; the result is the last business day on or before the date |
| Calendar.WeekdaySpan | bizwiz/datatools.py:168-179 | the week/remainder arithmetic is never negative, and is 0 when the start is after the end |
| Calendar.BusinessDays | bizwiz/datatools.py:157-181 | `__business_days` is never negative, and is 0 when the normalised start is after the normalised end |
| Calendar.NormalisationIdempotent | bizwiz/datatools.py:161-166 | normalising an already normalised start or end changes nothing |
| Calendar.CountBusinessDays | bizwiz/datatools.py:157-181 | the reference count of Monday–Friday days in [start, end]; it never exceeds the inclusive calendar span |
| Calendar.WeekdaySpanClosedForm | bizwiz/datatools.py:171-179 | between two business days, the week/remainder arithmetic (with its wrap-around correction) is five per week between their weeks plus the weekday gap plus one |
| Calendar.WeekdaySpanNext | bizwiz/datatools.py:168-179 | from a fixed business-day start, moving the end to the next business day raises the week/remainder formula (with its wrap-around correction) by exactly one |
| Calendar.BusinessDaysStep | bizwiz/datatools.py:157-181 | extending the range by one calendar day adds 1 if that day is Monday–Friday and 0 if it is a weekend day |
| Calendar.BusinessDaysCorrect | bizwiz/datatools.py:157-181 | `__business_days(start, end)` equals the number of Monday–Friday days in the inclusive range [start, end], for every pair of dates |
| Calendar.CountBusinessDaysPositive | bizwiz/datatools.py:168-169 | a range that holds a business day counts at least one |
| Calendar.BusinessDaysBounds | bizwiz/datatools.py:157-181 | the result is never negative, never exceeds the inclusive calendar span, and is 0 exactly when the normalised start is after the normalised end |
| Calendar.BusinessDaysExamples | bizwiz/datatools.py:168-179 | a weekday alone gives 1; Saturday to the next Sunday gives 0; Monday to Friday of the same week gives 5; Friday to the next Monday gives 2 |
| Strings.ZFill | bizwiz/datatools.py:108 | `str.zfill`: the length is `max(len, width)`; a value at least `width` long is unchanged; otherwise '0's are inserted on the left, after a leading sign if there is one, and the rest of the value ends the result |
| Strings.ZFillCompose | bizwiz/datatools.py:108 | zero-filling to one width and then another equals zero-filling once to the larger; zero-filling twice to the same width is the same as once |
| Strings.ZFillNegative | bizwiz/datatools.py:108 | zero-filling the text of a negative integer puts the minus sign first and the zeros after it |
| Strings.TextFormula | bizwiz/datatools.py:100 | the wrapping is three characters longer than the value: `="` in front, the value, and `"` at the end |
| Strings.TextFormulaRoundTrip | bizwiz/datatools.py:100 | the wrapping `="` + v + `"` can be read back to v, and only the wrapping of v reads back as v |
| Strings.Lower | bizwiz/datatools.py:186 | lower-casing keeps the length, leaves no upper-case ASCII letter, and changes only upper-case letters |
| Strings.LowerIdempotent | bizwiz/datatools.py:186 | lower-casing twice is lower-casing once |
| Strings.NatText | bizwiz/datatools.py:108 | `str(n)` of a natural number is a non-empty string of decimal digits that starts with '0' only for 0 |
| Strings.NatTextValue | bizwiz/datatools.py:108 | the decimal text of n denotes n |
| Strings.IntText | bizwiz/datatools.py:108 | `str(n)` starts with a sign exactly when n is negative, and the sign is '-' followed by the digits of -n |
| DataTools.RetainColumn | bizwiz/datatools.py:100 | a column succeeds exactly when every cell is text; each cell is then wrapped so that reading back gives the original value; other cell kinds raise |
| DataTools.RetainStep | bizwiz/datatools.py:99-100 | one turn of the loop succeeds exactly when the named column exists and holds only text; it changes only that column; on an error, the frame is unchanged and the error names that column |
| DataTools.RetainAll | bizwiz/datatools.py:99-100 | the loop keeps the frame's column set, and finishing without an error means every listed name was a column |
| DataTools.RetainAllStops | bizwiz/datatools.py:99-100 | once a listed column raises, no later column is processed |
| DataTools.RetainAllFrame | bizwiz/datatools.py:97-105 | the frame keeps its column set and row counts; columns not in the list are untouched; a raised error names a listed column |
| DataTools.RetainAllWraps | bizwiz/datatools.py:98-100 | with distinct listed columns that all exist and hold text, nothing is raised and each listed column is exactly its wrapped self |
| DataTools.RetainLeadingZero | bizwiz/datatools.py:97-105 | the loop over the listed columns leaves the frame and the error that `RetainAll` describes, and the frame stays rectangular |
| DataTools.CellText | bizwiz/datatools.py:108 | `astype(str)`: text is kept as is; an integer becomes digits, with a leading sign exactly when it is negative; a date becomes its `dateText` |
| DataTools.FillColumn | bizwiz/datatools.py:108 | each cell becomes text of length `max(len(str(v)), width)`: any leading sign of `str(v)` stays first, then '0's, then the rest of `str(v)` ends the text; a value already at least `width` long is kept as its text |
| DataTools.FillColumnIdempotent | bizwiz/datatools.py:108 | zero-filling a zero-filled column again changes nothing |
| DataTools.FillLeadingZero | bizwiz/datatools.py:107-109 | the named column is replaced by its zero-filled text and nothing else changes; a missing column raises `KeyError` and leaves the frame as it was |
| DataTools.ToDate | bizwiz/datatools.py:188-189 | a date cell converts to itself; any other cell converts as `parse` (pandas with `date_format`) reads it |
| DataTools.ToDates | bizwiz/datatools.py:188-189 | converting a column succeeds exactly when every cell converts, and gives each cell's date in row order |
| DataTools.ToDatesOfDates | bizwiz/datatools.py:188-189 | converting an already converted column gives back the same dates |
| DataTools.CalendarDiffs | bizwiz/datatools.py:192 | per row, start plus the written integer is end (an exclusive difference, negative when end comes first) |
| DataTools.BusinessDiffs | bizwiz/datatools.py:196 | per row, the written integer is the number of Monday–Friday days in [start, end] |
| DataTools.DateDiffResult | bizwiz/datatools.py:184-198 | whatever happens, every column of the resulting frame has the same number of rows |
| DataTools.DateDiffCaseInsensitive | bizwiz/datatools.py:186 | the result depends on `calculation` only through its lower-cased form |
| DataTools.DateDiffSucceeds | bizwiz/datatools.py:188-198 | when both columns exist and convert: both hold their dates; "calendar days" writes end − start; "business days" writes the business-day count, or raises `AttributeError` on a frame with no rows; any other calculation adds no column; nothing else is raised; only the start, end and output columns change |
| DataTools.DateDiffFails | bizwiz/datatools.py:188-196 | an error is raised exactly when a column is missing or fails to convert, or when "business days" meets a frame with no rows; a conversion error names the start or end column and leaves the frame untouched or with only its start column converted; the empty-frame error names the output column and leaves both date columns converted |
| DataTools.DateDiff | bizwiz/datatools.py:184-198 | the in-place steps leave the frame and the error that `DateDiffResult` describes, and the frame stays rectangular |
| ComposeEmail.Email.constructor | bizwiz/compose_email.py:2-3 | a new email's `html` is `<html><body>` |
| ComposeEmail.Email.Introduction | bizwiz/compose_email.py:5-7 | appends the text (default "Hi,") and `<br>`, and returns the new `html` |
| ComposeEmail.Email.Body | bizwiz/compose_email.py:9-13 | appends `<p>` + text + `</p>`; the body introduction has no effect; returns the new `html` |
| ComposeEmail.Email.EmbedTable | bizwiz/compose_email.py:22-26 | appends `<br> ` + header + `<br>` + the rendered table, and returns the new `html` |
| ComposeEmail.Email.ComposeEmail | bizwiz/compose_email.py:28-30 | appends `<br>` + salutation + `<br>` + signature + `</body></html>`, and returns the new `html` |
| ComposeEmail.StandardEmail | bizwiz/compose_email.py:1-30 | a greeting, a paragraph and a sign-off give exactly those parts in order, between `<html><body>` and `</body></html>` |

## Left out

- Imports: neither `bizwiz/datatools.py` nor `bizwiz/compose_email.py` has an import line. The model assumes `import pandas as pd` and `from datetime import timedelta`, as the code's use of `pd` and `timedelta` evidently intends. As written, three things happen that the model does not show:
  - `date_diff` raises `NameError` at bizwiz/datatools.py:188 on every call, before it changes the frame.
  - `__business_days` raises `NameError` at bizwiz/datatools.py:162 or 166 whenever the start or end falls on a Saturday or Sunday. For example, Saturday to the next Sunday raises instead of giving 0.
  - `email.embed_table` raises `NameError` at bizwiz/compose_email.py:23.
- Dates: `pd.to_datetime(..., format=date_format)` is the parameter `parse` of `DateDiff`, a function from a cell to an optional day ordinal. `date_format` is part of that parameter, and parsing itself is not modelled. A cell that already holds a date converts to itself.
- Dates: missing values (NaT, NaN) are not modelled, nor pandas' behaviour on them.
- Dates: the time of day is dropped; a date is a whole day. `pd.to_datetime` keeps times when `date_format` has time fields, and a datetime column keeps its times. Python then counts differently: `.dt.days` rounds down, so Monday 18:00 to Tuesday 09:00 gives 0 calendar days where the model gives 1. In `__business_days`, Tuesday 18:00 to the next Monday 09:00 has `.days` 5, which gives 0 weeks, remainder 0 and a result of 0, where the model gives 5.
- DataTools.RetainColumn: the column's dtype is not modelled. The model decides `TypeError` from the cells. Pandas decides it from the dtype, so on a column with no rows and an integer, boolean, float or datetime dtype, `'="' + df[col]` raises `TypeError`, where the model gives the empty column and no error. A missing value (NaN, None) in a text column stays missing in pandas, and the model has no such cell.
- Cells: float and boolean cells are not modelled. `astype(str)` writes a float as for example "1.0", and `'="' +` raises `TypeError` on a number or a boolean (modelled only for integers and dates).
- Strings.Lower: folds only the ASCII letters A–Z, while Python's `str.lower` also folds other Unicode letters. For the one use made of it, comparing with "calendar days" and "business days", the result is the same: no non-ASCII character lower-cases to a single ASCII letter of those two phrases.
- DataTools.FillColumn: `astype(str)` of a date cell is the parameter `dateText`, because pandas' timestamp formatting is not modelled. `astype(str)` of text is the text itself, and of an integer its decimal digits.
- DataTools.FillLeadingZero: only a single column name is modelled. With a list of names, pandas raises, because a DataFrame has no `.str` accessor.
- DataTools.RetainLeadingZero: only the list branch is modelled. The string branch (bizwiz/datatools.py:102-103) uses `col`, which is a local of the function because of the `for` at bizwiz/datatools.py:99 and is never bound on that path, so it always raises `UnboundLocalError` (a subclass of `NameError`). An argument that is neither a list nor a string returns the frame unchanged and is not modelled.
- Frames: column order is not kept, because a frame is a map from name to column. Column labels are strings.
- Frames: the helpers return the frame they were given. The methods change the `Frame` object in place and return only the error slot.
- The readers and writers of `bizwiz/datatools.py` are left out: `__csv_read`, `__xl_read`, `bulk_read_*`, `export_multi_*`, `append_parquet`, `query_parquet`, `dict_from_df`, `create_date_list`, `create_month_list` and `__date_range_calc`. They are file I/O, dataframe-library and database calls.
- `email.embed_image` (file read and base64 encoding) and `email.outlook_send` (Outlook COM automation) are left out. `embed_table` takes the table already rendered to HTML, because `to_html` and `render` belong to the dataframe library.
- `bizwiz/charter.py`, `src/bizwiz_sm/charts.py`, `bizwiz/filetools.py` and `bizwiz/dbmanager.py` are not part of this model. They are plotting, file and database wrappers.
