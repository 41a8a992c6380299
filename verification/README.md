# Social-media cleaning pipeline, metadata cards and variable inventories — a Dafny model

This project models the logic of a student research repository about social-media use
and academic and productivity outcomes. It covers four scripts.

- **The cleaning pipeline** (`notebooks/02_cleaning_pipeline.py`). It takes a raw survey table and does the following, in order:
  - resolves each canonical field (`hours_social_media`, `sleep_hours`, `platform_primary`, `acad_impact`, `addiction_score`) to a raw column name through a priority-ordered alias list (`pick`);
  - coerces each numeric field (`to_num`). A numeric column passes through. A text column becomes, cell by cell, the first match of `-?\d+\.?\d*`. An unresolved field becomes all missing;
  - masks values out of range, keeping every row;
  - fills gaps with the column median when the column has any value;
  - derives `heavy_user` (the 0.75 quantile cut), `sleep_ok` (at least 7 hours) and `platform_group` (an ordered keyword search);
  - keeps an append-only log of what it did.

  The output frame is a class (`Pipeline.CleanTable`) holding one array per numeric column. Its methods mask and impute those arrays in place. Each method is proved to leave the state that a pure function describes, and the whole run (`Pipeline.Clean`) is proved to produce `Pipeline.CleanSpec(raw)` and the log lines `Pipeline.LogSpec(raw, src)`.
- **The card converter** (`cards/card2csv.py`):
  - `load` unwraps decoded metadata: a string is decoded again, a non-empty list gives its first element, and anything that is not a dictionary is a TypeError;
  - `flat` turns every CR and LF into a space;
  - the output row has the five fixed fields in order.

  The JSON decoder is a function parameter. The decoded value is a datatype (`Cards.Json`).
- **The two variable-inventory scripts** (`notebooks/make_variable_inventory_simple.py`, `notebooks/make_variable_inventory_qssr.py`). Both use a four-way "Present In" classification:
  - the simple inventory looks aliases up with a default, so an unknown variable is "—";
  - the QSSR inventory looks them up strictly, so an unknown variable is a KeyError;
  - the QSSR table is a fixed eight rows, and only two of them are computed.

Modules, one per file:

| Module | What it holds |
|---|---|
| `Wrappers` | the `Option` and `Result` types |
| `Text` | digits, ASCII lower-casing, substring search, character replacement, stripping, decimal rendering, joining |
| `Stats` | an insertion-sort function, median and linear 0.75 quantile |
| `NumberScan` | the regular-expression scanner |
| `Resolve` | `pick` |
| `Coerce` | the raw table and `to_num` |
| `Cleaning` | masking and imputation, as functions and as in-place array methods |
| `Features` | the derived columns |
| `Pipeline` | the log, the output table and the whole run |
| `Cards` | the card converter |
| `Presence` | the shared classification |
| `InventorySimple`, `InventoryQssr` | the two inventory scripts |

The model follows the code as written:
- The scanner takes the first match anywhere in a cell, not only a leading one.
- The keyword lists are exactly `tiktok`, `short`, `reels`, `youtube`; `instagram`, `insta`, `snap`, `pinterest`; and `linkedin`, `reddit`, `quora`, `discord`.
- Only the five aliased fields are resolved. `gpa` is an all-missing placeholder, and only four columns are imputed.
- The script writes no log line while it imputes. The modelled log is the load line, the header line and the five mapping lines.

## Model

Paths are relative to the repository's source tree.

| member | source | states |
|---|---|---|
| Resolve.FirstPresent | INST414-Jessica-Barke--Project/notebooks/02_cleaning_pipeline.py:30-34 | a resolved name is in both the alias list and the header, and every alias listed before it is not a column; no result only when no alias is a column |
| Resolve.Pick | INST414-Jessica-Barke--Project/notebooks/02_cleaning_pipeline.py:30-34 | the early-return loop returns exactly the first alias, in list order, that is a column, or None |
| Resolve.EarlierAliasWins | INST414-Jessica-Barke--Project/notebooks/02_cleaning_pipeline.py:30-34 | once an alias list resolves, aliases appended after it never change the choice |
| Resolve.ResolveIdempotent | INST414-Jessica-Barke--Project/notebooks/02_cleaning_pipeline.py:30-34 | resolving again from the chosen name alone yields the same name |
| NumberScan.FindMatch | INST414-Jessica-Barke--Project/notebooks/02_cleaning_pipeline.py:42 | the result is the leftmost position where `-?\d` can start a match; None exactly when no position can |
| NumberScan.DigitRunEnd | INST414-Jessica-Barke--Project/notebooks/02_cleaning_pipeline.py:42 | the digit run is maximal: all digits up to the end, and no digit at the end |
| NumberScan.TokenAt | INST414-Jessica-Barke--Project/notebooks/02_cleaning_pipeline.py:42 | the token has the pattern's shape: at least one whole digit, fraction digits only after a point |
| NumberScan.TokenAtMatchesText | INST414-Jessica-Barke--Project/notebooks/02_cleaning_pipeline.py:42 | the token's text is exactly the text at the match position |
| NumberScan.TokenAtGreedy | INST414-Jessica-Barke--Project/notebooks/02_cleaning_pipeline.py:42 | the match is greedy: no digit follows it, and no point follows a match without one |
| NumberScan.TokenValue | INST414-Jessica-Barke--Project/notebooks/02_cleaning_pipeline.py:43 | a matched token's whole digits are the integer part of its value, the fraction digits add less than one, and a minus sign negates both |
| NumberScan.TokenValueScaled | INST414-Jessica-Barke--Project/notebooks/02_cleaning_pipeline.py:43 | the exact decimal value: the digits read with the point removed, signed, divided by ten once per fraction digit |
| NumberScan.DigitsAppend | INST414-Jessica-Barke--Project/notebooks/02_cleaning_pipeline.py:43 | digits appended to a digit string shift its value by a power of ten and add theirs |
| NumberScan.MatchDigits | INST414-Jessica-Barke--Project/notebooks/02_cleaning_pipeline.py:42 | the search finds no match exactly when the text holds no digit |
| NumberScan.Extract | INST414-Jessica-Barke--Project/notebooks/02_cleaning_pipeline.py:42-43 | a cell's text becomes missing exactly when it holds no digit; otherwise it is the value of the leftmost greedy match |
| NumberScan.ExtractSomeIff | INST414-Jessica-Barke--Project/notebooks/02_cleaning_pipeline.py:42-43 | a cell yields a number exactly when its text holds a digit |
| NumberScan.DigitsOfNat | INST414-Jessica-Barke--Project/notebooks/02_cleaning_pipeline.py:42-43 | the decimal rendering of a natural number is all digits and reads back as that number |
| NumberScan.ExtractSignedDigits | INST414-Jessica-Barke--Project/notebooks/02_cleaning_pipeline.py:42-43 | an optional minus and a digit string scan to their signed value |
| NumberScan.ExtractIntText | INST414-Jessica-Barke--Project/notebooks/02_cleaning_pipeline.py:42-43 | round trip: scanning the decimal text of any integer gives that integer |
| NumberScan.ExtractTilde | INST414-Jessica-Barke--Project/notebooks/02_cleaning_pipeline.py:41-43 | "~4" scans to 4 |
| NumberScan.ExtractHours | INST414-Jessica-Barke--Project/notebooks/02_cleaning_pipeline.py:41-43 | "3.5 hrs" scans to 3.5 |
| NumberScan.ExtractTwoFractionDigits | INST414-Jessica-Barke--Project/notebooks/02_cleaning_pipeline.py:41-43 | "2.75 hrs" scans to 2.75: every fraction digit counts |
| NumberScan.ExtractNan | INST414-Jessica-Barke--Project/notebooks/02_cleaning_pipeline.py:42-43 | "nan" (a missing cell rendered as text) scans to missing |
| Coerce.AllMissing | INST414-Jessica-Barke--Project/notebooks/02_cleaning_pipeline.py:37-38 | n cells, every one missing |
| Coerce.CellNumber | INST414-Jessica-Barke--Project/notebooks/02_cleaning_pipeline.py:42-43 | a missing cell stays missing; a present cell becomes missing exactly when its text holds no digit |
| Coerce.ToNum | INST414-Jessica-Barke--Project/notebooks/02_cleaning_pipeline.py:36-43 | an unresolved column gives all missing of the raw row count; a numeric column passes through unchanged; a text column keeps its length |
| Coerce.ToNumText | INST414-Jessica-Barke--Project/notebooks/02_cleaning_pipeline.py:39-43 | on a text column, cell i is a number exactly when it is present and holds a digit, and then it is the scan of that cell |
| Coerce.ToNumCellwise | INST414-Jessica-Barke--Project/notebooks/02_cleaning_pipeline.py:42-43 | coercion is per cell: two columns agreeing on cell i agree on it after coercion, whatever else they hold |
| Coerce.Selected | INST414-Jessica-Barke--Project/notebooks/02_cleaning_pipeline.py:60-64 | a column is taken exactly when the picked name is present and non-empty, and it is that raw column, one cell per row |
| Coerce.Lookup | INST414-Jessica-Barke--Project/notebooks/02_cleaning_pipeline.py:48-64 | a field has a column exactly when its alias list resolves to a non-empty name |
| Coerce.NumericField | INST414-Jessica-Barke--Project/notebooks/02_cleaning_pipeline.py:60-64 | one cell per raw row, all missing when no alias resolves |
| Coerce.RawField | INST414-Jessica-Barke--Project/notebooks/02_cleaning_pipeline.py:62 | the resolved platform column as it is, or, when no alias resolves, a numeric column of the raw row count whose every cell is missing |
| Text.Lower | INST414-Jessica-Barke--Project/notebooks/02_cleaning_pipeline.py:96 | same length; each character lower-cased on its own |
| Text.LowerChar | INST414-Jessica-Barke--Project/notebooks/02_cleaning_pipeline.py:96 | an upper-case ASCII letter becomes the lower-case letter 32 code points above it; every other character is kept |
| Stats.Insert | INST414-Jessica-Barke--Project/notebooks/02_cleaning_pipeline.py:80 | inserting one value lengthens the sequence by one |
| Stats.InsertSorted | INST414-Jessica-Barke--Project/notebooks/02_cleaning_pipeline.py:80 | insertion into a sorted sequence keeps it sorted and keeps every lower bound |
| Stats.InsertPermutes | INST414-Jessica-Barke--Project/notebooks/02_cleaning_pipeline.py:80 | insertion adds exactly the inserted value to the multiset |
| Stats.SortAsc | INST414-Jessica-Barke--Project/notebooks/02_cleaning_pipeline.py:80 | sorting keeps the length |
| Stats.SortAscSpec | INST414-Jessica-Barke--Project/notebooks/02_cleaning_pipeline.py:80 | the sorted values are ascending and a permutation of the input |
| Stats.SortedUnique | INST414-Jessica-Barke--Project/notebooks/02_cleaning_pipeline.py:80 | two ascending sequences with the same multiset are equal |
| Stats.SortAscPermutation | INST414-Jessica-Barke--Project/notebooks/02_cleaning_pipeline.py:80 | reordering the input does not change the sorted values |
| Stats.SortAscFrom | INST414-Jessica-Barke--Project/notebooks/02_cleaning_pipeline.py:80 | every sorted value is an input value |
| Stats.Middle | INST414-Jessica-Barke--Project/notebooks/02_cleaning_pipeline.py:80 | with an odd count the middle value, with an even count the mean of the two middle values; on sorted values it lies between them |
| Stats.Median | INST414-Jessica-Barke--Project/notebooks/02_cleaning_pipeline.py:80 | with an odd count the middle sorted value (one of the values), with an even count the mean of the two middle sorted values; always between those two |
| Stats.Interpolate | INST414-Jessica-Barke--Project/notebooks/02_cleaning_pipeline.py:84 | when the position 0.75 * (n - 1) is whole, the value at that sorted position exactly; with `InterpolateLinear`, the linear formula at a fractional position |
| Stats.InterpolateLinear | INST414-Jessica-Barke--Project/notebooks/02_cleaning_pipeline.py:84 | on evenly spaced values a + k * d the result is a + 0.75 * (n - 1) * d, so a fractional position is interpolated linearly, not rounded down or to the nearest value |
| Stats.Quantile75 | INST414-Jessica-Barke--Project/notebooks/02_cleaning_pipeline.py:84 | the 0.75 quantile lies between the sorted values at floor(0.75 * (n - 1)) and the next position, and is one of the values when that position is whole |
| Stats.MedianBounds | INST414-Jessica-Barke--Project/notebooks/02_cleaning_pipeline.py:80 | the median lies within any bounds that all values respect |
| Stats.MedianPermutation | INST414-Jessica-Barke--Project/notebooks/02_cleaning_pipeline.py:80 | the median depends only on the multiset of values, not on row order |
| Stats.InterpolateBetween | INST414-Jessica-Barke--Project/notebooks/02_cleaning_pipeline.py:84 | on sorted values, the interpolated 0.75 position lies between its two neighbouring values |
| Stats.QuantileBetweenValues | INST414-Jessica-Barke--Project/notebooks/02_cleaning_pipeline.py:84 | the 0.75 quantile is at least one value and at most another |
| Stats.QuantilePermutation | INST414-Jessica-Barke--Project/notebooks/02_cleaning_pipeline.py:84 | the quantile depends only on the multiset of values |
| Stats.MedianExample | INST414-Jessica-Barke--Project/notebooks/02_cleaning_pipeline.py:80 | the median of 2, 6, 4 is 4 |
| Stats.MedianEvenExample | INST414-Jessica-Barke--Project/notebooks/02_cleaning_pipeline.py:80 | with an even count the median is the mean of the two middle values: 1, 5, 3, 9 gives 4 |
| Stats.QuantileExample | INST414-Jessica-Barke--Project/notebooks/02_cleaning_pipeline.py:84 | the linear 0.75 quantile of 1, 2, 3, 4, 10 is 4 |
| Stats.QuantileFractionalExample | INST414-Jessica-Barke--Project/notebooks/02_cleaning_pipeline.py:84 | at the fractional position 2.25, the 0.75 quantile of 4, 1, 3, 2 is 3.25 |
| Stats.SortFourExample | INST414-Jessica-Barke--Project/notebooks/02_cleaning_pipeline.py:80-84 | 4, 1, 3, 2 sort to 1, 2, 3, 4 |
| Cleaning.Masked | INST414-Jessica-Barke--Project/notebooks/02_cleaning_pipeline.py:70-72 | same length; every kept value is within the bounds; in-range values are unchanged; a cell ends missing exactly when it was missing or out of range |
| Cleaning.MaskedExample | INST414-Jessica-Barke--Project/notebooks/02_cleaning_pipeline.py:70 | the bounds are inclusive: 0 and 24 stay, -1 and 25 become missing |
| Cleaning.HasValue | INST414-Jessica-Barke--Project/notebooks/02_cleaning_pipeline.py:79 | false on an empty column, and true whenever some cell is present |
| Cleaning.Present | INST414-Jessica-Barke--Project/notebooks/02_cleaning_pipeline.py:79-80 | the present values are non-empty exactly when the column has a value; one cell gives its value or nothing |
| Cleaning.PresentAppend | INST414-Jessica-Barke--Project/notebooks/02_cleaning_pipeline.py:79-80 | the present values of stacked columns are concatenated, so each present cell counts once, duplicates included, in row order |
| Cleaning.PresentValues | INST414-Jessica-Barke--Project/notebooks/02_cleaning_pipeline.py:80 | a value is among the present values exactly when some cell holds it |
| Cleaning.Imputed | INST414-Jessica-Barke--Project/notebooks/02_cleaning_pipeline.py:78-80 | with any value present, no cell is missing, present cells are unchanged, and every filled cell is the median of the present values; an all-missing column is unchanged |
| Cleaning.ImputedKeepsBounds | INST414-Jessica-Barke--Project/notebooks/02_cleaning_pipeline.py:70-80 | imputation keeps every bound that the present values respect |
| Cleaning.ImputedExample | INST414-Jessica-Barke--Project/notebooks/02_cleaning_pipeline.py:78-80 | [2, _, 6, _, 4] imputes to [2, 4, 6, 4, 4] |
| Cleaning.MaskColumn | INST414-Jessica-Barke--Project/notebooks/02_cleaning_pipeline.py:70-72 | in place: the array ends as the mask of its old contents |
| Cleaning.ImputeColumn | INST414-Jessica-Barke--Project/notebooks/02_cleaning_pipeline.py:78-80 | in place: the array ends as the imputation of its old contents, the median taken before any cell is filled |
| Features.HeavyUser | INST414-Jessica-Barke--Project/notebooks/02_cleaning_pipeline.py:83-87 | all `pd.NA` when no hours are present; otherwise every row is 0 or 1, and 1 exactly when its hours are at least the 0.75 quantile of the present hours |
| Features.SomeHeavyUser | INST414-Jessica-Barke--Project/notebooks/02_cleaning_pipeline.py:83-85 | whenever any hours are present, at least one row is a heavy user |
| Features.HeavyUserExample | INST414-Jessica-Barke--Project/notebooks/02_cleaning_pipeline.py:83-85 | hours 1, 2, 3, 4, 10 flag exactly the rows holding 4 and 10 |
| Features.SleepOk | INST414-Jessica-Barke--Project/notebooks/02_cleaning_pipeline.py:89-92 | all `pd.NA` when no sleep value is present; otherwise 0 or 1, and 1 exactly when sleep is at least 7 |
| Features.AnyKeyword | INST414-Jessica-Barke--Project/notebooks/02_cleaning_pipeline.py:97-99 | no keyword never hits, the empty keyword always hits, and any single keyword that occurs makes the group hit |
| Text.Contains | INST414-Jessica-Barke--Project/notebooks/02_cleaning_pipeline.py:97-99 | the empty text occurs in every text, and no text occurs in a shorter one |
| Features.MapPlatform | INST414-Jessica-Barke--Project/notebooks/02_cleaning_pipeline.py:94-100 | always one of the four labels; missing gives "Other"; each group is chosen exactly when its keywords hit and no earlier group's do |
| Features.LowerIdempotent | INST414-Jessica-Barke--Project/notebooks/02_cleaning_pipeline.py:96 | lower-casing twice is lower-casing once |
| Features.MapPlatformIgnoresCase | INST414-Jessica-Barke--Project/notebooks/02_cleaning_pipeline.py:96 | a text and its lower-case form get the same group |
| Features.InstagramImpliesInsta | INST414-Jessica-Barke--Project/notebooks/02_cleaning_pipeline.py:98 | a text holding "instagram" holds "insta", so the longer keyword never decides alone |
| Features.MapPlatformExample | INST414-Jessica-Barke--Project/notebooks/02_cleaning_pipeline.py:97-98 | "TikTok Reels and Instagram" is Short-video: the earlier group wins |
| Features.MapPlatformSnapchat | INST414-Jessica-Barke--Project/notebooks/02_cleaning_pipeline.py:97-98 | "Snapchat" is Image-centric through the keyword "snap" |
| Features.PlatformGroups | INST414-Jessica-Barke--Project/notebooks/02_cleaning_pipeline.py:102 | one group per row: text cells are mapped one by one, numeric cells are "Other" |
| Pipeline.Cleaned | INST414-Jessica-Barke--Project/notebooks/02_cleaning_pipeline.py:67-102 | every output column has one entry per input row, and the GPA placeholder is all missing |
| Pipeline.CleanSpec | INST414-Jessica-Barke--Project/notebooks/02_cleaning_pipeline.py:45-102 | row-count invariance: every output column has exactly the raw row count |
| Pipeline.CleanBounds | INST414-Jessica-Barke--Project/notebooks/02_cleaning_pipeline.py:70-80 | in the written table, present hours and sleep lie in [0, 24] and academic impact is at least 0, imputed cells included |
| Pipeline.CleanHeavyUserDefined | INST414-Jessica-Barke--Project/notebooks/02_cleaning_pipeline.py:78-87 | if any hours value survives the mask, the hours column has no gap, every heavy-user flag is 0 or 1, and some row is flagged |
| Pipeline.MissingHoursNoFlags | INST414-Jessica-Barke--Project/notebooks/02_cleaning_pipeline.py:83-87 | with no hours column, every heavy-user flag is `pd.NA` |
| Pipeline.NameText | INST414-Jessica-Barke--Project/notebooks/02_cleaning_pipeline.py:54-58 | a picked name prints as itself and an unresolved one as "None" |
| Pipeline.LoadLine | INST414-Jessica-Barke--Project/notebooks/02_cleaning_pipeline.py:18 | the first log line is "Loaded raw: " and the source path, then the shape as "(rows, columns)" with both counts in decimal |
| Pipeline.HeaderLine | INST414-Jessica-Barke--Project/notebooks/02_cleaning_pipeline.py:19 | the second log line starts with "Raw columns: "; with no columns that is all; otherwise its length is the names plus one ", " between neighbours |
| Pipeline.HeaderLineAppend | INST414-Jessica-Barke--Project/notebooks/02_cleaning_pipeline.py:19 | a header with one more column extends the line by ", " and that name: the names appear in header order, one separator between neighbours and none after the last |
| Pipeline.MapLine | INST414-Jessica-Barke--Project/notebooks/02_cleaning_pipeline.py:54-58 | a mapping line starts with "Map " and the field label and ends with the picked raw name, or with "None" when nothing resolved |
| Pipeline.MapLines | INST414-Jessica-Barke--Project/notebooks/02_cleaning_pipeline.py:54-58 | five mapping lines |
| Pipeline.LogSpec | INST414-Jessica-Barke--Project/notebooks/02_cleaning_pipeline.py:18-58 | seven lines: load, header, then one per canonical field |
| Pipeline.MapLineReportsNone | INST414-Jessica-Barke--Project/notebooks/02_cleaning_pipeline.py:54-58 | a mapping line reads "None" exactly when the field is unresolved or its raw name is itself "None" |
| Pipeline.LogReportsMissingHours | INST414-Jessica-Barke--Project/notebooks/02_cleaning_pipeline.py:54 | the hours mapping line reads "None" exactly when the hours alias is not a raw column |
| Pipeline.CleaningLog.constructor | INST414-Jessica-Barke--Project/notebooks/02_cleaning_pipeline.py:11 | the log starts empty |
| Pipeline.CleaningLog.Add | INST414-Jessica-Barke--Project/notebooks/02_cleaning_pipeline.py:12-13 | append-only: the message goes at the end and earlier lines stay |
| Pipeline.CleanTable.constructor | INST414-Jessica-Barke--Project/notebooks/02_cleaning_pipeline.py:45-67 | fresh, distinct arrays holding the mapped columns, one cell per row, and an all-missing GPA |
| Pipeline.CleanTable.Sanitise | INST414-Jessica-Barke--Project/notebooks/02_cleaning_pipeline.py:70-72 | hours and sleep are masked to [0, 24] and academic impact to at least 0, in place; nothing else changes |
| Pipeline.CleanTable.Impute | INST414-Jessica-Barke--Project/notebooks/02_cleaning_pipeline.py:78-80 | each of the four numeric columns is imputed with its own median, in place |
| Pipeline.CleanTable.DeriveFeatures | INST414-Jessica-Barke--Project/notebooks/02_cleaning_pipeline.py:83-102 | the three derived columns are computed from the current hours, sleep and platform columns |
| Pipeline.MapColumns | INST414-Jessica-Barke--Project/notebooks/02_cleaning_pipeline.py:16-58 | the picked names are the resolutions of the alias lists, and the log is exactly the seven specified lines |
| Pipeline.LogMapping | INST414-Jessica-Barke--Project/notebooks/02_cleaning_pipeline.py:54-58 | the five mapping lines are appended in order |
| Pipeline.AddAll | INST414-Jessica-Barke--Project/notebooks/02_cleaning_pipeline.py:54-58 | adding several messages one after another leaves them at the end of the log in order, with the earlier lines kept |
| Pipeline.Process | INST414-Jessica-Barke--Project/notebooks/02_cleaning_pipeline.py:45-102 | build, sanitise, impute and derive leave the table that `Cleaned` describes |
| Pipeline.BuildTable | INST414-Jessica-Barke--Project/notebooks/02_cleaning_pipeline.py:60-102 | from the picked names, the run leaves the table that `CleanSpec` describes |
| Pipeline.CoerceFields | INST414-Jessica-Barke--Project/notebooks/02_cleaning_pipeline.py:60-64 | the five mapped columns taken from the picked names are exactly the specified fields: coerced numeric columns, all missing when unresolved, and the raw platform column |
| Pipeline.Clean | INST414-Jessica-Barke--Project/notebooks/02_cleaning_pipeline.py:11-102 | the whole run: the table is `CleanSpec(raw)` and the log is `LogSpec(raw, src)` |
| Text.Strip | INST414-Jessica-Barke--Project/cards/card2csv.py:11 | the result is no longer than the input and has no space at either end |
| Text.StripSlice | INST414-Jessica-Barke--Project/cards/card2csv.py:11 | the stripped text is a slice of the input with only spaces before and after it |
| Text.StripStart | INST414-Jessica-Barke--Project/cards/card2csv.py:11 | the longest suffix that does not start with a space: everything dropped is space |
| Text.StripEnd | INST414-Jessica-Barke--Project/cards/card2csv.py:11 | the longest prefix that does not end with a space: everything dropped is space |
| Text.ReplaceChar | INST414-Jessica-Barke--Project/cards/card2csv.py:22 | same length; exactly the occurrences of one character are replaced |
| Text.NatToString | INST414-Jessica-Barke--Project/notebooks/02_cleaning_pipeline.py:18 | a non-empty string of digits with no leading zero, "0" for zero |
| Text.IntToString | INST414-Jessica-Barke--Project/cards/card2csv.py:22 | a non-empty rendering that starts with "-" exactly for a negative number, with only digits after the first character and no leading zero after the sign |
| Text.Join | INST414-Jessica-Barke--Project/notebooks/02_cleaning_pipeline.py:19 | no parts give ""; one part gives itself; otherwise the first part comes first and the length is every part's characters plus one separator fewer than there are parts |
| Text.JoinAppend | INST414-Jessica-Barke--Project/notebooks/02_cleaning_pipeline.py:19 | joining one more part appends the separator and that part at the end |
| Cards.Reparse | INST414-Jessica-Barke--Project/cards/card2csv.py:13-14 | a string is decoded again, with the decoder's own outcome; any other value is kept |
| Cards.FirstOfList | INST414-Jessica-Barke--Project/cards/card2csv.py:15-16 | a non-empty list gives its first element; anything else is kept |
| Cards.TypeName | INST414-Jessica-Barke--Project/cards/card2csv.py:18 | a value's type name is never empty, and it is "dict" exactly for a dictionary |
| Cards.NotADict | INST414-Jessica-Barke--Project/cards/card2csv.py:18 | the TypeError message is the path, " parsed to ", the value's type name, then ", expected dict" |
| Cards.Load | INST414-Jessica-Barke--Project/cards/card2csv.py:9-19 | a failed first decode is reported as such; success needs the first decode to succeed; a TypeError names a value that is not a dictionary; a decode error comes only from a failed first decode or a failed second decode of a string |
| Cards.LoadUnwrapped | INST414-Jessica-Barke--Project/cards/card2csv.py:12-19 | once both decodes succeed, the unwrapped value decides: a dictionary is returned, and any other value, of whatever type, is a TypeError naming that value |
| Cards.LoadSecondDecodeFails | INST414-Jessica-Barke--Project/cards/card2csv.py:13-14 | a string whose contents fail to decode is reported with the second decoder's complaint |
| Cards.LoadDict | INST414-Jessica-Barke--Project/cards/card2csv.py:12-19 | a decoded dictionary is returned unchanged |
| Cards.LoadStringWrapped | INST414-Jessica-Barke--Project/cards/card2csv.py:13-14 | a top-level string is decoded a second time |
| Cards.LoadFirstOfList | INST414-Jessica-Barke--Project/cards/card2csv.py:15-16 | a non-empty list yields its first element |
| Cards.LoadEmptyList | INST414-Jessica-Barke--Project/cards/card2csv.py:15-18 | an empty list is a TypeError naming `list` |
| Cards.LoadDoublyWrapped | INST414-Jessica-Barke--Project/cards/card2csv.py:13-18 | a string that decodes to another string is a TypeError naming `str` |
| Cards.LoadNestedList | INST414-Jessica-Barke--Project/cards/card2csv.py:15-18 | only one level of list is unwrapped: a list whose first element is a list is a TypeError naming `list` |
| Cards.LoadSuccessOrigin | INST414-Jessica-Barke--Project/cards/card2csv.py:12-19 | every accepted dictionary is the decoded value, its re-decoding, or the first element of either |
| Cards.Flat | INST414-Jessica-Barke--Project/cards/card2csv.py:21-22 | None gives ""; the length is kept; no CR or LF remains; every other character is unchanged in its position; each CR or LF becomes one space |
| Cards.FlatIdempotent | INST414-Jessica-Barke--Project/cards/card2csv.py:22 | flattening twice is flattening once |
| Cards.FlatKeepsOneLine | INST414-Jessica-Barke--Project/cards/card2csv.py:22 | a text with no line break is copied unchanged |
| Cards.CellText | INST414-Jessica-Barke--Project/cards/card2csv.py:22 | JSON null is None and nothing else is; a string is passed as it is; booleans are "True"/"False" and integers their decimal text, as Python's `str` prints them |
| Cards.Row | INST414-Jessica-Barke--Project/cards/card2csv.py:29 | exactly the five fields in order; an absent key gives ""; a present key gives its flattened value; no cell holds a line break |
| Cards.RowKeepsTitle | INST414-Jessica-Barke--Project/cards/card2csv.py:29 | a one-line string title is copied unchanged |
| Cards.RowPrivateFlag | INST414-Jessica-Barke--Project/cards/card2csv.py:22-29 | a boolean isPrivate lands in the last cell as "True" or "False" |
| Presence.AnyIn | INST414-Jessica-Barke--Project/notebooks/make_variable_inventory_simple.py:29-30 | true exactly when some alias is a column |
| Presence.Classify | INST414-Jessica-Barke--Project/notebooks/make_variable_inventory_simple.py:31 | "Both", "Primary", "Secondary" and "—" each answer exactly one combination of the two tests |
| Presence.ClassifySwap | INST414-Jessica-Barke--Project/notebooks/make_variable_inventory_qssr.py:25 | exchanging the tables exchanges "Primary" and "Secondary" and keeps "Both" and "—" |
| Presence.AnyInOrderFree | INST414-Jessica-Barke--Project/notebooks/make_variable_inventory_simple.py:29-30 | the test does not depend on the order of the aliases or on repeats among them |
| InventorySimple.Cells | INST414-Jessica-Barke--Project/notebooks/make_variable_inventory_simple.py:33 | one cell per output column |
| InventorySimple.AliasesOf | INST414-Jessica-Barke--Project/notebooks/make_variable_inventory_simple.py:29-30 | an unknown variable has no aliases; a known one has its alias list |
| InventorySimple.PresentIn | INST414-Jessica-Barke--Project/notebooks/make_variable_inventory_simple.py:28-31 | "Both" exactly when some alias is a primary column and some alias is a secondary column, "Primary" or "Secondary" when only that table has one, "—" when neither does |
| InventorySimple.UnknownIsNowhere | INST414-Jessica-Barke--Project/notebooks/make_variable_inventory_simple.py:29-31 | a variable without an alias entry is "—", with no error |
| InventorySimple.Rows | INST414-Jessica-Barke--Project/notebooks/make_variable_inventory_simple.py:32-33 | one row per schema entry, in schema order; the entry's fields are copied and Present In is computed for its variable |
| InventorySimple.SchemaVariablesHaveAliases | INST414-Jessica-Barke--Project/notebooks/make_variable_inventory_simple.py:10-27 | every schema variable has an alias entry |
| InventorySimple.RowsBothUnderDifferentNames | INST414-Jessica-Barke--Project/notebooks/make_variable_inventory_simple.py:29-32 | the hours row is "Both" when the tables carry it under different aliases |
| InventorySimple.RowsOfEmptyTables | INST414-Jessica-Barke--Project/notebooks/make_variable_inventory_simple.py:29-32 | with two empty headers, every row is "—" |
| InventoryQssr.Cells | INST414-Jessica-Barke--Project/notebooks/make_variable_inventory_qssr.py:37 | one cell per output column |
| InventoryQssr.PresentIn | INST414-Jessica-Barke--Project/notebooks/make_variable_inventory_qssr.py:22-25 | a KeyError exactly for a variable without an alias entry; otherwise the same four-way label as the simple inventory |
| InventoryQssr.PresentInSwap | INST414-Jessica-Barke--Project/notebooks/make_variable_inventory_qssr.py:24-25 | exchanging the tables exchanges "Primary" and "Secondary", keeps the other labels, and fails for the same variables |
| InventoryQssr.RowsWith | INST414-Jessica-Barke--Project/notebooks/make_variable_inventory_qssr.py:27-36 | eight rows with the variables in the listed order; rows 1 and 6 carry the computed labels and the other six say "Primary" |
| InventoryQssr.Table | INST414-Jessica-Barke--Project/notebooks/make_variable_inventory_qssr.py:27-37 | a built table has eight rows |
| InventoryQssr.TableShape | INST414-Jessica-Barke--Project/notebooks/make_variable_inventory_qssr.py:27-36 | the table is always built, because both computed rows have alias entries; only rows 1 and 6 depend on the data |
| InventoryQssr.TableOfEmptyTables | INST414-Jessica-Barke--Project/notebooks/make_variable_inventory_qssr.py:27-36 | with two empty headers, a hard-coded row still says "Primary" while a computed row says "—" |

## Left out

- File and console I/O is left out, and the model takes what it would read as parameters:
  - reading the raw CSV, the metadata files and the two inventory inputs;
  - writing the cleaned CSV, `cleaning_log.md`, the card CSVs (`csv.DictWriter`) and the inventory CSV and markdown files;
  - `print`, and the directory set-up.

  The raw table, the metadata text, the source path and the two headers are parameters.
- The card script's loop over its file pairs is I/O. That covers the missing-file skip and the "Wrote" message.
- The diagnostic lines are left out: the non-null counts, the means with `:.3f` formatting, and the final "Saved" line. `Pipeline.LogSpec` stops after the five mapping lines.
- The commented-out `drop_duplicates` is dead code.
- Float arithmetic is exact `real`. The median and the 0.75 quantile are exact, with no IEEE rounding.
- pandas' `is_numeric_dtype` is a tag on the raw column (`Coerce.RawColumn`), not dtype inference.
- Text.Lower: lower-cases ASCII letters only, where Python's `str.lower` covers all of Unicode.
- Text.IsDigit: only ASCII digits, where the regular expression's `\d` also matches other Unicode decimal digits.
- Text.Strip: strips ASCII whitespace only, where Python's `str.strip` also strips Unicode spaces.
- The JSON decoder (`json.loads`) is the parameter `parse`. Its error text is carried as it is.
- Python's `str()` of a float, a list or a dictionary is the parameter `show`.
- Features.PlatformGroups: maps a present cell of a numeric platform column to "Other" without rendering the number. A rendered Python number holds none of the keywords.
- The Yes/No to 1/0 mapping of academic impact is left out because no script here does it. A text Yes/No column goes through `to_num` and becomes all missing.
- The exploratory analysis script (`notebooks/03_eda.py`), the acquisition script (`notebooks/01_data_acquisition.py`) and the load check (`notebooks/quick_load_check.py`) are not part of this model. They are plotting, float statistics and CSV loading.
