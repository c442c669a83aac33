# Daily operations report formatter — a Dafny model

`flight_formatter.py` reads one sheet of a daily flight operations report and turns it
into normalised portal rows. This project models the core of that program:

- `format_datetime` and its inner `to_time`. They turn a bare time of day and the row's
  date into a `%m/%d/%Y %H:%M:%S` timestamp. The only rollover rule is anchored on the
  raw STA: an anchor at or after 18:00 and a time before 03:00 move the date one day
  forward.
- `categorize`, a first-match priority list over the upper-cased remark.
- `extract_services`, with its checkmark loop, its remark entry and its rename loop.
- `process_file`:
  - dropping empty rows;
  - stripping and aliasing the headers;
  - the four time columns;
  - copying scheduled times over actual ones in cancelled rows;
  - the customer, services, cancellation and category columns;
  - the sort;
  - the row loop that builds records or collects outliers;
  - the output layout;
  - the report date.

The model has these layers:

- **Values** (modules `Calendar`, `Cells`, `PyStrings`, `Timestamps`, `Classify`,
  `Derived`, `Sorting`, `Frames`, `Headers`, `Emission`, `Pipeline`).
  - A spreadsheet cell is a tagged union: missing, text, integer, time of day,
    timestamp or boolean.
  - A column label is a string or a number.
  - A sheet is a table of labels and rows.
  - Every step of `process_file` is a function on tables.
- **State** (modules `Frames` and `Processing`).
  - The source mutates a DataFrame in place. That DataFrame is the class
    `Frames.Frame`, whose methods are `dropna`, `rename`, column assignment, masked
    `loc` assignment and `sort_values`.
  - `Processing.ProcessFile` runs the steps on one frame in the source's order. It
    runs the row loop as a `while` loop, and the two loops of `extract_services` are
    `for` loops (`Classify.ExtractServices`).
  - Each method is proved equal to the function of the step it performs.
- **Guarantees** (module `Guarantees`). Lemmas about the whole pipeline state what a
  caller of `process_file` can rely on:
  - every row satisfies the row invariant: its times are computed, then settled for
    cancelled rows, and its derived columns match its inputs;
  - rows come in category priority order;
  - every non-empty row comes out exactly once, as a record or as an outlier;
  - the report date belongs to a highest-priority row;
  - the method raises exactly when DATE, STA, ATA, OTHER SERVICES/REMARKS or FLT NO. is
    absent, or when the `.str` accessor refuses the remarks column. A missing W/O, REG,
    A/C TYPES, ENGR or TECH only makes rows outliers.

`pd.to_datetime(x).date()` is a parameter `parse: Cell -> DateRead`, because pandas'
date-parsing rules are not part of this program. It gives `Fails` where pandas raises,
`NaT` where pandas returns its not-a-time value (which `date()` keeps), and otherwise
`Day(d)`. A `NaT` date does not raise in `format_datetime`: `datetime.combine` makes it
a year-1 timestamp, printed "01/01/1 HH:MM:00". In the row loop `strftime` on `NaT`
raises, so the row becomes an outlier.

## Model

| member | source | states |
|---|---|---|
| PyStrings.StripLeft | flight_formatter.py:19 | the result is a suffix of the input; what was dropped is all whitespace; the result does not start with whitespace |
| PyStrings.StripRight | flight_formatter.py:19 | the result is a prefix of the input; what was dropped is all whitespace; the result does not end with whitespace |
| PyStrings.StripOfStripped | flight_formatter.py:40-41 | a string with no whitespace at either end is its own strip |
| PyStrings.StripIdempotent | flight_formatter.py:80 | stripping twice is stripping once |
| PyStrings.Upper | flight_formatter.py:43 | same length; each character is mapped by the ASCII upper-case map |
| PyStrings.ContainsTransitive | flight_formatter.py:44-51 | an occurrence of an occurrence is an occurrence (`in` on strings is transitive) |
| PyStrings.LongerNotContained | flight_formatter.py:44 | a string never occurs in a shorter one |
| PyStrings.FirstCharAbsent | flight_formatter.py:44 | a pattern whose first character never appears does not occur |
| PyStrings.StrLessIrreflexive | flight_formatter.py:104 | no string sorts before itself |
| PyStrings.StrLessTransitive | flight_formatter.py:104 | string order is transitive |
| PyStrings.StrLessAsymmetric | flight_formatter.py:104 | string order is asymmetric |
| PyStrings.StrLessTotal | flight_formatter.py:104 | of two different strings, one sorts before the other |
| PyStrings.StrLessCommonPrefix | flight_formatter.py:104 | a shared prefix does not change how two strings compare |
| PyStrings.DigitChar | flight_formatter.py:125 | a digit value becomes a digit character |
| PyStrings.NatToString | flight_formatter.py:125 | `str(n)` is all digits, with no leading zero unless it is "0" |
| PyStrings.NatToStringRoundTrip | flight_formatter.py:125 | `int(str(n)) == n` |
| PyStrings.Pad2 | flight_formatter.py:33 | `%02d` is two digits |
| PyStrings.Pad4 | flight_formatter.py:33 | `%Y` is four digits |
| PyStrings.Pad2RoundTrip | flight_formatter.py:33 | two padded digits read back to the number |
| PyStrings.Pad4RoundTrip | flight_formatter.py:33 | four padded digits read back to the number |
| PyStrings.Pad2Order | flight_formatter.py:104 | padded numbers compare as strings exactly as they compare as numbers |
| Calendar.NextDayAdvances | flight_formatter.py:30 | adding a day fails only on the last representable day; otherwise the day ordinal grows by exactly one |
| Calendar.DayNumberInjective | flight_formatter.py:30 | a day ordinal determines its date |
| Calendar.YearsAdvance | flight_formatter.py:30 | a later year starts at least one full year later |
| Cells.ClockText | flight_formatter.py:40 | `str(time)` is eight characters |
| Cells.FromOption | flight_formatter.py:91-94 | `None` is stored as a missing cell and a string as a text cell, in both directions |
| Cells.ColumnIndex | flight_formatter.py:40 | the first position holding the label; none exactly when the label is absent |
| Cells.GetOr | flight_formatter.py:43 | `row.get(name, default)`: the default exactly when the label is absent, otherwise the cell under that label |
| Timestamps.HourMinute | flight_formatter.py:19 | a parsed time has zero seconds |
| Timestamps.ParseHourMinute | flight_formatter.py:19 | `%H:%M` parses give zero seconds; text longer than five characters (such as "HH:MM:SS") never parses; a parsed text holds a ':' |
| Timestamps.ParseHourMinuteRoundTrip | flight_formatter.py:19 | "HH:MM" of any time with zero seconds parses back to that time |
| Timestamps.ToTime | flight_formatter.py:17-23 | only text can fail to parse; cells that are neither text nor a time give no time; parsed text has zero seconds |
| Timestamps.RollsByHour | flight_formatter.py:28-30 | the rollover rule holds exactly when an anchor was read, its hour is 18 or more, and the raw hour is below 3 |
| Timestamps.FormatDate | flight_formatter.py:117 | `%m/%d/%Y` is ten characters |
| Timestamps.FormatStamp | flight_formatter.py:33 | `%m/%d/%Y %H:%M:%S` is nineteen characters |
| Timestamps.FormatDateTime | flight_formatter.py:11-35 | `None` for a missing date or time, for a date pandas cannot read, for a raw value that is neither text nor a time, and for an anchor text that does not parse; a result on a real day is 19 characters |
| Timestamps.ReadFormatStamp | flight_formatter.py:32-33 | reading the formatted timestamp gives back the date, hour, minute and second |
| Timestamps.ReadDateAtMidnight | flight_formatter.py:117 | a formatted date reads back as that date |
| Timestamps.ResolveSucceeds | flight_formatter.py:14-35 | the `try` block yields a timestamp exactly when the date is read (a day or `NaT`), the raw value is a time, the anchor is not bad text, and a rollover of a real day does not pass the last representable day |
| Timestamps.FormatDateTimeSucceeds | flight_formatter.py:11-35 | a timestamp comes out exactly when both inputs are present, the date is a day or `NaT`, the raw value is a time or "HH:MM" text, the anchor is not bad text, and a rollover of a real day does not pass the last representable day |
| Timestamps.FormatDateTimeNaT | flight_formatter.py:15-33 | a `NaT` date gives "01/01/1" and the raw time with seconds zeroed, whatever the anchor, and that text sorts before every timestamp on a real day |
| Timestamps.NaTStampFirst | flight_formatter.py:104 | a year-1 timestamp sorts as text before every timestamp of years 1000-9999 |
| Timestamps.FormatDateTimeDay | flight_formatter.py:28-33 | for a date that is a day, the timestamp is the formatted raw time with seconds zeroed, on a day whose ordinal is the row date's plus one when the rule fires and plus zero otherwise |
| Timestamps.FormatDateTimeMeaning | flight_formatter.py:28-33 | for a date that is a day, read back field by field, the timestamp is a valid date one day after the row date exactly when the rule fires and otherwise on it, with the raw hour and minute and second 0 |
| Timestamps.UnanchoredNeverShifts | flight_formatter.py:91 | without an anchor (STA.) the timestamp of a row whose date is a day is always on that date |
| Timestamps.SameDayStampOrder | flight_formatter.py:104 | on one day, timestamps sort as text exactly as their times of day are ordered |
| Classify.Rank | flight_formatter.py:64-75 | the priority of a category is between 1 and 5 |
| Classify.CategoryOrderIsPriority | flight_formatter.py:64-75 | category labels sort as strings exactly in priority order |
| Classify.NoNoticeMentionsCancel | flight_formatter.py:46-48 | a "without notice" cancellation also mentions a cancellation |
| Classify.NoNoticeIsCanceled | flight_formatter.py:70-71 | a row in category 3 is always flagged as cancelled |
| Classify.PlainCanceledIsOther | flight_formatter.py:48-75 | a plain "Canceled" remark is cancelled and yields "Cancelled Flight", but its category is 5_OTHER |
| Classify.Corrections | flight_formatter.py:53-60 | same length; each entry is the renamed entry at the same position |
| Classify.CheckedColumns | flight_formatter.py:38-41 | the first loop lists exactly the checked names, in column order |
| Classify.CheckedNamesStep | flight_formatter.py:39-41 | one more column appends its stripped name exactly when its label is a string and its cell strips to "√" |
| Classify.CheckedNamesSound | flight_formatter.py:39-41 | every listed name comes from a checked column with a string label |
| Classify.CheckedNamesComplete | flight_formatter.py:39-41 | every checked column with a string label has its stripped label listed |
| Classify.CheckedNamesMembership | flight_formatter.py:39-41 | a name is listed exactly when some checked column with a string label strips to it |
| Classify.CorrectServices | flight_formatter.py:53-60 | the second loop renames every entry and keeps the order |
| Classify.ExtractServices | flight_formatter.py:37-62 | the method returns exactly the joined service list, or `None` when the list is empty |
| Classify.RemarkEntryKept | flight_formatter.py:43-60 | none of the four remark entries is renamed |
| Classify.ServiceListShape | flight_formatter.py:37-62 | the checked names, renamed, come first and in order; at most one remark entry follows, as the last entry; the result is `None` exactly when there is neither |
| Classify.RemarkServiceAgrees | flight_formatter.py:43-75 | categories 2 and 3 get the matching remark entry; a cancelled row without engineer support gets a cancellation entry; a cancellation entry implies the cancelled flag |
| Sorting.KeyLeReflexive | flight_formatter.py:104 | every key may be placed before itself |
| Sorting.KeyLeTotal | flight_formatter.py:104 | any two keys can be placed one before the other |
| Sorting.KeyLeTransitive | flight_formatter.py:104 | the key order is transitive |
| Sorting.Insert | flight_formatter.py:104 | one element longer, and the same multiset plus the inserted element |
| Sorting.SortBy | flight_formatter.py:104 | the sort is a permutation of its input |
| Sorting.InsertSorted | flight_formatter.py:104 | inserting into a sorted sequence keeps it sorted |
| Sorting.SortBySorted | flight_formatter.py:104 | the sort's result is sorted by category label, then STA. text, with missing STA. last |
| Sorting.InsertKeepsOrder | flight_formatter.py:104 | among the elements sharing a key, the inserted one comes first and the others keep their order |
| Sorting.SortByStable | flight_formatter.py:104 | the sort is stable: the rows sharing a key come out in their input order |
| Sorting.SortedFirstIsLeast | flight_formatter.py:104 | the first element of a sorted sequence may precede every element |
| Frames.Field | flight_formatter.py:91-94 | a label that is absent reads as a missing cell |
| Frames.DropEmpty | flight_formatter.py:79 | a row is kept exactly when it is in the input and not entirely missing |
| Frames.DropEmptyKeeps | flight_formatter.py:79 | rows with no empty row among them are left as they are |
| Frames.DropEmptyIdempotent | flight_formatter.py:79 | dropping empty rows twice is dropping them once |
| Frames.Relabel | flight_formatter.py:80-89 | renaming keeps the number of columns |
| Frames.WithColumn | flight_formatter.py:91 | assigning a column keeps the table rectangular and the row count |
| Frames.ColumnIndexAppend | flight_formatter.py:91-94 | appending a label does not change where other labels are found; a new label is found at the end |
| Frames.WithColumnGet | flight_formatter.py:91-103 | after `df[name] = values`, row i reads `values[i]` under `name` and reads every other name as before |
| Frames.WithColumnLabels | flight_formatter.py:91-103 | assigning a column adds its label and keeps all others |
| Frames.CopyWhere | flight_formatter.py:97-98 | a masked copy keeps labels, row count and rectangularity |
| Frames.CopyWhereCells | flight_formatter.py:97-98 | selected rows take the source cell in the target column; every other cell is unchanged |
| Frames.CopyWhereField | flight_formatter.py:97-98 | read by label, a selected row reads the source cell under the target's label and everything else as before |
| Frames.SortKeepsRect | flight_formatter.py:104 | sorting keeps every row whole |
| Frames.Frame.constructor | flight_formatter.py:78 | the frame holds the sheet it was given |
| Frames.Frame.DropEmptyRows | flight_formatter.py:79 | the new rows are the old rows without the empty ones; labels are unchanged |
| Frames.Frame.RenameColumns | flight_formatter.py:80-89 | the labels are renamed and the rows are unchanged |
| Frames.Frame.SetColumn | flight_formatter.py:91-103 | the new contents are the old table with the column assigned |
| Frames.Frame.CopyColumnWhere | flight_formatter.py:97-98 | the new contents are the masked copy of the old table |
| Frames.Frame.SortValues | flight_formatter.py:104 | the new rows are the old rows sorted by the key; labels are unchanged |
| Derived.Take2 | flight_formatter.py:100 | `x[:2]`: at most two characters, each equal to the input's at the same position |
| Derived.CustomerCodeMeaning | flight_formatter.py:100 | "XLR" exactly for stripped flight numbers starting with DHX; otherwise a prefix of the stripped number of length min(2, len); never starts with whitespace; at most 3 characters |
| Derived.MissingFlightIsNa | flight_formatter.py:100 | a missing flight number yields "na" |
| Derived.PaddedDhxIsXlr | flight_formatter.py:100 | surrounding spaces do not hide a DHX flight |
| Derived.RemoveFirstDot | flight_formatter.py:125 | text without a '.' is unchanged; with one, exactly one character is removed |
| Derived.KeptChar | flight_formatter.py:125 | every character other than '.' survives the removal |
| Derived.NonDigitSurvives | flight_formatter.py:125 | a character that is neither a digit nor '.' makes the digit test fail |
| Derived.DigitsKeep | flight_formatter.py:125 | a digit string holds no '.' and is unchanged by the removal |
| Derived.EmployeeIdNumber | flight_formatter.py:125 | a non-negative integer yields its decimal digits; a negative one yields nothing |
| Derived.EmployeeIdDigits | flight_formatter.py:125 | a digit text yields the digits of the number it denotes, which has the same value |
| Derived.EmployeeIdText | flight_formatter.py:125-126 | a text makes the row raise exactly when it holds a '.' and is digits once that '.' is removed; it yields nothing exactly when it fails the digit test |
| Derived.EmployeeIdOther | flight_formatter.py:125 | times, timestamps and booleans never yield an id |
| Derived.RemoveDotAfter | flight_formatter.py:125 | the first '.' is the one after a '.'-free prefix |
| Derived.DottedTextRaises | flight_formatter.py:125-133 | digits around one '.', such as "12.5", pass the test but make `int` raise |
| Derived.LeadingZeroValue | flight_formatter.py:125 | a leading zero does not change the value |
| Derived.LeadingZerosDropped | flight_formatter.py:125 | "007" and "7" yield the same id |
| Derived.PresentIds | flight_formatter.py:124 | `filter(None, ...)` keeps at most as many ids as it is given |
| Derived.EmployeesMeaning | flight_formatter.py:124-127 | ENGR then TECH joined by ", " when both are present, the one present alone, "" when neither is |
| Headers.Cleaned | flight_formatter.py:79-89 | the cleaned sheet stays rectangular |
| Headers.AliasResults | flight_formatter.py:81-89 | a renamed label is never a replaced spelling, except "TECH.\nSUPT", which becomes "TECH. SUPT"; labels outside the table are kept |
| Headers.CleanedLabel | flight_formatter.py:80-89 | after cleaning, a string label has no surrounding whitespace and is not a replaced spelling; "TECH. SUPT" survives only as the new name of "TECH.\nSUPT"; numeric labels are kept |
| Headers.AliasStripped | flight_formatter.py:81-89 | every replacement name is free of surrounding whitespace |
| Headers.HeadSetCorrectionUnreachable | flight_formatter.py:57-58 | the "HEAD SET" rename in `extract_services` never fires for a cleaned header |
| Headers.TechSupportSpellings | flight_formatter.py:83-84 | both spellings of the technical support header, with any leading whitespace, become the service "TECH SUPPORT" |
| Headers.TechSupportRenamed | flight_formatter.py:84 | "TECH. SUPT" becomes "TECH SUPPORT" |
| Headers.TechSupportCorrected | flight_formatter.py:83 | "TECH.\nSUPT" becomes "TECH. SUPT" and then "TECH SUPPORT" |
| Headers.PaddedStrip | flight_formatter.py:80 | leading whitespace before a word is stripped |
| Pipeline.TimeValues | flight_formatter.py:91-94 | one value per row |
| Pipeline.Timed | flight_formatter.py:91-94 | the table stays rectangular with the same rows |
| Pipeline.CanceledMask | flight_formatter.py:96 | one flag per row |
| Pipeline.Collapsed | flight_formatter.py:96-98 | labels and row count are kept |
| Pipeline.CellText | flight_formatter.py:104 | a sort key is present exactly for text cells |
| Pipeline.Ordered | flight_formatter.py:104 | the sort keeps the labels and the row count |
| Pipeline.Unsorted | flight_formatter.py:91-103 | the frame stays rectangular with one row per cleaned row |
| Pipeline.Prepared | flight_formatter.py:91-104 | the frame stays rectangular with one row per cleaned row |
| Pipeline.TimedLabels | flight_formatter.py:91-94 | the time columns add exactly STA., ATA., STD. and ATD. to the labels |
| Emission.AssembleSucceeds | flight_formatter.py:109-133 | a row yields a record exactly when every column read is present, DATE is a day (`NaT` makes `strftime` raise), and neither ENGR nor TECH makes `int` raise |
| Emission.AssembleFields | flight_formatter.py:110-130 | a record carries "KKIA", the row's own times and flag, empty remarks and comments, and the employee list of its ENGR and TECH |
| Emission.AssembleDate | flight_formatter.py:117 | a record's Date reads back to the row's parsed DATE |
| Emission.SplitStep | flight_formatter.py:108-133 | one more row extends exactly one of the two lists |
| Emission.SplitCount | flight_formatter.py:108-133 | records plus outliers are as many as the rows |
| Emission.FailureMembership | flight_formatter.py:132-133 | a row is an outlier exactly when it is a row and its assembly raises |
| Emission.SuccessesInOrder | flight_formatter.py:108-131 | every success comes from an element that has it, and the elements come in increasing position |
| Emission.SplitRowsMeaning | flight_formatter.py:106-133 | every row goes to exactly one list; a row is an outlier exactly when it raises |
| Emission.RecordsInRowOrder | flight_formatter.py:108-131 | each record is the record of a row that does not raise, and the records keep the rows' order |
| Emission.LayoutShape | flight_formatter.py:135-137 | records first, in order; a blank separator exactly when there are outliers; then the outliers, in order |
| Processing.AddTimeColumns | flight_formatter.py:91-94 | the frame becomes the timed table |
| Processing.CollapseCanceled | flight_formatter.py:96-98 | the frame becomes the collapsed table |
| Processing.AddDerivedColumns | flight_formatter.py:100-103 | the frame gains the customer, services, cancellation and category columns |
| Processing.SplitRows | flight_formatter.py:106-133 | the loop returns exactly the records of the non-raising rows and the raising rows, both in order |
| Processing.CleanFrame | flight_formatter.py:79-89 | the frame becomes the cleaned sheet |
| Processing.PrepareFrame | flight_formatter.py:91-104 | reports the first missing read column or a refused remarks column; otherwise the frame becomes the prepared table |
| Processing.ProcessFile | flight_formatter.py:77-139 | the in-place run returns what the table pipeline returns, or raises what it raises |
| Guarantees.TimeStep | flight_formatter.py:91-94 | one time assignment writes `format_datetime` of the row and changes no other column |
| Guarantees.TimedKeeps | flight_formatter.py:91-94 | lines 91-94 change no column but the four they assign |
| Guarantees.TimedKeepsRaw | flight_formatter.py:91-94 | the raw columns read are unchanged |
| Guarantees.TimedSta | flight_formatter.py:91 | STA. is the unanchored timestamp of the raw STA |
| Guarantees.TimedAta | flight_formatter.py:92 | ATA. is the timestamp of the raw ATA anchored on the raw STA |
| Guarantees.TimedStd | flight_formatter.py:93 | STD. is the timestamp of the raw STD anchored on the raw STA |
| Guarantees.TimedAtd | flight_formatter.py:94 | ATD. is the timestamp of the raw ATD anchored on the raw STA |
| Guarantees.TimedRow | flight_formatter.py:91-94 | after the time columns, every row holds its four computed timestamps |
| Guarantees.CollapsedField | flight_formatter.py:96-98 | in a cancelled row ATA. reads STA. and ATD. reads STD.; every other read is unchanged |
| Guarantees.CollapsedKeepsInputs | flight_formatter.py:96-98 | the collapse keeps the raw cells and the remark |
| Guarantees.CollapsedRow | flight_formatter.py:96-98 | after the collapse, a cancelled row's actual times equal its scheduled times, and other rows keep their computed times |
| Guarantees.DerivedKeeps | flight_formatter.py:100-103 | lines 100-103 change no column but the four they assign |
| Guarantees.DerivedCustomer | flight_formatter.py:100 | Customer is the customer code of the row's FLT NO. |
| Guarantees.DerivedServices | flight_formatter.py:101 | Services is `extract_services` of the row, which already holds Customer |
| Guarantees.DerivedFlagAndCategory | flight_formatter.py:102-103 | Is Canceled is the remark's cancellation test and Category is its category label |
| Guarantees.SettledTransfer | flight_formatter.py:96-103 | settled times depend only on the inputs and the time columns |
| Guarantees.DerivedKeepsTimes | flight_formatter.py:100-103 | the derived columns keep the inputs and the time columns |
| Guarantees.DerivedRow | flight_formatter.py:100-103 | a row with settled times satisfies the row invariant after the derived columns |
| Guarantees.UnsortedRow | flight_formatter.py:91-103 | each row satisfies the row invariant and keeps the inputs of the cleaned row it came from |
| Guarantees.PreparedRow | flight_formatter.py:91-104 | every sorted row satisfies the row invariant and carries the inputs of some cleaned row |
| Guarantees.SortedRows | flight_formatter.py:104 | the sort keeps the labels and the set of rows |
| Guarantees.TimedAccessor | flight_formatter.py:91-96 | the time columns do not change whether the `.str` accessor accepts the remarks |
| Guarantees.TimedErrors | flight_formatter.py:91-100 | the time columns change none of the column checks |
| Guarantees.ProcessRaises | flight_formatter.py:91-104 | `process_file` raises exactly when DATE, STA, ATA, OTHER SERVICES/REMARKS or FLT NO. is absent, or the `.str` accessor refuses the remarks column |
| Guarantees.ProcessErrors | flight_formatter.py:91-104 | a missing-column error names a read column that is absent; a refused remarks column is reported only once the columns read before it are present |
| Guarantees.KeyOrder | flight_formatter.py:104 | under the sort key, rows come in category priority, then STA. order |
| Guarantees.PreparedInPriorityOrder | flight_formatter.py:104 | an earlier row has a category of equal or higher priority; within a category, STA. text is ascending with missing ones last |
| Guarantees.ReportDate | flight_formatter.py:139 | the report date is present exactly when the cleaned sheet has a row; it is the first sorted row's DATE, which is the DATE of some input row in a highest-priority category |
| Guarantees.EveryRowOnce | flight_formatter.py:106-133 | records plus outliers are as many as the cleaned rows; each outlier is a whole row that raises |
| Guarantees.OutputLines | flight_formatter.py:79-139 | the output has one line per non-empty sheet row plus the separator, if there is one; a report date exactly when there is such a row |
| Guarantees.RecordGuarantees | flight_formatter.py:96-130 | every record carries KKIA, the customer code of its own flight, and a boolean flag; a cancelled record's actual times equal its scheduled ones |

## Left out

- The Streamlit page (title, uploader, display, download button and file name) is not modelled. It is user interface with no logic of its own.
- `pd.read_excel` is not modelled. The model starts from the table it returns (labels and rows).
- `merge_with_template` and the embedded template and lookup workbook are not modelled. They copy cells and styles through openpyxl.
- `pd.to_datetime` is the parameter `parse`, because its parsing rules live in pandas. A timestamp it returns is the date it carries; the time part is not used by this program.
- Floating-point cells are not modelled; numbers are integers. This covers employee ids such as 12.0, `int()` truncating a fraction, and NaN beyond the missing cell.
- Microseconds of a time value are not modelled. They change neither the two comparisons nor the printed `%S`.
- Calendar years are limited to 1000-9999, a superset of the years a pandas timestamp can hold. Adding a day to 9999-12-31 counts as the OverflowError the `try` catches.
- `str.upper` and `str.isdigit` are modelled on ASCII only. `str.strip` uses Python's full whitespace set.
- Timestamps.ParseHourMinute: only ASCII digits are read. `strptime`'s `%H` and `%M` also accept other Unicode decimal digits ("٧:30" is 07:30), which the model treats as text that does not parse.
- Timestamps.HourMinute: ASCII digits only, for the same reason as ParseHourMinute.
- Timestamps.NaTStamp: the year 1 is printed unpadded, as glibc's `strftime` does. A Python whose `%Y` pads to four digits prints "0001"; the text would still sort before every real-day timestamp.
- Derived.IntOf: `int()` of text is modelled for all-digit text only. Signs and surrounding whitespace cannot reach it, because the digit test rejects them.
- A label present more than once is read at its first column. Pandas would return a Series there, which is not modelled.
- The `.str` accessor's dtype inference is approximated by Pipeline.StrAccessorOk: it accepts an empty frame, or a remarks column holding at least one string.
- On an empty frame, pandas `apply` returns an empty frame. The model still checks the columns the lambdas would read.
- The two cancellation masks of lines 96 and 102 differ in argument order only, so they are one function.
- The remarks and FLT NO. checks happen after the time columns are added. The model makes them on the cleaned frame; Guarantees.TimedErrors proves the two agree.
- Where pandas places NaN keys in the sort is library-internal. The model puts a missing STA. after every text STA. within a category; the property is stated only for that order.
- The spreadsheet's column order in the output frame (`pd.concat` aligning record keys with outlier columns) is not modelled. The output keeps the records, the separator and the outlier rows as three kinds of line, with the frame's labels beside them.
- Nothing in the source rolls a time over by row order across the batch, adds a day when a departure precedes its arrival, or accepts "HH:MM:SS" text. The model follows the code and has none of these.
