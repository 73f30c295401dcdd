# AutoContractManager core in Dafny

AutoContractManager is a desktop tool for a small vehicle-registration business. It keeps a
client folder and a contract registry in Excel workbooks. It numbers contracts (`101-ИП`,
`102-ИП`, …) and fills Word templates for contracts and invoices. This project models the pure
core of that tool:

- the input validators for phones, VINs and `ДД.ММ.ГГГГ` dates;
- the text formatters: the verbose date, file-name sanitising, the phone layout
  `+7 999 123-45-67` with its `45 67` tail, and the Russian words for 10–99;
- the workbook logic: the next client id, the next registry id and the next contract number,
  client search, and appending a client or a contract record;
- the document logic: `{KEY}` placeholder substitution run by run, the contract and invoice
  contexts, and the generated file names.

Layout, one module per file:

| file | module | models |
|---|---|---|
| options.dfy | `Options` | the `Option` type standing in for `None` results and exceptions |
| strings.dfy | `Strings` | the Python string operations the core relies on: `isdigit`, `isspace`, `upper`, `lower`, `strip`, `in`, `replace`, `str(int)`, `int(str)` |
| validators.dfy | `Validators` | `core/validators.py` |
| formatters.dfy | `Formatters` | `core/utils.py` |
| registry.dfy | `Registry` | `core/database.py`; a worksheet is a header row plus data rows of text, number or blank cells |
| rendering.dfy | `Rendering` | placeholder replacement and `fill_template` of `core/document_generator.py` |
| generation.dfy | `Generation` | `generate_contract` and `generate_invoice` of `core/document_generator.py` |

Some things the source gets from its surroundings are parameters here:

- the workbooks and templates are values; a workbook that cannot be read is `Registry.Unreadable`,
  and a template file that is missing is `None`;
- whether saving succeeded is a boolean;
- today's date is a string, and so is the locale-formatted `%d %B %Y` date.

Where an operation raises, the model returns a `None` or a `Raised` outcome.

The docstring of `get_next_contract_number` (core/database.py:59) promises the sequence
`101-ИП`, `102-ИП` and so on. The code at core/database.py:62-70 starts its running maximum at 0,
so a readable registry with no valid `N-ИП` entry gives `1-ИП`. The model follows the code. It
gives `101-ИП` only when reading the registry fails or the `Номер договора` column is missing
(core/database.py:71-73).

## Model

| member | source | states |
|---|---|---|
| Strings.ToUpper | core/validators.py:33 | upper-casing keeps whitespace and digits, and maps exactly the ASCII letters onto `A`–`Z` |
| Strings.Upper | core/validators.py:33 | `str.upper` maps every character and keeps the length |
| Strings.ToLowerUpper | core/database.py:32-35 | lower-casing after upper-casing a character equals lower-casing it, so a case-insensitive match ignores an upper-cased term |
| Strings.UpperIdempotent | core/validators.py:33 | upper-casing twice is upper-casing once |
| Strings.ToUpperIdempotent | core/validators.py:33 | upper-casing a character twice is upper-casing it once |
| Strings.UpperConcat | core/validators.py:33 | upper-casing distributes over concatenation |
| Strings.Filter | core/validators.py:15 | a filtered string is no longer than its input and holds only kept characters |
| Strings.FilterFrom | core/validators.py:15 | every character of a filtered string comes from the input and is kept |
| Strings.FilterKeeps | core/validators.py:15 | a kept character of the input survives filtering |
| Strings.FilterConcat | core/validators.py:15 | filtering distributes over concatenation |
| Strings.FilterKeepsAll | core/validators.py:15 | a string made only of kept characters filters to itself |
| Strings.FilterIdempotent | core/validators.py:15 | filtering twice is filtering once |
| Strings.FilterUpper | core/validators.py:33-35 | upper-casing and a case-blind filter commute |
| Strings.Digits | core/utils.py:76 | `filter(str.isdigit, …)` keeps only digits and never lengthens |
| Strings.TrimStart | core/utils.py:67 | drops exactly the leading whitespace |
| Strings.TrimEnd | core/utils.py:67 | drops exactly the trailing whitespace |
| Strings.Strip | core/utils.py:67 | `str.strip` leaves no whitespace at either end and keeps a string that has none there |
| Strings.StripIsTrims | core/utils.py:67 | stripping drops the leading whitespace and then the trailing whitespace |
| Strings.StripKeepsNonSpace | core/validators.py:33 | stripping keeps every non-space character |
| Strings.FilterIgnoresStrip | core/validators.py:33-35 | a filter that drops whitespace gives the same result with or without stripping first |
| Strings.FilterIgnoresTrimStart | core/utils.py:67 | a filter that drops whitespace gives the same result with or without leading whitespace removed |
| Strings.FilterIgnoresTrimEnd | core/utils.py:67 | a filter that drops whitespace gives the same result with or without trailing whitespace removed |
| Strings.StripIsSlice | core/utils.py:67 | the stripped string is the slice of the input between a prefix and a suffix that are all whitespace |
| Strings.ContainsWitness | core/database.py:64 | `p in s` means `p` occurs at some position of `s` |
| Strings.ContainsInContext | core/document_generator.py:22 | a substring of a piece is a substring of any text built around that piece |
| Strings.ContainsChar | core/document_generator.py:112 | a one-character substring test is character membership |
| Strings.ReplaceAll | core/database.py:66 | `str.replace` keeps the length when the pattern and the replacement have the same length |
| Strings.ReplaceAllFrom | core/database.py:66 | every character after `str.replace` comes from the input or from the replacement |
| Strings.ReplaceAbsent | core/document_generator.py:26 | `str.replace` of a pattern that does not occur changes nothing |
| Strings.ReplaceTrailingSuffix | core/database.py:66 | removing `-ИП` from digits followed by `-ИП` gives back the digits |
| Strings.NatToDecimal | core/database.py:70 | `str(n)` is a non-empty digit string without leading zeros |
| Strings.DecimalRoundTrip | core/database.py:66-70 | reading `str(n)` back gives `n` |
| Strings.DecimalInjective | core/database.py:70 | different numbers print differently |
| Strings.DecimalOfValue | core/utils.py:57 | a digit string without a padding zero is exactly what `str` prints for its value |
| Strings.LeadingDigitPositive | core/utils.py:57 | a digit string starting with a non-zero digit is worth more than 0 |
| Strings.ParseInt | core/database.py:66 | `int()` fails on text that is blank once stripped, and a negative result comes only from a text whose stripped form starts with `-` |
| Strings.DigitsAreGroups | core/database.py:66 | a plain run of digits is a literal `int()` accepts, worth its decimal value |
| Strings.ParseIntOfDigits | core/database.py:66 | `int()` of a plain run of digits is its decimal value |
| Strings.ParseIntOfDecimal | core/database.py:66 | `int(str(n)) == n` under Python's `int` grammar |
| Validators.ValidPhone | core/validators.py:6-23 | empty input is rejected; 10 digits are accepted; 11 digits are accepted exactly when the first is 7 or 8; any other digit count is rejected |
| Validators.PhoneDependsOnlyOnDigits | core/validators.py:15-23 | the verdict on a phone equals the verdict on its digits alone |
| Validators.PhoneSameDigits | core/validators.py:15-23 | two inputs with the same digits get the same verdict |
| Validators.ValidVin | core/validators.py:26-39 | a VIN is accepted if and only if it has exactly 17 characters besides separators and each of them upper-cases into `[A-HJ-NPR-Z0-9]`; an accepted VIN normalises to 17 characters |
| Validators.NormalFormAlphabet | core/validators.py:33-39 | the normal form has one character per non-separator of the input, all in the VIN alphabet when the input's are |
| Validators.ValidVinOfCount | core/validators.py:33-39 | 17 non-separators that upper-case into the alphabet make an accepted VIN |
| Validators.NormalFormKeeps | core/validators.py:33-35 | every non-separator character of the input appears, upper-cased, in the normal form |
| Validators.VinRejectsIOQ | core/validators.py:37-38 | a VIN holding `I`, `O` or `Q` in either case is rejected |
| Validators.NormalizeVin | core/validators.py:33-35 | after strip, upper-casing and `re.sub(r'[\s\-_]+', '', …)` no whitespace, `-` or `_` is left |
| Validators.NormalizeVinIsUpperFiltered | core/validators.py:33-35 | strip, upper-case and separator removal together equal upper-casing the separator-free characters |
| Validators.NormalizeVinIdempotent | core/validators.py:33-35 | normalising a normal form changes nothing |
| Validators.UpperOfFilteredIsStable | core/validators.py:33-35 | upper-casing a separator-free text, filtering again and upper-casing gives the upper-cased text |
| Validators.VinIgnoresCaseAndSeparators | core/validators.py:33-39 | the verdict equals the verdict on the upper-cased, separator-free text |
| Validators.FilterDropsHyphen | core/validators.py:35 | removing separators from a text with a hyphen inserted gives the same as from the text without it |
| Validators.VinHyphenated | core/validators.py:35 | inserting a hyphen anywhere into an accepted VIN keeps it accepted |
| Validators.HyphenJoinCount | core/validators.py:35 | joining two texts with a hyphen adds up their counts of non-separators |
| Validators.HyphenGroupsCount | core/validators.py:35 | four separator-free groups joined by hyphens have as many non-separators as their total length |
| Validators.HyphenatedExampleCount | core/validators.py:81 | `VF1-KZ1G0-64304-4404` has 17 non-separators |
| Validators.VinExamplePlain | core/validators.py:80 | `VF1KZ1G0643044404` is accepted |
| Validators.VinExampleHyphenated | core/validators.py:81 | `VF1-KZ1G0-64304-4404` is accepted |
| Validators.VinExampleShort | core/validators.py:82 | the 16-character `VF1KZ1G064304440` is rejected |
| Validators.DaysInMonth | core/validators.py:64-66 | every month has 28 to 31 days |
| Validators.ValidDate | core/validators.py:42-69 | an accepted date has the `ДД.ММ.ГГГГ` shape once stripped |
| Validators.FormatDate | core/validators.py:50 | a padded day, month and year always have the `ДД.ММ.ГГГГ` shape |
| Validators.FormatDateFields | core/validators.py:50-55 | the three groups of a formatted date read back as the day, month and year |
| Validators.TwoDigits | core/validators.py:50-55 | two digits read as a number below 100 whose zero-padded form is those digits |
| Validators.FourDigits | core/validators.py:50-55 | four digits read as a number below 10000 whose zero-padded form is those digits |
| Validators.Pad2Value | core/validators.py:50-55 | the two-digit form of a number below 100 reads back as the number |
| Validators.Pad4Value | core/validators.py:50-55 | the four-digit form of a number below 10000 reads back as the number |
| Validators.ValidFormattedDate | core/validators.py:42-69 | a formatted date is accepted exactly when it is a calendar date from 1900 to 2100 |
| Validators.ValidDateByFields | core/validators.py:42-69 | a text of the date shape is accepted exactly when its month is 1–12, its year 1900–2100 and its day within that month |
| Validators.DateShapeSplit | core/validators.py:50 | a text of the `ДД.ММ.ГГГГ` shape is its day, month and year groups joined by dots |
| Validators.ValidDateIsFormatted | core/validators.py:50-66 | every accepted date is, once stripped, the formatting of a calendar day from 1900 to 2100 |
| Validators.DateExampleValid | core/validators.py:85 | `05.11.2024` is accepted |
| Validators.DateExampleFebruary30 | core/validators.py:86 | `30.02.2024` is rejected |
| Validators.DateExampleUnpadded | core/validators.py:87 | `1.1.2024` is rejected |
| Formatters.MonthNameRoundTrip | core/utils.py:52-57 | each genitive month name identifies its month and has no space |
| Formatters.VerboseDate | core/utils.py:50-57 | the verbose date reads back, through ReadVerboseDate, as the day, month and year it was made from; the reader accepts only unpadded day and year digits, so the day is printed without a leading zero |
| Formatters.PaddedDayRejected | core/utils.py:57 | a day written with a leading zero, as `%d` would print it, is not a verbose date |
| Formatters.MonthNameOf | core/utils.py:52-55 | a name the month lookup accepts is the table entry of the month it returns |
| Formatters.ReadVerboseDateExact | core/utils.py:50-57 | every text the reader accepts is the verbose date of the day, month and year it reads, with the month in 1–12 |
| Formatters.ReadJoinedDate | core/utils.py:57 | splitting `{day} {month} {year} г.` at its spaces recovers the day digits, the month name and the year digits |
| Formatters.VerboseDateInjective | core/utils.py:50-57 | different dates give different verbose dates |
| Formatters.YearSuffixInjective | core/utils.py:57 | the `… г.` year text determines the year |
| Formatters.SplitAtSpace | core/utils.py:57 | a space-free head followed by a space splits uniquely |
| Formatters.ReplaceIllegal | core/utils.py:65 | each of `<>:"/\|?*` becomes `_`, and every other character is kept in place |
| Formatters.ConsSingleSpaced | core/utils.py:67 | a character put in front of a single-spaced text keeps it single-spaced when it is a plain space before a non-space, or not whitespace at all |
| Formatters.CollapseSpaces | core/utils.py:67 | collapsing leaves every whitespace character a single space never followed by whitespace, and its first character is the input's first, with whitespace turned into a space |
| Formatters.CollapseKeepsLegal | core/utils.py:65-67 | collapsing whitespace introduces no illegal file-name character |
| Formatters.CollapseKeepsText | core/utils.py:67 | collapsing whitespace keeps every non-whitespace character, in order |
| Formatters.SliceSingleSpaced | core/utils.py:67 | every slice of a single-spaced text is single-spaced |
| Formatters.StripShape | core/utils.py:67 | stripping a single-spaced text keeps it single-spaced and adds no character |
| Formatters.CollapseSingleSpaced | core/utils.py:67 | a single-spaced text is its own whitespace collapse |
| Formatters.SanitizeFilename | core/utils.py:60-68 | the result has no illegal character, no run of whitespace, and no whitespace at either end |
| Formatters.SanitizedIsFixpoint | core/utils.py:60-68 | an already sanitised name is returned unchanged |
| Formatters.SanitizeIdempotent | core/utils.py:60-68 | sanitising twice is sanitising once |
| Formatters.SanitizeKeepsText | core/utils.py:64-67 | apart from whitespace, the sanitised name has the same characters as the name with illegal characters replaced |
| Formatters.ReplaceIllegalConcat | core/utils.py:65 | replacing forbidden characters splits over concatenation |
| Formatters.TrimStartAppend | core/utils.py:67 | leading-whitespace trimming stops at a non-space boundary |
| Formatters.CollapseStep | core/utils.py:67 | one step of `re.sub(r'\s+', ' ', …)`: a whitespace run becomes one space, any other character is kept |
| Formatters.CollapseConcat | core/utils.py:67 | collapsing whitespace splits at a non-space boundary |
| Formatters.SingleSpacedConcat | core/utils.py:67 | single-spaced texts joined at a non-space boundary stay single-spaced |
| Formatters.SanitizeKeepsFrame | core/utils.py:60-68 | sanitising a name framed by non-empty sanitised texts keeps the frame and only sanitises the middle, without trimming it |
| Formatters.ZeroFill | core/utils.py:77 | `zfill` pads with leading zeros to the width and keeps the input as its tail |
| Formatters.PhoneDigits | core/utils.py:76-77 | the phone digits are exactly 11: the last 11 digits of the input, or all of them zero-padded on the left |
| Formatters.FormatPhone | core/utils.py:71-82 | the formatted phone has the `+D DDD DDD-DD-DD` layout, its digits are the phone digits, and the second part is digits 8–9 and 10–11 with a space |
| Formatters.DigitsOfLayout | core/utils.py:79 | the digits of the layout are the 11 digits laid out |
| Formatters.LayoutShape | core/utils.py:79-80 | the layout has the `+D DDD DDD-DD-DD` shape, with digits 8–9 and 10–11 at positions 11–12 and 14–15 |
| Formatters.PhoneDigitsOfEleven | core/utils.py:76-77 | eleven digits are kept as they are, neither cut nor padded |
| Formatters.FormatPhoneFixpoint | core/utils.py:71-82 | formatting an already formatted phone returns the same pair |
| Formatters.FormatByDigits | core/utils.py:71-82 | any text whose digits are eleven digits formats to the layout of those digits and their `DD DD` tail |
| Formatters.PhoneDigitsByDigits | core/utils.py:76-77 | inputs with the same digits get the same phone digits |
| Formatters.LayoutRoundTrip | core/utils.py:76-79 | the layout of 11 digits is a fixpoint of the formatter and gives back those digits |
| Formatters.ExampleLayout | core/utils.py:74-79 | the digits `79991234567` are laid out as `+7 999 123-45-67` |
| Formatters.FormatPhoneExample | core/utils.py:74 | `+7 999 123-45-67` formats to itself with tail `45 67` |
| Formatters.BeforeSpace | core/utils.py:101 | the text before the first space is a space-free prefix ending at that space |
| Formatters.OnesRoundTrip | core/utils.py:90 | each unit word from 1 to 9 is read back as its digit |
| Formatters.TeensRoundTrip | core/utils.py:91-92 | each teens word is read back as its position in the teens table and holds no space |
| Formatters.TensRoundTrip | core/utils.py:93-94 | each tens word from 20 to 90 is read as tens and not as a teens word, and holds no space |
| Formatters.NumberWordsShape | core/utils.py:96-101 | 10–19 give the teens word, round tens give the tens word alone, and the rest give the tens word, a space and the unit word |
| Formatters.TeensWordRoundTrip | core/utils.py:91-92 | reading a teens word gives 10 plus its position |
| Formatters.TensWordRoundTrip | core/utils.py:93-94 | reading a tens word gives ten times its position |
| Formatters.CompoundRead | core/utils.py:99-101 | any space-free tens word, a space and a ones word read back as ten times the tens plus the ones |
| Formatters.CompoundWordsRoundTrip | core/utils.py:99-101 | reading a tens word, a space and a unit word gives the two-digit number |
| Formatters.TeensNumberRoundTrip | core/utils.py:96-97 | the words for 10–19 read back as the number |
| Formatters.TensNumberRoundTrip | core/utils.py:98-101 | the words for a round ten from 20 to 90 read back as the number |
| Formatters.CompoundNumberRoundTrip | core/utils.py:98-101 | the words for a number from 21 to 99 that is not a round ten read back as the number |
| Formatters.NumberWordsRoundTrip | core/utils.py:85-101 | reading the words for a number from 10 to 99 gives back the number |
| Formatters.NumberWordsInjective | core/utils.py:85-101 | different numbers from 10 to 99 get different words, never the out-of-range text |
| Formatters.NumberToWords | core/utils.py:85-101 | the out-of-range text comes back exactly for numbers outside 10–99; the words for 10–99 are non-empty and at most 18 characters |
| Formatters.NumberWordsExamples | core/utils.py:87-101 | 45 is `сорок пять`, 40 is `сорок` without a trailing space, and 100 is out of range |
| Formatters.Capitalize | core/document_generator.py:142 | `capitalize` upper-cases the first character and lower-cases the rest |
| Registry.ColumnIndex | core/database.py:16 | a column is found at the first header cell with its name, and is missing only when no header cell has it |
| Registry.Lookup | core/database.py:63 | a column exists exactly when the sheet was read and has that header, and it holds one cell per row |
| Registry.ParseContractNumber | core/database.py:64-69 | only a text cell containing `-ИП` can yield a number |
| Registry.ParsedValueOf | core/database.py:63-67 | every entry that parses contributes its value |
| Registry.ParsedValueSource | core/database.py:63-67 | every collected value comes from an entry that parses to it |
| Registry.MaxParsed | core/database.py:62-67 | the running maximum is at least 0, bounds every parsed entry, and is 0 or one of the entries |
| Registry.MaxParsedStep | core/database.py:63-67 | one more entry raises the running maximum to its number exactly when that number parses and is larger |
| Registry.MaxBoundsEntries | core/database.py:62-69 | the maximum bounds each valid entry, and is 0 when no entry is valid |
| Registry.SameValuesSameMax | core/database.py:62-67 | columns with the same set of valid numbers have the same maximum |
| Registry.NextContractValue | core/database.py:58-73 | 101 when reading fails or the column is missing; otherwise at least 1, above every valid entry, one more than a valid entry or 1, and exactly 1 when there is no valid entry |
| Registry.ContractNumberRoundTrip | core/database.py:66-70 | `N-ИП` parses back to `N` |
| Registry.NextContractNumber | core/database.py:58-73 | the next number parses back to a value of at least 1 above every number in the registry |
| Registry.NextContractNumberByColumn | core/database.py:58-73 | the next number is `101-ИП` without a readable column, and otherwise the column's running maximum plus one |
| Registry.ScanNextContractNumber | core/database.py:60-73 | the loop over the column computes the same number as the functional definition |
| Registry.NextContractPermutation | core/database.py:63-67 | reordering the registry rows does not change the next number |
| Registry.SkippedEntryIrrelevant | core/database.py:64-69 | an entry that does not parse has no effect on the maximum |
| Registry.MaxId | core/database.py:16 | the maximum id is one of the ids and bounds all of them |
| Registry.NextId | core/database.py:12-19 | 1 when the sheet is unreadable, empty, lacks the column, or the column holds text or no number; otherwise the largest number in the column plus one |
| Registry.NextClientId | core/database.py:12-19 | the next `№` of the client folder |
| Registry.NextRegistryId | core/database.py:98-110 | the next `Номер` of the registry |
| Registry.ConsecutiveIds | core/database.py:98-110 | ids 1..n give n + 1 |
| Registry.FirstMatch | core/database.py:37-38 | the result is the index of the first matching row, and no result means no row matches |
| Registry.FilledRow | core/database.py:27 | `fillna("")` gives a row with one cell per header column, none of them empty, keeping every cell that held a value |
| Registry.FilledRowMatches | core/database.py:27-35 | filling empty cells with the empty text does not change whether a row matches the term |
| Registry.FindClient | core/database.py:20-39 | no client when the folder is unreadable or lacks a searched column; otherwise the `fillna("")` form of the first row whose VIN or name fields contain the term case-insensitively |
| Registry.FindBySurname | core/database.py:33 | searching for a stored surname in upper case finds a client |
| Registry.LowerUpper | core/database.py:32-35 | upper-casing the term does not change case-insensitive matching |
| Registry.SaveClient | core/database.py:44-55 | saving succeeds exactly when the folder can be opened and written back; then the row is appended and nothing else changes |
| Registry.RecordRow | core/database.py:81-88 | the record row is number, full name, contract number, phone, index and date, in that order |
| Registry.SaveContractRecord | core/database.py:76-95 | saving succeeds exactly when the registry can be opened and written back; then the earlier rows are kept and the record row is appended |
| Registry.NextContractAfterSave | core/database.py:58-95 | after saving a record under the next contract number, the next number advances by one |
| Registry.NextRegistryIdAfterSave | core/database.py:76-110 | after saving a record under the next id, the next id advances by one |
| Registry.FindClientAfterSave | core/database.py:37-55 | appending a client does not change which client an existing match finds |
| Registry.FirstMatchPrefix | core/database.py:37-38 | rows appended after a match do not move the first match |
| Rendering.Zip | core/document_generator.py:88-108 | a context built from keys and values pairs each key with the value at the same position and has one entry per key |
| Rendering.Placeholder | core/document_generator.py:21 | the placeholder is the key wrapped in braces |
| Rendering.ConcatSplit | core/document_generator.py:22 | the paragraph text is the runs before, the run itself, and the runs after |
| Rendering.RunInText | core/document_generator.py:22-25 | a placeholder inside one run is inside the paragraph text |
| Rendering.SubstituteRun | core/document_generator.py:25-26 | a run without the placeholder is left as it is |
| Rendering.ReplaceKey | core/document_generator.py:20-26 | one key keeps the run count and rewrites each run on its own |
| Rendering.NoRunHolds | core/document_generator.py:22 | when the paragraph text lacks the placeholder, no run has it |
| Rendering.GuardIsReplaceAll | core/document_generator.py:22-26 | the paragraph-level guard changes nothing: each run becomes its own `str.replace` |
| Rendering.ReplaceInParagraph | core/document_generator.py:18-26 | all keys in order keep the run count, and each run becomes the reference fold of replacements over the context |
| Rendering.RunWithoutTokens | core/document_generator.py:18-26 | a run holding no placeholder of the context is unchanged |
| Rendering.ReplaceInCell | core/document_generator.py:33-34 | each paragraph of a cell is replaced in place |
| Rendering.ReplaceInTable | core/document_generator.py:29-34 | table shape is kept and every cell paragraph is replaced |
| Rendering.FillDocument | core/document_generator.py:53-59 | paragraphs and tables keep their number, and each is replaced in place |
| Rendering.FillTemplate | core/document_generator.py:37-68 | a document results exactly when the template exists and saving succeeds, and it is the filled template |
| Rendering.FillDocumentRuns | core/document_generator.py:53-59 | every body paragraph and every table-cell paragraph is the paragraph replacement of the original |
| Rendering.EmptyContextIdentity | core/document_generator.py:37-68 | an empty context leaves the document unchanged |
| Rendering.SplitPlaceholderKept | core/document_generator.py:22-26 | a placeholder split across two runs is found in the text but left unreplaced |
| Rendering.SingleRunReplaced | core/document_generator.py:18-26 | a placeholder alone in its run, between runs without it, is replaced by its value and its neighbours are kept |
| Rendering.SingleRunExample | core/document_generator.py:18-26 | a placeholder alone in its run is replaced and its neighbours are kept |
| Generation.NumberPart | core/document_generator.py:89 | `NUM` removes `-ИП` and adds no character that the contract number lacks |
| Generation.AllocatedNumberParts | core/document_generator.py:89-90 | for an allocated `N-ИП`, `NUM` is the decimal `N` and both parse back to `N` |
| Generation.ShortFio | core/document_generator.py:94 | the short name exists exactly when the first name and patronymic are non-empty; it is the surname, a space, the first initial with a dot, a space, and the patronymic initial with a dot |
| Generation.ContractPhone | core/document_generator.py:84-86 | a non-empty stored formatted phone is used; otherwise the phone is formatted, with the layout and digits the formatter promises |
| Generation.FormattedPhoneKept | core/document_generator.py:84-86 | a phone stored already formatted goes into the contract unchanged |
| Generation.StoredPhoneAgrees | core/document_generator.py:84-86 | a stored pair made by the formatter gives the same phone as formatting on the spot |
| Generation.ContractFieldsOf | core/document_generator.py:80-108 | the contract values exist exactly when the short name can be built; `NUM` is the number without `-ИП`, `DATE` is today, the full name, short name, `CAR_INFO` and phone are computed, and `CAR`, `VIN`, `ADDRESS`, `INDEX`, `PASSPORT`, `ISSUED_BY`, `ISSUE_DATE`, `DEP_CODE` and `BIRTH_DATE` are the client's fields unchanged |
| Generation.ContractContextOf | core/document_generator.py:88-108 | the context has the 19 contract keys in order |
| Generation.ContractContextValues | core/document_generator.py:88-97 | `NUM`, `FULL_NUM`, `DATE`, `FIO`, `FULL_FIO`, `SHORT_FIO`, `CAR`, `VIN` and `CAR_INFO` carry their values, with `FIO` and `FULL_FIO` both the full name |
| Generation.ContractContextDetails | core/document_generator.py:98-107 | `ADDRESS`, `INDEX`, `PASSPORT`, `ISSUED_BY`, `ISSUE_DATE`, `DEP_CODE`, `BIRTH_DATE` and `PHONE` carry their values, and `COMPANY` and `APP_NAME` the fixed names |
| Generation.ContractContext | core/document_generator.py:88-108 | the context exists exactly when no initial is missing, and then its keys are the 19 contract keys in order |
| Generation.ContractContextOfClient | core/document_generator.py:90-104 | in the built contract context, `DATE` is today and `CAR`, `VIN`, `ADDRESS`, `INDEX`, `PASSPORT`, `ISSUED_BY`, `ISSUE_DATE`, `DEP_CODE` and `BIRTH_DATE` are the client's fields |
| Generation.SafeIndex | core/document_generator.py:112 | the file-name index never holds `*` and is the index itself when it has none |
| Generation.ContractFileName | core/document_generator.py:111-113 | the file name starts with `Договор №`, the number and ` (`, ends in `.docx`, and holds a `*` exactly when the number does |
| Generation.GenerateContract | core/document_generator.py:71-118 | the contract raises exactly on a missing initial and is written exactly when the template exists and saving succeeds, under the contract file name with the filled template |
| Generation.ContractNumberIsFresh | core/document_generator.py:81-113 | a written contract's name carries a number that parses back above every number in the registry |
| Generation.ServiceDescription | core/document_generator.py:144-147 | `sbkts` and `scrap` select their wording exactly, and any other service gets `услуге` |
| Generation.PaymentTemplate | core/document_generator.py:150-155 | the card template is chosen exactly for `card` |
| Generation.PaymentLabel | core/document_generator.py:150-155 | the label is ` НА КАРТУ ` for card, which strips to `НА КАРТУ`, and empty otherwise |
| Generation.MethodLabel | core/document_generator.py:171 | `METHOD_LABEL` is `НА КАРТУ` for card and empty otherwise |
| Generation.AmountText | core/document_generator.py:141-142 | the amount is spelled in words exactly for amounts from 10000 to 99999; any other amount gives the capitalised out-of-range text with ` тысяч` |
| Generation.VerboseInvoiceDate | core/document_generator.py:161 | the verbose invoice date holds no digit zero |
| Generation.VerboseDateWithoutZero | core/document_generator.py:161 | a date text without zeros is kept as it is |
| Generation.ZeroFreeReplacement | core/document_generator.py:161 | replacing every `0` with the letter `о` leaves no `0` |
| Generation.ContractRef | core/document_generator.py:170 | `CONTRACT_REF` is the contract number and ` от ` followed by the folder date, or by `__.__.____` when the client has none |
| Generation.InvoiceFieldsOf | core/document_generator.py:140-171 | `NUM`, `FULL_NUM` with `-001`, `DATE` as today, the zero-free verbose date, the full name, the client's address and index, the amount texts, the service wording, `CAR_INFO` as `{car}_vin {vin}`, the contract reference and the method label |
| Generation.InvoiceContextOf | core/document_generator.py:157-178 | the context has the 20 invoice keys in order |
| Generation.InvoiceContextValues | core/document_generator.py:157-171 | each of the 14 computed invoice values, from `NUM` to `METHOD_LABEL`, sits under its own key |
| Generation.InvoiceContextDetails | core/document_generator.py:172-177 | `COMPANY`, `INN`, `BANK_ACCOUNT`, `BANK_NAME`, `BANK_BIC` and `CORR_ACCOUNT` hold the fixed company and bank details |
| Generation.InvoiceContext | core/document_generator.py:157-178 | the keys of the invoice context are the 20 invoice keys in order |
| Generation.InvoiceContextOfClient | core/document_generator.py:159-169 | in the built invoice context, `DATE` is today, `FIO` the full name, `ADDRESS` and `INDEX` the client's fields, and `CAR_INFO` is `{car}_vin {vin}` |
| Generation.InvoiceContextAmounts | core/document_generator.py:163-170 | in the built invoice context, `AMOUNT` is `str(amount)`, `AMOUNT_RUB` adds the currency symbol, and `CONTRACT_REF` is the contract reference |
| Generation.InvoiceFileName | core/document_generator.py:180-183 | the invoice file name is sanitised, and sanitising it again changes nothing |
| Generation.InvoiceHeadSanitized | core/document_generator.py:182 | `Счёт{label}№ {FULL_NUM}` with a plain contract number is already sanitised text |
| Generation.InvoiceFileNameShape | core/document_generator.py:180-183 | with a plain contract number, the name is `Счёт{label}№ {number}-001`, then the sanitised ` от {DATE} для {fio}_{INDEX}`, then `.docx` |
| Generation.GenerateInvoice | core/document_generator.py:121-188 | an invoice never raises; it is written exactly when the template for the payment exists and saving succeeds, under the sanitised invoice name with the template filled from the invoice context |
| Generation.InvoiceNumbersFollowContract | core/document_generator.py:89-90 | for an allocated contract number, the invoice and the contract share `NUM`, and the invoice `FULL_NUM` is the contract's with `-001` appended |

## Left out

- Characters: digits are ASCII only, and whitespace is the ASCII part of Python's `isspace`.
  Case mapping covers ASCII and the basic Cyrillic block (U+0400–U+045F). Python's Unicode
  `\d`, `\s` and full case tables are wider.
- The client search term is used as a plain substring. In the source, pandas reads it as a
  regular expression.
- The GUI windows, `main.py` and the configuration directories are outside the core.
- Excel and Word files are values. Reading, writing and library failures become `Unreadable`,
  a missing template, or `saved == false`. Logging and the printed error messages are left out.
- The clock and the locale are parameters: today's `ДД.ММ.ГГГГ` date and the `%d %B %Y` text.
  `Formatters.VerboseDate` takes the day, month and year as numbers.
- Client fields are text. A number stored where the source expects text, such as a numeric
  index or phone, would raise in the source and is not modelled.
- Registry.FindClient: a name column holding only numbers makes pandas raise for the whole
  search. The model only lets such cells not match, which is what pandas does when the column
  also holds text.
- Registry.NextId: a column holding text makes pandas fail, or take a maximum over strings.
  The model takes the error path and returns 1.
- Registry.SearchText: a numeric VIN column that pandas reads as floats would print as `123.0`.
  The model prints integers.
- Rendering.FillDocument: merged table cells that python-docx visits once per covered grid
  position are visited once. Nested tables, headers and footers are not filled.
- Generation.InvoiceFileNameShape: stated for contract numbers without whitespace or forbidden
  file-name characters, which includes every `N-ИП` the registry hands out. Other numbers are
  sanitised along with the rest of the name, and only `Generation.InvoiceFileName`'s general
  sanitising contract covers them.
- Validators.ValidPhone, Validators.ValidVin, Validators.ValidDate: the non-string branch of
  the `isinstance` guard is not modelled, because inputs are text.
- `setup_logging` and `get_current_date` are I/O and clock access.
- The `TAX_RATE` and currency settings beyond the currency symbol are not used by the core.
- The `.replace(' ', ' ')` on the verbose invoice date replaces a space with a space and is
  omitted.
