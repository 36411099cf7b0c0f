# Zip code table

A Dafny model of the postal-code table in `ZipCodes.cpp`. The table is a map
from zip code to latitude/longitude. It has three operations:

- `LoadZipCodes` fills the table from a comma-separated text file. Each line
  is cut into fields with `strtok`, and the coordinate is stored under
  `atoi` of the first field.
- `GetLatAndLon` answers a query. A code that is not in the table answers
  `(0,0)`.
- `ReleaseZipCodes` empties the table.

The model has four modules, one per file, plus a module of worked examples:

- `Fields` (fields.dfy) covers strtok. `Tokens` is what strtok yields for a
  line: the naive comma split `Split` with its empty pieces dropped.
  `StrTok` is one strtok call. `ExtractFields` is the in-place loop that
  copies the tokens into the rows of the `fields` buffer.
- `CNumbers` (cnumbers.dfy) covers C's `atoi`: leading white space, an
  optional sign, then the longest run of digits. `IntToDecimal` is the
  `%d` rendering that `atoi` is proved to invert.
- `ZipCodes` (zipcodes.dfy) holds the class `ZipCodeTable`. Its map field
  is `zipCodes`, and its methods follow the source's loops. The field
  buffer is a local `array<string>` of six rows, as in the source.
  - A load has two specifications. `LoadLines` folds the file's records
    (`Records`, read from the field rows after each line, `FieldsAfter`)
    into the map in file order, last write winning (`Store`).
  - `LoadFrom` replays the loader's state, the rows and the map, over the
    lines still to read. `LoadFromStores` proves the two agree.
- `ZipCodeExamples` (examples.dfy) works concrete lines through the model's
  lemmas.

A line is text as the loader sees it: each character stands for one byte of
the file (`NonNulBytes`), so a character outside ASCII written in UTF-8 is
several characters, and the 32-byte row width is counted in bytes.

The coordinate component is a type parameter `D`. `ConvertStringToDouble`
is the table's `conv: string -> D`, and the zero of the sentinel is its
`zero: D`.

Where the code differs from a naive reading of the file format, the model
follows the code:

- Fields are not trimmed. The line's `'\n'` stays inside the last token.
- strtok never yields an empty token. Doubled, leading and trailing commas
  vanish rather than giving empty fields.
- A line with fewer tokens is neither skipped nor zero-filled. It keeps the
  previous line's values in its later rows. The rows start out empty
  because the buffer is zero-initialised when a load begins.
- A blank line, or one of only commas before its `'\n'`, is not skipped.
  Its one token is `"\n"`, which atoi reads as 0, so it stores code 0 with
  rows 2 and 3 of the line before it.

## Model

`LoadZipCodes` and its read loop `ReadLines` are proved against `LoadLines`,
the file's records stored in file order on top of the old table.

| member | source | states |
|---|---|---|
| Fields.Tokens | ZipCodes.cpp:88-96 | every token strtok yields is non-empty and comma-free |
| Fields.TokensAround | ZipCodes.cpp:88-96 | a comma separates the tokens before it from those after it and adds no token of its own |
| Fields.TokensOfRun | ZipCodes.cpp:88-96 | a non-empty comma-free run, '\n' included, is exactly one token |
| Fields.TokensJoin | ZipCodes.cpp:88-96 | non-empty comma-free fields joined by single commas tokenize back to exactly those fields |
| Fields.TokensKeepText | ZipCodes.cpp:88-96 | the tokens, concatenated, are the line's characters other than commas, in order |
| Fields.StrTok | ZipCodes.cpp:88-95 | one strtok call finds nothing exactly when only commas remain, and otherwise always consumes text |
| Fields.StrTokTokens | ZipCodes.cpp:88-95 | one strtok call returns the first token of the remaining text and leaves the rest of the tokens to later calls |
| Fields.ExtractFields | ZipCodes.cpp:88-96 | after the loop, rows [0, count) hold exactly the line's tokens, count is their number, and the later rows are unchanged |
| CNumbers.Atoi | ZipCodes.cpp:101 | text that does not start with white space, a sign or a digit reads as 0, and a run of digits alone reads as its decimal value |
| CNumbers.AtoiSkipsSpace | ZipCodes.cpp:101 | white space before the number is skipped and does not change the value |
| CNumbers.AtoiOfDecimal | ZipCodes.cpp:101 | atoi reads back any integer written in decimal, whatever non-digit text follows it |
| CNumbers.AtoiOfUnsigned | ZipCodes.cpp:101 | text starting with a digit is read as the value of its leading digit run |
| CNumbers.AtoiOfSigned | ZipCodes.cpp:101 | a leading '-' or '+' negates or keeps the value of the digits after it |
| CNumbers.AtoiWithoutDigits | ZipCodes.cpp:101 | a key field with no digits at all reads as code 0 |
| ZipCodes.FieldsAfter | ZipCodes.cpp:79-96 | the field rows after any number of lines are still six rows |
| ZipCodes.Records | ZipCodes.cpp:98-101 | a file yields one record per line |
| ZipCodes.Store | ZipCodes.cpp:101 | the record stored last always holds the entry under its code |
| ZipCodes.StoreGrows | ZipCodes.cpp:83-102 | storing records never removes a code, and each record adds at most one |
| ZipCodes.StoreKeys | ZipCodes.cpp:83-102 | the codes after storing are exactly the earlier codes plus the records' codes |
| ZipCodes.StoreLastWrite | ZipCodes.cpp:101 | a code holds the value of the last record with that code |
| ZipCodes.StoreUntouched | ZipCodes.cpp:101 | a code that no record carries keeps its entry, or stays absent |
| ZipCodes.LoadLinesGrows | ZipCodes.cpp:83-102 | a load keeps every code already in the table and adds at most one code per line |
| ZipCodes.LoadFromStores | ZipCodes.cpp:78-102 | replaying the loader line by line from empty rows gives the records of the file stored in order |
| ZipCodes.LoadFromStep | ZipCodes.cpp:83-101 | one more line read is one more row overlay and one more record stored |
| ZipCodes.FieldsAfterKeyFits | ZipCodes.cpp:79-101 | when every line's first token reads as an int, row 0 reads as an int after every line, including lines with no token |
| ZipCodes.LoadLinesKeysFit | ZipCodes.cpp:83-102 | loading well-formed lines adds only codes that fit an int |
| ZipCodes.StoreWriter | ZipCodes.cpp:101 | a code that was not in the old table was written by one of the records |
| ZipCodes.StoredKeysFit | ZipCodes.cpp:83-102 | storing the records of rows whose first tokens read as ints adds only int codes |
| ZipCodes.Lookup | ZipCodes.cpp:26-31 | a present code answers its entry, and an absent code answers (0,0) |
| ZipCodes.StoredOriginLooksAbsent | ZipCodes.cpp:28-31 | a code stored with (0,0) answers exactly as a code that is missing |
| ZipCodes.OpenForReading | ZipCodes.cpp:37-44 | an empty path is never opened and fails; any other path is opened |
| ZipCodes.LoadableFits | ZipCodes.cpp:79 | the lines of a well-formed file each have at most six tokens |
| ZipCodes.ZipCodeTable.constructor | ZipCodes.cpp:20 | the table starts empty |
| ZipCodes.ZipCodeTable.GetLatAndLon | ZipCodes.cpp:23-32 | a present code answers its stored coordinate, and an absent code answers (0,0) |
| ZipCodes.ZipCodeTable.LoadZipCodes | ZipCodes.cpp:66-105 | a failed open returns false and the error text and leaves the table unchanged; otherwise it returns true and "Success", and the table is the old table with the file's records stored on top; every code it adds fits an int |
| ZipCodes.ZipCodeTable.ReadLines | ZipCodes.cpp:78-102 | the read loop leaves the table equal to the old table with every line's record stored in file order |
| ZipCodes.ZipCodeTable.ReadLine | ZipCodes.cpp:88-101 | one line overlays its tokens on the rows, keeping the later rows, and sets the entry under atoi of row 0 to rows 2 and 3 converted |
| ZipCodes.ZipCodeTable.ReleaseZipCodes | ZipCodes.cpp:108-112 | the table is empty afterwards and every code answers (0,0), so a second release changes nothing |
| ZipCodeExamples.SampleLineTokens | ZipCodes.cpp:88-96 | "94040,Mountain View,37.3861,-122.0839,CA\n" gives five tokens, the last ending in '\n' |
| ZipCodeExamples.OneLineLoads | ZipCodes.cpp:83-101 | a one-line file with at least four tokens stores exactly one entry |
| ZipCodeExamples.SampleLineLoads | ZipCodes.cpp:83-101 | the sample line stores its coordinate under 94040 |
| ZipCodeExamples.ZeroRecordLooksAbsent | ZipCodes.cpp:28-31 | after loading "00000,Unknown,0,0,XX", code 0 answers as in an empty table |
| ZipCodeExamples.BadLatitudeStillLoads | ZipCodes.cpp:100-101 | a non-numeric latitude does not stop the line from being stored under its code |
| ZipCodeExamples.ShortLineReusesFields | ZipCodes.cpp:79-101 | a one-field line after "1,a,2,3" is stored with the previous line's coordinate |
| ZipCodeExamples.BlankLineOverwritesZero | ZipCodes.cpp:83-101 | a blank line after "1,a,2,3" stores code 0 with the previous line's coordinate |
| ZipCodeExamples.AtoiSpaceCode | ZipCodes.cpp:101 | atoi reads " 7" as 7 |
| ZipCodeExamples.StrayCommasVanish | ZipCodes.cpp:88-96 | leading, doubled and trailing commas yield no empty tokens |
| ZipCodeExamples.SampleLineBytes | ZipCodes.cpp:83-88 | the sample line is one byte per character with no NUL |
| ZipCodeExamples.NulLineRejected | ZipCodes.cpp:88 | a line with a NUL byte does not meet the loader's precondition |
| ZipCodeExamples.LoadableSample | ZipCodes.cpp:79-101 | the sample file meets the loader's well-formedness conditions |

## Left out

- File access (`FileHandler`, `fopen`, `fgets`, `fclose`) is a parameter. `fopen` is a function from path to `FileSource`, either the open error or the lines that `fgets` returns. The OS text for an empty path (`strerror(errno)`) is the parameter `lastError`.
- The cutting of lines longer than 1023 characters into several `fgets` reads is not modelled. Each element of `lines` is one whole read.
- A line with more than six tokens, or with a token of 32 bytes or more (one byte per character, see `NonNulBytes`), overflows `fields`. That is undefined behaviour, so `WellFormedLine` excludes it as a precondition of `LoadZipCodes`. The source does not check for it.
- `atoi` overflow is undefined behaviour, so `WellFormedLine` also requires the key to fit in 32 bits. Within that bound, `Atoi` works on unbounded integers.
- `ConvertStringToDouble` (ZipCodes.cpp:114-123) parses floating point through a string stream. It is the uninterpreted parameter `conv`.
- The 1024-byte `sprintf` buffer for the error message is not modelled. The message is the prefix followed by the whole error text.
- The map is a global static in the source and a field of a `ZipCodeTable` object here.
- `GetLatAndLon` takes an `int32_t` in the source. The model takes an unbounded `int`. `LoadZipCodes` promises that every code it adds fits in 32 bits, which follows from its precondition. `ReadLines` called on its own with an over-long code would store it.
- LoadZipCodes: does not model a line with an embedded NUL byte. strtok would stop scanning at the NUL and ignore the rest of the line. `WellFormedLine` excludes such lines through `NonNulBytes`.
