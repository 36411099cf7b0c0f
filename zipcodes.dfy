/**
 * The postal-code table: a map from zip code to latitude/longitude that
 * `LoadZipCodes` fills from a comma-separated file, `GetLatAndLon` queries
 * with (0,0) for a missing code, and `ReleaseZipCodes` empties.
 *
 * A coordinate component is the type parameter `D`; the text-to-number
 * conversion (`ConvertStringToDouble`, a stream extraction into a double) is
 * the table's `conv` and the zero of the sentinel (0,0) its `zero`, so no
 * floating point enters the model.
 *
 * A load has two specifications. `LoadLines` says what ends up in the map:
 * the records of the file (`Records`, each read from the field rows after
 * its line, `FieldsAfter`) stored in file order (`Store`). `LoadFrom`
 * replays the loader's state, the field rows and the map, over the lines
 * still to read; `LoadFromStores` shows the two agree, and the read loop is
 * proved against `LoadFrom`.
 */
module ZipCodes {
  import opened Fields
  import opened CNumbers

  datatype LatLon<D> = LatLon(lat: D, lon: D)

  /** What opening the file gives the loader: the OS error text, or the file's lines. */
  datatype FileSource = OpenFailed(error: string) | Opened(lines: seq<string>)

  const OpenErrorPrefix: string := "An error occurred while attempting to open our file: "

  /** The rows of `fields` before the first line: all empty strings. */
  const BlankFields: seq<string> := ["", "", "", "", "", ""]

  predicate InInt32(n: int)
  {
    -0x8000_0000 <= n < 0x8000_0000
  }

  /**
   * Text as the loader sees it: each character stands for one byte of the
   * file, and none is a NUL, which would end strtok's scan of the line.
   */
  predicate NonNulBytes(line: string)
  {
    forall i | 0 <= i < |line| :: 0 < line[i] as int < 0x100
  }

  /**
   * A line the loader handles without undefined behaviour: bytes without a
   * NUL, at most six tokens, each short enough for a 32-byte row with its
   * terminating NUL, and a first token whose atoi value fits an `int`.
   */
  predicate WellFormedLine(line: string)
  {
    var tokens := Tokens(line);
    && NonNulBytes(line)
    && |tokens| <= FieldRows
    && (forall t | t in tokens :: |t| < FieldWidth)
    && (tokens != [] ==> InInt32(Atoi(tokens[0])))
  }

  /** The tokens of every line, line by line. */
  function TokenRows(lines: seq<string>): (rows: seq<seq<string>>)
    ensures |rows| == |lines|
    ensures forall i | 0 <= i < |lines| :: rows[i] == Tokens(lines[i])
  {
    seq(|lines|, i requires 0 <= i < |lines| => Tokens(lines[i]))
  }

  /** Every token list, one per line, fits the six field rows. */
  predicate FitRows(rows: seq<seq<string>>)
  {
    forall i | 0 <= i < |rows| :: |rows[i]| <= FieldRows
  }

  /** The field rows after copying `tokens` over the first of them. */
  function Overlay(fields: seq<string>, tokens: seq<string>): (r: seq<string>)
    requires |tokens| <= |fields|
    ensures |r| == |fields|
  {
    tokens + fields[|tokens|..]
  }

  /**
   * The field rows after the loader has processed the first `n` lines, whose
   * token lists are `rows`, starting from `start`.
   */
  function FieldsAfter(start: seq<string>, rows: seq<seq<string>>, n: nat): (f: seq<string>)
    requires |start| == FieldRows
    requires FitRows(rows)
    requires n <= |rows|
    ensures |f| == FieldRows
  {
    if n == 0 then start
    else Overlay(FieldsAfter(start, rows, n - 1), rows[n - 1])
  }

  /**
   * What the line with token list `rows[i]` stores: row 0 of the field rows
   * after it, read by `toKey` (the loader's is `Atoi`), is the key, and rows
   * 2 and 3, converted, are the coordinate.
   */
  function RecordAt<D>(start: seq<string>, rows: seq<seq<string>>, i: nat,
                       toKey: string -> int, conv: string -> D): (int, LatLon<D>)
    requires |start| == FieldRows
    requires FitRows(rows)
    requires i < |rows|
  {
    var fields := FieldsAfter(start, rows, i + 1);
    (toKey(fields[0]), LatLon(conv(fields[2]), conv(fields[3])))
  }

  /** The records of all lines, in file order. */
  function Records<D>(start: seq<string>, rows: seq<seq<string>>,
                      toKey: string -> int, conv: string -> D): (recs: seq<(int, LatLon<D>)>)
    requires |start| == FieldRows
    requires FitRows(rows)
    ensures |recs| == |rows|
  {
    seq(|rows|, i requires 0 <= i < |rows| => RecordAt(start, rows, i, toKey, conv))
  }

  /**
   * The table after storing the first `n` records into `table` in order,
   * each replacing any entry under its key.
   */
  function Store<V>(table: map<int, V>, recs: seq<(int, V)>, n: nat): (stored: map<int, V>)
    requires n <= |recs|
    ensures n > 0 ==> recs[n - 1].0 in stored && stored[recs[n - 1].0] == recs[n - 1].1
  {
    if n == 0 then table else Store(table, recs, n - 1)[recs[n - 1].0 := recs[n - 1].1]
  }

  /** The keys of the first `n` records. */
  function KeysOf<V>(recs: seq<(int, V)>, n: nat): (keys: set<int>)
    requires n <= |recs|
  {
    set i | 0 <= i < n :: recs[i].0
  }

  /** Storing never removes a key, and each record adds at most one. */
  lemma {:induction false} StoreGrows<V>(table: map<int, V>, recs: seq<(int, V)>, n: nat)
    requires n <= |recs|
    ensures table.Keys <= Store(table, recs, n).Keys
    ensures |Store(table, recs, n).Keys| <= |table.Keys| + n
  {
    if n > 0 {
      StoreGrows(table, recs, n - 1);
      var before, key := Store(table, recs, n - 1).Keys, recs[n - 1].0;
      assert Store(table, recs, n).Keys == before + {key};
      if key in before {
        assert before + {key} == before;
      } else {
        assert |before + {key}| == |before| + 1;
      }
    }
  }

  /** The stored table's keys are the old keys and the records' keys. */
  lemma {:induction false} StoreKeys<V>(table: map<int, V>, recs: seq<(int, V)>, n: nat)
    requires n <= |recs|
    ensures Store(table, recs, n).Keys == table.Keys + KeysOf(recs, n)
  {
    if n > 0 {
      StoreKeys(table, recs, n - 1);
      assert KeysOf(recs, n) == KeysOf(recs, n - 1) + {recs[n - 1].0} by {
        forall k | k in KeysOf(recs, n) ensures k in KeysOf(recs, n - 1) + {recs[n - 1].0} {
          var j :| 0 <= j < n && recs[j].0 == k;
        }
      }
    }
  }

  /** A code that was not in `table` comes from one of the records: `j` is such a record. */
  lemma {:induction false} StoreWriter<V>(table: map<int, V>, recs: seq<(int, V)>, n: nat, zip: int)
    returns (j: nat)
    requires n <= |recs|
    requires zip in Store(table, recs, n) && zip !in table
    ensures j < n && recs[j].0 == zip
  {
    if n == 0 {
      assert false;
    } else if recs[n - 1].0 == zip {
      j := n - 1;
    } else {
      j := StoreWriter(table, recs, n - 1, zip);
    }
  }

  /**
   * Last write wins: the entry under the key of record `i` holds that
   * record's value when no later record has the same key.
   */
  lemma {:induction false} StoreLastWrite<V>(table: map<int, V>, recs: seq<(int, V)>, n: nat, i: nat)
    requires i < n <= |recs|
    requires forall j | i < j < n :: recs[j].0 != recs[i].0
    ensures recs[i].0 in Store(table, recs, n)
    ensures Store(table, recs, n)[recs[i].0] == recs[i].1
  {
    if i < n - 1 {
      StoreLastWrite(table, recs, n - 1, i);
    }
  }

  /** A key no record has keeps its entry, or its absence. */
  lemma {:induction false} StoreUntouched<V>(table: map<int, V>, recs: seq<(int, V)>, n: nat, zip: int)
    requires n <= |recs|
    requires forall j | 0 <= j < n :: recs[j].0 != zip
    ensures zip in Store(table, recs, n) <==> zip in table
    ensures zip in table ==> Store(table, recs, n)[zip] == table[zip]
  {
    if n > 0 {
      StoreUntouched(table, recs, n - 1, zip);
    }
  }

  /**
   * The table after loading the lines of an opened file into `table`: the
   * field rows start empty and each line's code is read by atoi.
   */
  function LoadLines<D>(table: map<int, LatLon<D>>, lines: seq<string>, conv: string -> D): (loaded: map<int, LatLon<D>>)
    requires LinesFit(lines)
  {
    Store(table, Records(BlankFields, TokenRows(lines), Atoi, conv), |lines|)
  }

  /**
   * A load never clears the table: every code already there stays, and each
   * line adds at most one code.
   */
  lemma {:induction false} LoadLinesGrows<D>(table: map<int, LatLon<D>>, lines: seq<string>, conv: string -> D)
    requires LinesFit(lines)
    ensures table.Keys <= LoadLines(table, lines, conv).Keys
    ensures |LoadLines(table, lines, conv).Keys| <= |table.Keys| + |lines|
  {
    StoreGrows(table, Records(BlankFields, TokenRows(lines), Atoi, conv), |lines|);
  }

  /**
   * Every line has few enough tokens for the six field rows: the same
   * condition as `FitRows(TokenRows(lines))`, stated on the lines
   * themselves so that it carries over to the remaining lines of a load.
   */
  predicate LinesFit(lines: seq<string>)
  {
    forall line | line in lines :: |Tokens(line)| <= FieldRows
  }

  /**
   * The table after the loader, holding field rows `fields` and map
   * `table`, has gone through `lines`: each line overlays its tokens on the
   * rows and stores row 0 read by atoi with rows 2 and 3 converted.
   */
  function LoadFrom<D>(fields: seq<string>, table: map<int, LatLon<D>>, lines: seq<string>,
                       conv: string -> D): (loaded: map<int, LatLon<D>>)
    requires |fields| == FieldRows
    requires LinesFit(lines)
    decreases |lines|
  {
    if lines == [] then table
    else
      var next := Overlay(fields, Tokens(lines[0]));
      LoadFrom(next, table[Atoi(next[0]) := LatLon(conv(next[2]), conv(next[3]))], lines[1..], conv)
  }

  /** Loading line by line from empty rows stores the records in file order. */
  lemma {:induction false} LoadFromStores<D>(table: map<int, LatLon<D>>, lines: seq<string>, conv: string -> D)
    requires LinesFit(lines)
    ensures LoadFrom(BlankFields, table, lines, conv) == LoadLines(table, lines, conv)
  {
    LoadFromStoresAfter(table, lines, conv, 0);
    assert lines[0..] == lines;
  }

  lemma {:induction false} LoadFromStoresAfter<D>(table: map<int, LatLon<D>>, lines: seq<string>,
                                                  conv: string -> D, k: nat)
    requires LinesFit(lines)
    requires k <= |lines|
    ensures
      var rows := TokenRows(lines);
      var recs := Records(BlankFields, rows, Atoi, conv);
      LoadFrom(FieldsAfter(BlankFields, rows, k), Store(table, recs, k), lines[k..], conv)
        == Store(table, recs, |lines|)
    decreases |lines| - k
  {
    if k < |lines| {
      var rows := TokenRows(lines);
      LoadFromStep(table, lines, rows, Records(BlankFields, rows, Atoi, conv), conv, k);
      LoadFromStoresAfter(table, lines, conv, k + 1);
    }
  }

  /** One line of `LoadFrom` is one more field-row overlay and one more record stored. */
  lemma {:induction false} LoadFromStep<D>(table: map<int, LatLon<D>>, lines: seq<string>, rows: seq<seq<string>>,
                                           recs: seq<(int, LatLon<D>)>, conv: string -> D, k: nat)
    requires LinesFit(lines)
    requires rows == TokenRows(lines)
    requires recs == Records(BlankFields, rows, Atoi, conv)
    requires k < |lines|
    ensures LoadFrom(FieldsAfter(BlankFields, rows, k), Store(table, recs, k), lines[k..], conv)
         == LoadFrom(FieldsAfter(BlankFields, rows, k + 1), Store(table, recs, k + 1), lines[k + 1..], conv)
  {
    var fields, next := FieldsAfter(BlankFields, rows, k), FieldsAfter(BlankFields, rows, k + 1);
    assert next == Overlay(fields, Tokens(lines[k]));
    assert recs[k] == (Atoi(next[0]), LatLon(conv(next[2]), conv(next[3])));
    var rest := lines[k..];
    assert rest[0] == lines[k] && rest[1..] == lines[k + 1..];
  }

  /** The answer for `zip`: its entry, or (0,0) when it has none. */
  function Lookup<D>(table: map<int, LatLon<D>>, zip: int, zero: D): (r: LatLon<D>)
    ensures zip in table ==> r == table[zip]
    ensures zip !in table ==> r == LatLon(zero, zero)
  {
    if zip in table then table[zip] else LatLon(zero, zero)
  }

  /**
   * A stored (0,0) cannot be told apart from a missing code: the table with
   * the entry answers exactly as the table without it.
   */
  lemma {:induction false} StoredOriginLooksAbsent<D>(table: map<int, LatLon<D>>, zip: int, zero: D)
    ensures Lookup(table[zip := LatLon(zero, zero)], zip, zero) == Lookup(table - {zip}, zip, zero)
  {
  }

  /** The FileHandler's open: an empty path is never handed to fopen. */
  function OpenForReading(path: string, fopen: string -> FileSource, lastError: string): (r: FileSource)
    ensures path == [] ==> r == OpenFailed(lastError)
    ensures path != [] ==> r == fopen(path)
  {
    if |path| > 0 then fopen(path) else OpenFailed(lastError)
  }

  predicate WellFormedLines(lines: seq<string>)
  {
    forall i | 0 <= i < |lines| :: WellFormedLine(lines[i])
  }

  /** An opened file whose every line is well formed. */
  predicate Loadable(source: FileSource)
  {
    source.Opened? ==> WellFormedLines(source.lines)
  }

  /** Well-formed lines fit the field rows. */
  lemma {:induction false} LoadableFits(source: FileSource)
    requires source.Opened? && Loadable(source)
    ensures LinesFit(source.lines)
  {
  }

  /**
   * Row 0 holds an `int` code after every line: it is the first token of
   * the last line that had one, or still empty, which atoi reads as 0.
   */
  lemma {:induction false} FieldsAfterKeyFits(rows: seq<seq<string>>, n: nat)
    requires FitRows(rows)
    requires forall i | 0 <= i < |rows| :: rows[i] != [] ==> InInt32(Atoi(rows[i][0]))
    requires n <= |rows|
    ensures InInt32(Atoi(FieldsAfter(BlankFields, rows, n)[0]))
  {
    if n > 0 {
      FieldsAfterKeyFits(rows, n - 1);
      if rows[n - 1] != [] {
        assert FieldsAfter(BlankFields, rows, n)[0] == rows[n - 1][0];
      } else {
        assert FieldsAfter(BlankFields, rows, n) == FieldsAfter(BlankFields, rows, n - 1);
      }
    }
  }

  /** Loading well-formed lines only adds codes that fit an `int`. */
  lemma {:induction false} LoadLinesKeysFit<D>(table: map<int, LatLon<D>>, lines: seq<string>, conv: string -> D)
    requires WellFormedLines(lines)
    ensures LinesFit(lines)
    ensures forall zip | zip in LoadLines(table, lines, conv) && zip !in table :: InInt32(zip)
  {
    RowKeysFit(lines);
    StoredKeysFit(table, TokenRows(lines), conv);
  }

  /** Storing the records of rows whose first tokens read as `int`s adds only `int` codes. */
  lemma {:induction false} StoredKeysFit<D>(table: map<int, LatLon<D>>, rows: seq<seq<string>>, conv: string -> D)
    requires FitRows(rows)
    requires forall i | 0 <= i < |rows| :: rows[i] != [] ==> InInt32(Atoi(rows[i][0]))
    ensures forall zip | zip in Store(table, Records(BlankFields, rows, Atoi, conv), |rows|) && zip !in table ::
      InInt32(zip)
  {
    var recs := Records(BlankFields, rows, Atoi, conv);
    forall zip | zip in Store(table, recs, |rows|) && zip !in table
      ensures InInt32(zip)
    {
      var j := StoreWriter(table, recs, |rows|, zip);
      FieldsAfterKeyFits(rows, j + 1);
    }
  }

  /** Each well-formed line fits the rows, and its first token, if any, reads as an `int`. */
  lemma {:induction false} RowKeysFit(lines: seq<string>)
    requires WellFormedLines(lines)
    ensures LinesFit(lines)
    ensures forall i | 0 <= i < |lines| :: TokenRows(lines)[i] != [] ==> InInt32(Atoi(TokenRows(lines)[i][0]))
  {
    forall line | line in lines
      ensures |Tokens(line)| <= FieldRows
    {
      var i :| 0 <= i < |lines| && lines[i] == line;
      assert WellFormedLine(lines[i]);
    }
  }

  /**
   * The zip code table. `zipCodes` is the map the loader fills; `zero` and
   * `conv` fix the number type and its conversion from text.
   */
  class ZipCodeTable<D> {
    var zipCodes: map<int, LatLon<D>>
    const zero: D
    const conv: string -> D

    constructor (zero: D, conv: string -> D)
      ensures zipCodes == map[]
      ensures this.zero == zero && this.conv == conv
    {
      this.zero := zero;
      this.conv := conv;
      zipCodes := map[];
    }

    /** The stored coordinate for `zipCode`, or (0,0) when there is none. */
    function GetLatAndLon(zipCode: int): (r: LatLon<D>)
      reads this
      ensures zipCode in zipCodes ==> r == zipCodes[zipCode]
      ensures zipCode !in zipCodes ==> r == LatLon(zero, zero)
    {
      Lookup(zipCodes, zipCode, zero)
    }

    /**
     * Reads the table file at `path` into the map. `fopen` stands for the
     * operating system's open-and-read and `lastError` for the text of
     * `strerror(errno)` when no open is attempted. On a failed open the map
     * is unchanged; otherwise every line is stored in turn on top of what the
     * map already held.
     */
    method LoadZipCodes(path: string, fopen: string -> FileSource, lastError: string)
      returns (success: bool, message: string)
      requires Loadable(OpenForReading(path, fopen, lastError))
      modifies this
      ensures OpenForReading(path, fopen, lastError).OpenFailed? ==>
        && !success
        && message == OpenErrorPrefix + OpenForReading(path, fopen, lastError).error
        && zipCodes == old(zipCodes)
      ensures OpenForReading(path, fopen, lastError).Opened? ==>
        && success
        && message == "Success"
        && zipCodes == LoadLines(old(zipCodes), OpenForReading(path, fopen, lastError).lines, conv)
      ensures forall zip | zip in zipCodes && zip !in old(zipCodes) :: InInt32(zip)
    {
      var file := OpenForReading(path, fopen, lastError);
      if file.OpenFailed? {
        return false, OpenErrorPrefix + file.error;
      }
      LoadLinesKeysFit(zipCodes, file.lines, conv);
      ReadLines(file.lines);
      return true, "Success";
    }

    /**
     * The read loop of `LoadZipCodes`: each line in turn goes through
     * `ReadLine`, with the six field rows starting empty.
     */
    method ReadLines(lines: seq<string>)
      requires LinesFit(lines)
      modifies this
      ensures zipCodes == LoadLines(old(zipCodes), lines, conv)
    {
      var fields := new string[FieldRows](_ => "");
      assert fields[..] == BlankFields;
      LoadFromStores(old(zipCodes), lines, conv);
      for i := 0 to |lines|
        invariant LoadFrom(fields[..], zipCodes, lines[i..], conv) == LoadLines(old(zipCodes), lines, conv)
      {
        ReadLine(lines[i], fields);
      }
    }

    /**
     * One pass of the read loop: strtok the line's fields into the rows
     * (rows past its last token keep the previous line's values), then store
     * row 0 read by atoi with the coordinate converted from rows 2 and 3,
     * replacing any entry under that code.
     */
    method ReadLine(line: string, fields: array<string>)
      requires fields.Length == FieldRows
      requires |Tokens(line)| <= FieldRows
      modifies this, fields
      ensures fields[..] == Overlay(old(fields[..]), Tokens(line))
      ensures zipCodes == old(zipCodes)[Atoi(fields[0]) := LatLon(conv(fields[2]), conv(fields[3]))]
    {
      var count := ExtractFields(line, fields);
      assert fields[..] == fields[..count] + fields[count..];
      var latLon := LatLon(conv(fields[2]), conv(fields[3]));
      zipCodes := zipCodes[Atoi(fields[0]) := latLon];
    }

    /** Empties the table: afterwards every code answers (0,0). */
    method ReleaseZipCodes()
      modifies this
      ensures zipCodes == map[]
      ensures forall zip :: GetLatAndLon(zip) == LatLon(zero, zero)
    {
      if |zipCodes| > 0 {
        zipCodes := map[];
      }
    }
  }
}
