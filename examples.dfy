/**
 * Concrete lines worked through the model's lemmas: the record a typical line stores,
 * the (0,0) ambiguity, a non-numeric coordinate, a short line that reuses
 * the previous line's fields, and strtok's treatment of stray commas.
 */
module ZipCodeExamples {
  import opened Fields
  import opened CNumbers
  import opened ZipCodes

  /** "94040,Mountain View,37.3861,-122.0839,CA\n", written field by field. */
  const SampleLine: string :=
    "94040" + "," + ("Mountain View" + "," + ("37.3861" + "," + ("-122.0839" + "," + "CA\n")))

  /** A non-empty comma-free field followed by a comma is the next token. */
  lemma {:induction false} TokensCons(field: string, rest: string)
    requires field != [] && Comma !in field
    ensures Tokens(field + [Comma] + rest) == [field] + Tokens(rest)
  {
    TokensAround(field, rest);
    TokensOfRun(field);
  }

  /** A line of non-empty comma-free fields, joined by single commas, yields exactly those fields. */
  lemma {:induction false} TokensOfFive(a: string, b: string, c: string, d: string, e: string)
    requires a != [] && b != [] && c != [] && d != [] && e != []
    requires Comma !in a && Comma !in b && Comma !in c && Comma !in d && Comma !in e
    ensures Tokens(a + "," + (b + "," + (c + "," + (d + "," + e))))  == [a, b, c, d, e]
  {
    TokensOfRun(e);
    TokensCons(d, e);
    TokensCons(c, d + "," + e);
    TokensCons(b, c + "," + (d + "," + e));
    TokensCons(a, b + "," + (c + "," + (d + "," + e)));
  }

  /** strtok keeps the line's '\n' inside its last token. */
  lemma SampleLineTokens()
    ensures Tokens(SampleLine) == ["94040", "Mountain View", "37.3861", "-122.0839", "CA\n"]
  {
    TokensOfFive("94040", "Mountain View", "37.3861", "-122.0839", "CA\n");
  }

  lemma AtoiSampleCode()
    ensures Atoi("94040") == 94040
  {
    assert NatToDecimal(9) == "9";
    assert NatToDecimal(94) == "94";
    assert NatToDecimal(940) == "940";
    assert NatToDecimal(9404) == "9404";
    assert NatToDecimal(94040) == "94040";
    assert IntToDecimal(94040) + "" == "94040";
    AtoiOfDecimal(94040, "");
  }

  /** A file of one line with at least four tokens stores one record. */
  lemma OneLineLoads<D>(line: string, conv: string -> D)
    requires 4 <= |Tokens(line)| <= FieldRows
    ensures LinesFit([line])
    ensures var tokens := Tokens(line);
      LoadLines(map[], [line], conv) == map[Atoi(tokens[0]) := LatLon(conv(tokens[2]), conv(tokens[3]))]
  {
    var tokens := Tokens(line);
    LoadFromStores(map[], [line], conv);
    var fields := Overlay(BlankFields, tokens);
    assert fields[0] == tokens[0] && fields[2] == tokens[2] && fields[3] == tokens[3];
    assert [line][1..] == [];
  }

  /** Loading the sample line stores its latitude and longitude under 94040. */
  lemma SampleLineLoads<D>(conv: string -> D)
    ensures LinesFit([SampleLine])
    ensures LoadLines(map[], [SampleLine], conv) == map[94040 := LatLon(conv("37.3861"), conv("-122.0839"))]
  {
    SampleLineTokens();
    AtoiSampleCode();
    OneLineLoads(SampleLine, conv);
  }

  /** "00000,Unknown,0,0,XX": a record whose code reads as 0 and whose coordinate is (0,0). */
  const ZeroLine: string := "00000" + "," + ("Unknown" + "," + ("0" + "," + ("0" + "," + "XX")))

  lemma AtoiZeroCode()
    ensures Atoi("00000") == 0
  {
    AtoiOfUnsigned("00000");
    DecimalValueZeros(5);
    LeadingDigitsOfRun(Zeros(5), "");
    assert Zeros(5) + "" == "00000";
  }

  /**
   * After loading the zero record, code 0 answers exactly as it would in an
   * empty table: the stored (0,0) and a missing code look the same.
   */
  lemma ZeroRecordLooksAbsent<D>(conv: string -> D, zero: D)
    requires conv("0") == zero
    ensures LinesFit([ZeroLine])
    ensures Lookup(LoadLines(map[], [ZeroLine], conv), 0, zero) == Lookup(map[], 0, zero)
  {
    TokensOfFive("00000", "Unknown", "0", "0", "XX");
    AtoiZeroCode();
    OneLineLoads(ZeroLine, conv);
  }

  /** "10001,City,abc,-74.0,NY": a latitude that is not a number. */
  const BadLatitudeLine: string := "10001" + "," + ("City" + "," + ("abc" + "," + ("-74.0" + "," + "NY")))

  lemma BadLatitudeTokens()
    ensures Tokens(BadLatitudeLine) == ["10001", "City", "abc", "-74.0", "NY"]
  {
    TokensOfFive("10001", "City", "abc", "-74.0", "NY");
  }

  lemma AtoiBadLatitudeCode()
    ensures Atoi("10001") == 10001
  {
    assert NatToDecimal(1) == "1";
    assert NatToDecimal(10) == "10";
    assert NatToDecimal(100) == "100";
    assert NatToDecimal(1000) == "1000";
    assert NatToDecimal(10001) == "10001";
    assert IntToDecimal(10001) + "" == "10001";
    AtoiOfDecimal(10001, "");
  }

  /**
   * The line is still stored, with whatever the conversion makes of "abc"
   * (a failed stream extraction leaves 0) as its latitude.
   */
  lemma BadLatitudeStillLoads<D>(conv: string -> D)
    ensures LinesFit([BadLatitudeLine])
    ensures LoadLines(map[], [BadLatitudeLine], conv) == map[10001 := LatLon(conv("abc"), conv("-74.0"))]
  {
    BadLatitudeTokens();
    AtoiBadLatitudeCode();
    OneLineLoads(BadLatitudeLine, conv);
  }

  /** "1,a,2,3" followed by the one-field line "7". */
  const FullLine: string := "1" + "," + ("a" + "," + ("2" + "," + "3"))
  const ShortLine: string := "7"

  lemma ShortLineTokens()
    ensures Tokens(FullLine) == ["1", "a", "2", "3"]
    ensures Tokens(ShortLine) == ["7"]
  {
    TokensOfRun("3");
    TokensCons("2", "3");
    TokensCons("a", "2" + "," + "3");
    TokensCons("1", "a" + "," + ("2" + "," + "3"));
    TokensOfRun(ShortLine);
  }

  lemma AtoiShortCodes()
    ensures Atoi("1") == 1 && Atoi("7") == 7
  {
    assert IntToDecimal(1) + "" == "1";
    AtoiOfDecimal(1, "");
    assert IntToDecimal(7) + "" == "7";
    AtoiOfDecimal(7, "");
  }

  /** The field rows after each of the two lines. */
  lemma ShortLineFields()
    ensures Overlay(BlankFields, ["1", "a", "2", "3"]) == ["1", "a", "2", "3", "", ""]
    ensures Overlay(["1", "a", "2", "3", "", ""], ["7"]) == ["7", "a", "2", "3", "", ""]
  {
    assert BlankFields[4..] == ["", ""];
  }

  /**
   * A short line keeps the previous line's fields: "7" is stored with the
   * coordinate of the line before it, not with zeros and not skipped.
   */
  lemma ShortLineReusesFields<D>(conv: string -> D)
    ensures LinesFit([FullLine, ShortLine])
    ensures LoadLines(map[], [FullLine, ShortLine], conv)
            == map[1 := LatLon(conv("2"), conv("3")), 7 := LatLon(conv("2"), conv("3"))]
  {
    ShortLineTokens();
    ShortLineFields();
    AtoiShortCodes();
    var lines := [FullLine, ShortLine];
    LoadFromStores(map[], lines, conv);
    var first, second := ["1", "a", "2", "3", "", ""], ["7", "a", "2", "3", "", ""];
    var coordinate := LatLon(conv("2"), conv("3"));
    assert lines[1..] == [ShortLine] && [ShortLine][1..] == [];
    assert LoadFrom(BlankFields, map[], lines, conv) == LoadFrom(first, map[1 := coordinate], [ShortLine], conv);
    assert LoadFrom(first, map[1 := coordinate], [ShortLine], conv)
        == LoadFrom(second, map[1 := coordinate, 7 := coordinate], [], conv);
  }

  lemma AtoiNewline()
    ensures Atoi("\n") == 0
  {
    assert SpaceRun("\n") == 1;
  }

  /**
   * A blank line is the one token "\n", which atoi reads as 0: it stores
   * code 0 with the coordinate of the line before it.
   */
  lemma BlankLineOverwritesZero<D>(conv: string -> D)
    ensures LinesFit([FullLine, "\n"])
    ensures LoadLines(map[], [FullLine, "\n"], conv)
            == map[1 := LatLon(conv("2"), conv("3")), 0 := LatLon(conv("2"), conv("3"))]
  {
    ShortLineTokens();
    ShortLineFields();
    AtoiShortCodes();
    BlankLineStep(conv);
    var lines := [FullLine, "\n"];
    LoadFromStores(map[], lines, conv);
    var first := ["1", "a", "2", "3", "", ""];
    assert lines[1..] == ["\n"];
    assert LoadFrom(BlankFields, map[], lines, conv)
        == LoadFrom(first, map[1 := LatLon(conv("2"), conv("3"))], ["\n"], conv);
  }

  /** The blank line read after "1,a,2,3". */
  lemma BlankLineStep<D>(conv: string -> D)
    ensures LinesFit(["\n"])
    ensures var coordinate := LatLon(conv("2"), conv("3"));
            LoadFrom(["1", "a", "2", "3", "", ""], map[1 := coordinate], ["\n"], conv)
            == map[1 := coordinate, 0 := coordinate]
  {
    TokensOfRun("\n");
    AtoiNewline();
    var second := ["\n", "a", "2", "3", "", ""];
    assert Overlay(["1", "a", "2", "3", "", ""], ["\n"]) == second;
    assert ["\n"][1..] == [];
  }

  /** atoi skips the white space before a code. */
  lemma AtoiSpaceCode()
    ensures Atoi(" 7") == 7
  {
    AtoiShortCodes();
    AtoiSkipsSpace(" ", "7");
    assert " " + "7" == " 7";
  }

  /** Leading, doubled and trailing commas yield no empty tokens. */
  lemma {:induction false} StrayCommasVanish(a: string, b: string)
    requires a != [] && b != [] && Comma !in a && Comma !in b
    ensures Tokens([Comma] + a + [Comma] + [Comma] + b + [Comma]) == [a, b]
  {
    var r := [Comma] + a;
    var q := r + [Comma];
    var p := q + [Comma] + b;
    TokensEmpty();
    TokensOfRun(a);
    TokensOfRun(b);
    assert [] + [Comma] + a == r;
    TokensAround([], a);
    assert r + [Comma] + [] == q;
    TokensAround(r, []);
    TokensAround(q, b);
    assert p + [Comma] + [] == p + [Comma];
    TokensAround(p, []);
  }

  /**
   * A session with the table: load a file holding the sample line, fail to
   * open an empty path, release twice.
   */
  method Session<D>(zero: D, conv: string -> D, fopen: string -> FileSource)
    requires fopen("zipcodes.txt") == Opened([SampleLine])
  {
    var table := new ZipCodeTable(zero, conv);
    SampleLineLoads(conv);
    LoadableSample(fopen);
    var ok, message := table.LoadZipCodes("zipcodes.txt", fopen, "");
    assert ok;
    assert table.zipCodes == map[94040 := LatLon(conv("37.3861"), conv("-122.0839"))];
    assert table.GetLatAndLon(10001) == LatLon(zero, zero);

    ok, message := table.LoadZipCodes("", fopen, "No such file or directory");
    assert !ok && table.zipCodes == map[94040 := LatLon(conv("37.3861"), conv("-122.0839"))];

    table.ReleaseZipCodes();
    assert table.GetLatAndLon(94040) == LatLon(zero, zero);
    table.ReleaseZipCodes();
    assert table.zipCodes == map[];
  }

  /** The sample file raises no undefined behaviour in the loader. */
  lemma LoadableSample(fopen: string -> FileSource)
    requires fopen("zipcodes.txt") == Opened([SampleLine])
    ensures Loadable(OpenForReading("zipcodes.txt", fopen, ""))
  {
    SampleLineTokens();
    AtoiSampleCode();
    SampleLineBytes();
    assert WellFormedLine(SampleLine);
  }

  /** The sample line is plain ASCII: one byte per character and no NUL. */
  lemma SampleLineBytes()
    ensures NonNulBytes(SampleLine)
  {
    assert NonNulBytes("94040") && NonNulBytes("Mountain View") && NonNulBytes("37.3861");
    assert NonNulBytes("-122.0839") && NonNulBytes("CA\n");
    BytesJoin("-122.0839", "CA\n");
    BytesJoin("37.3861", "-122.0839" + "," + "CA\n");
    BytesJoin("Mountain View", "37.3861" + "," + ("-122.0839" + "," + "CA\n"));
    BytesJoin("94040", "Mountain View" + "," + ("37.3861" + "," + ("-122.0839" + "," + "CA\n")));
  }

  /** A line with a NUL byte in it is outside what the loader is modelled on. */
  lemma NulLineRejected()
    ensures !WellFormedLine("1\0,a")
  {
    assert "1\0,a"[1] as int == 0;
  }

  /** Joining byte text with a comma gives byte text. */
  lemma {:induction false} BytesJoin(a: string, b: string)
    requires NonNulBytes(a) && NonNulBytes(b)
    ensures NonNulBytes(a + "," + b)
  {
    var s := a + "," + b;
    forall i | 0 <= i < |s| ensures 0 < s[i] as int < 0x100 {
      if i < |a| {
        assert s[i] == a[i];
      } else if i > |a| {
        assert s[i] == b[i - |a| - 1];
      }
    }
  }
}
