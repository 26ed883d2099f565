/**
 * The ZIP code record (zipfed.hpp) with its two line parsers and its two
 * printers (zipfed.cpp).
 *
 * The record is the class `Zipfed`, whose private fields only the
 * constructor and the two parse methods write. Each parse method is proved
 * against a pure function of the input line (`FederalParse`,
 * `Cs2303Parse`); the properties the parsers promise are lemmas about those
 * functions.
 */
module Zipfed {

  import opened Wrappers
  import opened Strtok

  /** ZIPCODE_TYPE: the kind of a ZIP code. */
  datatype ZipType = Invalid | Standard | PoBox | Unique | Military

  /** The C value of each enumerator: declaration order, counting from zero. */
  function Ordinal(k: ZipType): (n: nat)
    ensures n < 5
  {
    match k
    case Invalid => 0
    case Standard => 1
    case PoBox => 2
    case Unique => 3
    case Military => 4
  }

  /** The enumerator a C value in 0 to 4 stands for. */
  function KindAt(n: nat): ZipType
    requires n < 5
  {
    if n == 0 then Invalid else if n == 1 then Standard
    else if n == 2 then PoBox else if n == 3 then Unique else Military
  }

  /** The five enumerators take exactly the values 0 to 4, each once. */
  lemma OrdinalBijective(k: ZipType, n: nat)
    ensures KindAt(Ordinal(k)) == k
    ensures n < 5 ==> Ordinal(KindAt(n)) == n
  {
  }

  /**
   * A coordinate: the constructor's 0.0, or the float `std::stof` makes of a
   * token. The conversion itself is not evaluated; the token is kept.
   */
  datatype Coord = Zero | Stof(text: string)

  /** The value held by the fields of one Zipfed object. */
  datatype Record = Record(zip: string, kind: ZipType, city: string, state: string, lat: Coord, lon: Coord)

  /** The type tokens the parsers recognise. */
  const ParsedNames: set<string> := {"STANDARD", "PO_BOX", "UNIQUE", "MILITARY"}

  /** The printed name of each kind: the switch in both print methods. */
  function KindName(k: ZipType): (name: string)
    ensures IsToken(name) && '"' !in name
  {
    match k
    case Standard => "STANDARD"
    case PoBox => "PO_BOX"
    case Unique => "UNIQUE"
    case Military => "MILITARY"
    case Invalid => "INVALID"
  }

  /** The exact-match table of both parsers, falling back to Invalid. */
  function KindOf(token: string): (k: ZipType)
    ensures k != Invalid <==> token in ParsedNames
    ensures k != Invalid ==> KindName(k) == token
  {
    if token == "STANDARD" then Standard
    else if token == "PO_BOX" then PoBox
    else if token == "UNIQUE" then Unique
    else if token == "MILITARY" then Military
    else Invalid
  }

  /** Parsing the printed name of a kind gives that kind back, INVALID included. */
  lemma KindNameRoundTrip(k: ZipType)
    ensures KindOf(KindName(k)) == k
  {
  }

  /** The printed names are pairwise distinct. */
  lemma KindNameInjective(k1: ZipType, k2: ZipType)
    ensures KindName(k1) == KindName(k2) ==> k1 == k2
  {
    KindNameRoundTrip(k1);
    KindNameRoundTrip(k2);
  }

  /** The erase-remove of every double quote from a token. */
  function StripQuotes(s: string): (r: string)
    ensures '"' !in r && |r| <= |s|
  {
    if s == [] then []
    else (if s[0] == '"' then [] else [s[0]]) + StripQuotes(s[1..])
  }

  /** Removal works piecewise, so the characters that remain keep their order. */
  lemma {:induction false} StripQuotesAppend(a: string, b: string)
    ensures StripQuotes(a + b) == StripQuotes(a) + StripQuotes(b)
  {
    if a != [] {
      assert (a + b)[1..] == a[1..] + b;
      StripQuotesAppend(a[1..], b);
    } else {
      assert a + b == b;
    }
  }

  /** A token without quotes is left as it is. */
  lemma {:induction false} StripQuotesUnquoted(s: string)
    requires '"' !in s
    ensures StripQuotes(s) == s
  {
    if s != [] {
      StripQuotesUnquoted(s[1..]);
    }
  }

  /** Every character other than the quote keeps its number of occurrences. */
  lemma {:induction false} StripQuotesCounts(s: string, c: char)
    requires c != '"'
    ensures multiset(StripQuotes(s))[c] == multiset(s)[c]
  {
    if s != [] {
      StripQuotesCounts(s[1..], c);
      assert s == [s[0]] + s[1..];
    }
  }

  /** `"t"`: a token wrapped in double quotes, as the federal file writes it. */
  function Quoted(t: string): string
  {
    "\"" + t + "\""
  }

  /** Stripping a quoted token gives the token back. */
  lemma QuotedStrips(t: string)
    requires '"' !in t
    ensures StripQuotes(Quoted(t)) == t
  {
    StripQuotesAppend("\"" + t, "\"");
    StripQuotesAppend("\"", t);
    StripQuotesUnquoted(t);
  }

  /** `n` zero digits. */
  function Zeros(n: nat): (z: string)
    ensures |z| == n
  {
    seq(n, _ => '0')
  }

  /**
   * The zip token after `while (token.size() < 5) token.insert(0, 1, '0')`:
   * zeros in front of the token up to five characters: the result has at
   * least five characters, ends with the token, and is zeros before it.
   */
  function ZeroPad(t: string): (p: string)
    ensures |p| == if |t| < 5 then 5 else |t|
    ensures p == Zeros(|p| - |t|) + t
  {
    if |t| < 5 then Zeros(5 - |t|) + t else t
  }

  /** The padding loop of both parsers. */
  method PadZip(token: string) returns (z: string)
    ensures z == ZeroPad(token)
  {
    z := token;
    while |z| < 5
      invariant |token| <= |z| && (if |token| < 5 then |z| <= 5 else z == token)
      invariant z == Zeros(|z| - |token|) + token
      decreases 5 - |z|
    {
      z := "0" + z;
      assert "0" + Zeros(|z| - 1 - |token|) == Zeros(|z| - |token|);
    }
  }

  /** A padded zip is padded already. */
  lemma ZeroPadIdempotent(t: string)
    ensures ZeroPad(ZeroPad(t)) == ZeroPad(t)
  {
  }

  /** The outcome of a parse call; the C return values are `Code`. */
  datatype ParseStatus = Success | EmptyLine | HeaderRow | Truncated
  {
    /** The int the C++ method returns. Truncated has none: there the source reads past its last token. */
    function Code(): (c: int)
      requires !Truncated?
      ensures c <= 0 && (c == 0 <==> Success?)
    {
      match this
      case Success => 0
      case EmptyLine => -1
      case HeaderRow => -3
    }
  }

  /** What a parse call produces: a record, or a status and no record. */
  datatype ParseResult = Parsed(rec: Record) | Rejected(status: ParseStatus)
  {
    function Status(): ParseStatus
    {
      if Parsed? then Success else status
    }
  }

  /** The first token of the federal header line. */
  const HeaderToken: string := "\"RecordNumber\""

  /** The number of tokens the federal parser takes from a line. */
  const FederalColumns: nat := 11

  /** The number of tokens the cs2303 parser takes from a line. */
  const Cs2303Columns: nat := 6

  /**
   * parse_zip_federal as a function of the C string it is given (None for
   * NULL). Tokens 2 to 5 become zip, type, city and state with every quote
   * removed; 7 and 8 are the coordinates; 1, 6, 9, 10 and 11 are read and
   * dropped.
   */
  function FederalParse(csv: Option<string>): (r: ParseResult)
    ensures r == Rejected(EmptyLine) <==> csv.None? || csv.value == []
    ensures r.Rejected? ==> r.status != Success
    ensures r.Parsed? ==> |r.rec.zip| >= 5 && '"' !in r.rec.city && '"' !in r.rec.state
  {
    if csv.None? || csv.value == [] then Rejected(EmptyLine)
    else
      var ts := Tokens(csv.value);
      if ts == [] then Rejected(Truncated)
      else if ts[0] == HeaderToken then Rejected(HeaderRow)
      else if |ts| < FederalColumns then Rejected(Truncated)
      else
        Parsed(Record(ZeroPad(StripQuotes(ts[1])), KindOf(StripQuotes(ts[2])),
                      StripQuotes(ts[3]), StripQuotes(ts[4]), Stof(ts[6]), Stof(ts[7])))
  }

  /**
   * parse_zip_cs2303 as a function of the C string it is given (None for
   * NULL). Tokens 1 to 6 are zip, type, city, state, latitude and longitude,
   * taken as they are.
   */
  function Cs2303Parse(csv: Option<string>): (r: ParseResult)
    ensures r == Rejected(EmptyLine) <==> csv.None? || csv.value == []
    ensures r.Rejected? ==> r.status == EmptyLine || r.status == Truncated
    ensures r.Parsed? ==> |r.rec.zip| >= 5
  {
    if csv.None? || csv.value == [] then Rejected(EmptyLine)
    else
      var ts := Tokens(csv.value);
      if |ts| < Cs2303Columns then Rejected(Truncated)
      else Parsed(Record(ZeroPad(ts[0]), KindOf(ts[1]), ts[2], ts[3], Stof(ts[4]), Stof(ts[5])))
  }

  /**
   * A federal line is refused as a header row exactly when its first
   * token is the quoted header label, wherever that token starts.
   */
  lemma FederalHeaderRefused(s: string)
    ensures FederalParse(Some(s)) == Rejected(HeaderRow) <==> Tokens(s) != [] && Tokens(s)[0] == HeaderToken
  {
  }

  /** A line that begins with the header label, then a comma or nothing, is a header row. */
  lemma HeaderLineRefused(rest: string)
    requires rest == [] || rest[0] == ','
    ensures FederalParse(Some(HeaderToken + rest)) == Rejected(HeaderRow)
  {
    RunOfCommaFree(HeaderToken, rest);
    assert (HeaderToken + rest)[|HeaderToken|..] == rest;
    FederalHeaderRefused(HeaderToken + rest);
  }

  /**
   * A federal line made of eleven quoted and unquoted fields, and any
   * further columns after them, parses into the record its columns
   * describe: the zip zero-padded, the kind by name, city and state as
   * written, the coordinates from columns 7 and 8.
   */
  lemma {:induction false} FederalLineParses(recnum: string, zip: string, kind: ZipType,
                                             city: string, state: string, loc: string,
                                             lat: string, lon: string, ax: string, ay: string, az: string,
                                             tail: seq<string>)
    requires recnum != "RecordNumber" && ',' !in recnum
    requires ',' !in zip && ',' !in city && ',' !in state
    requires '"' !in zip && '"' !in city && '"' !in state
    requires ',' !in loc
    requires IsToken(lat) && IsToken(lon) && IsToken(ax) && IsToken(ay) && IsToken(az)
    requires forall i :: 0 <= i < |tail| ==> IsToken(tail[i])
    ensures FederalParse(Some(Join([Quoted(recnum), Quoted(zip), Quoted(KindName(kind)), Quoted(city),
                                    Quoted(state), Quoted(loc), lat, lon, ax, ay, az] + tail)))
            == Parsed(Record(ZeroPad(zip), kind, city, state, Stof(lat), Stof(lon)))
  {
    var fields := [Quoted(recnum), Quoted(zip), Quoted(KindName(kind)), Quoted(city),
                   Quoted(state), Quoted(loc), lat, lon, ax, ay, az];
    QuotedNotHeader(recnum);
    var line := fields + tail;
    AllTokensAppend(fields, tail);
    assert line[0] == Quoted(recnum) && line[1] == Quoted(zip) && line[2] == Quoted(KindName(kind));
    assert line[3] == Quoted(city) && line[4] == Quoted(state) && line[6] == lat && line[7] == lon;
    FederalFieldsParse(line, zip, kind, city, state, lat, lon);
  }

  /** The federal parse of columns that hold the quoted fields of a record. */
  lemma FederalFieldsParse(ts: seq<string>, zip: string, kind: ZipType, city: string, state: string,
                           lat: string, lon: string)
    requires |ts| >= FederalColumns && forall i :: 0 <= i < |ts| ==> IsToken(ts[i])
    requires ts[0] != HeaderToken
    requires '"' !in zip && '"' !in city && '"' !in state
    requires ts[1] == Quoted(zip) && ts[2] == Quoted(KindName(kind)) && ts[3] == Quoted(city)
    requires ts[4] == Quoted(state) && ts[6] == lat && ts[7] == lon
    ensures FederalParse(Some(Join(ts))) == Parsed(Record(ZeroPad(zip), kind, city, state, Stof(lat), Stof(lon)))
  {
    FederalColumnsParse(ts);
    QuotedStrips(zip);
    QuotedStrips(KindName(kind));
    KindNameRoundTrip(kind);
    QuotedStrips(city);
    QuotedStrips(state);
  }

  /** Only the quoted `RecordNumber` label is the header token. */
  lemma QuotedNotHeader(t: string)
    requires t != "RecordNumber"
    ensures Quoted(t) != HeaderToken
  {
    assert HeaderToken == Quoted("RecordNumber");
    QuotedInjective(t, "RecordNumber");
  }

  /** Different fields are written as different quoted fields. */
  lemma QuotedInjective(a: string, b: string)
    ensures Quoted(a) == Quoted(b) ==> a == b
  {
    assert Quoted(a)[1..|a| + 1] == a;
    assert Quoted(b)[1..|b| + 1] == b;
  }

  /**
   * Eleven tokens or more, the first not the header label, joined by
   * commas: the federal parse of the columns. Tokens past the eleventh are
   * never read.
   */
  lemma FederalColumnsParse(ts: seq<string>)
    requires |ts| >= FederalColumns && forall i :: 0 <= i < |ts| ==> IsToken(ts[i])
    requires ts[0] != HeaderToken
    ensures FederalParse(Some(Join(ts)))
            == Parsed(Record(ZeroPad(StripQuotes(ts[1])), KindOf(StripQuotes(ts[2])),
                             StripQuotes(ts[3]), StripQuotes(ts[4]), Stof(ts[6]), Stof(ts[7])))
  {
    TokensOfJoin(ts);
    assert Join(ts) != [] by {
      JoinFrom(ts, 0);
      assert ts[0..] == ts;
    }
  }

  /**
   * Six tokens or more joined by commas: the cs2303 parse of the columns.
   * Tokens past the sixth are never read.
   */
  lemma Cs2303ColumnsParse(ts: seq<string>)
    requires |ts| >= Cs2303Columns && forall i :: 0 <= i < |ts| ==> IsToken(ts[i])
    ensures Cs2303Parse(Some(Join(ts)))
            == Parsed(Record(ZeroPad(ts[0]), KindOf(ts[1]), ts[2], ts[3], Stof(ts[4]), Stof(ts[5])))
  {
    TokensOfJoin(ts);
    assert Join(ts) != [] by {
      JoinFrom(ts, 0);
      assert ts[0..] == ts;
    }
  }

  /**
   * A cs2303 line made of six tokens parses into the record its columns
   * describe, the zip zero-padded.
   */
  lemma {:induction false} Cs2303LineParses(zip: string, kindToken: string, city: string, state: string,
                                            lat: string, lon: string)
    requires IsToken(zip) && IsToken(kindToken) && IsToken(city) && IsToken(state)
    requires IsToken(lat) && IsToken(lon)
    ensures Cs2303Parse(Some(Join([zip, kindToken, city, state, lat, lon])))
            == Parsed(Record(ZeroPad(zip), KindOf(kindToken), city, state, Stof(lat), Stof(lon)))
  {
    Cs2303ColumnsParse([zip, kindToken, city, state, lat, lon]);
  }

  /**
   * One printed line: `text` followed by the two coordinates, rendered by
   * `%f,%f` and a newline.
   */
  datatype OutLine = OutLine(text: string, lat: Coord, lon: Coord)

  /** Trailing commas add no token. */
  lemma {:induction false} TokensTrailingComma(s: string)
    ensures Tokens(s + ",") == Tokens(s)
    decreases |s|
  {
    if s == [] {
      assert Tokens(",") == Tokens([]);
    } else if s[0] == ',' {
      assert (s + ",")[1..] == s[1..] + ",";
      TokensTrailingComma(s[1..]);
    } else {
      var t := Run(s);
      if |t| < |s| {
        RunOfCommaFree(t, s[|t|..] + ",");
        assert s + "," == t + (s[|t|..] + ",");
        assert (s + ",")[|t|..] == s[|t|..] + ",";
        TokensTrailingComma(s[|t|..]);
      } else {
        assert t == s;
        RunOfCommaFree(t, ",");
        assert (s + ",")[|t|..] == ",";
        assert Tokens(",") == Tokens([]);
        assert s[|t|..] == [];
      }
    }
  }

  /** print(void): the record as one comma-separated line, whatever its state. */
  function Print(r: Record): (line: OutLine)
    ensures line.text == r.zip + "," + KindName(r.kind) + "," + r.city + "," + r.state + ","
    ensures line.lat == r.lat && line.lon == r.lon
  {
    var fields := [r.zip, KindName(r.kind), r.city, r.state];
    JoinFrom(fields, 0);
    JoinFrom(fields, 1);
    JoinFrom(fields, 2);
    JoinLast(fields);
    assert fields[0..] == fields;
    OutLine(Join([r.zip, KindName(r.kind), r.city, r.state]) + ",", r.lat, r.lon)
  }

  /**
   * The text a print writes before the coordinates holds exactly four
   * tokens: zip, type name, city and state.
   */
  lemma PrintedTokens(r: Record)
    requires IsToken(r.zip) && IsToken(r.city) && IsToken(r.state)
    ensures Tokens(Print(r).text) == [r.zip, KindName(r.kind), r.city, r.state]
  {
    var fields := [r.zip, KindName(r.kind), r.city, r.state];
    TokensOfJoin(fields);
    TokensTrailingComma(Join(fields));
  }

  /**
   * A record with an empty city, which a federal city column `""` gives,
   * prints as a line with two commas in a row: `strtok` finds five tokens
   * there, too few for the cs2303 parser.
   */
  lemma EmptyCityNotParsedBack(r: Record, latText: string, lonText: string)
    requires IsToken(r.zip) && r.city == [] && IsToken(r.state)
    requires IsToken(latText) && IsToken(lonText)
    ensures Cs2303Parse(Some(Print(r).text + latText + "," + lonText)) == Rejected(Truncated)
  {
    var front, back := [r.zip, KindName(r.kind)], [r.state, latText, lonText];
    EmptyCityLine(r, latText, lonText);
    TokensOfJoinThen(front, "," + Join(back));
    assert Tokens("," + Join(back)) == Tokens(Join(back));
    TokensOfJoin(back);
  }

  /** The printed line of a record with an empty city, split at its two adjacent commas. */
  lemma EmptyCityLine(r: Record, latText: string, lonText: string)
    requires r.city == []
    ensures Print(r).text + latText + "," + lonText
            == Join([r.zip, KindName(r.kind)]) + "," + ("," + Join([r.state, latText, lonText]))
  {
    var front, back := [r.zip, KindName(r.kind)], [r.state, latText, lonText];
    var f, k := r.zip, KindName(r.kind);
    assert Join(front) == f + "," + k by {
      JoinFrom(front, 0);
      assert front[0..] == front && front[1..] == [k];
    }
    assert Join(back) == r.state + "," + latText + "," + lonText by {
      JoinFrom(back, 0);
      JoinFrom(back, 1);
      assert back[0..] == back && back[2..] == [lonText];
    }
    assert Print(r).text == (f + "," + k) + ",," + (r.state + ",");
  }

  /** print(FILE *): the same line, written only for a record whose state is "MA". */
  function PrintFile(r: Record): (out: seq<OutLine>)
    ensures out != [] <==> r.state == "MA"
    ensures |out| <= 1 && (out != [] ==> out[0] == Print(r))
  {
    if r.state == "MA" then [Print(r)] else []
  }

  /**
   * A printed line, with any coordinate renderings, parses back through the
   * cs2303 parser into the record it came from: this is how the output of
   * fed2cs2303 becomes the input of zipcode.
   */
  lemma {:induction false} PrintParsesBack(r: Record, latText: string, lonText: string)
    requires IsToken(r.zip) && |r.zip| >= 5 && IsToken(r.city) && IsToken(r.state)
    requires IsToken(latText) && IsToken(lonText)
    ensures Cs2303Parse(Some(Print(r).text + latText + "," + lonText))
            == Parsed(r.(lat := Stof(latText), lon := Stof(lonText)))
  {
    var shown, coords := [r.zip, KindName(r.kind), r.city, r.state], [latText, lonText];
    var six := [r.zip, KindName(r.kind), r.city, r.state, latText, lonText];
    assert Join(coords) == latText + "," + lonText by {
      JoinFrom(coords, 0);
      assert coords[0..] == coords && coords[1..] == [lonText];
    }
    calc {
      Print(r).text + latText + "," + lonText;
      Join(shown) + "," + (latText + "," + lonText);
      Join(shown) + "," + Join(coords);
      { JoinAppend(shown, coords); assert shown + coords == six; }
      Join(six);
    }
    Cs2303LineParses(r.zip, KindName(r.kind), r.city, r.state, latText, lonText);
    KindNameRoundTrip(r.kind);
  }

  /** The example record of the federal file: 00601, STANDARD, Adjuntas, PR. */
  lemma FederalExample()
    ensures FederalParse(Some(Join([Quoted("1"), Quoted("00601"), Quoted("STANDARD"), Quoted("Adjuntas"),
                                    Quoted("PR"), Quoted("PRIMARY"), "18.18", "-66.75", "0.38", "-0.87", "0.3"])))
            == Parsed(Record("00601", Standard, "Adjuntas", "PR", Stof("18.18"), Stof("-66.75")))
  {
    assert IsToken("00601") && IsToken("Adjuntas") && IsToken("PR");
    assert '"' !in "00601" && '"' !in "Adjuntas" && '"' !in "PR";
    assert ',' !in "1" && ',' !in "PRIMARY";
    assert IsToken("18.18") && IsToken("-66.75") && IsToken("0.38") && IsToken("-0.87") && IsToken("0.3");
    FederalLineParses("1", "00601", Standard, "Adjuntas", "PR", "PRIMARY",
                      "18.18", "-66.75", "0.38", "-0.87", "0.3", []);
    assert [Quoted("1"), Quoted("00601"), Quoted("STANDARD"), Quoted("Adjuntas"), Quoted("PR"), Quoted("PRIMARY"),
            "18.18", "-66.75", "0.38", "-0.87", "0.3"] + []
        == [Quoted("1"), Quoted("00601"), Quoted("STANDARD"), Quoted("Adjuntas"), Quoted("PR"), Quoted("PRIMARY"),
            "18.18", "-66.75", "0.38", "-0.87", "0.3"];
    assert KindName(Standard) == "STANDARD";

  }

  /** A federal line whose city column is `""` parses into a record with an empty city. */
  lemma FederalEmptyCity()
    ensures FederalParse(Some(Join([Quoted("1"), Quoted("01001"), Quoted("STANDARD"), Quoted(""),
                                    Quoted("MA"), Quoted("PRIMARY"), "42.06", "-72.61", "0.3", "-0.7", "0.6"])))
            == Parsed(Record("01001", Standard, "", "MA", Stof("42.06"), Stof("-72.61")))
  {
    assert ',' !in "01001" && ',' !in "MA" && '"' !in "01001" && '"' !in "MA";
    assert ',' !in "1" && ',' !in "PRIMARY";
    assert IsToken("42.06") && IsToken("-72.61") && IsToken("0.3") && IsToken("-0.7") && IsToken("0.6");
    FederalLineParses("1", "01001", Standard, "", "MA", "PRIMARY",
                      "42.06", "-72.61", "0.3", "-0.7", "0.6", []);
    assert KindName(Standard) == "STANDARD";
    assert [Quoted("1"), Quoted("01001"), Quoted("STANDARD"), Quoted(""), Quoted("MA"), Quoted("PRIMARY"),
            "42.06", "-72.61", "0.3", "-0.7", "0.6"] + []
        == [Quoted("1"), Quoted("01001"), Quoted("STANDARD"), Quoted(""), Quoted("MA"), Quoted("PRIMARY"),
            "42.06", "-72.61", "0.3", "-0.7", "0.6"];
  }

  /** The three-digit zip 601 is padded to 00601. */
  lemma ShortZipPadded()
    ensures ZeroPad("601") == "00601"
  {
    assert Zeros(2) == "00";
  }

  /** The example of the cs2303 file: the zip 601 is stored as 00601. */
  lemma Cs2303Example()
    ensures Cs2303Parse(Some(Join(["601", "STANDARD", "Adjuntas", "PR", "18.18", "-66.75"])))
            == Parsed(Record("00601", Standard, "Adjuntas", "PR", Stof("18.18"), Stof("-66.75")))
  {
    assert IsToken("601") && IsToken("STANDARD") && IsToken("Adjuntas") && IsToken("PR");
    assert IsToken("18.18") && IsToken("-66.75");
    Cs2303LineParses("601", "STANDARD", "Adjuntas", "PR", "18.18", "-66.75");
    assert KindOf("STANDARD") == Standard;
    ShortZipPadded();
  }

  /**
   * One ZIP code record. Its fields are private: only the constructor and
   * the two parse methods write them, and the getters return them.
   */
  class Zipfed {
    var zipcode: string
    var zctype: ZipType
    var city: string
    var state: string
    var lat: Coord
    var lon: Coord

    /** The fields as one value. */
    function Value(): Record
      reads this
    {
      Record(zipcode, zctype, city, state, lat, lon)
    }

    /** Zipfed(): every field at its default. */
    constructor ()
      ensures Value() == Record("", Invalid, "", "", Zero, Zero)
    {
      zipcode := "";
      zctype := Invalid;
      city := "";
      state := "";
      lat := Zero;
      lon := Zero;
    }

    /** get_city: the stored city; no field changes. */
    method GetCity() returns (c: string)
      ensures c == city
    {
      c := city;
    }

    /** get_zip: the stored zip code; no field changes. */
    method GetZip() returns (z: string)
      ensures z == zipcode
    {
      z := zipcode;
    }

    /**
     * parse_zip_federal: tokenize the line, refuse an empty line or the
     * header row, and otherwise fill every field from its column. A line
     * without the eleven tokens the method reads leaves the fields as they
     * were.
     */
    method ParseFederal(csv: Option<string>) returns (status: ParseStatus)
      modifies this
      ensures status == FederalParse(csv).Status()
      ensures Value() == if status == Success then FederalParse(csv).rec else old(Value())
    {
      if csv.None? || |csv.value| == 0 {
        return EmptyLine;
      }
      var tk := new Tokenizer(csv.value);
      var recnum := tk.Next();
      if recnum.None? {
        return Truncated;
      }
      if recnum.value == HeaderToken {
        return HeaderRow;
      }
      // zip, type, city, state, location type, lat, lon and the three axes
      var cols := tk.Take(FederalColumns - 1);
      if cols.None? {
        return Truncated;
      }
      var zipTok, typeTok, cityTok, stateTok := cols.value[0], cols.value[1], cols.value[2], cols.value[3];
      var latTok, lonTok := cols.value[5], cols.value[6];
      zipcode := PadZip(StripQuotes(zipTok));
      zctype := KindOf(StripQuotes(typeTok));
      city := StripQuotes(cityTok);
      state := StripQuotes(stateTok);
      lat := Stof(latTok);
      lon := Stof(lonTok);
      return Success;
    }

    /**
     * parse_zip_cs2303: tokenize the line, refuse an empty line, and
     * otherwise fill every field from its column. A line without the six
     * tokens the method reads leaves the fields as they were.
     */
    method ParseCs2303(csv: Option<string>) returns (status: ParseStatus)
      modifies this
      ensures status == Cs2303Parse(csv).Status()
      ensures Value() == if status == Success then Cs2303Parse(csv).rec else old(Value())
    {
      if csv.None? || |csv.value| == 0 {
        return EmptyLine;
      }
      var tk := new Tokenizer(csv.value);
      // zip, type, city, state, lat and lon
      var cols := tk.Take(Cs2303Columns);
      if cols.None? {
        return Truncated;
      }
      var zipTok, typeTok, cityTok, stateTok := cols.value[0], cols.value[1], cols.value[2], cols.value[3];
      var latTok, lonTok := cols.value[4], cols.value[5];
      zipcode := PadZip(zipTok);
      zctype := KindOf(typeTok);
      city := cityTok;
      state := stateTok;
      lat := Stof(latTok);
      lon := Stof(lonTok);
      return Success;
    }
  }
}
