# ZIP code records: parsing, sorting, querying and export

This project models the core of two small C++ programs that handle United
States ZIP code records, and it proves properties of that model in Dafny.

- **fed2cs2303** reads the federal government's ZIP code file. That file
  has a quoted header row, quoted text columns and at least eleven
  columns, of which the parser reads eleven.
  The program keeps a list of the records and writes the Massachusetts
  records to an output file in the shorter "cs2303" format of six columns.
- **zipcode** reads a file in the cs2303 format. It sorts the records by
  city and then answers city-name queries from standard input with the ZIP
  codes of that city.

Both programs share the record class `Zipfed` (zipfed.hpp, zipfed.cpp):
- six private fields;
- a parser for each of the two formats, both built on `strtok`;
- two printers, one to standard output and one to a file that writes only
  records whose state is `"MA"`.

Each program has its own line reader over `getdelim` (`readln_cs2303`,
`readln_fed`). The reader overwrites line terminators with NUL.

The modules follow the program's files:

| module | file | models |
|---|---|---|
| `Strtok` | strtok.dfy | the tokens `strtok(…, ",")` yields, and a tokenizer object that hands them out one call at a time |
| `Zipfed` | zipfed.dfy | the enum, the record, the class `Zipfed` with its constructor, getters and parse methods, and the printers |
| `CLines` | clines.dfy | the buffer the readers fill and clear, the C string the parsers see, and the ingest loop as a function |
| `CityOrder` | cityorder.dfy | the `alphabet` comparator and the stable sort `std::forward_list::sort` performs with it |
| `ZipList` | ziplist.dfy | the `std::forward_list` both programs fill with `push_front` |
| `Zipcode` | zipcode.dfy | `readln_cs2303` and `main` of zipcode |
| `Fed2cs2303` | fed2cs2303.dfy | `readln_fed` and `main` of fed2cs2303 |

**Parsing.** Each parse method of `Zipfed` is proved against a pure function
of its input line (`FederalParse`, `Cs2303Parse`). What the parsers promise
is proved about those functions:
- a well-formed line yields the record its columns describe;
- the header row is refused;
- a printed record whose zip has five or more characters, and whose zip,
  city and state are non-empty and comma-free, parses back into the same
  record, its coordinates becoming the text they were printed as; a record
  with an empty city does not parse back (see below).

**Reading.** The readers are array methods proved against `Terminated`, the
buffer with its terminators cleared. Each driver's `main` is a method. Its
result is tied to `Load`, the records of the input in file order, or a
failure.

**Ordering.** Both programs build their list with `push_front`, so the
list holds the records in reverse file order.
- fed2cs2303 exports that list without sorting it, so its output is in
  reverse file order (`Fed2cs2303.ExportedReverse`).
- zipcode sorts the list by city with a stable sort. The records of one
  city keep their reversed order (`Zipcode.SortKeepsCity`), so each query's
  answers are in reverse file order (`Zipcode.ReverseFileOrder`).

**Where the code and its comments differ, the model follows the code:**
- zipcode.c:139 and fed2cs2303.c:134 call a read of zero bytes "nothing to
  process", but a line that holds only `"\n"` has one byte, so that test
  does not skip it. The parser then sees an empty C string and refuses it,
  and the program exits with -4 (`CLines.TerminatorsOnlyRefused`,
  `CLines.LoadFailsIff`).
- fed2cs2303.c:119-126 describe each line being loaded and then written to
  the output. The export loop runs only after the whole input has been
  read, so on a parse failure nothing has been written (`Fed2cs2303.Run`).
- zipfed.hpp:40 and zipfed.cpp:68 call the zip column a five-digit code.
  Nothing checks this: the token is only zero-padded up to five
  characters, and a longer token is kept whole (`Zipfed.ZeroPad`).
- zipcode.c:131 says the first line of the input is column headers and is
  skipped. zipcode skips no line: its first line is parsed as a record
  like the others (`Zipcode.Run`).
- zipcode.c:43-44 and 48 say the lines end in `"\n\r"`.
  `readln_cs2303` clears only `'\n'`, so a cs2303 line ending in
  `"\r\n"` reaches the parser with its `'\r'` still attached
  (`CLines.Cs2303KeepsCarriageReturn`).

**Other behaviour the model makes explicit:**
- A line with fewer tokens than the parser takes makes the source assign a
  NULL `char*` to a `std::string`, which is undefined. The model makes this
  an explicit `Truncated` result, and the fields are left as they were.
- A federal city column `""` strips to an empty city, and the federal
  parser accepts it (`Zipfed.FederalEmptyCity`). If that record's state is
  `MA`, fed2cs2303 writes it with two commas in a row. `strtok` finds only
  five tokens in that line, so zipcode's parser runs out of tokens, which
  is undefined behaviour in the source (`Zipfed.EmptyCityNotParsedBack`,
  `Fed2cs2303.EmptyCityLineNotReadBack`). The read-back lemmas therefore
  need a non-empty city.
- Zipcode's query loop stops, unanswered, at a final query line that ends
  at end of input without a newline. This happens because `getline` sets
  the eof flag and the loop then breaks (`Zipcode.Asked`).

## Model

| member | source | states |
|---|---|---|
| Strtok.Run | zipfed.cpp:58 | the token `strtok` cuts at a position is the longest comma-free prefix there: it ends at a comma or at the end of the line |
| Strtok.AllTokensAppend | zipfed.cpp:58-116 | two runs of non-empty comma-free fields put together are such a run |
| Strtok.Tokens | zipfed.cpp:58-116 | the tokens `strtok` with delimiter `,` returns, in order, are the maximal non-empty runs without a comma |
| Strtok.TokensOfJoin | zipfed.cpp:58-116 | joining non-empty comma-free fields with commas and tokenizing gives back exactly those fields |
| Strtok.TokensOfJoinThen | zipfed.cpp:58-116 | tokens joined by commas, then a comma and more text, tokenize into those tokens and then the text's tokens |
| Strtok.TokenThen | zipfed.cpp:71 | a token followed by a comma is handed out whole, and the scan goes on after the comma |
| Strtok.SkipDelimiters | zipfed.cpp:71 | a `strtok` call passes over the commas at its position, which hold no token |
| Strtok.ScanToken | zipfed.cpp:71 | a `strtok` call's token runs from its first character to the next comma or the end, and holds no comma |
| Strtok.Tokenizer.constructor | zipfed.cpp:58 | the first `strtok(csv, ",")` starts at the beginning of the line with no token consumed |
| Strtok.Tokenizer.Next | zipfed.cpp:71 | each `strtok(NULL, ",")` returns the next token of the line, or NULL once all are consumed, and consumes at most one |
| Strtok.Tokenizer.Take | zipfed.cpp:71-116 | n successive calls return the next n tokens exactly when that many remain |
| Zipfed.Ordinal | zipfed.hpp:14-20 | each ZIPCODE_TYPE enumerator has a value below five |
| Zipfed.OrdinalBijective | zipfed.hpp:14-20 | the enumerators take the values 0 to 4, one each |
| Zipfed.KindName | zipfed.cpp:221-240 | the name the switch prints for each kind is a non-empty token without commas or quotes |
| Zipfed.KindOf | zipfed.cpp:80-92 | the type token maps to a kind other than INVALID exactly when it is one of the four names, and then to the kind of that name |
| Zipfed.KindNameRoundTrip | zipfed.cpp:178-188 | parsing the printed name of any kind, INVALID included, gives that kind back |
| Zipfed.KindNameInjective | zipfed.cpp:252-271 | different kinds print different names |
| Zipfed.ParseStatus.Code | zipfed.cpp:46-118 | the C return value of a parse is 0 exactly on success and negative otherwise: -1 for an empty line, -3 for the header row |
| Zipfed.StripQuotes | zipfed.cpp:72 | the erase-remove leaves no double quote and never lengthens the token |
| Zipfed.StripQuotesAppend | zipfed.cpp:72 | removing quotes works piecewise, so the other characters keep their order |
| Zipfed.StripQuotesUnquoted | zipfed.cpp:96 | a token without quotes is left unchanged |
| Zipfed.StripQuotesCounts | zipfed.cpp:101 | every character other than the quote keeps its number of occurrences |
| Zipfed.QuotedStrips | zipfed.cpp:95-97 | stripping a quoted field gives back the field |
| Zipfed.Zeros | zipfed.cpp:74 | a run of n inserted zeros has length n |
| Zipfed.ZeroPad | zipfed.cpp:70-75 | the padded zip has length max(5, length of token) and is zeros followed by the token, so a token of five or more is kept whole |
| Zipfed.PadZip | zipfed.cpp:73-75 | the padding loop ends with the zeros-then-token form `ZeroPad` of its token |
| Zipfed.ZeroPadIdempotent | zipfed.cpp:170-172 | padding an already padded zip changes nothing |
| Zipfed.FederalParse | zipfed.cpp:38-119 | parse_zip_federal refuses exactly a NULL or empty line as EmptyLine, never refuses with Success, and on success stores a zip of at least five characters and a city and state without quotes |
| Zipfed.Cs2303Parse | zipfed.cpp:143-205 | parse_zip_cs2303 refuses exactly a NULL or empty line as EmptyLine, any other refusal is a token shortage, and on success the zip has at least five characters |
| Zipfed.FederalHeaderRefused | zipfed.cpp:58-64 | a federal line gets the header-row code exactly when its first token, wherever it starts, is the quoted `RecordNumber` label, whatever follows |
| Zipfed.HeaderLineRefused | zipfed.cpp:58-64 | a line that begins with the quoted `RecordNumber` label followed by a comma or nothing gets the header-row code |
| Zipfed.QuotedNotHeader | zipfed.cpp:59 | a quoted first field other than `RecordNumber` is not taken for the header label |
| Zipfed.QuotedInjective | zipfed.cpp:72 | different fields are written as different quoted fields |
| Zipfed.FederalColumnsParse | zipfed.cpp:58-116 | eleven tokens or more, the first not the header label, parse into columns 2 to 5 unquoted and columns 7 and 8 as coordinates; tokens after the eleventh are never read |
| Zipfed.FederalFieldsParse | zipfed.cpp:65-116 | columns holding the quoted zip, type name, city and state and the two coordinates parse into that record, the zip zero-padded |
| Zipfed.FederalLineParses | zipfed.cpp:38-119 | a federal line of eleven columns, followed by any number of further columns, parses into its zip zero-padded, its kind, city and state unquoted (an empty city included) and its columns 7 and 8 as coordinates; columns 1, 6 and 9 onwards are dropped |
| Zipfed.Cs2303ColumnsParse | zipfed.cpp:143-205 | any six or more tokens joined by commas parse into the record of the first six: the zip zero-padded, the kind its type token names, city, state and coordinates; later tokens are never read |
| Zipfed.Cs2303LineParses | zipfed.cpp:143-205 | a six-column line parses into its zip zero-padded, the kind its type token names, its city, state and coordinates |
| Zipfed.TokensTrailingComma | zipfed.cpp:241 | the comma printed after the state adds no token |
| Zipfed.Print | zipfed.cpp:218-244 | print writes the zip, the type name, the city and the state, each followed by a comma, then the two coordinates unchanged |
| Zipfed.PrintedTokens | zipfed.cpp:218-244 | the text print writes before the coordinates tokenizes into zip, type name, city and state |
| Zipfed.PrintFile | zipfed.cpp:249-276 | print(FILE*) writes one line exactly when the state is `MA`, and that line is print's line |
| Zipfed.PrintParsesBack | zipfed.cpp:249-276 | for a record whose zip has five or more characters and whose zip, city and state are non-empty and comma-free, a printed line with its rendered coordinates parses back through parse_zip_cs2303 into that record |
| Zipfed.EmptyCityNotParsedBack | zipfed.cpp:143-205 | a printed record with an empty city yields five tokens, so parse_zip_cs2303 runs out of tokens: the round trip fails |
| Zipfed.EmptyCityLine | zipfed.cpp:218-244 | the printed line of a record with an empty city is its zip and type name, two adjacent commas, then its state and coordinates |
| Zipfed.FederalExample | zipfed.cpp:38-119 | the federal line of record 1 (zip 00601, STANDARD, Adjuntas, PR) parses into that record |
| Zipfed.FederalEmptyCity | zipfed.cpp:93-97 | a federal line whose city column is `""` parses into a record with an empty city |
| Zipfed.ShortZipPadded | zipfed.cpp:168-172 | the three-digit zip `601` is padded to `00601` |
| Zipfed.Cs2303Example | zipfed.cpp:169-173 | the cs2303 line with zip `601` parses into zip `00601` |
| Zipfed.Zipfed.constructor | zipfed.cpp:16-23 | a new record has empty strings, INVALID and zero coordinates |
| Zipfed.Zipfed.GetCity | zipfed.hpp:55 | get_city returns the stored city |
| Zipfed.Zipfed.GetZip | zipfed.hpp:59 | get_zip returns the stored zip code |
| Zipfed.Zipfed.ParseFederal | zipfed.cpp:38-119 | the method returns `FederalParse`'s status and on success holds its record, otherwise the fields are unchanged |
| Zipfed.Zipfed.ParseCs2303 | zipfed.cpp:143-205 | the method returns `Cs2303Parse`'s status and on success holds its record, otherwise the fields are unchanged |
| CLines.Terminated | zipcode.c:49-53 | the cleared buffer has the same length and none of the first n bytes read is a terminator any more |
| CLines.CString | zipcode.c:49-53 | the string the parser sees is the buffer up to its first NUL and contains no NUL |
| CLines.LineText | fed2cs2303.c:48-52 | a line made of text and trailing terminators reaches the parser as the text alone |
| CLines.Cs2303KeepsCarriageReturn | zipcode.c:49-53 | readln_cs2303 leaves the `\r` of a `\r\n` ending in the string the parser sees |
| CLines.TerminatorsOnlyRefused | zipcode.c:138-155 | a line of nothing but terminators is refused by the parser as an empty line |
| CLines.LoadLine | zipcode.c:138-162 | one pass of the ingest loop adds at most one record |
| CLines.Chain | fed2cs2303.c:133-160 | two stretches of ingest succeed together exactly when both succeed, and then add the records of both |
| CLines.Load | zipcode.c:138-163 | the ingest loop, as a function of the lines read, adds at most one record per line |
| CLines.LoadFailsIff | zipcode.c:138-163 | the ingest fails exactly when some non-empty line fails to parse |
| CLines.ChainAssociative | fed2cs2303.c:133-160 | grouping stretches of ingest differently gives the same result |
| CLines.LoadPrefixStep | zipcode.c:138-162 | the ingest of the lines read so far grows by one line per pass |
| CLines.LoadPrefixFails | zipcode.c:150-154 | once the lines read so far fail to ingest, the whole input fails |
| CLines.LoadAppend | fed2cs2303.c:133-160 | ingesting two stretches of lines is ingesting the first and then the second, failing if either fails |
| CLines.LoadOne | fed2cs2303.c:134-159 | one line adds nothing when empty, otherwise its record, or fails |
| CityOrder.LexLess | zipcode.c:64-68 | std::string's `<` holds only between different strings, never before the empty string, and always for a proper prefix |
| CityOrder.Alphabet | zipcode.c:64-68 | alphabet is true only for different cities, and never both ways round |
| CityOrder.LexLessIrreflexive | zipcode.c:64-68 | no city comes before itself |
| CityOrder.LexLessAsymmetric | zipcode.c:64-68 | two cities never come before each other |
| CityOrder.LexLessTransitive | zipcode.c:64-68 | the city order is transitive |
| CityOrder.LexLessTotal | zipcode.c:64-68 | of two different cities one comes before the other |
| CityOrder.LexLeqTransitive | zipcode.c:64-68 | "not after" is transitive, so the comparator is a strict weak order |
| CityOrder.Insert | zipcode.c:166 | inserting a record adds exactly that record |
| CityOrder.SortByCity | zipcode.c:166 | sort(alphabet) yields a permutation in which no city comes before the city of a record ahead of it |
| CityOrder.InsertSorted | zipcode.c:166 | inserting into a list sorted by city keeps it sorted |
| CityOrder.InsertInFront | zipcode.c:166 | a record placed before a sorted list whose first city does not come before its own leaves it sorted |
| CityOrder.InsertPast | zipcode.c:166 | a record moving past a smaller city into a sorted rest leaves the whole list sorted |
| CityOrder.InsertMembers | zipcode.c:166 | the list after an insertion holds the new record and the old ones, nothing else |
| ZipList.Reverse | zipcode.c:162 | the reversed list has the same length, with element i from the other end |
| ZipList.ReverseSnoc | fed2cs2303.c:159 | pushing onto the front of a list built from the earlier lines gives the reverse of the lines so far |
| ZipList.ReverseAppend | zipcode.c:162 | reversing a concatenation reverses and swaps its parts |
| ZipList.ForwardList.constructor | zipcode.c:103 | a new list is empty |
| ZipList.ForwardList.PushFront | zipcode.c:162 | push_front makes the record the first element and keeps the rest |
| ZipList.ForwardList.Sort | zipcode.c:166 | the list becomes `SortByCity` of its contents, sorted by city and a permutation |
| Zipcode.ReadlnCs2303 | zipcode.c:34-56 | a NULL stream gives -1 and leaves the buffer alone; otherwise every `\n` among the bytes read becomes NUL, nothing else changes, and the count is returned |
| Zipcode.Lookup | zipcode.c:178-183 | the scan prints the zip codes of the records whose city equals the query, in list order |
| Zipcode.MatchingZips | zipcode.c:178-183 | the scan prints at most one zip per record |
| Zipcode.MatchingZipsMembers | zipcode.c:178-183 | a zip is printed for a query exactly when some record of that city holds it |
| Zipcode.MatchingZipsAppend | zipcode.c:178-183 | scanning a list made of two parts prints the results for the first part, then for the second |
| Zipcode.MatchingZipsReverse | zipcode.c:162 | scanning the reversed list prints the same zips in reverse |
| Zipcode.HitsCommute | zipcode.c:180 | two records whose cities differ never both belong to the city asked for |
| Zipcode.OfCity | zipcode.c:180 | the records of one city, in list order, are no more than the list and all of that city |
| Zipcode.MatchingZipsOfCity | zipcode.c:178-183 | the scan prints the zips of the records of the queried city, in list order |
| Zipcode.OfCityCons | zipcode.c:180 | the records of a city in a list with a record in front are that record if it matches, then the rest's |
| Zipcode.InsertKeepsCity | zipcode.c:166 | inserting a record keeps the records of every city in their order |
| Zipcode.InsertPastRecord | zipcode.c:166 | moving a record past one of a smaller city keeps the records of every city in their order |
| Zipcode.SortKeepsMatches | zipcode.c:166 | sorting keeps, for every query, the zips found and their order |
| Zipcode.SortKeepsCity | zipcode.c:166 | the sort is stable: the records of each city keep their relative order |
| Zipcode.Answers | zipcode.c:173-184 | the query loop prints at most one zip per record for each query |
| Zipcode.AnswersMembers | zipcode.c:173-184 | a zip is printed exactly when some record holds it and its city was asked for |
| Zipcode.Asked | zipcode.c:173-176 | the loop answers every query line, except a last one that ends at end of input, which it drops |
| Zipcode.ReverseFileOrder | zipcode.c:162-183 | for each query the program prints that city's zips in the reverse of their file order |
| Zipcode.AnswerAll | zipcode.c:173-184 | the query loop prints each query's scan in turn |
| Zipcode.IngestAll | zipcode.c:138-163 | the ingest loop fails exactly when `Load` fails, and otherwise leaves the list holding `Load`'s records in reverse |
| Zipcode.IngestLine | zipcode.c:138-162 | one pass of the ingest loop adds what `Load` adds for that line: nothing for zero bytes, the parsed record, or a failure when the parse's return code (`ParseStatus.Code`) is not 0 |
| Zipcode.Run | zipcode.c:94-205 | exit -1 for a wrong argument count, -2 when the input does not open, -4 with nothing printed when a line fails, otherwise 0, the prompt, and the answers over the reversed, sorted records |
| Fed2cs2303.ReadlnFed | fed2cs2303.c:33-55 | a NULL stream gives -1 and leaves the buffer alone; otherwise every `\n` and `\r` among the bytes read becomes NUL, nothing else changes, and the count is returned |
| Fed2cs2303.Exported | fed2cs2303.c:171-176 | the export loop writes at most one line per record |
| Fed2cs2303.ExportedFrom | fed2cs2303.c:171-176 | the export of the list from a record on writes that record's line, then the rest's |
| Fed2cs2303.ExportAll | fed2cs2303.c:171-176 | the export loop writes print(fdOut) of each record of the list in turn |
| Fed2cs2303.ExportedMembers | fed2cs2303.c:171-176 | a line is written exactly when it prints a record of the list whose state is `MA` |
| Fed2cs2303.ExportedAppend | fed2cs2303.c:171-176 | exporting two parts writes the lines of the first, then of the second |
| Fed2cs2303.ExportedReverse | fed2cs2303.c:159-176 | exporting the list that push_front built writes the lines in reverse file order |
| Fed2cs2303.ExportedLineReadsBack | fed2cs2303.c:174 | for a record whose zip has five or more characters and whose zip, city and state are non-empty and comma-free, a line fed2cs2303 writes, with its newline, is read by zipcode as that record |
| Fed2cs2303.EmptyCityLineNotReadBack | fed2cs2303.c:174 | a line fed2cs2303 writes for a record with an empty city is refused by zipcode's parser |
| Fed2cs2303.IngestAll | fed2cs2303.c:133-160 | the ingest loop fails exactly when `Load` fails, and otherwise leaves the list holding `Load`'s records in reverse |
| Fed2cs2303.IngestLine | fed2cs2303.c:133-159 | one pass of the ingest loop adds what `Load` adds for that line: nothing for zero bytes, the parsed record, or a failure when the parse's return code (`ParseStatus.Code`) is not 0 |
| Fed2cs2303.Body | fed2cs2303.c:130 | the ingest loop reads every line after the first, which is read and discarded |
| Fed2cs2303.Run | fed2cs2303.c:79-188 | exit -1, -2, -3 for argument count, input and output opening; -4 with nothing written when a line fails; otherwise 0 and the export of the reversed records |

## Left out

- Zipcode.Run: a coordinate token `std::stof` cannot convert (no number, or out of range) throws an exception nobody catches, which ends the program before anything is printed; the model treats every token as parsed and exits 0.
- Fed2cs2303.Run: a coordinate token `std::stof` cannot convert ends the program with an uncaught exception, leaving the output file empty; the model treats every token as parsed and exits 0.
- Zipfed.FederalParse: a coordinate token `std::stof` cannot convert throws at zipfed.cpp:109-111; the model returns `Parsed` with that token as its `Coord`.
- Zipfed.Cs2303Parse: a coordinate token `std::stof` cannot convert throws at zipfed.cpp:201-203; the model returns `Parsed` with that token as its `Coord`.
- Floating point: `std::stof` and the `%f` rendering are not evaluated. A coordinate is the token it was converted from (`Coord`), and a printed line keeps its coordinates apart from its text (`OutLine`).
- File and console I/O: `fopen`, `getdelim`, `getline`, `printf` and `fprintf` become parameters and results of `Run`. The lines the file yields, whether each file opens, and the lines written or printed are all values.
- `Zipcode.ReadlnCs2303` and `Fed2cs2303.ReadlnFed`: the buffer growth of `getdelim` is not modelled. Each line gets a fresh buffer that holds it and a NUL.
- Messages to the error stream are not modelled, because they do not affect the exit code or standard output. The query prompt is modelled as the first line zipcode prints (`Zipcode.Prompt`).
- `strtok` writes NUL bytes into the line it splits. The model only reads the line, and nothing else uses the line afterwards.
- The list holds pointers to `Zipfed` objects. The model holds each record's value, because no record changes after it is added.
- Memory release (`pop_front`, the unfreed `Zipfed` objects, `free` of the buffer) is not modelled.
- The record number (`atoi`) and the LocationType column are read and dropped by the source, and the `LOCATION_TYPE` enum is unused. The model drops them too.
- The `default` branch of both switches cannot be reached, because every kind has a case. `KindName` has no such branch.
- fed2cs2303's `argc == 2` export to standard output cannot be reached after the `argc != 3` exit, so it is not modelled.
- `fclose` on the exit paths is not modelled.
- `Zipfed.Zipfed.ParseFederal` and `Zipfed.Zipfed.ParseCs2303`: a line with too few tokens is undefined behaviour in the source. The model returns `Truncated` and leaves the fields unchanged.
