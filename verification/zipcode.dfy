/**
 * The zipcode program: it reads a file in the cs2303 format into a list,
 * sorts the list by city, and answers queries read from standard input
 * with the ZIP codes of the records whose city equals the query.
 */
module Zipcode {

  import opened Wrappers
  import opened Zipfed
  import opened CLines
  import opened CityOrder
  import opened ZipList

  /**
   * readln_cs2303 once `getdelim` has filled `buf` and returned
   * `bytesRead`: -1 for a NULL stream; otherwise every '\n' among the bytes
   * read becomes NUL and the count is returned.
   */
  method ReadlnCs2303(streamIsNull: bool, buf: array<char>, bytesRead: int) returns (r: int)
    requires -1 <= bytesRead <= buf.Length
    modifies buf
    ensures streamIsNull ==> r == -1 && buf[..] == old(buf[..])
    ensures !streamIsNull ==> r == bytesRead && buf[..] == Terminated(Cs2303, old(buf[..]), bytesRead)
  {
    if streamIsNull {
      return -1;
    }
    var i := bytesRead - 1;
    while i >= 0
      invariant i <= bytesRead - 1 && (-1 <= i || i == bytesRead - 1)
      invariant forall k :: 0 <= k < buf.Length ==>
        buf[k] == if i < k < bytesRead && IsTerminator(Cs2303, old(buf[k])) then NUL else old(buf[k])
      decreases i
    {
      if buf[i] == '\n' {
        buf[i] := NUL;
      }
      i := i - 1;
    }
    return bytesRead;
  }

  /** The ZIP codes the query scan prints for `query`, in list order. */
  function MatchingZips(s: seq<Record>, query: string): (z: seq<string>)
    ensures |z| <= |s|
  {
    if s == [] then [] else Hit(s[0], query) + MatchingZips(s[1..], query)
  }

  /** What the scan prints for one record: its ZIP code when its city is the query. */
  function Hit(r: Record, query: string): seq<string>
  {
    if r.city == query then [r.zip] else []
  }

  /** The scan over the list for one query: one ZIP code per record whose city equals it. */
  method Lookup(s: seq<Record>, query: string) returns (zips: seq<string>)
    ensures zips == MatchingZips(s, query)
  {
    zips := [];
    var i := 0;
    while i < |s|
      invariant 0 <= i <= |s|
      invariant zips + MatchingZips(s[i..], query) == MatchingZips(s, query)
    {
      ghost var before := zips;
      ghost var found := Hit(s[i], query);
      assert s[i..][1..] == s[i + 1..];
      assert MatchingZips(s[i..], query) == found + MatchingZips(s[i + 1..], query);
      if s[i].city == query {
        zips := zips + [s[i].zip];
      }
      assert zips == before + found;
      assert before + (found + MatchingZips(s[i + 1..], query)) == zips + MatchingZips(s[i + 1..], query);
      i := i + 1;
    }
    assert s[i..] == [];
  }

  /** A ZIP code is printed for a query exactly when some record of that city holds it. */
  lemma {:induction false} MatchingZipsMembers(s: seq<Record>, query: string, zip: string)
    ensures zip in MatchingZips(s, query) <==> exists i :: 0 <= i < |s| && s[i].city == query && s[i].zip == zip
  {
    if s != [] {
      MatchingZipsMembers(s[1..], query, zip);
      if exists i :: 0 <= i < |s[1..]| && s[1..][i].city == query && s[1..][i].zip == zip {
        var i :| 0 <= i < |s[1..]| && s[1..][i].city == query && s[1..][i].zip == zip;
        assert s[i + 1] == s[1..][i];
      }
      if exists i :: 0 <= i < |s| && s[i].city == query && s[i].zip == zip {
        var i :| 0 <= i < |s| && s[i].city == query && s[i].zip == zip;
        if i > 0 {
          assert s[1..][i - 1] == s[i];
        }
      }
    }
  }

  /** The scan of a list made of two parts is the scan of the first, then of the second. */
  lemma {:induction false} MatchingZipsAppend(a: seq<Record>, b: seq<Record>, query: string)
    ensures MatchingZips(a + b, query) == MatchingZips(a, query) + MatchingZips(b, query)
  {
    if a == [] {
      assert a + b == b;
    } else {
      assert (a + b)[1..] == a[1..] + b;
      MatchingZipsAppend(a[1..], b, query);
    }
  }

  /** Scanning the list reversed finds the same ZIP codes in reverse. */
  lemma {:induction false} MatchingZipsReverse(s: seq<Record>, query: string)
    ensures MatchingZips(Reverse(s), query) == Reverse(MatchingZips(s, query))
  {
    if s != [] {
      MatchingZipsReverse(s[1..], query);
      MatchingZipsAppend(Reverse(s[1..]), [s[0]], query);
      var head := Hit(s[0], query);
      ReverseAppend(head, MatchingZips(s[1..], query));
    }
  }

  /** The records of one city, in list order. */
  function OfCity(s: seq<Record>, city: string): (c: seq<Record>)
    ensures |c| <= |s|
    ensures forall i :: 0 <= i < |c| ==> c[i].city == city
  {
    if s == [] then [] else CityHit(s[0], city) + OfCity(s[1..], city)
  }

  /** A record, when its city is the one asked for. */
  function CityHit(r: Record, city: string): seq<Record>
  {
    if r.city == city then [r] else []
  }

  /** The ZIP code of each record, in order. */
  function Zips(s: seq<Record>): (z: seq<string>)
    ensures |z| == |s| && forall i :: 0 <= i < |s| ==> z[i] == s[i].zip
  {
    seq(|s|, i requires 0 <= i < |s| => s[i].zip)
  }

  /** The scan prints the ZIP codes of the records of the queried city, in list order. */
  lemma {:induction false} MatchingZipsOfCity(s: seq<Record>, query: string)
    ensures MatchingZips(s, query) == Zips(OfCity(s, query))
  {
    if s != [] {
      MatchingZipsOfCity(s[1..], query);
      assert Zips(CityHit(s[0], query) + OfCity(s[1..], query))
          == Hit(s[0], query) + Zips(OfCity(s[1..], query));
    }
  }

  /** The records of one city in a list with a record in front. */
  lemma OfCityCons(r: Record, s: seq<Record>, city: string)
    ensures OfCity([r] + s, city) == CityHit(r, city) + OfCity(s, city)
  {
    assert ([r] + s)[1..] == s;
  }

  /** Records of different cities never both belong to one city, so their hits commute. */
  lemma HitsCommute(x: Record, y: Record, city: string)
    requires Alphabet(x, y)
    ensures CityHit(x, city) + CityHit(y, city) == CityHit(y, city) + CityHit(x, city)
  {
    LexLessIrreflexive(y.city);
  }

  /**
   * Inserting a record keeps the records of every city in their order:
   * a record only moves past records of cities strictly before its own.
   */
  lemma {:induction false} InsertKeepsCity(r: Record, t: seq<Record>, city: string)
    ensures OfCity(Insert(r, t), city) == OfCity([r] + t, city)
  {
    if t != [] && Alphabet(t[0], r) {
      InsertKeepsCity(r, t[1..], city);
      InsertPastRecord(r, t, city);
    }
  }

  /** The inductive step: `r` moves past `t[0]`, whose city comes strictly before its own. */
  lemma InsertPastRecord(r: Record, t: seq<Record>, city: string)
    requires t != [] && Alphabet(t[0], r)
    requires OfCity(Insert(r, t[1..]), city) == OfCity([r] + t[1..], city)
    ensures OfCity(Insert(r, t), city) == OfCity([r] + t, city)
  {
    var rest := t[1..];
    assert t == [t[0]] + rest;
    assert Insert(r, t) == [t[0]] + Insert(r, rest);
    OfCityCons(t[0], Insert(r, rest), city);
    OfCityCons(r, rest, city);
    OfCityCons(t[0], rest, city);
    OfCityCons(r, t, city);
    HitsCommute(t[0], r, city);
    SwapFront(CityHit(t[0], city), CityHit(r, city), OfCity(rest, city));
  }

  /** Two commuting fronts can trade places ahead of a common tail. */
  lemma SwapFront<T>(a: seq<T>, b: seq<T>, c: seq<T>)
    requires a + b == b + a
    ensures a + (b + c) == b + (a + c)
  {
    assert a + (b + c) == (a + b) + c;
    assert (b + a) + c == b + (a + c);
  }

  /** The sort is stable: the records of each city keep their relative order. */
  lemma {:induction false} SortKeepsCity(s: seq<Record>, city: string)
    ensures OfCity(SortByCity(s), city) == OfCity(s, city)
  {
    if s != [] {
      SortKeepsCity(s[1..], city);
      InsertKeepsCity(s[0], SortByCity(s[1..]), city);
      OfCityCons(s[0], SortByCity(s[1..]), city);
      OfCityCons(s[0], s[1..], city);
      assert s == [s[0]] + s[1..];
    }
  }

  /** Sorting by city keeps, for every query, the ZIP codes found and their order. */
  lemma SortKeepsMatches(s: seq<Record>, query: string)
    ensures MatchingZips(SortByCity(s), query) == MatchingZips(s, query)
  {
    SortKeepsCity(s, query);
    MatchingZipsOfCity(SortByCity(s), query);
    MatchingZipsOfCity(s, query);
  }

  /** What the query loop prints: the ZIP codes for each query in turn. */
  function Answers(s: seq<Record>, queries: seq<string>): (out: seq<string>)
    ensures |out| <= |s| * |queries|
  {
    if queries == [] then []
    else
      var earlier := queries[..|queries| - 1];
      assert |s| * |queries| == |s| * |earlier| + |s|;
      Answers(s, earlier) + MatchingZips(s, queries[|queries| - 1])
  }

  /** A ZIP code is printed exactly when some record holds it and its city was asked for. */
  lemma {:induction false} AnswersMembers(s: seq<Record>, queries: seq<string>, zip: string)
    ensures zip in Answers(s, queries) <==> exists k :: 0 <= k < |s| && s[k].city in queries && s[k].zip == zip
  {
    if queries != [] {
      var earlier := queries[..|queries| - 1];
      var last := queries[|queries| - 1];
      assert queries == earlier + [last];
      AnswersMembers(s, earlier, zip);
      MatchingZipsMembers(s, last, zip);
      if exists k :: 0 <= k < |s| && s[k].city in queries && s[k].zip == zip {
        var k :| 0 <= k < |s| && s[k].city in queries && s[k].zip == zip;
        assert s[k].city in earlier || s[k].city == last;
      }
    }
  }

  /**
   * The queries the loop answers: every line `getline` delivers, except a
   * last line ended by the end of input rather than a newline, which sets
   * the eof flag and stops the loop unanswered.
   */
  function Asked(queries: seq<string>, lastUnterminated: bool): (a: seq<string>)
    ensures a <= queries && |queries| - 1 <= |a|
  {
    if lastUnterminated && queries != [] then queries[..|queries| - 1] else queries
  }

  /**
   * For each query the program prints the ZIP codes of that city in the
   * reverse of their order in the file: push_front reversed them and the
   * stable sort kept records of one city in that order.
   */
  lemma ReverseFileOrder(rs: seq<Record>, query: string)
    ensures MatchingZips(SortByCity(Reverse(rs)), query) == Reverse(MatchingZips(rs, query))
  {
    SortKeepsMatches(Reverse(rs), query);
    MatchingZipsReverse(rs, query);
  }

  /** The query loop: each query answered in turn by a scan of the list. */
  method AnswerAll(s: seq<Record>, queries: seq<string>) returns (out: seq<string>)
    ensures out == Answers(s, queries)
  {
    out := [];
    var q := 0;
    while q < |queries|
      invariant 0 <= q <= |queries|
      invariant out == Answers(s, queries[..q])
    {
      var zips := Lookup(s, queries[q]);
      assert queries[..q + 1][..q] == queries[..q];
      out := out + zips;
      q := q + 1;
    }
    assert queries[..q] == queries;
  }

  /**
   * One pass of the ingest loop: the line is read into a fresh buffer,
   * cleared of its '\n' by readln_cs2303, skipped when no byte was read,
   * and otherwise parsed into a new Zipfed. The result is the records the
   * line adds (none or one), or None when the parse fails.
   */
  method IngestLine(line: string) returns (step: Option<seq<Record>>)
    ensures step == Load(Cs2303, [line])
    ensures step.Some? ==> |step.value| <= 1
  {
    LoadOne(Cs2303, line);
    var buf := new char[|line| + 1](k requires 0 <= k <= |line| => if k < |line| then line[k] else NUL);
    assert buf[..] == Buffered(line);
    var charsRead := ReadlnCs2303(false, buf, |line|);
    if charsRead == 0 {
      return Some([]);
    }
    var z := new Zipfed();
    var status := z.ParseCs2303(Some(CString(buf[..])));
    // The source tests the returned int against 0; Truncated stands for its unread-token case.
    if status == Truncated || status.Code() != 0 {
      return None;
    }
    return Some([z.Value()]);
  }

  /** The line main prints to standard output before it reads the queries. */
  const Prompt := "Enter the names of the cities whose zip codes you want to find. Make sure your input is ALL CAPS..."

  /**
   * The ingest loop: each line in turn, its record pushed on the front of
   * the list. Returns false as soon as a line fails to parse.
   */
  method IngestAll(list: ForwardList, lines: seq<string>) returns (ok: bool)
    requires list.items == []
    modifies list
    ensures ok <==> Load(Cs2303, lines).Some?
    ensures ok ==> list.items == Reverse(Load(Cs2303, lines).value)
  {
    ghost var done: seq<Record> := [];
    var i := 0;
    while i < |lines|
      invariant 0 <= i <= |lines|
      invariant Load(Cs2303, lines[..i]) == Some(done)
      invariant list.items == Reverse(done)
    {
      var step := IngestLine(lines[i]);
      LoadPrefixStep(Cs2303, lines, i);
      if step.None? {
        LoadPrefixFails(Cs2303, lines, i + 1);
        return false;
      }
      if step.value != [] {
        list.PushFront(step.value[0]);
        ReverseSnoc(done, step.value[0]);
        assert step.value == [step.value[0]];
      } else {
        assert done + [] == done;
      }
      done := done + step.value;
      i := i + 1;
    }
    assert lines[..i] == lines;
    return true;
  }

  /**
   * main: `argc` counts the command line, `inputOpens` says whether fopen
   * succeeds, `lines` are the successive lines `getdelim` returns (each with
   * its '\n' where the file has one) and `queries` the lines of standard
   * input. Returns the exit code and the lines printed to standard output:
   * the prompt, then the answers.
   */
  method Run(argc: int, inputOpens: bool, lines: seq<string>, queries: seq<string>, lastUnterminated: bool)
    returns (exit: int, out: seq<string>)
    ensures argc != 2 ==> exit == -1 && out == []
    ensures argc == 2 && !inputOpens ==> exit == -2 && out == []
    ensures argc == 2 && inputOpens && Load(Cs2303, lines).None? ==> exit == -4 && out == []
    ensures argc == 2 && inputOpens && Load(Cs2303, lines).Some? ==>
      exit == 0 && out == [Prompt] + Answers(SortByCity(Reverse(Load(Cs2303, lines).value)), Asked(queries, lastUnterminated))
  {
    out := [];
    if argc != 2 {
      return -1, out;
    }
    if !inputOpens {
      return -2, out;
    }
    var list := new ForwardList();
    var ok := IngestAll(list, lines);
    if !ok {
      return -4, [];
    }
    list.Sort();
    var answers := AnswerAll(list.items, Asked(queries, lastUnterminated));
    return 0, [Prompt] + answers;
  }
}
