/**
 * Lines as the two programs read them. `getdelim` fills a buffer with one
 * line and a terminating NUL; the program's reader (readln_cs2303 or
 * readln_fed) overwrites the line terminators with NUL; the parser then sees
 * the C string the buffer holds, which ends at the first NUL.
 */
module CLines {

  import opened Wrappers
  import opened Zipfed

  /** The input format, which decides both the reader and the parser. */
  datatype Dialect = Federal | Cs2303

  const NUL: char := 0 as char

  /** The bytes the reader overwrites: '\n' for readln_cs2303, '\n' and '\r' for readln_fed. */
  predicate IsTerminator(d: Dialect, c: char)
  {
    c == '\n' || (d == Federal && c == '\r')
  }

  /** The buffer after the reader's loop: each terminator among its first `n` bytes is now NUL. */
  function Terminated(d: Dialect, buf: seq<char>, n: int): (t: seq<char>)
    ensures |t| == |buf|
    ensures forall i :: 0 <= i < |t| && i < n ==> !IsTerminator(d, t[i])
  {
    seq(|buf|, i requires 0 <= i < |buf| => if i < n && IsTerminator(d, buf[i]) then NUL else buf[i])
  }

  /** The C string a buffer holds: its bytes up to the first NUL. */
  function CString(buf: seq<char>): (s: string)
    ensures NUL !in s && |s| <= |buf| && s == buf[..|s|]
    ensures |s| < |buf| ==> buf[|s|] == NUL
  {
    if buf == [] || buf[0] == NUL then [] else [buf[0]] + CString(buf[1..])
  }

  /** The buffer `getdelim` leaves for one line: its bytes, then a NUL. */
  function Buffered(line: string): seq<char>
  {
    line + [NUL]
  }

  /** The parser of a dialect. */
  function Parse(d: Dialect, csv: Option<string>): ParseResult
  {
    if d == Federal then FederalParse(csv) else Cs2303Parse(csv)
  }

  /** One line read, cleared of terminators and parsed. */
  function ParseLine(d: Dialect, line: string): ParseResult
  {
    Parse(d, Some(CString(Terminated(d, Buffered(line), |line|))))
  }

  /**
   * What one pass of the ingest loop adds: nothing for a line of zero
   * bytes, the parsed record, or None when the parse fails.
   */
  function LoadLine(d: Dialect, line: string): (r: Option<seq<Record>>)
    ensures r.Some? ==> |r.value| <= 1
  {
    if |line| == 0 then Some([])
    else match ParseLine(d, line)
      case Rejected(_) => None
      case Parsed(rec) => Some([rec])
  }

  /** Two stretches of ingest one after the other: both must succeed. */
  function Chain(x: Option<seq<Record>>, y: Option<seq<Record>>): (r: Option<seq<Record>>)
    ensures r.Some? <==> x.Some? && y.Some?
    ensures r.Some? ==> |r.value| == |x.value| + |y.value|
  {
    if x.None? || y.None? then None else Some(x.value + y.value)
  }

  /**
   * The ingest loop as a function: the records of the lines in file order,
   * or None as soon as a line fails to parse. A line of zero bytes is
   * skipped.
   */
  function Load(d: Dialect, lines: seq<string>): (r: Option<seq<Record>>)
    ensures r.Some? ==> |r.value| <= |lines|
  {
    if lines == [] then Some([]) else Chain(LoadLine(d, lines[0]), Load(d, lines[1..]))
  }

  /** The C string of a buffer that starts with a NUL-free text and then a NUL. */
  lemma {:induction false} CStringOfText(text: string, rest: seq<char>)
    requires NUL !in text
    ensures CString(text + [NUL] + rest) == text
  {
    if text != [] {
      assert (text + [NUL] + rest)[1..] == text[1..] + [NUL] + rest;
      CStringOfText(text[1..], rest);
    }
  }

  /**
   * A line made of a text and a run of terminators reaches the parser as
   * the text alone.
   */
  lemma LineText(d: Dialect, text: string, term: string)
    requires NUL !in text && forall i :: 0 <= i < |text| ==> !IsTerminator(d, text[i])
    requires forall i :: 0 <= i < |term| ==> IsTerminator(d, term[i])
    ensures CString(Terminated(d, Buffered(text + term), |text + term|)) == text
  {
    var buf := Terminated(d, Buffered(text + term), |text + term|);
    assert buf == text + [NUL] + (buf[|text| + 1..]);
    CStringOfText(text, buf[|text| + 1..]);
  }

  /**
   * readln_cs2303 clears only '\n': a line ended by "\r\n" reaches the
   * parser with its '\r' still attached.
   */
  lemma Cs2303KeepsCarriageReturn(text: string)
    requires NUL !in text && '\n' !in text
    ensures CString(Terminated(Cs2303, Buffered(text + "\r\n"), |text| + 2)) == text + "\r"
  {
    assert text + "\r\n" == (text + "\r") + "\n";
    LineText(Cs2303, text + "\r", "\n");
  }

  /** A line holding nothing but terminators is an empty C string, which both parsers refuse. */
  lemma TerminatorsOnlyRefused(d: Dialect, line: string)
    requires forall i :: 0 <= i < |line| ==> IsTerminator(d, line[i])
    ensures ParseLine(d, line) == Rejected(EmptyLine)
  {
    LineText(d, [], line);
    assert [] + line == line;
  }

  /** The ingest fails exactly when some non-empty line fails to parse. */
  lemma {:induction false} LoadFailsIff(d: Dialect, lines: seq<string>)
    ensures Load(d, lines).None? <==>
            exists k :: 0 <= k < |lines| && |lines[k]| > 0 && ParseLine(d, lines[k]).Rejected?
  {
    if lines != [] {
      LoadFailsIff(d, lines[1..]);
      if Load(d, lines).None? && !(|lines[0]| > 0 && ParseLine(d, lines[0]).Rejected?) {
        var k :| 0 <= k < |lines[1..]| && |lines[1..][k]| > 0 && ParseLine(d, lines[1..][k]).Rejected?;
        assert lines[k + 1] == lines[1..][k];
      }
      if exists k :: 0 <= k < |lines| && |lines[k]| > 0 && ParseLine(d, lines[k]).Rejected? {
        var k :| 0 <= k < |lines| && |lines[k]| > 0 && ParseLine(d, lines[k]).Rejected?;
        if k > 0 {
          assert lines[1..][k - 1] == lines[k];
        }
      }
    }
  }

  /** Chaining is associative. */
  lemma ChainAssociative(x: Option<seq<Record>>, y: Option<seq<Record>>, z: Option<seq<Record>>)
    ensures Chain(x, Chain(y, z)) == Chain(Chain(x, y), z)
  {
    if x.Some? && y.Some? && z.Some? {
      assert x.value + (y.value + z.value) == (x.value + y.value) + z.value;
    }
  }

  /** Ingesting two stretches of a file is ingesting the first, then the second. */
  lemma {:induction false} LoadAppend(d: Dialect, a: seq<string>, b: seq<string>)
    ensures Load(d, a + b) ==
            if Load(d, a).None? || Load(d, b).None? then None
            else Some(Load(d, a).value + Load(d, b).value)
  {
    if a == [] {
      assert a + b == b;
      if Load(d, b).Some? {
        assert [] + Load(d, b).value == Load(d, b).value;
      }
    } else {
      assert (a + b)[0] == a[0] && (a + b)[1..] == a[1..] + b;
      LoadAppend(d, a[1..], b);
      ChainAssociative(LoadLine(d, a[0]), Load(d, a[1..]), Load(d, b));
    }
  }

  /** The ingest of a prefix grows by one line at a time. */
  lemma LoadPrefixStep(d: Dialect, lines: seq<string>, i: nat)
    requires i < |lines|
    ensures Load(d, lines[..i + 1]) == Chain(Load(d, lines[..i]), Load(d, [lines[i]]))
  {
    assert lines[..i + 1] == lines[..i] + [lines[i]];
    LoadAppend(d, lines[..i], [lines[i]]);
  }

  /** Once a prefix fails to ingest, the whole file does. */
  lemma LoadPrefixFails(d: Dialect, lines: seq<string>, i: nat)
    requires i <= |lines| && Load(d, lines[..i]).None?
    ensures Load(d, lines).None?
  {
    assert lines[..i] + lines[i..] == lines;
    LoadAppend(d, lines[..i], lines[i..]);
  }

  /** Ingesting a single line: skipped when empty, else its record or a failure. */
  lemma LoadOne(d: Dialect, line: string)
    ensures Load(d, [line]) ==
            if |line| == 0 then Some([])
            else match ParseLine(d, line)
              case Rejected(_) => None
              case Parsed(r) => Some([r])
  {
    assert [line][1..] == [];
    assert Load(d, []) == Some([]);
    if LoadLine(d, line).Some? {
      assert LoadLine(d, line).value + [] == LoadLine(d, line).value;
    }
  }
}
