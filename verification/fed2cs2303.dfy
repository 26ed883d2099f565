/**
 * The fed2cs2303 program: it reads a file in the federal format into a
 * list and writes the records of Massachusetts to an output file in the
 * cs2303 format.
 */
module Fed2cs2303 {

  import opened Wrappers
  import opened Strtok
  import opened Zipfed
  import opened CLines
  import opened ZipList

  /**
   * readln_fed once `getdelim` has filled `buf` and returned `bytesRead`:
   * -1 for a NULL stream; otherwise every '\n' and '\r' among the bytes read
   * becomes NUL and the count is returned.
   */
  method ReadlnFed(streamIsNull: bool, buf: array<char>, bytesRead: int) returns (r: int)
    requires -1 <= bytesRead <= buf.Length
    modifies buf
    ensures streamIsNull ==> r == -1 && buf[..] == old(buf[..])
    ensures !streamIsNull ==> r == bytesRead && buf[..] == Terminated(Federal, old(buf[..]), bytesRead)
  {
    if streamIsNull {
      return -1;
    }
    var i := bytesRead - 1;
    while i >= 0
      invariant i <= bytesRead - 1 && (-1 <= i || i == bytesRead - 1)
      invariant forall k :: 0 <= k < buf.Length ==>
        buf[k] == if i < k < bytesRead && IsTerminator(Federal, old(buf[k])) then NUL else old(buf[k])
      decreases i
    {
      if buf[i] == '\n' || buf[i] == '\r' {
        buf[i] := NUL;
      }
      i := i - 1;
    }
    return bytesRead;
  }

  /** What the export loop writes for a list: print(fdOut) of each record in turn. */
  function Exported(s: seq<Record>): (out: seq<OutLine>)
    ensures |out| <= |s|
  {
    if s == [] then [] else PrintFile(s[0]) + Exported(s[1..])
  }

  /** The export of a suffix of the list: its first record, then the rest. */
  lemma ExportedFrom(s: seq<Record>, i: nat)
    requires i < |s|
    ensures Exported(s[i..]) == PrintFile(s[i]) + Exported(s[i + 1..])
  {
    assert s[i..][1..] == s[i + 1..];
  }

  /** The export loop over the list. */
  method ExportAll(s: seq<Record>) returns (out: seq<OutLine>)
    ensures out == Exported(s)
  {
    out := [];
    var i := 0;
    while i < |s|
      invariant 0 <= i <= |s|
      invariant out + Exported(s[i..]) == Exported(s)
    {
      ghost var before := out;
      ExportedFrom(s, i);
      out := out + PrintFile(s[i]);
      assert before + (PrintFile(s[i]) + Exported(s[i + 1..])) == out + Exported(s[i + 1..]);
      i := i + 1;
    }
    assert s[i..] == [];
  }

  /** A line is written exactly when it prints a record of the list whose state is "MA". */
  lemma {:induction false} ExportedMembers(s: seq<Record>, line: OutLine)
    ensures line in Exported(s) <==> exists i :: 0 <= i < |s| && s[i].state == "MA" && Print(s[i]) == line
  {
    if s != [] {
      ExportedMembers(s[1..], line);
      if exists i :: 0 <= i < |s[1..]| && s[1..][i].state == "MA" && Print(s[1..][i]) == line {
        var i :| 0 <= i < |s[1..]| && s[1..][i].state == "MA" && Print(s[1..][i]) == line;
        assert s[i + 1] == s[1..][i];
      }
      if exists i :: 0 <= i < |s| && s[i].state == "MA" && Print(s[i]) == line {
        var i :| 0 <= i < |s| && s[i].state == "MA" && Print(s[i]) == line;
        if i > 0 {
          assert s[1..][i - 1] == s[i];
        }
      }
    }
  }

  lemma {:induction false} ExportedAppend(a: seq<Record>, b: seq<Record>)
    ensures Exported(a + b) == Exported(a) + Exported(b)
  {
    if a == [] {
      assert a + b == b;
    } else {
      assert (a + b)[1..] == a[1..] + b;
      ExportedAppend(a[1..], b);
    }
  }

  /** Exporting the list, which push_front built backwards, writes the records in reverse file order. */
  lemma {:induction false} ExportedReverse(rs: seq<Record>)
    ensures Exported(Reverse(rs)) == Reverse(Exported(rs))
  {
    if rs != [] {
      ExportedReverse(rs[1..]);
      ExportedAppend(Reverse(rs[1..]), [rs[0]]);
      assert [rs[0]][1..] == [];
      assert Exported([rs[0]]) == PrintFile(rs[0]);
      ReverseAppend(PrintFile(rs[0]), Exported(rs[1..]));
      assert Reverse(PrintFile(rs[0])) == PrintFile(rs[0]);
    }
  }

  /**
   * A line fed2cs2303 writes, with its coordinates rendered and its '\n',
   * is read by zipcode as the record it was written from.
   */
  lemma ExportedLineReadsBack(r: Record, latText: string, lonText: string)
    requires IsToken(r.zip) && |r.zip| >= 5 && IsToken(r.city) && IsToken(r.state)
    requires IsToken(latText) && IsToken(lonText)
    requires NUL !in Print(r).text + latText + "," + lonText
    requires '\n' !in Print(r).text + latText + "," + lonText
    ensures ParseLine(Cs2303, Print(r).text + latText + "," + lonText + "\n")
            == Parsed(r.(lat := Stof(latText), lon := Stof(lonText)))
  {
    LineText(Cs2303, Print(r).text + latText + "," + lonText, "\n");
    PrintParsesBack(r, latText, lonText);
  }

  /**
   * A line fed2cs2303 writes for a record with an empty city is refused by
   * zipcode: its two adjacent commas leave `strtok` one token short.
   */
  lemma EmptyCityLineNotReadBack(r: Record, latText: string, lonText: string)
    requires IsToken(r.zip) && r.city == [] && IsToken(r.state)
    requires IsToken(latText) && IsToken(lonText)
    requires NUL !in Print(r).text + latText + "," + lonText
    requires '\n' !in Print(r).text + latText + "," + lonText
    ensures ParseLine(Cs2303, Print(r).text + latText + "," + lonText + "\n") == Rejected(Truncated)
  {
    LineText(Cs2303, Print(r).text + latText + "," + lonText, "\n");
    EmptyCityNotParsedBack(r, latText, lonText);
  }

  /**
   * One pass of the ingest loop: the line is read into a fresh buffer,
   * cleared of '\n' and '\r' by readln_fed, skipped when no byte was read,
   * and otherwise parsed into a new Zipfed. The result is the records the
   * line adds (none or one), or None when the parse fails.
   */
  method IngestLine(line: string) returns (step: Option<seq<Record>>)
    ensures step == Load(Federal, [line])
    ensures step.Some? ==> |step.value| <= 1
  {
    LoadOne(Federal, line);
    var buf := new char[|line| + 1](k requires 0 <= k <= |line| => if k < |line| then line[k] else NUL);
    assert buf[..] == Buffered(line);
    var charsRead := ReadlnFed(false, buf, |line|);
    if charsRead == 0 {
      return Some([]);
    }
    var z := new Zipfed();
    var status := z.ParseFederal(Some(CString(buf[..])));
    // The source tests the returned int against 0; Truncated stands for its unread-token case.
    if status == Truncated || status.Code() != 0 {
      return None;
    }
    return Some([z.Value()]);
  }

  /**
   * The ingest loop: each line in turn, its record pushed on the front of
   * the list. Returns false as soon as a line fails to parse.
   */
  method IngestAll(list: ForwardList, lines: seq<string>) returns (ok: bool)
    requires list.items == []
    modifies list
    ensures ok <==> Load(Federal, lines).Some?
    ensures ok ==> list.items == Reverse(Load(Federal, lines).value)
  {
    ghost var done: seq<Record> := [];
    var i := 0;
    while i < |lines|
      invariant 0 <= i <= |lines|
      invariant Load(Federal, lines[..i]) == Some(done)
      invariant list.items == Reverse(done)
    {
      var step := IngestLine(lines[i]);
      LoadPrefixStep(Federal, lines, i);
      if step.None? {
        LoadPrefixFails(Federal, lines, i + 1);
        return false;
      }
      if step.value != [] {
        list.PushFront(step.value[0]);
        ReverseSnoc(done, step.value[0]);
        assert step.value == [step.value[0]];
      } else {
        assert done + [] == done;
      }
      done := done + step.value;
      i := i + 1;
    }
    assert lines[..i] == lines;
    return true;
  }

  /** The lines the ingest loop reads: all but the first, which is read and discarded. */
  function Body(lines: seq<string>): (b: seq<string>)
    ensures lines != [] ==> lines == lines[..1] + b
    ensures lines == [] ==> b == []
  {
    if lines == [] then [] else lines[1..]
  }

  /**
   * main: `argc` counts the command line, `inputOpens` and `outputOpens`
   * say whether the two fopen calls succeed, and `lines` are the successive
   * lines `getdelim` returns (each with its terminator where the file has
   * one). Returns the exit code and the lines written to the output file.
   * Nothing is written before the whole input has been read, so a failed
   * parse leaves the output file empty.
   */
  method Run(argc: int, inputOpens: bool, outputOpens: bool, lines: seq<string>)
    returns (exit: int, out: seq<OutLine>)
    ensures argc != 3 ==> exit == -1 && out == []
    ensures argc == 3 && !inputOpens ==> exit == -2 && out == []
    ensures argc == 3 && inputOpens && !outputOpens ==> exit == -3 && out == []
    ensures argc == 3 && inputOpens && outputOpens && Load(Federal, Body(lines)).None? ==>
      exit == -4 && out == []
    ensures argc == 3 && inputOpens && outputOpens && Load(Federal, Body(lines)).Some? ==>
      exit == 0 && out == Exported(Reverse(Load(Federal, Body(lines)).value))
  {
    out := [];
    if argc != 3 {
      return -1, out;
    }
    if !inputOpens {
      return -2, out;
    }
    if !outputOpens {
      return -3, out;
    }
    var body := Body(lines);
    var list := new ForwardList();
    var ok := IngestAll(list, body);
    if !ok {
      return -4, [];
    }
    out := ExportAll(list.items);
    return 0, out;
  }
}
