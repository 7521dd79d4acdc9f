/** `CsvResultSaver`: writes a header line and one line per row, cells separated by
    commas, each line ended by a newline. The writer is a parameter of the source; here
    the saver keeps the list of `(path, content)` pairs it has handed to it. */
module CsvResultSaving {
  import opened Common

  /** `sep.join(parts)`. */
  function Join(sep: string, parts: seq<string>): string
    decreases |parts|
  {
    if parts == [] then ""
    else if |parts| == 1 then parts[0]
    else parts[0] + sep + Join(sep, parts[1..])
  }

  /** `s.split(c)`: the pieces between the occurrences of `c`; there is always one piece
      more than there are occurrences, so the empty string splits into one empty piece. */
  function Split(s: string, c: char): (r: seq<string>)
    ensures |r| >= 1
    decreases |s|
  {
    if s == [] then [""]
    else if s[0] == c then [""] + Split(s[1..], c)
    else
      var rest := Split(s[1..], c);
      [[s[0]] + rest[0]] + rest[1..]
  }

  /** The line of one row, `",".join(row)`. */
  function Line(row: seq<string>): string
  {
    Join(",", row)
  }

  /** What `save(output_path, headers, rows)` writes. */
  function Content(headers: seq<string>, rows: seq<seq<string>>): (c: string)
    ensures |c| >= 2 && c[|c| - 1] == '\n'
  {
    Join(",", headers) + "\n" + Join("\n", MapSeq(Line, rows)) + "\n"
  }

  /** `c` occurs in no piece. */
  predicate Free(parts: seq<string>, c: char)
  {
    forall k :: 0 <= k < |parts| ==> c !in parts[k]
  }

  lemma {:induction false} SplitPrefix(piece: string, rest: string, c: char)
    requires c !in piece
    ensures Split(piece + [c] + rest, c) == [piece] + Split(rest, c)
    decreases |piece|
  {
    if piece == [] {
      assert piece + [c] + rest == [c] + rest;
      assert ([c] + rest)[1..] == rest;
    } else {
      var s := piece + [c] + rest;
      assert s[0] == piece[0] && s[1..] == piece[1..] + [c] + rest;
      SplitPrefix(piece[1..], rest, c);
      assert [piece[0]] + piece[1..] == piece;
    }
  }

  lemma {:induction false} SplitPiece(piece: string, c: char)
    requires c !in piece
    ensures Split(piece, c) == [piece]
    decreases |piece|
  {
    if piece != [] {
      SplitPiece(piece[1..], c);
      assert [piece[0]] + piece[1..] == piece;
    }
  }

  /** Joining pieces that do not contain the separator and splitting the result gives
      the pieces back. */
  lemma {:induction false} SplitJoin(parts: seq<string>, c: char)
    requires parts != [] && Free(parts, c)
    ensures Split(Join([c], parts), c) == parts
    decreases |parts|
  {
    if |parts| == 1 {
      SplitPiece(parts[0], c);
    } else {
      var rest := parts[1..];
      assert Free(rest, c) by {
        forall k | 0 <= k < |rest| ensures c !in rest[k] {
          assert rest[k] == parts[k + 1];
        }
      }
      SplitJoin(rest, c);
      SplitPrefix(parts[0], Join([c], rest), c);
      assert [parts[0]] + rest == parts;
    }
  }

  /** The pieces of `s + [c]` are those of `s` and one empty piece after them. */
  lemma {:induction false} SplitTerminated(s: string, c: char)
    ensures Split(s + [c], c) == Split(s, c) + [""]
    decreases |s|
  {
    if s == [] {
      assert [c][1..] == [];
    } else {
      assert (s + [c])[1..] == s[1..] + [c];
      SplitTerminated(s[1..], c);
    }
  }

  /** The lines of the content are the header line, the row lines and, after the final
      newline, one empty piece. No rows leave an empty line after the header. */
  lemma ContentLines(headers: seq<string>, rows: seq<seq<string>>)
    requires '\n' !in Line(headers) && Free(MapSeq(Line, rows), '\n')
    ensures rows != [] ==> Split(Content(headers, rows), '\n') == [Line(headers)] + MapSeq(Line, rows) + [""]
    ensures rows == [] ==> Split(Content(headers, rows), '\n') == [Line(headers), "", ""]
  {
    var body := Join("\n", MapSeq(Line, rows));
    assert Content(headers, rows) == Line(headers) + ['\n'] + body + ['\n'];
    SplitPrefix(Line(headers), body + ['\n'], '\n');
    assert Line(headers) + ['\n'] + (body + ['\n']) == Line(headers) + ['\n'] + body + ['\n'];
    SplitTerminated(body, '\n');
    if rows != [] {
      SplitJoin(MapSeq(Line, rows), '\n');
    } else {
      assert body == "";
    }
  }

  /** Reads back what `Content` writes: the header cells and the row cells. */
  function Parse(content: string): (Option<(seq<string>, seq<seq<string>>)>)
  {
    var lines := Split(content, '\n');
    if |lines| < 3 || lines[|lines| - 1] != "" then None
    else Some((Cells(lines[0]), MapSeq(Cells, lines[1..|lines| - 1])))
  }

  /** The cells of one line, `line.split(",")`. */
  function Cells(line: string): seq<string>
  {
    Split(line, ',')
  }

  /** A well-formed table, non-empty headers and rows whose cells hold neither commas
      nor newlines, comes back unchanged. */
  lemma ParseContent(headers: seq<string>, rows: seq<seq<string>>)
    requires headers != [] && rows != []
    requires Free(headers, ',') && Free(headers, '\n')
    requires forall k :: 0 <= k < |rows| ==> rows[k] != [] && Free(rows[k], ',') && Free(rows[k], '\n')
    ensures Parse(Content(headers, rows)) == Some((headers, rows))
  {
    var lines := MapSeq(Line, rows);
    NoNewlineInLine(headers);
    forall k | 0 <= k < |rows| ensures '\n' !in lines[k] {
      NoNewlineInLine(rows[k]);
    }
    ContentLines(headers, rows);
    var all := [Line(headers)] + lines + [""];
    assert all[1..|all| - 1] == lines;
    SplitJoin(headers, ',');
    var cells := MapSeq(Cells, lines);
    forall k | 0 <= k < |rows| ensures cells[k] == rows[k] {
      SplitJoin(rows[k], ',');
    }
    assert cells == rows;
    assert Split(Content(headers, rows), '\n') == all;
    assert Cells(all[0]) == headers;
  }

  lemma {:induction false} NoNewlineInLine(row: seq<string>)
    requires Free(row, '\n')
    ensures '\n' !in Line(row)
    decreases |row|
  {
    if |row| > 1 {
      var rest := row[1..];
      assert Free(rest, '\n') by {
        forall k | 0 <= k < |rest| ensures '\n' !in rest[k] {
          assert rest[k] == row[k + 1];
        }
      }
      NoNewlineInLine(rest);
      assert Line(row) == row[0] + "," + Line(rest);
    }
  }

  class CsvResultSaver {
    /** The `(path, content)` pairs handed to the writer, in order. */
    var written: seq<(string, string)>

    constructor()
      ensures written == []
    {
      written := [];
    }

    /** `save(output_path, headers, rows)`: hands the writer the path and the CSV content
        exactly once. */
    method Save(outputPath: string, headers: seq<string>, rows: seq<seq<string>>)
      modifies this
      ensures written == old(written) + [(outputPath, Content(headers, rows))]
    {
      var content := Join(",", headers) + "\n";
      content := content + Join("\n", MapSeq(Line, rows)) + "\n";
      written := written + [(outputPath, content)];
    }
  }

  /** The saver example: three rows under the headers userId, itemId and rating. */
  lemma ExampleContent()
    ensures Content(["userId", "itemId", "rating"], [["1", "1", "5"], ["1", "2", "4"], ["2", "1", "3"]]) ==
      "userId,itemId,rating\n1,1,5\n1,2,4\n2,1,3\n"
  {
    ExampleLines();
    ExampleBody();
  }

  lemma ExampleBody()
    ensures Join("\n", MapSeq(Line, [["1", "1", "5"], ["1", "2", "4"], ["2", "1", "3"]])) == "1,1,5\n1,2,4\n2,1,3"
  {
    var rows := [["1", "1", "5"], ["1", "2", "4"], ["2", "1", "3"]];
    ExampleLines();
    assert MapSeq(Line, rows) == ["1,1,5", "1,2,4", "2,1,3"];
    ThreeCells("1,1,5", "1,2,4", "2,1,3");
  }

  lemma ExampleLines()
    ensures Line(["userId", "itemId", "rating"]) == "userId,itemId,rating"
    ensures Line(["1", "1", "5"]) == "1,1,5" && Line(["1", "2", "4"]) == "1,2,4" && Line(["2", "1", "3"]) == "2,1,3"
  {
    ThreeCells("userId", "itemId", "rating");
    ThreeCells("1", "1", "5");
    ThreeCells("1", "2", "4");
    ThreeCells("2", "1", "3");
  }

  lemma ThreeCells(a: string, b: string, c: string)
    ensures Join(",", [a, b, c]) == a + "," + b + "," + c
    ensures Join("\n", [a, b, c]) == a + "\n" + b + "\n" + c
  {
    assert [a, b, c][1..] == [b, c] && [b, c][1..] == [c];
    assert Join(",", [b, c]) == b + "," + c;
    assert Join("\n", [b, c]) == b + "\n" + c;
  }
}
