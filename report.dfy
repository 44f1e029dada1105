/** The CSV report the classification run writes (categorize.py): a header
    line, then one `category,name,"description"` line per row, in order,
    with no escaping of the fields. */
module Report {

  /** One classified metric. */
  datatype Row = Row(category: string, name: string, description: string)

  /** Name of the file the report is written to. */
  const ReportFileName := "categorized_metrics.csv"

  /** The header line, without its terminating newline. */
  const HeaderText := "category,name,description"

  const Header := HeaderText + "\n"

  /** The text of a row's line, without its terminating newline: the three
      fields as they are, the description between double quotes. */
  function RowText(row: Row): (t: string)
    ensures |t| == |row.category| + |row.name| + |row.description| + 4
    ensures t[|row.category|] == ','
    ensures t[|row.category| + 1 + |row.name|] == ','
    ensures t[|t| - 2 - |row.description|] == '"' && t[|t| - 1] == '"'
  {
    row.category + "," + row.name + ",\"" + row.description + "\""
  }

  /** The f-string written for a row: its text and a newline. */
  function CsvLine(row: Row): (line: string)
    ensures |line| == |RowText(row)| + 1
    ensures line[|line| - 1] == '\n'
  {
    RowText(row) + "\n"
  }

  /** The lines written by the loop over the rows. */
  function RenderRows(rows: seq<Row>): (text: string)
    ensures rows == [] <==> text == []
    ensures text != [] ==> text[|text| - 1] == '\n'
  {
    if rows == [] then "" else CsvLine(rows[0]) + RenderRows(rows[1..])
  }

  /** The whole file. */
  function Render(rows: seq<Row>): (text: string)
    ensures |Header| <= |text|
    ensures forall k :: 0 <= k < |Header| ==> text[k] == Header[k]
  {
    Header + RenderRows(rows)
  }

  lemma {:induction false} RenderRowsAppend(rows: seq<Row>, row: Row)
    ensures RenderRows(rows + [row]) == RenderRows(rows) + CsvLine(row)
  {
    if rows == [] {
      assert rows + [row] == [row];
    } else {
      assert (rows + [row])[0] == rows[0];
      assert (rows + [row])[1..] == rows[1..] + [row];
      RenderRowsAppend(rows[1..], row);
    }
  }

  /** The file after i + 1 rows is the file after i rows and the line of
      row i. */
  lemma RenderPrefix(rows: seq<Row>, i: nat)
    requires i < |rows|
    ensures Render(rows[..i + 1]) == Render(rows[..i]) + CsvLine(rows[i])
  {
    assert rows[..i + 1] == rows[..i] + [rows[i]];
    RenderRowsAppend(rows[..i], rows[i]);
  }

  /** A field that cannot break a line. */
  predicate NoNewline(s: string) {
    forall k :: 0 <= k < |s| ==> s[k] != '\n'
  }

  /** A row whose fields are all on one line. */
  predicate SingleLine(row: Row) {
    NoNewline(row.category) && NoNewline(row.name) && NoNewline(row.description)
  }

  /** Where the first line of `s` ends: the position of its first newline,
      or the length of `s` when there is none. */
  function LineEnd(s: string): (n: nat)
    ensures n <= |s|
    ensures forall k :: 0 <= k < n ==> s[k] != '\n'
    ensures n < |s| ==> s[n] == '\n'
  {
    if s == [] || s[0] == '\n' then 0 else 1 + LineEnd(s[1..])
  }

  /** The lines of a text as a reader of the file sees them: the pieces
      between newlines, a final newline ending the last line rather than
      starting an empty one. */
  function SplitLines(s: string): seq<string>
    decreases |s|
  {
    if s == [] then []
    else
      var n := LineEnd(s);
      if n == |s| then [s] else [s[..n]] + SplitLines(s[n + 1..])
  }

  lemma {:induction false} LineEndOf(line: string, rest: string)
    requires NoNewline(line)
    ensures LineEnd(line + "\n" + rest) == |line|
  {
    var s := line + "\n" + rest;
    if line == [] {
      assert s[0] == '\n';
    } else {
      assert s[0] == line[0];
      assert s[1..] == line[1..] + "\n" + rest;
      LineEndOf(line[1..], rest);
    }
  }

  /** A line followed by a newline is the first line of the text. */
  lemma SplitLinesCons(line: string, rest: string)
    requires NoNewline(line)
    ensures SplitLines(line + "\n" + rest) == [line] + SplitLines(rest)
  {
    var s := line + "\n" + rest;
    LineEndOf(line, rest);
    assert s[..|line|] == line;
    assert s[|line| + 1..] == rest;
  }

  lemma RowTextSingleLine(row: Row)
    requires SingleLine(row)
    ensures NoNewline(RowText(row))
  {
    var t := RowText(row);
    var c, n, d := |row.category|, |row.name|, |row.description|;
    forall k | 0 <= k < |t|
      ensures t[k] != '\n'
    {
      if k < c {
        assert t[k] == row.category[k];
      } else if k == c {
        assert t[k] == ',';
      } else if k < c + 1 + n {
        assert t[k] == row.name[k - c - 1];
      } else if k < c + 1 + n + 2 {
        assert t[k] == ",\""[k - c - 1 - n];
      } else if k < c + 1 + n + 2 + d {
        assert t[k] == row.description[k - c - 3 - n];
      } else {
        assert t[k] == '"';
      }
    }
  }

  /** One line per row, in order, each the row's text. */
  lemma {:induction false} RenderRowsLines(rows: seq<Row>)
    requires forall i :: 0 <= i < |rows| ==> SingleLine(rows[i])
    ensures |SplitLines(RenderRows(rows))| == |rows|
    ensures forall i :: 0 <= i < |rows| ==> SplitLines(RenderRows(rows))[i] == RowText(rows[i])
  {
    if rows != [] {
      RowTextSingleLine(rows[0]);
      SplitLinesCons(RowText(rows[0]), RenderRows(rows[1..]));
      assert RenderRows(rows) == RowText(rows[0]) + "\n" + RenderRows(rows[1..]);
      RenderRowsLines(rows[1..]);
    }
  }

  lemma HeaderSingleLine()
    ensures NoNewline(HeaderText)
  {
  }

  /** The header is the first line of the file, the rows' lines follow. */
  lemma RenderSplit(rows: seq<Row>)
    ensures SplitLines(Render(rows)) == [HeaderText] + SplitLines(RenderRows(rows))
  {
    HeaderSingleLine();
    SplitLinesCons(HeaderText, RenderRows(rows));
  }

  /** The report has exactly one line more than there are rows: the header,
      then line i + 1 is row i. This needs every field on one line, which
      nothing in the run guarantees for the category (the model's answer)
      or the name. */
  lemma ReportLines(rows: seq<Row>)
    requires forall i :: 0 <= i < |rows| ==> SingleLine(rows[i])
    ensures |SplitLines(Render(rows))| == 1 + |rows|
    ensures SplitLines(Render(rows))[0] == HeaderText
    ensures forall i :: 0 <= i < |rows| ==> SplitLines(Render(rows))[i + 1] == RowText(rows[i])
  {
    var body := RenderRows(rows);
    var lines := SplitLines(Render(rows));
    RenderSplit(rows);
    RenderRowsLines(rows);
    forall i | 0 <= i < |rows|
      ensures lines[i + 1] == RowText(rows[i])
    {
      assert lines[i + 1] == SplitLines(body)[i];
    }
  }

  /** Fields are written as they are: a comma inside the category cannot be
      told apart from the separator, so two different rows give the same
      line. */
  lemma CommasAreNotEscaped()
    ensures exists r1: Row, r2: Row :: r1 != r2 && CsvLine(r1) == CsvLine(r2)
  {
    var r1, r2 := Row("a,b", "c", "d"), Row("a", "b,c", "d");
    assert r1 != r2 && CsvLine(r1) == CsvLine(r2);
  }

  /** The file `categorized_metrics.csv`, opened for writing. */
  class ReportFile {
    var contents: string

    constructor ()
      ensures contents == []
    {
      contents := [];
    }

    /** Opening with mode 'w' empties the file. */
    method Truncate()
      modifies this
      ensures contents == []
    {
      contents := [];
    }

    /** `f.write(s)` appends `s`. */
    method Write(s: string)
      modifies this
      ensures contents == old(contents) + s
    {
      contents := contents + s;
    }
  }

  /** The `with open(...)` block: truncate, write the header, then one line
      per row. Whatever the file held before is gone. */
  method WriteReport(f: ReportFile, rows: seq<Row>)
    modifies f
    ensures f.contents == Render(rows)
  {
    f.Truncate();
    f.Write(Header);
    for i := 0 to |rows|
      invariant f.contents == Render(rows[..i])
    {
      RenderPrefix(rows, i);
      f.Write(CsvLine(rows[i]));
    }
    assert rows[..|rows|] == rows;
  }
}
