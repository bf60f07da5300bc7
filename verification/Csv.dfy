/** The CSV printer, against a reader for the grammar of section 2 of RFC 4180. */
module Csv {
  import opened Options
  import opened StableSort

  type Cell = Option<string> // None for null and undefined; numbers arrive as their String()

  predicate IsFormulaStart(c: char) { c in {'=', '+', '-', '@', '\t', '\r'} }

  predicate IsSpecial(c: char) { c in {'"', ',', '\r', '\n'} }

  /** The text a cell stands for, with a leading quote when it would be a formula. */
  function Neutral(v: Cell): string {
    if v.None? then ""
    else if v.value != "" && IsFormulaStart(v.value[0]) then "'" + v.value
    else v.value
  }

  predicate LooksLikeFormula(s: string) {
    s != "" && (s[0] == '=' || s[0] == '+' || s[0] == '-' || s[0] == '@' || s[0] == '\t' || s[0] == '\r')
  }

  /** A cell keeps its whole text behind at most one added quote, which is there exactly before a formula. */
  lemma NeutralKeepsTheText(v: Cell)
    ensures v.None? ==> Neutral(v) == ""
    ensures v.Some? ==> |Neutral(v)| == |v.value| + (if LooksLikeFormula(v.value) then 1 else 0)
                        && Neutral(v)[|Neutral(v)| - |v.value|..] == v.value
    ensures v.Some? && LooksLikeFormula(v.value) ==> Neutral(v)[0] == '\''
  {
  }

  /** So two texts print alike only if they are equal, or one is the other's formula with the quote already typed. */
  lemma NeutralCollidesIff(u: string, v: string)
    ensures Neutral(Some(u)) == Neutral(Some(v))
            <==> u == v || (LooksLikeFormula(u) && v == "'" + u) || (LooksLikeFormula(v) && u == "'" + v)
  {
    assert ("'" + u)[1..] == u && ("'" + v)[1..] == v;
  }

  predicate NeedsQuotes(s: string) { exists i :: 0 <= i < |s| && IsSpecial(s[i]) }

  /** s.replace(/"/g, '""') */
  function Double(s: string): string {
    if s == "" then "" else (if s[0] == '"' then "\"\"" else [s[0]]) + Double(s[1..])
  }

  function Printed(v: Cell): string {
    var s := Neutral(v);
    if NeedsQuotes(s) then "\"" + Double(s) + "\"" else s
  }

  /** A cell is quoted exactly if it holds a quote, a comma, a carriage return or a line feed; else it is printed as it is. */
  lemma QuotedIff(v: Cell)
    ensures Printed(v) == Neutral(v) <==> forall c | c in Neutral(v) :: c != '"' && c != ',' && c != '\r' && c != '\n'
    ensures Printed(v) != Neutral(v) ==> |Printed(v)| >= 2 && Printed(v)[0] == '"' && Printed(v)[|Printed(v)| - 1] == '"'
  {
    var s := Neutral(v);
    DoubleGrows(s);
    if NeedsQuotes(s) {
      var i :| 0 <= i < |s| && IsSpecial(s[i]);
      assert s[i] in s;
    }
    forall c | c in s && (c == '"' || c == ',' || c == '\r' || c == '\n') ensures NeedsQuotes(s) {
      var i :| 0 <= i < |s| && s[i] == c;
      assert IsSpecial(s[i]);
    }
  }

  lemma {:induction false} DoubleGrows(s: string)
    ensures |Double(s)| >= |s|
  {
    if s != "" { DoubleGrows(s[1..]); }
  }

  /** csvCell */
  method CsvCell(v: Cell) returns (s: string)
    ensures s == Printed(v)
    ensures forall rest | EndsField(rest) :: ReadField(s + rest) == Some((Neutral(v), rest))
  {
    forall rest | EndsField(rest) ensures ReadField(Printed(v) + rest) == Some((Neutral(v), rest)) { CellReadsBack(v, rest); }
    if v.None? { assert !NeedsQuotes(""); return ""; }
    s := v.value;
    if s != "" && IsFormulaStart(s[0]) { s := "'" + s; }
    if NeedsQuotes(s) { s := "\"" + Double(s) + "\""; }
  }

  function Join(parts: seq<string>, sep: string): string {
    if parts == [] then ""
    else if |parts| == 1 then parts[0]
    else parts[0] + sep + Join(parts[1..], sep)
  }

  function PrintCell(): Cell -> string { (v: Cell) => Printed(v) }

  function PrintLine(): seq<Cell> -> string { (row: seq<Cell>) => Join(Map(row, PrintCell()), ",") }

  function Text(rows: seq<seq<Cell>>): string { Join(Map(rows, PrintLine()), "\r\n") }

  method PrintRow(row: seq<Cell>) returns (line: string)
    ensures line == PrintLine()(row)
  {
    var cells: seq<string> := [];
    var k := 0;
    while k < |row|
      invariant 0 <= k <= |row|
      invariant cells == Map(row[..k], PrintCell())
    {
      var c := CsvCell(row[k]);
      assert row[..k + 1] == row[..k] + [row[k]];
      cells := cells + [c];
      k := k + 1;
    }
    assert row[..|row|] == row;
    line := Join(cells, ",");
  }

  /** toCsv */
  method ToCsv(headers: seq<Cell>, rows: seq<seq<Cell>>) returns (csv: string)
    ensures csv == Text([headers] + rows)
  {
    var header := PrintRow(headers);
    var lines := [header];
    var k := 0;
    while k < |rows|
      invariant 0 <= k <= |rows|
      invariant lines == Map([headers] + rows[..k], PrintLine())
    {
      var line := PrintRow(rows[k]);
      assert Map([headers] + rows[..k + 1], PrintLine()) == lines + [line] by {
        assert [headers] + rows[..k + 1] == [headers] + rows[..k] + [rows[k]];
      }
      lines := lines + [line];
      k := k + 1;
    }
    assert rows[..|rows|] == rows;
    csv := Join(lines, "\r\n");
  }

  // ---------------------------------------------------------------- reader

  /** The rest of an escaped field, after its opening quote. */
  function ReadQuoted(s: string): (r: Option<(string, string)>)
    ensures r.Some? ==> |r.value.1| < |s|
  {
    if s == "" then None
    else if s[0] != '"' then
      var rest := ReadQuoted(s[1..]);
      if rest.None? then None else Some(([s[0]] + rest.value.0, rest.value.1))
    else if |s| >= 2 && s[1] == '"' then
      var rest := ReadQuoted(s[2..]);
      if rest.None? then None else Some((['"'] + rest.value.0, rest.value.1))
    else Some(("", s[1..]))
  }

  /** A non-escaped field: everything up to a quote, comma, CR or LF. */
  function ReadBare(s: string): (r: (string, string))
    ensures |r.1| <= |s|
  {
    if s == "" || IsSpecial(s[0]) then ("", s)
    else
      var rest := ReadBare(s[1..]);
      ([s[0]] + rest.0, rest.1)
  }

  function ReadField(s: string): (r: Option<(string, string)>)
    ensures r.Some? ==> |r.value.1| <= |s|
  {
    if s != "" && s[0] == '"' then ReadQuoted(s[1..]) else Some(ReadBare(s))
  }

  /** field *(COMMA field) */
  function ReadRecord(s: string): (r: Option<(seq<string>, string)>)
    ensures r.Some? ==> |r.value.1| <= |s|
    decreases |s|
  {
    var field := ReadField(s);
    if field.None? then None
    else if field.value.1 != "" && field.value.1[0] == ',' then
      var rest := ReadRecord(field.value.1[1..]);
      if rest.None? then None else Some(([field.value.0] + rest.value.0, rest.value.1))
    else Some(([field.value.0], field.value.1))
  }

  predicate StartsWithBreak(s: string) { |s| >= 2 && s[0] == '\r' && s[1] == '\n' }

  /** record *(CRLF record) [CRLF]; a lone final CRLF is optional when `lenient`. */
  function ReadFile(s: string, lenient: bool): Option<seq<seq<string>>>
    decreases |s|
  {
    var record := ReadRecord(s);
    if record.None? then None
    else
      var rest := record.value.1;
      if rest == "" || (lenient && rest == "\r\n") then Some([record.value.0])
      else if !StartsWithBreak(rest) then None
      else
        var more := ReadFile(rest[2..], lenient);
        if more.None? then None else Some([record.value.0] + more.value)
  }

  // ------------------------------------------------------------ round trip

  lemma Regroup(a: string, b: string, c: string, d: string)
    ensures a + b + c + d == a + (b + (c + d))
  {
  }

  lemma ReadsOne(c: char, tail: string)
    requires ReadQuoted(tail).Some?
    ensures ReadQuoted((if c == '"' then "\"\"" else [c]) + tail)
            == Some(([c] + ReadQuoted(tail).value.0, ReadQuoted(tail).value.1))
  {
    if c == '"' { assert ("\"\"" + tail)[2..] == tail; } else { assert ([c] + tail)[1..] == tail; }
  }

  lemma {:induction false} QuotedReadsBack(n: string, rest: string)
    requires rest == "" || rest[0] != '"'
    ensures ReadQuoted(Double(n) + "\"" + rest) == Some((n, rest))
  {
    if n == "" {
      assert Double(n) + "\"" + rest == ['"'] + rest;
      assert (['"'] + rest)[1..] == rest;
    } else {
      QuotedReadsBack(n[1..], rest);
      ReadsOne(n[0], Double(n[1..]) + "\"" + rest);
      Regroup(if n[0] == '"' then "\"\"" else [n[0]], Double(n[1..]), "\"", rest);
      assert Double(n[1..]) + ("\"" + rest) == Double(n[1..]) + "\"" + rest;
      assert n == [n[0]] + n[1..];
    }
  }

  lemma {:induction false} BareReadsBack(n: string, rest: string)
    requires !NeedsQuotes(n) && (rest == "" || IsSpecial(rest[0]))
    ensures ReadBare(n + rest) == (n, rest)
  {
    if n == "" {
      assert n + rest == rest;
    } else {
      assert !IsSpecial(n[0]) && n == [n[0]] + n[1..];
      assert forall i | 0 <= i < |n| - 1 :: n[1..][i] == n[i + 1];
      assert (n + rest)[1..] == n[1..] + rest;
      BareReadsBack(n[1..], rest);
    }
  }

  /** Where a printed field can stop. */
  predicate EndsField(rest: string) { rest == "" || rest[0] == ',' || rest[0] == '\r' }

  lemma QuotedCellReadsBack(v: Cell, rest: string)
    requires EndsField(rest) && NeedsQuotes(Neutral(v))
    ensures ReadField(Printed(v) + rest) == Some((Neutral(v), rest))
  {
    var body := Double(Neutral(v)) + "\"" + rest;
    QuotedReadsBack(Neutral(v), rest);
    assert Printed(v) + rest == ['"'] + body;
    assert (['"'] + body)[1..] == body;
  }

  lemma CellReadsBack(v: Cell, rest: string)
    requires EndsField(rest)
    ensures ReadField(Printed(v) + rest) == Some((Neutral(v), rest))
  {
    var n := Neutral(v);
    if NeedsQuotes(n) {
      QuotedCellReadsBack(v, rest);
    } else {
      BareReadsBack(n, rest);
      assert n != "" ==> !IsSpecial(n[0]);
      assert Printed(v) + rest == n + rest;
    }
  }

  function NeutralCell(): Cell -> string { (v: Cell) => Neutral(v) }

  /** What a row reads back as: a row without cells prints as one empty cell. */
  function ReadsAs(): seq<Cell> -> seq<string> {
    (row: seq<Cell>) => if row == [] then [""] else Map(row, NeutralCell())
  }

  predicate EndsRecord(rest: string) { rest == "" || rest[0] == '\r' }

  lemma RecordEnds(s: string, f: string, rest: string)
    requires ReadField(s) == Some((f, rest)) && EndsRecord(rest)
    ensures ReadRecord(s) == Some(([f], rest))
  {
  }

  lemma RecordGoesOn(s: string, f: string, tail: string)
    requires ReadField(s) == Some((f, "," + tail)) && ReadRecord(tail).Some?
    ensures ReadRecord(s) == Some(([f] + ReadRecord(tail).value.0, ReadRecord(tail).value.1))
  {
    assert ("," + tail)[1..] == tail;
  }

  lemma PrintLineOne(v: Cell)
    ensures PrintLine()([v]) == Printed(v) && ReadsAs()([v]) == [Neutral(v)]
  {
  }

  lemma PrintLineMore(row: seq<Cell>)
    requires |row| >= 2
    ensures PrintLine()(row) == Printed(row[0]) + "," + PrintLine()(row[1..])
    ensures ReadsAs()(row) == [Neutral(row[0])] + ReadsAs()(row[1..])
  {
    assert Map(row, PrintCell())[1..] == Map(row[1..], PrintCell());
  }

  lemma CellThenRow(v: Cell, tail: string)
    requires ReadRecord(tail).Some?
    ensures ReadRecord(Printed(v) + ("," + tail))
            == Some(([Neutral(v)] + ReadRecord(tail).value.0, ReadRecord(tail).value.1))
  {
    CellReadsBack(v, "," + tail);
    RecordGoesOn(Printed(v) + ("," + tail), Neutral(v), tail);
  }

  lemma {:induction false} RowReadsBack(row: seq<Cell>, rest: string)
    requires EndsRecord(rest)
    ensures ReadRecord(PrintLine()(row) + rest) == Some((ReadsAs()(row), rest))
  {
    if row == [] {
      assert PrintLine()(row) + rest == rest;
    } else if |row| == 1 {
      assert row == [row[0]];
      PrintLineOne(row[0]);
      CellReadsBack(row[0], rest);
      RecordEnds(Printed(row[0]) + rest, Neutral(row[0]), rest);
    } else {
      RowReadsBack(row[1..], rest);
      RowGoesOn(row, rest);
    }
  }

  lemma RowGoesOn(row: seq<Cell>, rest: string)
    requires |row| >= 2 && ReadRecord(PrintLine()(row[1..]) + rest) == Some((ReadsAs()(row[1..]), rest))
    ensures ReadRecord(PrintLine()(row) + rest) == Some((ReadsAs()(row), rest))
  {
    var tail := PrintLine()(row[1..]) + rest;
    CellThenRow(row[0], tail);
    PrintLineMore(row);
    Regroup(Printed(row[0]), ",", PrintLine()(row[1..]), rest);
  }

  lemma TextHead(rows: seq<seq<Cell>>)
    requires |rows| >= 2
    ensures Text(rows) == PrintLine()(rows[0]) + ("\r\n" + Text(rows[1..]))
  {
    assert Map(rows, PrintLine())[1..] == Map(rows[1..], PrintLine());
  }

  lemma TextOne(rows: seq<seq<Cell>>)
    requires |rows| == 1
    ensures Text(rows) == PrintLine()(rows[0]) + "" && Map(rows, ReadsAs()) == [ReadsAs()(rows[0])]
  {
  }

  lemma ReadsMore(s: string, lenient: bool, fields: seq<string>, tail: string)
    requires ReadRecord(s) == Some((fields, "\r\n" + tail)) && !(lenient && tail == "")
    ensures ReadFile(s, lenient)
            == if ReadFile(tail, lenient).None? then None else Some([fields] + ReadFile(tail, lenient).value)
  {
    assert ("\r\n" + tail)[2..] == tail;
  }

  lemma {:induction false} TextReadsBack(rows: seq<seq<Cell>>)
    requires rows != []
    ensures ReadFile(Text(rows), false) == Some(Map(rows, ReadsAs()))
  {
    var tail := rows[1..];
    assert Map(rows, ReadsAs()) == [ReadsAs()(rows[0])] + Map(tail, ReadsAs()) by { MapAhead(rows, tail, ReadsAs()); }
    if |rows| == 1 {
      TextOne(rows);
      RowReadsBack(rows[0], "");
    } else {
      TextReadsBack(tail);
      TextHead(rows);
      RowReadsBack(rows[0], "\r\n" + Text(tail));
      ReadsMore(Text(rows), false, ReadsAs()(rows[0]), Text(tail));
    }
  }

  /**
   * Reading what toCsv wrote gives back exactly the neutralised cells, if and
   * only if every row has at least one cell.
   */
  lemma ReadsBackIff(headers: seq<Cell>, rows: seq<seq<Cell>>)
    ensures var table := [headers] + rows;
            ReadFile(Text(table), false) == Some(Map(table, (row: seq<Cell>) => Map(row, NeutralCell())))
            <==> forall i | 0 <= i < |table| :: table[i] != []
  {
    var table := [headers] + rows;
    var plain := Map(table, (row: seq<Cell>) => Map(row, NeutralCell()));
    TextReadsBack(table);
    var read := Map(table, ReadsAs());
    forall i | 0 <= i < |table| ensures read[i] == plain[i] <==> table[i] != [] {
      assert |plain[i]| == |table[i]|;
    }
    if forall i | 0 <= i < |table| :: table[i] != [] {
      assert read == plain;
    } else {
      var i :| 0 <= i < |table| && table[i] == [];
      assert read[i] != plain[i];
    }
  }

  /** A lone empty cell prints as nothing at all. */
  lemma EmptyLine(row: seq<Cell>)
    ensures PrintLine()(row) == "" <==> ReadsAs()(row) == [""]
  {
    assert PrintLine()(row) + "" == PrintLine()(row);
    RowReadsBack(row, "");
    if ReadsAs()(row) == [""] && row != [] {
      assert |row| == 1 && Neutral(row[0]) == "";
      assert !NeedsQuotes("");
    }
  }

  /** What is read when a last row of one empty cell is dropped. */
  function Kept(rows: seq<seq<Cell>>): seq<seq<string>>
    requires rows != []
  {
    if |rows| > 1 && ReadsAs()(rows[|rows| - 1]) == [""] then Map(rows[..|rows| - 1], ReadsAs()) else Map(rows, ReadsAs())
  }

  /**
   * A reader that takes the final line break as optional agrees, except that it
   * drops a last row consisting of one empty cell.
   */
  lemma {:induction false} LenientReadsBack(rows: seq<seq<Cell>>)
    requires rows != []
    ensures ReadFile(Text(rows), true) == Some(Kept(rows))
  {
    if |rows| == 1 {
      TextOne(rows);
      RowReadsBack(rows[0], "");
    } else {
      var tail := Text(rows[1..]);
      TextHead(rows);
      RowReadsBack(rows[0], "\r\n" + tail);
      TailText(rows);
      if tail == "" {
        assert "\r\n" + tail == "\r\n";
      } else {
        ReadsMore(Text(rows), true, ReadsAs()(rows[0]), tail);
        LenientReadsBack(rows[1..]);
      }
    }
  }

  lemma TailText(rows: seq<seq<Cell>>)
    requires |rows| >= 2
    ensures Kept(rows) == if Text(rows[1..]) == "" then [ReadsAs()(rows[0])] else [ReadsAs()(rows[0])] + Kept(rows[1..])
  {
    DropLast(rows);
    if |rows| == 2 {
      TextOne(rows[1..]);
      EmptyLine(rows[1]);
      assert Map(rows[1..][..0], ReadsAs()) == [];
    } else {
      TextHead(rows[1..]);
    }
    assert Map(rows, ReadsAs()) == [ReadsAs()(rows[0])] + Map(rows[1..], ReadsAs());
  }

  lemma DropLast(rows: seq<seq<Cell>>)
    requires |rows| >= 2
    ensures rows[1..][|rows| - 2] == rows[|rows| - 1]
    ensures Map(rows[..|rows| - 1], ReadsAs()) == [ReadsAs()(rows[0])] + Map(rows[1..][..|rows| - 2], ReadsAs())
  {
    var kept, tail := rows[..|rows| - 1], rows[1..][..|rows| - 2];
    assert |kept| == 1 + |tail| && kept[0] == rows[0];
    forall i | 0 <= i < |tail| ensures kept[1 + i] == tail[i] {}
    MapAhead(kept, tail, ReadsAs());
  }

  lemma MapAhead<T, U>(s: seq<T>, tail: seq<T>, f: T -> U)
    requires |s| == 1 + |tail| && forall i | 0 <= i < |tail| :: s[1 + i] == tail[i]
    ensures Map(s, f) == [f(s[0])] + Map(tail, f)
  {
    var left, right := Map(s, f), [f(s[0])] + Map(tail, f);
    forall i | 0 <= i < |s| ensures left[i] == right[i] {
      if i > 0 { assert s[1 + (i - 1)] == tail[i - 1]; }
    }
  }

  /** No field a reader recovers begins like a formula. */
  lemma NothingReadsAsFormula(headers: seq<Cell>, rows: seq<seq<Cell>>, i: nat, j: nat)
    requires i <= |rows|
    ensures var read := ReadFile(Text([headers] + rows), false);
            read.Some? && |read.value| == 1 + |rows|
            && (j < |read.value[i]| ==> read.value[i][j] == "" || !IsFormulaStart(read.value[i][j][0]))
  {
    var table := [headers] + rows;
    TextReadsBack(table);
    assert Map(table, ReadsAs())[i] == ReadsAs()(table[i]);
    if table[i] != [] && j < |table[i]| { NeutralIsNoFormula(table[i][j]); }
  }

  lemma NeutralIsNoFormula(v: Cell)
    ensures Neutral(v) == "" || !IsFormulaStart(Neutral(v)[0])
  {
    if v.Some? && v.value != "" && IsFormulaStart(v.value[0]) { assert Neutral(v)[0] == '\''; }
  }
}
