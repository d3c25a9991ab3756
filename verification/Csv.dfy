/**
 * CSV quoting (packages/shared/src/csv.ts) against an independent reader that follows
 * section 2 of RFC 4180 and also accepts a bare LF as a line end.
 */
module Csv {
  import opened Wrappers

  /** What csvCell receives once numbers and booleans are in their String() form. */
  datatype Value = Nothing | Text(s: string)

  predicate Special(c: char) { c == ',' || c == '"' || c == '\r' || c == '\n' }

  predicate NeedsQuotes(s: string) { exists i :: 0 <= i < |s| && Special(s[i]) }

  /** s.replace(/"/g, '""') */
  function DoubleQuotes(s: string): string {
    if s == "" then "" else (if s[0] == '"' then "\"\"" else [s[0]]) + DoubleQuotes(s[1..])
  }

  function CsvCell(v: Value): string {
    match v
    case Nothing => ""
    case Text(s) => if NeedsQuotes(s) then "\"" + DoubleQuotes(s) + "\"" else s
  }

  function CsvRow(cells: seq<Value>): string {
    if |cells| == 0 then ""
    else if |cells| == 1 then CsvCell(cells[0])
    else CsvCell(cells[0]) + "," + CsvRow(cells[1..])
  }

  /** writeLine for every row of the file. */
  function CsvFile(rows: seq<seq<Value>>): string {
    if rows == [] then "" else CsvRow(rows[0]) + "\n" + CsvFile(rows[1..])
  }

  // ----- the reader -----

  /** The rest of a quoted field: its text and what follows the closing quote. */
  function ReadQuoted(s: string): (r: Option<(string, string)>)
    ensures r.Some? ==> |r.value.1| < |s|
  {
    if s == "" then None
    else if s[0] != '"' then
      match ReadQuoted(s[1..])
      case None => None
      case Some((text, rest)) => Some(([s[0]] + text, rest))
    else if |s| > 1 && s[1] == '"' then
      match ReadQuoted(s[2..])
      case None => None
      case Some((text, rest)) => Some(("\"" + text, rest))
    else Some(("", s[1..]))
  }

  /** An unquoted field runs up to the first special character. */
  function ReadBare(s: string): (r: (string, string))
    ensures |r.1| <= |s|
  {
    if s == "" || Special(s[0]) then ("", s)
    else
      var (text, rest) := ReadBare(s[1..]);
      ([s[0]] + text, rest)
  }

  function ReadField(s: string): (r: Option<(string, string)>)
    ensures r.Some? ==> |r.value.1| <= |s|
  {
    if s != "" && s[0] == '"' then ReadQuoted(s[1..]) else Some(ReadBare(s))
  }

  /** One record: its fields and what follows its line end, if it has one. */
  function ReadRecord(s: string): (r: Option<(seq<string>, string)>)
    ensures r.Some? ==> |r.value.1| <= |s| && (s != "" ==> |r.value.1| < |s|)
    decreases |s|
  {
    match ReadField(s)
    case None => None
    case Some((field, rest)) =>
      if rest == "" then Some(([field], ""))
      else if rest[0] == '\n' then Some(([field], rest[1..]))
      else if rest[0] == '\r' && |rest| > 1 && rest[1] == '\n' then Some(([field], rest[2..]))
      else if rest[0] == ',' then
        match ReadRecord(rest[1..])
        case None => None
        case Some((fields, after)) => Some(([field] + fields, after))
      else None
  }

  function ReadFile(s: string): Option<seq<seq<string>>>
    decreases |s|
  {
    if s == "" then Some([])
    else
      match ReadRecord(s)
      case None => None
      case Some((record, rest)) =>
        match ReadFile(rest)
        case None => None
        case Some(records) => Some([record] + records)
  }

  // ----- reading back what was written -----

  /** A cell without commas, quotes and line breaks is printed as it is, a missing one as nothing. */
  lemma PlainCellStays(v: Value)
    ensures v.Nothing? ==> CsvCell(v) == ""
    ensures v.Text? && (forall i :: 0 <= i < |v.s| ==> v.s[i] !in ",\"\r\n") ==> CsvCell(v) == v.s
  {}

  /** The text a reader can recover: a missing value is written like an empty one. */
  function TextOf(v: Value): string { if v.Text? then v.s else "" }

  function TextsOf(cells: seq<Value>): seq<string> { seq(|cells|, i requires 0 <= i < |cells| => TextOf(cells[i])) }

  function TextsOfRows(rows: seq<seq<Value>>): seq<seq<string>> {
    seq(|rows|, i requires 0 <= i < |rows| => TextsOf(rows[i]))
  }

  /** What may stand after a field: the end, a comma or a line end. */
  predicate FieldEnds(rest: string) { rest == "" || rest[0] == ',' || rest[0] == '\n' }

  lemma {:induction false} QuotedReadsBack(s: string, rest: string)
    requires FieldEnds(rest)
    ensures ReadQuoted(DoubleQuotes(s) + "\"" + rest) == Some((s, rest))
  {
    var text := DoubleQuotes(s) + "\"" + rest;
    if s == "" {
      assert text == "\"" + rest;
      assert text[1..] == rest;
    } else {
      QuotedReadsBack(s[1..], rest);
      var tail := DoubleQuotes(s[1..]) + "\"" + rest;
      assert s == [s[0]] + s[1..];
      if s[0] == '"' {
        assert text == "\"\"" + tail;
        assert text[2..] == tail;
      } else {
        assert text == [s[0]] + tail;
        assert text[1..] == tail;
      }
    }
  }

  lemma {:induction false} BareReadsBack(s: string, rest: string)
    requires !NeedsQuotes(s) && FieldEnds(rest)
    ensures ReadBare(s + rest) == (s, rest)
  {
    if s == "" {
      assert s + rest == rest;
    } else {
      assert !Special(s[0]);
      assert (s + rest)[0] == s[0] && (s + rest)[1..] == s[1..] + rest;
      assert s == [s[0]] + s[1..];
      assert forall i :: 0 <= i < |s[1..]| ==> s[1..][i] == s[i + 1];
      BareReadsBack(s[1..], rest);
    }
  }

  lemma CellReadsBack(v: Value, rest: string)
    requires FieldEnds(rest)
    ensures ReadField(CsvCell(v) + rest) == Some((TextOf(v), rest))
  {
    if v.Text? && NeedsQuotes(v.s) { QuotedCellReadsBack(v.s, rest); } else { BareCellReadsBack(v, rest); }
  }

  lemma QuotedCellReadsBack(s: string, rest: string)
    requires FieldEnds(rest) && NeedsQuotes(s)
    ensures ReadField(CsvCell(Text(s)) + rest) == Some((s, rest))
  {
    hide NeedsQuotes, ReadBare;
    var text := CsvCell(Text(s)) + rest;
    assert text[1..] == DoubleQuotes(s) + "\"" + rest;
    QuotedReadsBack(s, rest);
  }

  lemma BareCellReadsBack(v: Value, rest: string)
    requires FieldEnds(rest) && !(v.Text? && NeedsQuotes(v.s))
    ensures ReadField(CsvCell(v) + rest) == Some((TextOf(v), rest))
  {
    hide ReadQuoted, DoubleQuotes, ReadBare;
    var text := CsvCell(v) + rest;
    assert text == TextOf(v) + rest;
    assert TextOf(v) != "" ==> !Special(TextOf(v)[0]);
    BareReadsBack(TextOf(v), rest);
  }

  /** A written row, at the end of the text or before an LF, reads back as its cells. */
  lemma {:induction false} RowReadsBack(cells: seq<Value>, rest: string)
    requires |cells| > 0 && (rest == "" || rest[0] == '\n')
    ensures ReadRecord(CsvRow(cells) + rest) == Some((TextsOf(cells), if rest == "" then "" else rest[1..]))
  {
    hide ReadRecord, CsvCell, TextOf;
    if |cells| == 1 {
      LastCell(cells[0], rest);
      assert TextsOf(cells) == [TextOf(cells[0])];
    } else {
      var tail := CsvRow(cells[1..]) + rest;
      assert CsvRow(cells) + rest == CsvCell(cells[0]) + ("," + tail);
      RowReadsBack(cells[1..], rest);
      CellThenRow(cells[0], tail);
      assert TextsOf(cells) == [TextOf(cells[0])] + TextsOf(cells[1..]);
    }
  }

  lemma LastCell(v: Value, rest: string)
    requires rest == "" || rest[0] == '\n'
    ensures ReadRecord(CsvCell(v) + rest) == Some(([TextOf(v)], if rest == "" then "" else rest[1..]))
  {
    hide ReadField, CsvCell, TextOf;
    CellReadsBack(v, rest);
  }

  lemma CellThenRow(v: Value, tail: string)
    requires ReadRecord(tail).Some?
    ensures ReadRecord(CsvCell(v) + ("," + tail)) ==
      Some(([TextOf(v)] + ReadRecord(tail).value.0, ReadRecord(tail).value.1))
  {
    hide ReadField, CsvCell, TextOf;
    CellReadsBack(v, "," + tail);
    assert ("," + tail)[1..] == tail;
  }

  /** A row alone, without a line end, reads back exactly when it has a cell. */
  lemma LoneRowReadsBack(cells: seq<Value>)
    ensures ReadRecord(CsvRow(cells)) == Some((TextsOf(cells), "")) <==> cells != []
  {
    if cells != [] {
      RowReadsBack(cells, "");
      assert CsvRow(cells) + "" == CsvRow(cells);
    } else {
      assert |ReadRecord("").value.0| == 1;
    }
  }

  /** The whole file reads back row by row, whatever commas, quotes, CRs and LFs the cells hold. */
  lemma {:induction false} FileReadsBack(rows: seq<seq<Value>>)
    requires forall i :: 0 <= i < |rows| ==> rows[i] != []
    ensures ReadFile(CsvFile(rows)) == Some(TextsOfRows(rows))
  {
    if rows != [] {
      var rest := "\n" + CsvFile(rows[1..]);
      assert CsvFile(rows) == CsvRow(rows[0]) + rest;
      RowReadsBack(rows[0], rest);
      assert rest[1..] == CsvFile(rows[1..]);
      FileReadsBack(rows[1..]);
      assert TextsOfRows(rows) == [TextsOf(rows[0])] + TextsOfRows(rows[1..]);
    }
  }
}
