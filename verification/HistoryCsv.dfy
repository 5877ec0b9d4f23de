/**
 * The CSV export (src/dashboard/transaction-history.ts, 818-889) and a reader
 * for it: the grammar of section 2 of RFC 4180 with LF as the line break.
 */
module HistoryCsv {
  import opened Common
  import opened HistoryRanking

  /** How the amount, counterparty and timestamp columns are turned into text. */
  datatype Formats = Formats(amount: string -> string, counterparty: string -> string, timestamp: int -> string)

  const HEADERS: seq<string> :=
    ["id", "hash", "streamId", "kind", "direction", "status", "amount", "asset", "counterparty", "timestamp"]

  // ------------------------------------------------------------------
  // Writing
  // ------------------------------------------------------------------

  function DoubleQuotes(s: string): string {
    if s == "" then "" else (if s[0] == '"' then "\"\"" else [s[0]]) + DoubleQuotes(s[1..])
  }

  function EscapeCsvCell(s: string): string {
    if ',' in s || '"' in s || '\n' in s || '\r' in s then "\"" + DoubleQuotes(s) + "\"" else s
  }

  /** Array.prototype.join. */
  function Join(parts: seq<string>, sep: string): string {
    if parts == [] then ""
    else if |parts| == 1 then parts[0]
    else parts[0] + sep + Join(parts[1..], sep)
  }

  function EscapeAll(cells: seq<string>): (r: seq<string>)
    ensures |r| == |cells|
  {
    seq(|cells|, i requires 0 <= i < |cells| => EscapeCsvCell(cells[i]))
  }

  function Line(cells: seq<string>): string {
    Join(EscapeAll(cells), ",")
  }

  function Lines(matrix: seq<seq<string>>): (r: seq<string>)
    ensures |r| == |matrix|
  {
    seq(|matrix|, i requires 0 <= i < |matrix| => Line(matrix[i]))
  }

  function Render(matrix: seq<seq<string>>): string {
    Join(Lines(matrix), "\n")
  }

  lemma LinesAppend(matrix: seq<seq<string>>, row: seq<string>)
    ensures Lines(matrix + [row]) == Lines(matrix) + [Line(row)]
  {
  }

  lemma LineCons(cell: string, cells: seq<string>)
    requires cells != []
    ensures Line([cell] + cells) == EscapeCsvCell(cell) + "," + Line(cells)
    ensures Line([cell]) == EscapeCsvCell(cell)
  {
    assert EscapeAll([cell] + cells)[1..] == EscapeAll(cells);
    assert EscapeAll([cell]) == [EscapeCsvCell(cell)];
  }

  lemma RenderCons(row: seq<string>, rows: seq<seq<string>>)
    requires rows != []
    ensures Render([row] + rows) == Line(row) + "\n" + Render(rows)
  {
    assert Lines([row] + rows)[1..] == Lines(rows);
  }

  lemma RenderOne(row: seq<string>)
    ensures Render([row]) == Line(row)
  {
    assert Lines([row]) == [Line(row)];
  }

  function Cells(tx: Transaction, f: Formats): (cells: seq<string>)
    ensures |cells| == |HEADERS|
  {
    [tx.id, tx.hash, tx.streamId, KindName(tx.kind), DirectionName(tx.direction), StatusName(tx.status),
     f.amount(tx.amount), tx.asset, f.counterparty(tx.counterparty), f.timestamp(tx.timestamp)]
  }

  /** The matrix of cell strings an export contains; missing records are skipped. */
  function Matrix(list: seq<Option<Transaction>>, f: Formats, includeHeader: bool): seq<seq<string>> {
    if list == [] then (if includeHeader then [HEADERS] else [])
    else
      var before := Matrix(list[..|list| - 1], f, includeHeader);
      var last := list[|list| - 1];
      if last.None? then before else before + [Cells(last.value, f)]
  }

  /** What stands under which header. */
  lemma ColumnsMatch(tx: Transaction, f: Formats)
    ensures |HEADERS| == 10
    ensures HEADERS[0] == "id" && Cells(tx, f)[0] == tx.id
    ensures HEADERS[1] == "hash" && Cells(tx, f)[1] == tx.hash
    ensures HEADERS[2] == "streamId" && Cells(tx, f)[2] == tx.streamId
    ensures HEADERS[3] == "kind" && Cells(tx, f)[3] == KindName(tx.kind)
    ensures HEADERS[4] == "direction" && Cells(tx, f)[4] == DirectionName(tx.direction)
    ensures HEADERS[5] == "status" && Cells(tx, f)[5] == StatusName(tx.status)
    ensures HEADERS[6] == "amount" && Cells(tx, f)[6] == f.amount(tx.amount)
    ensures HEADERS[7] == "asset" && Cells(tx, f)[7] == tx.asset
    ensures HEADERS[8] == "counterparty" && Cells(tx, f)[8] == f.counterparty(tx.counterparty)
    ensures HEADERS[9] == "timestamp" && Cells(tx, f)[9] == f.timestamp(tx.timestamp)
  {
  }

  /** A header if asked for, then one line per record present, in their order. */
  lemma MatrixExactly(list: seq<Option<Transaction>>, f: Formats, includeHeader: bool)
    returns (at: seq<nat>)
    ensures var m, h := Matrix(list, f, includeHeader), if includeHeader then 1 else 0;
            && |m| == h + |at| && (includeHeader ==> m[0] == HEADERS)
            && forall k :: 0 <= k < |at| ==>
                 at[k] < |list| && list[at[k]].Some? && m[h + k] == Cells(list[at[k]].value, f)
    ensures forall j, k :: 0 <= j < k < |at| ==> at[j] < at[k]
    ensures forall i: nat :: i < |list| ==> (i in at <==> list[i].Some?)
  {
    if list == [] {
      at := [];
    } else {
      var n := |list| - 1;
      at := MatrixExactly(list[..n], f, includeHeader);
      if list[n].Some? {
        at := at + [n];
      }
    }
  }

  /** A cell is quoted exactly when it holds a comma, a quote or a line break. */
  lemma {:induction false} QuotedExactly(s: string)
    ensures (',' in s || '"' in s || '\n' in s || '\r' in s) <==> EscapeCsvCell(s) != s
    ensures EscapeCsvCell(s) != s ==> EscapeCsvCell(s) == "\"" + DoubleQuotes(s) + "\""
  {
    DoublingLengthens(s);
  }

  lemma {:induction false} DoublingLengthens(s: string)
    ensures |DoubleQuotes(s)| >= |s|
  {
    if s != "" {
      DoublingLengthens(s[1..]);
    }
  }

  lemma {:induction false} MatrixStep(list: seq<Option<Transaction>>, f: Formats, includeHeader: bool, i: nat)
    requires i < |list|
    ensures var before := Matrix(list[..i], f, includeHeader);
            Matrix(list[..i + 1], f, includeHeader) ==
            if list[i].None? then before else before + [Cells(list[i].value, f)]
  {
    assert list[..i + 1][..i] == list[..i];
  }

  /** The export writes exactly the matrix, line by line. */
  method ExportTransactionsToCsv(list: seq<Option<Transaction>>, f: Formats, includeHeader: bool) returns (text: string)
    ensures text == Render(Matrix(list, f, includeHeader))
  {
    var rows: seq<string> := [];
    ghost var m: seq<seq<string>> := [];
    if includeHeader {
      LinesAppend(m, HEADERS);
      rows := rows + [Line(HEADERS)];
      m := m + [HEADERS];
    }
    for i := 0 to |list|
      invariant m == Matrix(list[..i], f, includeHeader) && rows == Lines(m)
    {
      MatrixStep(list, f, includeHeader, i);
      if list[i].Some? {
        var row := Cells(list[i].value, f);
        LinesAppend(m, row);
        rows := rows + [Line(row)];
        m := m + [row];
      }
    }
    assert list[..|list|] == list;
    text := Join(rows, "\n");
  }

  // ------------------------------------------------------------------
  // Reading
  // ------------------------------------------------------------------

  datatype Field = Field(value: string, rest: string)

  datatype Record = Record(fields: seq<string>, rest: string)

  /** An escaped field after its opening quote. */
  function ReadQuoted(s: string): (r: Option<Field>)
    ensures r.Some? ==> |r.value.rest| < |s|
  {
    if s == "" then None
    else if s[0] == '"' && !(|s| >= 2 && s[1] == '"') then Some(Field("", s[1..]))
    else
      var width := if s[0] == '"' then 2 else 1;
      match ReadQuoted(s[width..])
      case None => None
      case Some(f) => Some(Field([s[0]] + f.value, f.rest))
  }

  /** A non-escaped field: up to a comma, a line break or the end; no quote and no CR inside. */
  function ReadBare(s: string): (r: Option<Field>)
    ensures r.Some? ==> |r.value.rest| <= |s|
  {
    if s == "" || s[0] == ',' || s[0] == '\n' then Some(Field("", s))
    else if s[0] == '"' || s[0] == '\r' then None
    else
      match ReadBare(s[1..])
      case None => None
      case Some(f) => Some(Field([s[0]] + f.value, f.rest))
  }

  function ReadField(s: string): (r: Option<Field>)
    ensures r.Some? ==> |r.value.rest| <= |s|
  {
    if s != "" && s[0] == '"' then ReadQuoted(s[1..]) else ReadBare(s)
  }

  function ReadRecord(s: string): (r: Option<Record>)
    ensures r.Some? ==> r.value.fields != [] && |r.value.rest| <= |s|
    ensures r.Some? ==> r.value.rest == "" || r.value.rest[0] == '\n'
    decreases |s|
  {
    match ReadField(s)
    case None => None
    case Some(f) =>
      if f.rest == "" || f.rest[0] == '\n' then Some(Record([f.value], f.rest))
      else if f.rest[0] != ',' then None
      else
        match ReadRecord(f.rest[1..])
        case None => None
        case Some(more) => Some(Record([f.value] + more.fields, more.rest))
  }

  /** Records up to the end of the text; the last one may or may not end in a line break. */
  function ReadFile(s: string): (r: Option<seq<seq<string>>>)
    ensures r.Some? ==> r.value != [] && forall i :: 0 <= i < |r.value| ==> r.value[i] != []
    decreases |s|
  {
    match ReadRecord(s)
    case None => None
    case Some(first) =>
      if first.rest == "" || first.rest[1..] == "" then Some([first.fields])
      else
        match ReadFile(first.rest[1..])
        case None => None
        case Some(more) => Some([first.fields] + more)
  }

  // ------------------------------------------------------------------
  // Reading what was written
  // ------------------------------------------------------------------

  ghost predicate AtBoundary(tail: string) {
    tail == "" || tail[0] == ',' || tail[0] == '\n'
  }

  lemma {:induction false} QuotedPlain(text: string, c: char, rest: string, f: Field)
    requires text == [c] + rest && c != '"' && ReadQuoted(rest) == Some(f)
    ensures ReadQuoted(text) == Some(Field([c] + f.value, f.rest))
  {
    assert text[0] == c && text[1..] == rest;
  }

  lemma {:induction false} QuotedDouble(text: string, rest: string, f: Field)
    requires text == ['"', '"'] + rest && ReadQuoted(rest) == Some(f)
    ensures ReadQuoted(text) == Some(Field(['"'] + f.value, f.rest))
  {
    assert text[0] == '"' && text[1] == '"' && text[2..] == rest;
  }

  lemma {:induction false} QuotedEnd(text: string, tail: string)
    requires text == ['"'] + tail && AtBoundary(tail)
    ensures ReadQuoted(text) == Some(Field("", tail))
  {
    assert text[0] == '"' && text[1..] == tail;
    assert tail != "" ==> text[1] == tail[0];
  }

  lemma {:induction false} ReadQuotedInverts(s: string, tail: string, text: string)
    requires AtBoundary(tail) && text == DoubleQuotes(s) + "\"" + tail
    ensures ReadQuoted(text) == Some(Field(s, tail))
  {
    if s == "" {
      assert text == ['"'] + tail;
      QuotedEnd(text, tail);
    } else {
      ReadQuotedInverts(s[1..], tail, DoubleQuotes(s[1..]) + "\"" + tail);
      assert s == [s[0]] + s[1..];
      QuotedStep(s[0], s[1..], DoubleQuotes(s[1..]), tail);
    }
  }

  lemma {:induction false} QuotedStep(c: char, later: string, doubled: string, tail: string)
    requires ReadQuoted(doubled + "\"" + tail) == Some(Field(later, tail))
    ensures ReadQuoted((if c == '"' then "\"\"" else [c]) + doubled + "\"" + tail) == Some(Field([c] + later, tail))
  {
    var rest := doubled + "\"" + tail;
    if c == '"' {
      Regroup("\"\"", doubled, "\"", tail);
      QuotedDouble("\"\"" + rest, rest, Field(later, tail));
    } else {
      Regroup([c], doubled, "\"", tail);
      QuotedPlain([c] + rest, c, rest, Field(later, tail));
    }
  }

  lemma {:induction false} BareStep(text: string, c: char, rest: string, f: Field)
    requires text == [c] + rest && c != ',' && c != '"' && c != '\n' && c != '\r' && ReadBare(rest) == Some(f)
    ensures ReadBare(text) == Some(Field([c] + f.value, f.rest))
  {
    assert text[0] == c && text[1..] == rest;
  }

  lemma {:induction false} ReadBareInverts(s: string, tail: string, text: string)
    requires ',' !in s && '"' !in s && '\n' !in s && '\r' !in s && AtBoundary(tail) && text == s + tail
    ensures ReadBare(text) == Some(Field(s, tail))
  {
    if s == "" {
      assert text == tail;
    } else {
      ReadBareInverts(s[1..], tail, s[1..] + tail);
      assert s == [s[0]] + s[1..];
      BareStep(text, s[0], s[1..] + tail, Field(s[1..], tail));
    }
  }

  lemma {:induction false} FieldQuoted(text: string, rest: string)
    requires text == ['"'] + rest
    ensures ReadField(text) == ReadQuoted(rest)
  {
    assert text[0] == '"' && text[1..] == rest;
  }

  lemma Regroup(a: string, b: string, c: string, d: string)
    ensures (a + b + c) + d == a + (b + c + d)
  {
  }

  lemma {:induction false} QuotedFieldInverts(s: string, tail: string)
    requires AtBoundary(tail)
    ensures ReadField("\"" + DoubleQuotes(s) + "\"" + tail) == Some(Field(s, tail))
  {
    var rest := DoubleQuotes(s) + "\"" + tail;
    ReadQuotedInverts(s, tail, rest);
    Regroup("\"", DoubleQuotes(s), "\"", tail);
    FieldQuoted("\"" + DoubleQuotes(s) + "\"" + tail, rest);
  }

  lemma BareFieldInverts(s: string, tail: string, text: string)
    requires ',' !in s && '"' !in s && '\n' !in s && '\r' !in s && AtBoundary(tail) && text == s + tail
    ensures ReadField(text) == Some(Field(s, tail))
  {
    ReadBareInverts(s, tail, text);
    if s == "" {
      assert text == tail;
    } else {
      assert text[0] == s[0];
    }
  }

  lemma ReadFieldInverts(s: string, tail: string, text: string)
    requires AtBoundary(tail) && text == EscapeCsvCell(s) + tail
    ensures ReadField(text) == Some(Field(s, tail))
  {
    if ',' in s || '"' in s || '\n' in s || '\r' in s {
      QuotedFieldInverts(s, tail);
    } else {
      BareFieldInverts(s, tail, text);
    }
  }

  lemma {:induction false} ReadRecordCons(text: string, value: string, rest: string, more: Record)
    requires ReadField(text) == Some(Field(value, [','] + rest)) && ReadRecord(rest) == Some(more)
    ensures ReadRecord(text) == Some(Record([value] + more.fields, more.rest))
  {
    assert ([','] + rest)[0] == ',' && ([','] + rest)[1..] == rest;
  }

  lemma {:induction false} ReadRecordLast(text: string, value: string, tail: string)
    requires ReadField(text) == Some(Field(value, tail)) && (tail == "" || tail[0] == '\n')
    ensures ReadRecord(text) == Some(Record([value], tail))
  {
  }

  lemma {:induction false} ReadFileCons(text: string, fields: seq<string>, rest: string, more: seq<seq<string>>)
    requires ReadRecord(text) == Some(Record(fields, ['\n'] + rest)) && ReadFile(rest) == Some(more)
    ensures ReadFile(text) == Some(if rest == "" then [fields] else [fields] + more)
  {
    assert (['\n'] + rest)[1..] == rest;
  }

  lemma {:induction false} ReadRecordInverts(cells: seq<string>, tail: string, text: string)
    requires cells != [] && (tail == "" || tail[0] == '\n') && text == Line(cells) + tail
    ensures ReadRecord(text) == Some(Record(cells, tail))
    decreases |cells|
  {
    var cell, more := cells[0], cells[1..];
    if more == [] {
      assert cells == [cell];
      LineCons(cell, [""]);
      ReadFieldInverts(cell, tail, text);
      ReadRecordLast(text, cell, tail);
    } else {
      var rest := Line(more) + tail;
      assert cells == [cell] + more;
      ReadRecordInverts(more, tail, rest);
      RecordInvertsStep(cell, more, tail, text, rest);
    }
  }

  lemma {:induction false} RecordInvertsStep(cell: string, more: seq<string>, tail: string, text: string, rest: string)
    requires more != [] && text == Line([cell] + more) + tail && rest == Line(more) + tail
    requires ReadRecord(rest) == Some(Record(more, tail))
    ensures ReadRecord(text) == Some(Record([cell] + more, tail))
  {
    LineCons(cell, more);
    assert text == EscapeCsvCell(cell) + ([','] + rest);
    ReadFieldInverts(cell, [','] + rest, text);
    ReadRecordCons(text, cell, rest, Record(more, tail));
  }

  /** What reading gives: the matrix, but a final line of one empty cell reads as a trailing line break. */
  function ReadBack(matrix: seq<seq<string>>): seq<seq<string>> {
    if |matrix| > 1 && matrix[|matrix| - 1] == [""] then matrix[..|matrix| - 1] else matrix
  }

  lemma ReadBackCons(row: seq<string>, later: seq<seq<string>>)
    requires later != []
    ensures ReadBack([row] + later) == if later == [[""]] then [row] else [row] + ReadBack(later)
  {
    if |later| == 1 {
      assert later == [later[0]];
    }
  }

  lemma ReadFileOne(row: seq<string>)
    requires row != []
    ensures ReadFile(Render([row])) == Some([row])
  {
    RenderOne(row);
    ReadRecordInverts(row, "", Render([row]));
  }

  lemma ReadFileInverts(matrix: seq<seq<string>>)
    requires matrix != [] && forall i :: 0 <= i < |matrix| ==> matrix[i] != []
    ensures ReadFile(Render(matrix)) == Some(ReadBack(matrix))
  {
    var row, later := matrix[0], matrix[1..];
    assert matrix == [row] + later;
    if later == [] {
      assert matrix == [row];
      ReadFileOne(row);
    } else {
      ReadFileInverts(later);
      FileInvertsStep(row, later);
    }
  }

  lemma RenderedNext(row: seq<string>, later: seq<seq<string>>)
    requires later != []
    ensures Render([row] + later) == Line(row) + (['\n'] + Render(later))
  {
    RenderCons(row, later);
    assert Line(row) + "\n" + Render(later) == Line(row) + (['\n'] + Render(later));
  }

  /** A line, a line break and more text read as the line and then the rest. */
  lemma {:induction false} ReadNext(row: seq<string>, rest: string, more: seq<seq<string>>)
    requires row != [] && ReadFile(rest) == Some(more)
    ensures ReadFile(Line(row) + (['\n'] + rest)) == Some(if rest == "" then [row] else [row] + more)
  {
    var text := Line(row) + (['\n'] + rest);
    ReadRecordInverts(row, ['\n'] + rest, text);
    ReadFileCons(text, row, rest, more);
  }

  lemma FileInvertsStep(row: seq<string>, later: seq<seq<string>>)
    requires row != [] && later != [] && forall i :: 0 <= i < |later| ==> later[i] != []
    requires ReadFile(Render(later)) == Some(ReadBack(later))
    ensures ReadFile(Render([row] + later)) == Some(ReadBack([row] + later))
  {
    RenderedNext(row, later);
    ReadNext(row, Render(later), ReadBack(later));
    EmptyRender(later);
    ReadBackCons(row, later);
  }

  /** Only one line holding one empty cell renders as nothing. */
  lemma EmptyRender(matrix: seq<seq<string>>)
    requires matrix != [] && forall i :: 0 <= i < |matrix| ==> matrix[i] != []
    ensures Render(matrix) == "" <==> matrix == [[""]]
  {
    var row, later := matrix[0], matrix[1..];
    assert matrix == [row] + later;
    if later == [] {
      assert matrix == [row];
      RenderOne(row);
      if row[1..] == [] {
        assert row == [row[0]];
        LineCons(row[0], [""]);
      } else {
        assert row == [row[0]] + row[1..];
        LineCons(row[0], row[1..]);
      }
    } else {
      RenderCons(row, later);
    }
  }

  /** Exactly which matrices survive the round trip. */
  lemma CsvRoundTripExact(matrix: seq<seq<string>>)
    ensures ReadFile(Render(matrix)) == Some(matrix) <==>
            && matrix != [] && (forall i :: 0 <= i < |matrix| ==> matrix[i] != [])
            && (|matrix| > 1 ==> matrix[|matrix| - 1] != [""])
  {
    if matrix != [] && forall i :: 0 <= i < |matrix| ==> matrix[i] != [] {
      ReadFileInverts(matrix);
    }
  }

  lemma {:induction false} MatrixShape(list: seq<Option<Transaction>>, f: Formats, includeHeader: bool)
    ensures forall i :: 0 <= i < |Matrix(list, f, includeHeader)| ==> |Matrix(list, f, includeHeader)[i]| == 10
    ensures Matrix(list, f, includeHeader) == [] <==> !includeHeader && forall i :: 0 <= i < |list| ==> list[i].None?
  {
    if list != [] {
      var n := |list| - 1;
      MatrixShape(list[..n], f, includeHeader);
      assert forall i :: 0 <= i < n ==> list[..n][i] == list[i];
    }
  }

  /** Every export that emits at least one row reads back to exactly its cells, whatever they contain. */
  lemma {:induction false} ExportRoundTrip(list: seq<Option<Transaction>>, f: Formats, includeHeader: bool)
    ensures ReadFile(Render(Matrix(list, f, includeHeader))) == Some(Matrix(list, f, includeHeader)) <==>
            includeHeader || exists i :: 0 <= i < |list| && list[i].Some?
  {
    MatrixShape(list, f, includeHeader);
    CsvRoundTripExact(Matrix(list, f, includeHeader));
  }
}
