// The audit log's CSV: a printer, a parser for section 2 of RFC 4180 with LF row ends, and the
// paged export loop.
module Csv {
  import opened Common

  /** The nine columns as strings; absent values have become empty strings. */
  type Row = seq<string>

  const HEADERS: Row :=
    ["id", "operation", "user", "entity_id", "entity_type", "before_state", "after_state", "metadata", "created_at"]

  const BATCH_SIZE: nat := 500

  // ── Printing ──────────────────────────────────────────────────────────────────

  predicate NeedsQuotes(c: char) { c == '"' || c == ',' || c == '\r' || c == '\n' }

  predicate IsPlain(value: string) { forall i :: 0 <= i < |value| ==> !NeedsQuotes(value[i]) }

  /** Every double quote doubled. */
  function Doubled(value: string): string
  {
    if value == [] then [] else (if value[0] == '"' then "\"\"" else [value[0]]) + Doubled(value[1..])
  }

  function EscapeCsvField(value: string): string
  {
    if IsPlain(value) then value else "\"" + Doubled(value) + "\""
  }

  /** The escaped fields joined by commas. */
  function RowToCsv(row: Row): string
    requires row != []
  {
    if |row| == 1 then EscapeCsvField(row[0]) else EscapeCsvField(row[0]) + "," + RowToCsv(row[1..])
  }

  predicate NoRowEmpty(rows: seq<Row>) { forall i :: 0 <= i < |rows| ==> rows[i] != [] }

  function Table(rows: seq<Row>): string
    requires NoRowEmpty(rows)
  {
    if rows == [] then [] else RowToCsv(rows[0]) + "\n" + Table(rows[1..])
  }

  // ── Parsing ───────────────────────────────────────────────────────────────────

  /** Where the parser is: before a field's first character, within a bare field, within quotes, or
      just past a quote that ends the field or escapes another. */
  datatype Mode = Fresh | Bare | Quoted | Closed

  /**
   * The rows of `s`, or nothing if it is not well formed: a quote within a bare field, a carriage
   * return outside quotes, text after a closing quote, or a missing one. `field`, `row` and `rows`
   * hold what has been read; a last row need not end in a line feed.
   */
  function Parse(s: string, mode: Mode, field: string, row: Row, rows: seq<Row>): Option<seq<Row>>
  {
    if s == [] then
      if mode == Quoted then None
      else if mode == Fresh && row == [] then Some(rows)
      else Some(rows + [row + [field]])
    else
      var c, rest := s[0], s[1..];
      match mode
      case Quoted =>
        if c == '"' then Parse(rest, Closed, field, row, rows) else Parse(rest, Quoted, field + [c], row, rows)
      case _ =>
        if c == ',' then Parse(rest, Fresh, [], row + [field], rows)
        else if c == '\n' then Parse(rest, Fresh, [], [], rows + [row + [field]])
        else if c == '"' && mode == Fresh then Parse(rest, Quoted, [], row, rows)
        else if c == '"' && mode == Closed then Parse(rest, Quoted, field + [c], row, rows)
        else if c == '"' || c == '\r' || mode == Closed then None
        else Parse(rest, Bare, field + [c], row, rows)
  }

  // ── The round trip ────────────────────────────────────────────────────────────

  predicate EndsField(tail: string) { tail != [] && (tail[0] == ',' || tail[0] == '\n') }

  /** A bare field is read back up to what ends it. */
  lemma {:induction false} ParseBare(value: string, tail: string, mode: Mode, field: string, row: Row, rows: seq<Row>)
    requires IsPlain(value) && EndsField(tail) && (mode == Bare || mode == Fresh)
    ensures Parse(value + tail, mode, field, row, rows) == Parse(tail, Bare, field + value, row, rows)
  {
    if value == [] {
      assert value + tail == tail && field + value == field;
    } else {
      assert (value + tail)[0] == value[0] && (value + tail)[1..] == value[1..] + tail;
      ParseBare(value[1..], tail, Bare, field + [value[0]], row, rows);
      assert field + [value[0]] + value[1..] == field + value;
    }
  }

  /** Quoted content is read back up to its closing quote, whatever it contains. */
  lemma {:induction false} ParseQuoted(value: string, tail: string, field: string, row: Row, rows: seq<Row>)
    requires EndsField(tail)
    ensures Parse(Doubled(value) + "\"" + tail, Quoted, field, row, rows) == Parse(tail, Closed, field + value, row, rows)
  {
    var s := Doubled(value) + "\"" + tail;
    if value == [] {
      assert s == "\"" + tail && s[1..] == tail && field + value == field;
    } else {
      var c := value[0];
      var rest := Doubled(value[1..]) + "\"" + tail;
      assert value == [c] + value[1..];
      assert field + [c] + value[1..] == field + value;
      ParseQuoted(value[1..], tail, field + [c], row, rows);
      if c == '"' {
        assert s[0] == '"' && s[1] == '"' && s[1..][1..] == rest;
      } else {
        assert s[0] == c && s[1..] == rest;
      }
    }
  }

  /** What a finished field means to the parser is the same however it was written. */
  lemma ParseEnd(tail: string, field: string, row: Row, rows: seq<Row>)
    requires EndsField(tail)
    ensures Parse(tail, Closed, field, row, rows) == Parse(tail, Bare, field, row, rows)
    ensures tail[0] == ',' ==> Parse(tail, Bare, field, row, rows) == Parse(tail[1..], Fresh, [], row + [field], rows)
    ensures tail[0] == '\n' ==> Parse(tail, Bare, field, row, rows) == Parse(tail[1..], Fresh, [], [], rows + [row + [field]])
  {
  }

  lemma ParseField(value: string, tail: string, row: Row, rows: seq<Row>)
    requires EndsField(tail)
    ensures Parse(EscapeCsvField(value) + tail, Fresh, [], row, rows) == Parse(tail, Bare, value, row, rows)
  {
    assert [] + value == value;
    if IsPlain(value) {
      hide Parse;
      ParseBare(value, tail, Fresh, [], row, rows);
    } else {
      OpenQuote(Doubled(value) + "\"" + tail, row, rows);
      hide Parse;
      assert EscapeCsvField(value) + tail == "\"" + (Doubled(value) + "\"" + tail);
      ParseQuoted(value, tail, [], row, rows);
      ParseEnd(tail, value, row, rows);
    }
  }

  lemma OpenQuote(rest: string, row: Row, rows: seq<Row>)
    ensures Parse("\"" + rest, Fresh, [], row, rows) == Parse(rest, Quoted, [], row, rows)
  {
    assert ("\"" + rest)[1..] == rest;
  }

  lemma {:induction false} ParseRow(fields: Row, tail: string, row: Row, rows: seq<Row>)
    requires fields != []
    ensures Parse(RowToCsv(fields) + "\n" + tail, Fresh, [], row, rows) == Parse(tail, Fresh, [], [], rows + [row + fields])
  {
    hide Parse;
    hide EscapeCsvField;
    var s := RowToCsv(fields) + "\n" + tail;
    if |fields| == 1 {
      assert s == EscapeCsvField(fields[0]) + ("\n" + tail);
      ParseField(fields[0], "\n" + tail, row, rows);
      ParseEnd("\n" + tail, fields[0], row, rows);
      assert ("\n" + tail)[1..] == tail && [fields[0]] == fields;
    } else {
      var after := RowToCsv(fields[1..]) + "\n" + tail;
      assert s == EscapeCsvField(fields[0]) + ("," + after);
      ParseField(fields[0], "," + after, row, rows);
      ParseEnd("," + after, fields[0], row, rows);
      assert ("," + after)[1..] == after;
      ParseRow(fields[1..], tail, row + [fields[0]], rows);
      assert row + [fields[0]] + fields[1..] == row + fields;
    }
  }

  lemma {:induction false} ParseTable(table: seq<Row>, rows: seq<Row>)
    requires NoRowEmpty(table)
    ensures Parse(Table(table), Fresh, [], [], rows) == Some(rows + table)
  {
    hide RowToCsv;
    if table == [] {
      assert rows + table == rows;
    } else {
      hide Parse;
      var after := Table(table[1..]);
      assert Table(table) == RowToCsv(table[0]) + "\n" + after;
      ParseRow(table[0], after, [], rows);
      assert [] + table[0] == table[0];
      ParseTable(table[1..], rows + [table[0]]);
      assert rows + [table[0]] + table[1..] == rows + table;
    }
  }

  /** Parsing an exported table gives back exactly its field strings, for any content: commas,
      quotes, carriage returns and line feeds included. */
  lemma CsvRoundTrip(table: seq<Row>)
    requires NoRowEmpty(table)
    ensures Parse(Table(table), Fresh, [], [], []) == Some(table)
  {
    ParseTable(table, []);
    assert [] + table == table;
  }

  /** Different tables are exported differently. */
  lemma TablesAreInjective(a: seq<Row>, b: seq<Row>)
    requires NoRowEmpty(a) && NoRowEmpty(b)
    ensures Table(a) == Table(b) ==> a == b
  {
    CsvRoundTrip(a);
    CsvRoundTrip(b);
  }

  // ── The paged export ──────────────────────────────────────────────────────────

  lemma {:induction false} TableAppend(a: seq<Row>, b: seq<Row>)
    requires NoRowEmpty(a) && NoRowEmpty(b)
    ensures NoRowEmpty(a + b) && Table(a + b) == Table(a) + Table(b)
  {
    hide RowToCsv;
    if a == [] {
      assert a + b == b;
    } else {
      assert (a + b)[0] == a[0] && (a + b)[1..] == a[1..] + b;
      TableAppend(a[1..], b);
    }
  }

  lemma TableOfOne(row: Row)
    requires row != []
    ensures Table([row]) == RowToCsv(row) + "\n"
  {
    assert Table([row][1..]) == [];
  }

  function Select(table: seq<Row>, offset: nat): (page: seq<Row>)
    ensures |page| <= BATCH_SIZE
  {
    if |table| <= offset then []
    else table[offset..if offset + BATCH_SIZE <= |table| then offset + BATCH_SIZE else |table|]
  }

  /** Fields joined by commas, unescaped. */
  function Join(fields: Row): string
    requires fields != []
  {
    if |fields| == 1 then fields[0] else fields[0] + "," + Join(fields[1..])
  }

  lemma {:induction false} PlainRow(fields: Row)
    requires fields != [] && forall i :: 0 <= i < |fields| ==> IsPlain(fields[i])
    ensures RowToCsv(fields) == Join(fields)
  {
    if |fields| > 1 { PlainRow(fields[1..]); }
  }

  /** The header line is a row like any other, though it is joined without escaping. */
  lemma HeaderLineIsRow()
    ensures Join(HEADERS) + "\n" == Table([HEADERS])
  {
    assert forall i :: 0 <= i < |HEADERS| ==> IsPlain(HEADERS[i]);
    PlainRow(HEADERS);
    TableOfOne(HEADERS);
  }

  /** How an export ends: its stream closed, or destroyed by a failed query. */
  datatype Ending = Finished | Destroyed

  /**
   * The paged export of an unchanging table. `failing` is the number of the query that fails, if
   * any. `hashed` is what the checksum is computed over, once it is delivered at all.
   */
  method ExportLogs(configured: bool, table: seq<Row>, failing: Option<nat>)
    returns (stream: string, hashed: Option<string>, ending: Ending)
    requires NoRowEmpty(table)
    ensures HEADERS ==
      ["id", "operation", "user", "entity_id", "entity_type", "before_state", "after_state", "metadata", "created_at"]
    ensures !configured ==> stream == Table([HEADERS]) && hashed == None && ending == Finished
    ensures configured && ending == Finished ==> stream == Table([HEADERS] + table) && hashed == Some(stream)
    ensures configured && ending == Destroyed ==>
      failing.Some? && hashed == None && 500 * failing.value <= |table|
      && stream == Table([HEADERS] + table[..500 * failing.value])
    ensures configured ==> (ending == Destroyed <==> failing.Some? && 500 * failing.value <= |table|)
  {
    hide RowToCsv;
    hide Join;
    hide Table;
    HeaderLineIsRow();
    stream := Join(HEADERS) + "\n";
    hashed := None;
    ending := Finished;
    if !configured { return; }
    ghost var sent: seq<Row> := [HEADERS];
    var offset, query := 0, 0;
    var more := true;
    while more
      invariant more ==> offset == BATCH_SIZE * query && offset <= |table|
      invariant more && failing.Some? ==> query <= failing.value
      invariant !more ==> offset == |table| && (failing.Some? ==> |table| < BATCH_SIZE * failing.value)
      invariant offset <= |table| && sent == [HEADERS] + table[..offset] && NoRowEmpty(sent) && stream == Table(sent)
      decreases more, |table| - offset
    {
      if failing == Some(query) {
        ending := Destroyed;
        return;
      }
      var page := Select(table, offset);
      var i := 0;
      while i < |page|
        invariant i <= |page| && sent == [HEADERS] + table[..offset + i] && NoRowEmpty(sent) && stream == Table(sent)
      {
        TableOfOne(page[i]);
        TableAppend(sent, [page[i]]);
        assert table[..offset + i] + [page[i]] == table[..offset + i + 1];
        stream := stream + (RowToCsv(page[i]) + "\n");
        sent := sent + [page[i]];
        i := i + 1;
      }
      offset := offset + |page|;
      query := query + 1;
      more := |page| == BATCH_SIZE;
    }
    assert table[..offset] == table;
    hashed := Some(stream);
  }
}
