/** Printing rows as CSV and reading them back (section 2 of RFC 4180). */
module Csv {
  type Field = string
  type Row = seq<Field>

  const BOM: char := '\U{FEFF}'
  const QUOTE: char := '\"'
  const CR: char := '\r'
  const LF: char := '\n'
  const COMMA: char := ','

  // ---- Printing ----------------------------------------------------------------------------

  predicate NeedsQuotes(f: Field) {
    COMMA in f || QUOTE in f || LF in f
  }

  function Doubled(f: Field): string {
    if f == [] then [] else (if f[0] == QUOTE then [QUOTE, QUOTE] else [f[0]]) + Doubled(f[1..])
  }

  function EscapeCsvField(f: Field): string {
    if NeedsQuotes(f) then [QUOTE] + Doubled(f) + [QUOTE] else f
  }

  function PrintRow(row: Row): string {
    if row == [] then [] else if |row| == 1 then EscapeCsvField(row[0]) else EscapeCsvField(row[0]) + [COMMA] + PrintRow(row[1..])
  }

  function PrintRows(rows: seq<Row>): string {
    if rows == [] then [] else if |rows| == 1 then PrintRow(rows[0]) else PrintRow(rows[0]) + [CR, LF] + PrintRows(rows[1..])
  }

  function RowsToCsv(headers: Row, rows: seq<Row>): string {
    [BOM] + PrintRows([headers] + rows)
  }

  // ---- Reading -----------------------------------------------------------------------------

  datatype State = State(rows: seq<Row>, row: Row, field: string, inQuotes: bool)

  /** What the reader makes of the rest of the text; a doubled quote inside quotes takes two characters at once. */
  function Scan(text: string, st: State): State
    decreases |text|
  {
    if text == [] then st
    else
      var ch := text[0];
      if st.inQuotes then
        if ch == QUOTE then
          if |text| > 1 && text[1] == QUOTE then Scan(text[2..], st.(field := st.field + [QUOTE]))
          else Scan(text[1..], st.(inQuotes := false))
        else Scan(text[1..], st.(field := st.field + [ch]))
      else if ch == QUOTE then Scan(text[1..], st.(inQuotes := true))
      else if ch == COMMA then Scan(text[1..], st.(row := st.row + [st.field], field := []))
      else if ch == CR then Scan(text[1..], st)
      else if ch == LF then Scan(text[1..], State(st.rows + [st.row + [st.field]], [], [], false))
      else Scan(text[1..], st.(field := st.field + [ch]))
  }

  function Closed(st: State): seq<Row> {
    if |st.field| > 0 || |st.row| > 0 then st.rows + [st.row + [st.field]] else st.rows
  }

  /** The white space of String.prototype.trim. */
  predicate IsSpace(c: char) {
    || '\t' <= c <= '\r' || c == ' ' || c == '\U{00A0}' || c == '\U{1680}' || '\U{2000}' <= c <= '\U{200A}'
    || c == '\U{2028}' || c == '\U{2029}' || c == '\U{202F}' || c == '\U{205F}' || c == '\U{3000}' || c == BOM
  }

  /** The code points of white space and line terminators in ECMAScript. */
  lemma SpacesAre(c: char)
    ensures IsSpace(c) <==>
              var u := c as int;
              u in {9, 10, 11, 12, 13, 32, 160, 5760, 8232, 8233, 8239, 8287, 12288, 65279} || 8192 <= u <= 8202
  {}

  predicate Blank(f: Field) { forall i :: 0 <= i < |f| ==> IsSpace(f[i]) }

  predicate BlankRow(row: Row) { forall i :: 0 <= i < |row| ==> Blank(row[i]) }

  function WithoutBlank(rows: seq<Row>): seq<Row> {
    if rows == [] then []
    else WithoutBlank(rows[..|rows| - 1]) + (if BlankRow(rows[|rows| - 1]) then [] else [rows[|rows| - 1]])
  }

  function Clean(text: string): string {
    if |text| > 0 && text[0] == BOM then text[1..] else text
  }

  function Parsed(text: string): seq<Row> {
    WithoutBlank(Closed(Scan(Clean(text), State([], [], [], false))))
  }

  method ParseCsvRows(text: string) returns (rows: seq<Row>)
    ensures rows == Parsed(text)
  {
    var clean := Clean(text);
    var row: Row, field: string, inQuotes := [], [], false;
    var all: seq<Row> := [];
    var i := 0;
    while i < |clean|
      invariant 0 <= i <= |clean|
      invariant Scan(clean[i..], State(all, row, field, inQuotes)) == Scan(clean, State([], [], [], false))
    {
      var ch := clean[i];
      assert clean[i..][1..] == clean[i + 1..];
      assert i + 1 < |clean| ==> clean[i..][2..] == clean[i + 2..];
      if inQuotes {
        if ch == QUOTE {
          if i + 1 < |clean| && clean[i + 1] == QUOTE {
            field := field + [QUOTE];
            i := i + 1;
          } else {
            inQuotes := false;
          }
        } else {
          field := field + [ch];
        }
      } else if ch == QUOTE {
        inQuotes := true;
      } else if ch == COMMA {
        row, field := row + [field], [];
      } else if ch == CR {
      } else if ch == LF {
        all := all + [row + [field]];
        row, field := [], [];
      } else {
        field := field + [ch];
      }
      i := i + 1;
    }
    assert clean[i..] == [];
    if |field| > 0 || |row| > 0 { all := all + [row + [field]]; }
    rows := [];
    for j := 0 to |all|
      invariant rows == WithoutBlank(all[..j])
    {
      assert all[..j + 1][..j] == all[..j];
      if !BlankRow(all[j]) { rows := rows + [all[j]]; }
    }
    assert all[..|all|] == all;
  }

  // ---- One field, one row, all rows ----------------------------------------------------------

  function WithoutCR(f: Field): Field {
    if f == [] then [] else (if f[0] == CR then [] else [f[0]]) + WithoutCR(f[1..])
  }

  /** What comes back of a field: all of it if it was quoted, all but its carriage returns if not. */
  function Kept(f: Field): Field {
    if NeedsQuotes(f) then f else WithoutCR(f)
  }

  function KeptRow(row: Row): Row {
    seq(|row|, i requires 0 <= i < |row| => Kept(row[i]))
  }

  function KeptRows(rows: seq<Row>): seq<Row> {
    seq(|rows|, i requires 0 <= i < |rows| => KeptRow(rows[i]))
  }

  predicate Plain(f: string) { COMMA !in f && QUOTE !in f && LF !in f }

  lemma Assoc<T>(a: seq<T>, b: seq<T>, c: seq<T>)
    ensures (a + b) + c == a + (b + c)
  {}

  lemma Split<T>(s: seq<T>)
    requires s != []
    ensures s == [s[0]] + s[1..]
  {}

  /** What an unquoted character does. */
  function Next(c: char, st: State): State {
    if c == QUOTE then st.(inQuotes := true)
    else if c == COMMA then st.(row := st.row + [st.field], field := [])
    else if c == CR then st
    else if c == LF then State(st.rows + [st.row + [st.field]], [], [], false)
    else st.(field := st.field + [c])
  }

  lemma ScanOne(c: char, rest: string, st: State)
    requires !st.inQuotes
    ensures Scan([c] + rest, st) == Scan(rest, Next(c, st))
  {
    assert ([c] + rest)[1..] == rest;
  }

  lemma {:induction false} ScanPlain(f: string, rest: string, st: State)
    requires Plain(f) && !st.inQuotes
    ensures Scan(f + rest, st) == Scan(rest, st.(field := st.field + WithoutCR(f)))
  {
    hide Scan;
    if f == [] {
      assert f + rest == rest && st.field + [] == st.field;
    } else {
      var c, more := f[0], f[1..];
      assert c in f && Plain(more);
      Split(f);
      Assoc([c], more, rest);
      ScanOne(c, more + rest, st);
      ScanPlain(more, rest, Next(c, st));
      if c != CR { Assoc(st.field, [c], WithoutCR(more)); } else { assert [] + WithoutCR(more) == WithoutCR(more); }
    }
  }

  lemma ScanInQuotes(text: string, st: State)
    requires st.inQuotes && text != []
    ensures text[0] != QUOTE ==> Scan(text, st) == Scan(text[1..], st.(field := st.field + [text[0]]))
    ensures |text| > 1 && text[0] == QUOTE && text[1] == QUOTE ==> Scan(text, st) == Scan(text[2..], st.(field := st.field + [QUOTE]))
    ensures text[0] == QUOTE && (|text| > 1 ==> text[1] != QUOTE) ==> Scan(text, st) == Scan(text[1..], st.(inQuotes := false))
  {}

  /** One character of a quoted field, doubled if it is a quote, is read as itself. */
  lemma ScanQuotedChar(c: char, more: string, st: State)
    requires st.inQuotes
    ensures Scan((if c == QUOTE then [QUOTE, QUOTE] else [c]) + more, st) == Scan(more, st.(field := st.field + [c]))
  {
    var text := (if c == QUOTE then [QUOTE, QUOTE] else [c]) + more;
    ScanInQuotes(text, st);
    hide Scan;
    assert text[if c == QUOTE then 2 else 1..] == more;
  }

  lemma ScanClosingQuote(rest: string, st: State)
    requires st.inQuotes && (rest == [] || rest[0] != QUOTE)
    ensures Scan([QUOTE] + rest, st) == Scan(rest, st.(inQuotes := false))
  {
    ScanInQuotes([QUOTE] + rest, st);
    hide Scan;
    assert ([QUOTE] + rest)[1..] == rest;
  }

  lemma {:induction false} ScanQuoted(f: string, rest: string, st: State)
    requires st.inQuotes && (rest == [] || rest[0] != QUOTE)
    ensures Scan(Doubled(f) + ([QUOTE] + rest), st) == Scan(rest, st.(field := st.field + f, inQuotes := false))
  {
    hide Scan;
    var tail := [QUOTE] + rest;
    if f == [] {
      assert Doubled(f) + tail == tail && st.field + f == st.field;
      ScanClosingQuote(rest, st);
    } else {
      var head := if f[0] == QUOTE then [QUOTE, QUOTE] else [f[0]];
      Assoc(head, Doubled(f[1..]), tail);
      ScanQuotedChar(f[0], Doubled(f[1..]) + tail, st);
      ScanQuoted(f[1..], rest, st.(field := st.field + [f[0]]));
      Assoc(st.field, [f[0]], f[1..]);
      Split(f);
    }
  }

  /** A printed field, before a comma, a line break or the end, comes back as what is kept of it. */
  lemma ScanField(f: Field, rest: string, st: State)
    requires !st.inQuotes && st.field == [] && (rest == [] || rest[0] != QUOTE)
    ensures Scan(EscapeCsvField(f) + rest, st) == Scan(rest, st.(field := Kept(f)))
  {
    hide Scan, Doubled, WithoutCR;
    if NeedsQuotes(f) {
      Assoc([QUOTE] + Doubled(f), [QUOTE], rest);
      Assoc([QUOTE], Doubled(f), [QUOTE] + rest);
      ScanOne(QUOTE, Doubled(f) + ([QUOTE] + rest), st);
      ScanQuoted(f, rest, st.(inQuotes := true));
      assert [] + f == f;
    } else {
      ScanPlain(f, rest, st);
      assert [] + WithoutCR(f) == Kept(f);
    }
  }

  function LastField(row: Row): Field {
    if row == [] then [] else Kept(row[|row| - 1])
  }

  function EarlierFields(row: Row): Row {
    if row == [] then [] else KeptRow(row[..|row| - 1])
  }

  /** A printed row leaves its last field open, and the others done. */
  lemma {:induction false} ScanRow(row: Row, rest: string, st: State)
    requires !st.inQuotes && st.field == [] && (rest == [] || rest[0] != QUOTE)
    ensures Scan(PrintRow(row) + rest, st) == Scan(rest, st.(row := st.row + EarlierFields(row), field := LastField(row)))
  {
    hide Scan, EscapeCsvField, Kept;
    if row == [] {
      assert PrintRow(row) + rest == rest && st.row + [] == st.row;
    } else if |row| == 1 {
      ScanField(row[0], rest, st);
      assert EarlierFields(row) == [] && st.row + [] == st.row;
    } else {
      var first, more := EscapeCsvField(row[0]), PrintRow(row[1..]);
      var tail := [COMMA] + (more + rest);
      Assoc(first + [COMMA], more, rest);
      Assoc(first, [COMMA], more + rest);
      ScanField(row[0], tail, st);
      ScanOne(COMMA, more + rest, st.(field := Kept(row[0])));
      ScanRow(row[1..], rest, st.(row := st.row + [Kept(row[0])], field := []));
      Assoc(st.row, [Kept(row[0])], EarlierFields(row[1..]));
      assert [Kept(row[0])] + EarlierFields(row[1..]) == EarlierFields(row);
    }
  }

  /** A row of no fields prints as one empty field. */
  function AsRead(row: Row): Row {
    if row == [] then [[]] else KeptRow(row)
  }

  lemma RowCloses(row: Row)
    ensures EarlierFields(row) + [LastField(row)] == AsRead(row)
  {}

  function AsReadRows(rows: seq<Row>): seq<Row> {
    seq(|rows|, i requires 0 <= i < |rows| => AsRead(rows[i]))
  }

  lemma {:induction false} WithoutBlankAppend(rows: seq<Row>, more: seq<Row>)
    ensures WithoutBlank(rows + more) == WithoutBlank(rows) + WithoutBlank(more)
    decreases |more|
  {
    if more == [] {
      assert rows + more == rows;
    } else {
      var n := |more| - 1;
      assert (rows + more)[..|rows| + n] == rows + more[..n];
      WithoutBlankAppend(rows, more[..n]);
    }
  }

  /** The last row needs no line break; if it is one empty field it is not read at all, and is blank. */
  lemma ScanLastRow(row: Row, done: seq<Row>)
    ensures WithoutBlank(Closed(Scan(PrintRow(row), State(done, [], [], false)))) == WithoutBlank(done + [AsRead(row)])
  {
    hide Scan, Kept, PrintRow, WithoutBlank;
    assert PrintRow(row) + [] == PrintRow(row);
    ScanRow(row, [], State(done, [], [], false));
    ScanNothing(State(done, [] + EarlierFields(row), LastField(row), false));
    RowCloses(row);
    assert [] + EarlierFields(row) == EarlierFields(row);
    if LastField(row) == [] && EarlierFields(row) == [] {
      assert AsRead(row) == [[]];
      EmptyFieldIsBlank(done);
    }
  }

  lemma EmptyFieldIsBlank(done: seq<Row>)
    ensures WithoutBlank(done + [[[]]]) == WithoutBlank(done)
  {
    var last: Row := [[]];
    assert BlankRow(last) && (done + [last])[..|done|] == done;
    assert WithoutBlank(done) + [] == WithoutBlank(done);
  }

  lemma ScanNothing(st: State)
    ensures Scan([], st) == st
  {}

  /** A printed row and its line break: one more row done. */
  lemma ScanLine(row: Row, more: string, done: seq<Row>)
    ensures Scan(PrintRow(row) + ([CR] + ([LF] + more)), State(done, [], [], false)) == Scan(more, State(done + [AsRead(row)], [], [], false))
  {
    hide Scan, Kept;
    var st := State(done, [] + EarlierFields(row), LastField(row), false);
    ScanRow(row, [CR] + ([LF] + more), State(done, [], [], false));
    ScanOne(CR, [LF] + more, st);
    ScanOne(LF, more, st);
    RowCloses(row);
    assert [] + EarlierFields(row) == EarlierFields(row);
  }

  lemma FirstLine(rows: seq<Row>)
    requires |rows| > 1
    ensures PrintRows(rows) == PrintRow(rows[0]) + ([CR] + ([LF] + PrintRows(rows[1..])))
  {
    hide PrintRow;
    var more := PrintRows(rows[1..]);
    assert PrintRow(rows[0]) + [CR, LF] + more == PrintRow(rows[0]) + ([CR] + ([LF] + more));
  }

  lemma FirstRead(rows: seq<Row>, done: seq<Row>)
    requires rows != []
    ensures done + [AsRead(rows[0])] + AsReadRows(rows[1..]) == done + AsReadRows(rows)
  {
    hide AsRead;
    assert [AsRead(rows[0])] + AsReadRows(rows[1..]) == AsReadRows(rows);
  }

  /** The rows as read. */
  lemma {:induction false} ScanRows(rows: seq<Row>, done: seq<Row>)
    ensures WithoutBlank(Closed(Scan(PrintRows(rows), State(done, [], [], false)))) == WithoutBlank(done + AsReadRows(rows))
    decreases |rows|
  {
    hide Scan, PrintRow, AsRead, WithoutBlank;
    if rows == [] {
      ScanNothing(State(done, [], [], false));
      assert done + AsReadRows(rows) == done;
    } else if |rows| == 1 {
      ScanLastRow(rows[0], done);
      assert AsReadRows(rows) == [AsRead(rows[0])];
    } else {
      var more := PrintRows(rows[1..]);
      FirstLine(rows);
      ScanLine(rows[0], more, done);
      ScanRows(rows[1..], done + [AsRead(rows[0])]);
      FirstRead(rows, done);
    }
  }

  lemma {:induction false} NoFieldsOrBlank(rows: seq<Row>)
    ensures WithoutBlank(AsReadRows(rows)) == WithoutBlank(KeptRows(rows))
  {
    if rows != [] {
      var n := |rows| - 1;
      assert AsReadRows(rows)[..n] == AsReadRows(rows[..n]) && KeptRows(rows)[..n] == KeptRows(rows[..n]);
      NoFieldsOrBlank(rows[..n]);
      assert rows[n] == [] ==> BlankRow(AsRead(rows[n])) && BlankRow(KeptRow(rows[n]));
    }
  }

  // ---- Main result -----------------------------------------------------------------------

  /**
   Reading back what was printed gives every row, in order, but for rows with
   nothing but white space in them; and every field, but for the carriage returns
   of those fields that needed no quotes.
   */
  lemma RoundTrip(headers: Row, rows: seq<Row>)
    ensures Parsed(RowsToCsv(headers, rows)) == WithoutBlank(KeptRows([headers] + rows))
  {
    var all := [headers] + rows;
    assert Clean(RowsToCsv(headers, rows)) == PrintRows(all);
    ScanRows(all, []);
    assert [] + AsReadRows(all) == AsReadRows(all);
    NoFieldsOrBlank(all);
  }

  /** What is kept of a field is the field, exactly unless it went unquoted with a carriage return in it. */
  lemma {:induction false} KeptUnchanged(f: Field)
    ensures Kept(f) == f <==> COMMA in f || QUOTE in f || LF in f || CR !in f
    ensures EscapeCsvField(f) == f <==> COMMA !in f && QUOTE !in f && LF !in f
  {
    if !NeedsQuotes(f) { WithoutCRShorter(f); } else { DoubledLonger(f); }
  }

  lemma {:induction false} DoubledLonger(f: Field)
    ensures |f| <= |Doubled(f)|
  {
    if f != [] { DoubledLonger(f[1..]); }
  }

  lemma {:induction false} WithoutCRShorter(f: Field)
    ensures |WithoutCR(f)| <= |f| && CR !in WithoutCR(f)
    ensures CR !in f ==> WithoutCR(f) == f
  {
    if f != [] { WithoutCRShorter(f[1..]); }
  }

  // ---- Row by row --------------------------------------------------------------------------

  /** Some field of the row has a character that is not white space. */
  predicate SaysSomething(row: Row) {
    exists k, j :: 0 <= k < |row| && 0 <= j < |row[k]| && !IsSpace(row[k][j])
  }

  lemma BlankSaysNothing(row: Row)
    ensures BlankRow(row) <==> !SaysSomething(row)
  {
    if !BlankRow(row) {
      var k :| 0 <= k < |row| && !Blank(row[k]);
      var j :| 0 <= j < |row[k]| && !IsSpace(row[k][j]);
    }
  }

  /** How many of the rows say something. */
  function Telling(rows: seq<Row>): nat {
    if rows == [] then 0 else Telling(rows[..|rows| - 1]) + (if SaysSomething(rows[|rows| - 1]) then 1 else 0)
  }

  lemma {:induction false} TellingGrows(rows: seq<Row>, i: nat)
    requires i <= |rows|
    ensures Telling(rows[..i]) <= Telling(rows)
    ensures i < |rows| && SaysSomething(rows[i]) ==> Telling(rows[..i]) < Telling(rows)
    decreases |rows|
  {
    if i < |rows| {
      var before := rows[..|rows| - 1];
      assert before[..i] == rows[..i];
      TellingGrows(before, i);
    } else {
      assert rows[..i] == rows;
    }
  }

  lemma {:induction false} TellingKept(rows: seq<Row>, i: nat)
    requires i < |rows| && SaysSomething(rows[i])
    ensures |WithoutBlank(rows)| == Telling(rows)
    ensures Telling(rows[..i]) < Telling(rows) && WithoutBlank(rows)[Telling(rows[..i])] == rows[i]
    decreases |rows|
  {
    var n := |rows| - 1;
    var before := rows[..n];
    BlankSaysNothing(rows[n]);
    TellingGrows(rows, i);
    if i < n {
      assert before[..i] == rows[..i];
      TellingKept(before, i);
    } else {
      WithoutBlankCounts(before);
    }
  }

  lemma {:induction false} WithoutBlankCounts(rows: seq<Row>)
    ensures |WithoutBlank(rows)| == Telling(rows)
  {
    if rows != [] {
      BlankSaysNothing(rows[|rows| - 1]);
      WithoutBlankCounts(rows[..|rows| - 1]);
    }
  }

  /** What is left of a row: each field in its place. */
  lemma FieldsInPlace(row: Row)
    ensures |KeptRow(row)| == |row| && forall k :: 0 <= k < |row| ==> KeptRow(row)[k] == Kept(row[k])
  {}

  /**
   Position by position: of the printed rows, those that say something come back
   and no others, in order, each with its fields in their columns, empty ones
   included.
   */
  lemma RowsComeBack(headers: Row, rows: seq<Row>, i: nat)
    requires i < |rows| + 1
    ensures var all := KeptRows([headers] + rows);
            var read := Parsed(RowsToCsv(headers, rows));
            && |read| == Telling(all)
            && (SaysSomething(all[i]) ==> Telling(all[..i]) < |read| && read[Telling(all[..i])] == all[i])
  {
    hide Parsed, RowsToCsv, KeptRow;
    RoundTrip(headers, rows);
    var all := KeptRows([headers] + rows);
    WithoutBlankCounts(all);
    if SaysSomething(all[i]) { TellingKept(all, i); }
  }

  /** One byte order mark at the front is dropped, and nothing else of the text. */
  lemma MarkIsOptional(text: string)
    requires text == [] || text[0] != BOM
    ensures Clean(text) == text && Clean([BOM] + text) == text && Parsed([BOM] + text) == Parsed(text)
  {
    assert ([BOM] + text)[1..] == text;
  }

  /** The text itself: a byte order mark, the header line, and a line for every row, CR LF between them. */
  lemma {:induction false} LineByLine(headers: Row, rows: seq<Row>, row: Row)
    ensures RowsToCsv(headers, []) == [BOM] + PrintRow(headers)
    ensures RowsToCsv(headers, rows + [row]) == RowsToCsv(headers, rows) + "\r\n" + PrintRow(row)
  {
    assert [headers] + [] == [headers];
    assert [headers] + (rows + [row]) == [headers] + rows + [row];
    PrintsOneMore([headers] + rows, row);
  }

  lemma {:induction false} PrintsOneMore(rows: seq<Row>, row: Row)
    requires rows != []
    ensures PrintRows(rows + [row]) == PrintRows(rows) + "\r\n" + PrintRow(row)
  {
    hide PrintRow;
    assert (rows + [row])[1..] == rows[1..] + [row];
    if |rows| == 1 {
      assert rows[1..] + [row] == [row];
    } else {
      PrintsOneMore(rows[1..], row);
    }
  }
}
