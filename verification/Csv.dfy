/** CSV export, and a reader of section 2 of RFC 4180 to tell what a printed table means. */
module Csv {
  import opened Outcomes
  import opened Texts

  /** A number prints as its text; any other value's text is neutralised first. */
  datatype Cell = Number(text: string) | Text(text: string)

  const QUOTE := '"'
  const CRLF := "\r\n"
  const BOM := [0xFEFF as char]

  // ----- Printing --------------------------------------------------------------------------------

  predicate StartsFormula(s: string) {
    var t := TrimStart(s);
    t != "" && t[0] in "=+@-"
  }

  /** A formula, maybe after white space, or a leading tab or line break. */
  predicate Suspect(s: string) {
    StartsFormula(s) || (s != "" && s[0] in "\t\r\n")
  }

  function Neutral(c: Cell): string {
    if c.Text? && Suspect(c.text) then "'" + c.text else c.text
  }

  function Doubled(s: string): string {
    if s == "" then "" else (if s[0] == QUOTE then [QUOTE, QUOTE] else [s[0]]) + Doubled(s[1..])
  }

  /** What CsvCell prints. */
  function CellText(c: Cell): string {
    [QUOTE] + Doubled(Neutral(c)) + [QUOTE]
  }

  /** join */
  function Joined(parts: seq<string>, separator: string): string {
    if parts == [] then "" else if |parts| == 1 then parts[0] else parts[0] + separator + Joined(parts[1..], separator)
  }

  function CellTexts(row: seq<Cell>): seq<string> {
    if row == [] then [] else [CellText(row[0])] + CellTexts(row[1..])
  }

  function RowText(row: seq<Cell>): string {
    Joined(CellTexts(row), ",")
  }

  function RowTexts(rows: seq<seq<Cell>>): seq<string> {
    if rows == [] then [] else [RowText(rows[0])] + RowTexts(rows[1..])
  }

  function TableText(rows: seq<seq<Cell>>): string {
    Joined(RowTexts(rows), CRLF)
  }

  function CsvText(rows: seq<seq<Cell>>): string {
    BOM + TableText(rows)
  }

  lemma RowTextUnfolds(row: seq<Cell>)
    requires row != []
    ensures RowText(row) == if |row| == 1 then CellText(row[0]) else CellText(row[0]) + "," + RowText(row[1..])
  {
    assert CellTexts(row)[1..] == CellTexts(row[1..]);
    assert |row| > 1 ==> CellTexts(row[1..]) != [];
  }

  lemma TableTextUnfolds(rows: seq<seq<Cell>>)
    requires rows != []
    ensures TableText(rows) == if |rows| == 1 then RowText(rows[0]) else RowText(rows[0]) + CRLF + TableText(rows[1..])
  {
    assert RowTexts(rows)[1..] == RowTexts(rows[1..]);
    assert |rows| > 1 ==> RowTexts(rows[1..]) != [];
  }

  lemma ApostropheIsHarmless(s: string)
    requires s != "" && s[0] == '\''
    ensures !Suspect(s)
  {
    assert TrimStart(s) == s;
  }

  /** No text cell is printed as something a spreadsheet would take for a formula; doing it again changes nothing. */
  lemma NeutralIsHarmless(s: string)
    ensures !Suspect(Neutral(Text(s))) && Neutral(Text(Neutral(Text(s)))) == Neutral(Text(s))
  {
    if Suspect(s) {
      ApostropheIsHarmless("'" + s);
    }
  }

  /**
   * A text is kept, with an apostrophe before it exactly when it is not a number and begins with a tab or line break,
   * or, after any white space, with an equals, plus, at or minus sign.
   */
  lemma NeutralKeepsText(c: Cell)
    ensures Neutral(c) == if c.Text? && (BeginsWith(c.text, 0, "\t\r\n") || exists k :: SignAt(c.text, k))
                          then "'" + c.text else c.text
  {
    FirstAfterSpace(c.text);
  }

  predicate BeginsWith(s: string, k: nat, chars: string) {
    k < |s| && s[k] in chars
  }

  predicate SignAt(s: string, k: int) {
    0 <= k < |s| && s[k] in "=+@-" && forall i | 0 <= i < k :: IsSpace(s[i])
  }

  lemma {:induction false} FirstAfterSpace(s: string)
    ensures StartsFormula(s) <==> exists k :: SignAt(s, k)
  {
    if s != "" && IsSpace(s[0]) {
      FirstAfterSpace(s[1..]);
      if k :| SignAt(s[1..], k) {
        assert forall i | 0 < i < k + 1 :: s[i] == s[1..][i - 1];
        assert SignAt(s, k + 1);
      }
      if k :| SignAt(s, k) {
        assert k > 0;
        assert forall i | 0 <= i < k - 1 :: s[1..][i] == s[i + 1];
        assert SignAt(s[1..], k - 1);
      }
    } else if s != "" && s[0] in "=+@-" {
      assert SignAt(s, 0);
    }
  }

  // ----- Reading ---------------------------------------------------------------------------------

  /** The text of an escaped field, after its opening quote, and what follows its closing quote. */
  function ReadEscaped(s: string): Option<(string, string)> {
    if s == "" then None
    else if s[0] != QUOTE then
      match ReadEscaped(s[1..]) case None => None case Some((t, rest)) => Some(([s[0]] + t, rest))
    else if |s| >= 2 && s[1] == QUOTE then
      match ReadEscaped(s[2..]) case None => None case Some((t, rest)) => Some(([QUOTE] + t, rest))
    else Some(("", s[1..]))
  }

  /** An unescaped field runs up to a comma, a line break or the end, and holds no quote. */
  function ReadPlain(s: string): Option<(string, string)> {
    if s == "" || s[0] in ",\r\n" then Some(("", s))
    else if s[0] == QUOTE then None
    else match ReadPlain(s[1..]) case None => None case Some((t, rest)) => Some(([s[0]] + t, rest))
  }

  function ReadField(s: string): (r: Option<(string, string)>)
    ensures r.Some? ==> |r.value.1| <= |s|
  {
    EscapedShrinks(if s == "" then "" else s[1..]);
    PlainShrinks(s);
    if s != "" && s[0] == QUOTE then ReadEscaped(s[1..]) else ReadPlain(s)
  }

  lemma EscapedShrinks(s: string)
    ensures ReadEscaped(s).Some? ==> |ReadEscaped(s).value.1| < |s|
  {
  }

  lemma PlainShrinks(s: string)
    ensures ReadPlain(s).Some? ==> |ReadPlain(s).value.1| <= |s|
  {
  }

  /** An unquoted field is the text up to the next comma, line break or end. */
  lemma {:induction false} PlainFieldReads(s: string, rest: string)
    requires forall i | 0 <= i < |s| :: s[i] !in "\",\r\n"
    requires rest == "" || rest[0] in ",\r\n"
    ensures ReadPlain(s + rest) == Some((s, rest)) && ReadField(s + rest) == Some((s, rest))
  {
    if s == "" {
      assert s + rest == rest;
    } else {
      assert (s + rest)[0] == s[0] && (s + rest)[1..] == s[1..] + rest;
      PlainFieldReads(s[1..], rest);
      assert [s[0]] + s[1..] == s;
    }
  }

  /** Fields separated by commas, up to a line break or the end. */
  function ReadRecord(s: string): (r: Option<(seq<string>, string)>)
    ensures r.Some? ==> |r.value.1| <= |s|
    decreases |s|
  {
    match ReadField(s)
    case None => None
    case Some((t, rest)) =>
      if rest != "" && rest[0] == ',' then
        match ReadRecord(rest[1..]) case None => None case Some((ts, end)) => Some(([t] + ts, end))
      else Some(([t], rest))
  }

  /** Records ended by line breaks; the last one may lack its own. */
  function ReadFile(s: string): Option<seq<seq<string>>>
    decreases |s|
  {
    match ReadRecord(s)
    case None => None
    case Some((record, rest)) =>
      if rest == "" || rest == CRLF then Some([record])
      else if CRLF <= rest then
        match ReadFile(rest[2..]) case None => None case Some(records) => Some([record] + records)
      else None
  }

  // ----- The round trip --------------------------------------------------------------------------

  function Neutrals(row: seq<Cell>): seq<string> {
    if row == [] then [] else [Neutral(row[0])] + Neutrals(row[1..])
  }

  function NeutralTable(rows: seq<seq<Cell>>): seq<seq<string>> {
    if rows == [] then [] else [Neutrals(rows[0])] + NeutralTable(rows[1..])
  }

  lemma {:induction false} DoubledReads(s: string, rest: string)
    requires rest == "" || rest[0] != QUOTE
    ensures ReadEscaped(Doubled(s) + [QUOTE] + rest) == Some((s, rest))
  {
    var text := Doubled(s) + [QUOTE] + rest;
    if s == "" {
      assert text == [QUOTE] + rest && text[1..] == rest;
    } else {
      DoubledReads(s[1..], rest);
      var tail := Doubled(s[1..]) + [QUOTE] + rest;
      if s[0] == QUOTE {
        assert text == [QUOTE, QUOTE] + tail && text[2..] == tail;
      } else {
        assert text == [s[0]] + tail && text[1..] == tail;
      }
      assert [s[0]] + s[1..] == s;
    }
  }

  lemma QuotedReads(s: string, t: string, rest: string)
    requires s != "" && s[0] == QUOTE && ReadEscaped(s[1..]) == Some((t, rest))
    ensures ReadField(s) == Some((t, rest))
  {
  }

  /** A printed cell ends where it ends: the reader gives back its neutralised text and all that follows. */
  lemma CellReads(c: Cell, rest: string)
    requires rest == "" || rest[0] != QUOTE
    ensures ReadField(CellText(c) + rest) == Some((Neutral(c), rest))
  {
    var t := Neutral(c);
    DoubledReads(t, rest);
    var s := [QUOTE] + (Doubled(t) + [QUOTE] + rest);
    assert s[1..] == Doubled(t) + [QUOTE] + rest;
    QuotedReads(s, t, rest);
    assert CellText(c) + rest == s;
  }

  /**
   * Prints a cell: whatever follows it but a quote, the reader gets back its neutralised text and stops right after
   * it.
   */
  method CsvCell(c: Cell) returns (r: string)
    ensures r == CellText(c)
    ensures forall rest | rest == "" || rest[0] != QUOTE :: ReadField(r + rest) == Some((Neutral(c), rest))
  {
    var text := c.text;
    if !c.Number? && Suspect(text) {
      text := "'" + text;
    }
    r := [QUOTE] + Doubled(text) + [QUOTE];
    forall rest | rest == "" || rest[0] != QUOTE ensures ReadField(r + rest) == Some((Neutral(c), rest)) {
      CellReads(c, rest);
    }
  }

  lemma RecordEnds(s: string, t: string, rest: string)
    requires ReadField(s) == Some((t, rest)) && (rest == "" || rest[0] != ',')
    ensures ReadRecord(s) == Some(([t], rest))
  {
  }

  lemma RecordGoesOn(s: string, t: string, more: string, ts: seq<string>, end: string)
    requires ReadField(s) == Some((t, "," + more)) && ReadRecord(more) == Some((ts, end))
    ensures ReadRecord(s) == Some(([t] + ts, end))
  {
    assert ("," + more)[1..] == more;
  }

  lemma Regroup(a: string, b: string, c: string, d: string)
    ensures a + b + c + d == a + (b + (c + d))
  {
  }

  lemma {:induction false} RowReads(row: seq<Cell>, rest: string)
    requires row != [] && (rest == "" || rest[0] == '\r')
    ensures ReadRecord(RowText(row) + rest) == Some((Neutrals(row), rest))
  {
    RowTextUnfolds(row);
    if |row| == 1 {
      CellReads(row[0], rest);
      RecordEnds(CellText(row[0]) + rest, Neutral(row[0]), rest);
      assert Neutrals(row) == [Neutral(row[0])];
    } else {
      var more := RowText(row[1..]) + rest;
      CellReads(row[0], "," + more);
      RowReads(row[1..], rest);
      RecordGoesOn(CellText(row[0]) + ("," + more), Neutral(row[0]), more, Neutrals(row[1..]), rest);
      Regroup(CellText(row[0]), ",", RowText(row[1..]), rest);
    }
  }

  /** The reader finds at least one record, and a field in each. */
  lemma {:induction false} ReaderFindsFields(s: string)
    ensures ReadFile(s).Some? ==> ReadFile(s).value != [] && forall record | record in ReadFile(s).value :: record != []
    decreases |s|
  {
    var r := ReadRecord(s);
    if r.Some? && CRLF <= r.value.1 {
      ReaderFindsFields(r.value.1[2..]);
    }
  }

  ghost predicate Full(rows: seq<seq<Cell>>) {
    rows != [] && forall row | row in rows :: row != []
  }

  lemma FileGoesOn(s: string, record: seq<string>, more: string, records: seq<seq<string>>)
    requires ReadRecord(s) == Some((record, CRLF + more)) && more != "" && ReadFile(more) == Some(records)
    ensures ReadFile(s) == Some([record] + records)
  {
    assert (CRLF + more)[2..] == more;
  }

  lemma OneRowReads(row: seq<Cell>)
    requires row != []
    ensures RowText(row) != "" && ReadFile(RowText(row)) == Some([Neutrals(row)])
  {
    RowReads(row, "");
    RowTextUnfolds(row);
    assert RowText(row) + "" == RowText(row);
  }

  lemma RowsRead(row: seq<Cell>, tail: string, records: seq<seq<string>>)
    requires row != [] && tail != "" && ReadFile(tail) == Some(records)
    ensures ReadFile(RowText(row) + CRLF + tail) == Some([Neutrals(row)] + records)
  {
    RowReads(row, CRLF + tail);
    var s := RowText(row) + CRLF + tail;
    assert s == RowText(row) + (CRLF + tail);
    FileGoesOn(s, Neutrals(row), tail, records);
  }

  lemma {:induction false} FullTableReads(rows: seq<seq<Cell>>)
    requires Full(rows)
    ensures TableText(rows) != "" && ReadFile(TableText(rows)) == Some(NeutralTable(rows))
  {
    assert rows[0] in rows;
    TableTextUnfolds(rows);
    if |rows| == 1 {
      OneRowReads(rows[0]);
      assert rows[1..] == [];
      assert NeutralTable(rows) == [Neutrals(rows[0])];
    } else {
      assert forall row | row in rows[1..] :: row in rows;
      FullTableReads(rows[1..]);
      RowsRead(rows[0], TableText(rows[1..]), NeutralTable(rows[1..]));
    }
  }

  /**
   * Whatever commas, quotes and line breaks the cells hold, reading a printed table gives back its rows and
   * texts, exactly when it has a row and each row has a cell.
   */
  lemma CsvRoundTrip(rows: seq<seq<Cell>>)
    ensures BOM <= CsvText(rows)
    ensures ReadFile(CsvText(rows)[|BOM|..]) == Some(NeutralTable(rows)) <==> Full(rows)
  {
    var text := TableText(rows);
    assert CsvText(rows)[|BOM|..] == text;
    if Full(rows) {
      FullTableReads(rows);
    } else {
      ReaderFindsFields(text);
      NeutralShape(rows);
      if i :| 0 <= i < |rows| && rows[i] == [] {
        assert NeutralTable(rows)[i] in NeutralTable(rows);
      }
    }
  }

  lemma {:induction false} NeutralShape(rows: seq<seq<Cell>>)
    ensures |NeutralTable(rows)| == |rows|
    ensures forall i | 0 <= i < |rows| ::
              NeutralTable(rows)[i] == Neutrals(rows[i]) && (rows[i] == [] <==> Neutrals(rows[i]) == [])
  {
    if rows != [] {
      NeutralShape(rows[1..]);
    }
  }

  /** A row is printed as its quoted cells with commas between. */
  lemma PrintedRow(x: Cell, row: seq<Cell>)
    ensures RowText([x]) == "\"" + Doubled(Neutral(x)) + "\""
    ensures row != [] ==> RowText([x] + row) == RowText([x]) + "," + RowText(row)
  {
    RowTextUnfolds([x]);
    RowTextUnfolds([x] + row);
    assert ([x] + row)[1..] == row;
  }

  /** A table is printed as a mark and its rows, with a carriage return and line feed between. */
  lemma PrintedTable(row: seq<Cell>, rows: seq<seq<Cell>>)
    ensures CsvText(rows) == [0xFEFF as char] + TableText(rows) && TableText([row]) == RowText(row)
    ensures rows != [] ==> TableText([row] + rows) == RowText(row) + "\r\n" + TableText(rows)
  {
    TableTextUnfolds([row]);
    TableTextUnfolds([row] + rows);
    assert ([row] + rows)[1..] == rows;
  }

  /** Doubling goes character by character. */
  lemma {:induction false} DoubledByCharacter(a: string, b: string, c: char)
    ensures Doubled(a + b) == Doubled(a) + Doubled(b)
    ensures Doubled([c]) == if c == '"' then "\"\"" else [c]
  {
    assert [c][1..] == "";
    if a == "" {
      assert a + b == b;
    } else {
      assert (a + b)[0] == a[0] && (a + b)[1..] == a[1..] + b;
      DoubledByCharacter(a[1..], b, c);
    }
  }
}
