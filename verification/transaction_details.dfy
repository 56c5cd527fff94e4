/**
 * The CSV export of src/components/TransactionDetails.tsx: the pattern branch
 * of `formatDate`, the rows `handleDownloadCSV` builds, cell escaping, and the
 * joined CSV text.
 */
module TransactionDetails {
  import opened Wrappers
  import opened Strings
  import opened ParseTransaction
  import opened CsvReader

  // ---------------------------------------------------------------------------
  // formatDate

  predicate IsAsciiLetter(c: char) {
    'A' <= c <= 'Z' || 'a' <= c <= 'z'
  }

  predicate IsDigit(c: char) {
    '0' <= c <= '9'
  }

  /** The JavaScript regular-expression class `\s`: white space and line terminators. */
  predicate IsSpace(c: char) {
    || c == '\t' || c == '\n' || c == '\U{B}' || c == '\U{C}' || c == '\r' || c == ' '
    || c == '\U{A0}' || c == '\U{1680}' || '\U{2000}' <= c <= '\U{200A}'
    || c == '\U{2028}' || c == '\U{2029}' || c == '\U{202F}' || c == '\U{205F}'
    || c == '\U{3000}' || c == '\U{FEFF}'
  }

  /** `\d{4}` at index `i`. */
  predicate FourDigits(s: string, i: nat) {
    i + 4 <= |s| && IsDigit(s[i]) && IsDigit(s[i + 1]) && IsDigit(s[i + 2]) && IsDigit(s[i + 3])
  }

  /**
   * `[A-Za-z]{3}\s\d{1,2},\s\d{4}` matches starting at index `i`, with either
   * one or two day digits.
   */
  predicate DatePatternAt(s: string, i: nat): (r: bool)
    ensures r ==> i + 11 <= |s| && (s[i + 5] == ',' || s[i + 6] == ',')
    ensures r ==> IsAsciiLetter(s[i]) && IsDigit(s[i + 4]) && IsDigit(s[i + 10])
  {
    && i + 11 <= |s|
    && IsAsciiLetter(s[i]) && IsAsciiLetter(s[i + 1]) && IsAsciiLetter(s[i + 2])
    && IsSpace(s[i + 3]) && IsDigit(s[i + 4])
    && (|| (s[i + 5] == ',' && IsSpace(s[i + 6]) && FourDigits(s, i + 7))
        || (IsDigit(s[i + 5]) && s[i + 6] == ',' && IsSpace(s[i + 7]) && FourDigits(s, i + 8)))
  }

  /** The unanchored `test` of the date pattern: a match anywhere in the string. */
  predicate HasDatePattern(s: string): (r: bool)
    ensures r ==> |s| >= 11 && ',' in s
  {
    exists i: nat | i < |s| :: DatePatternAt(s, i)
  }

  /** The pattern accepts dates with two-digit and one-digit days, also inside longer text. */
  lemma DatePatternAccepts()
    ensures HasDatePattern("Feb 18, 2025")
    ensures HasDatePattern("Mar 3, 2025")
    ensures HasDatePattern("Paid Mar 03, 2025 online")
  {
    assert DatePatternAt("Feb 18, 2025", 0);
    assert DatePatternAt("Mar 3, 2025", 0);
    assert DatePatternAt("Paid Mar 03, 2025 online", 5);
  }

  /** Every sample record's date already has the pattern shape, so `formatDate` keeps it as it is. */
  lemma SampleDatesKept(localeFormat: string -> string)
    ensures forall i | 0 <= i < |SampleEntries| :: FormatDate(SampleEntries[i].date, localeFormat) == SampleEntries[i].date
  {
    assert DatePatternAt("Mar 03, 2025", 0);
    assert DatePatternAt("Feb 21, 2025", 0);
    assert DatePatternAt("Feb 20, 2025", 0);
    assert DatePatternAt("Feb 18, 2025", 0);
  }

  /** The pattern rejects an ISO date and a date without its comma. */
  lemma DatePatternRejects()
    ensures !HasDatePattern("2025-02-18")
    ensures !HasDatePattern("Feb 18 2025")
  {
  }

  /**
   * `formatDate(dateString)`. A string already shaped like "Feb 18, 2025"
   * somewhere is returned unchanged, and so always holds a comma; any other
   * string goes to the locale formatter of the JavaScript runtime, which is a
   * parameter here.
   */
  function FormatDate(s: string, localeFormat: string -> string): (r: string)
    ensures HasDatePattern(s) ==> r == s && ',' in r
    ensures !HasDatePattern(s) ==> r == localeFormat(s)
  {
    if HasDatePattern(s) then
      var i: nat :| i < |s| && DatePatternAt(s, i);
      assert s[i + 5] == ',' || s[i + 6] == ',';
      s
    else localeFormat(s)
  }

  // ---------------------------------------------------------------------------
  // Rows

  /** `x || ""` on an optional money field. */
  function MoneyCell(o: Option<string>): (c: string)
    ensures o.None? ==> c == ""
    ensures o.Some? ==> c == o.value
  {
    o.GetOr("")
  }

  const Headers: seq<string> := ["Date", "Description", "Money Out", "Money In", "Balance"]

  /**
   * The five cells written for one transaction, in header order: the date
   * (kept when already in the pattern shape), the description, the two
   * amounts with an absent one written as the empty string, and the balance.
   */
  function Cells(t: Transaction, localeFormat: string -> string): (row: seq<string>)
    ensures |row| == |Headers|
    ensures HasDatePattern(t.date) ==> row[0] == t.date
    ensures !HasDatePattern(t.date) ==> row[0] == localeFormat(t.date)
    ensures row[1] == t.description && row[4] == t.balance
    ensures t.moneyOut.None? ==> row[2] == ""
    ensures t.moneyOut.Some? ==> row[2] == t.moneyOut.value
    ensures t.moneyIn.None? ==> row[3] == ""
    ensures t.moneyIn.Some? ==> row[3] == t.moneyIn.value
  {
    [FormatDate(t.date, localeFormat), t.description, MoneyCell(t.moneyOut), MoneyCell(t.moneyIn), t.balance]
  }

  /** `csvRows`: the header row, then one row per transaction, in input order. */
  function Table(ts: seq<Transaction>, localeFormat: string -> string): (rows: seq<seq<string>>)
    ensures |rows| == |ts| + 1 && rows[0] == Headers
    ensures forall i | 0 <= i < |ts| :: rows[i + 1] == Cells(ts[i], localeFormat)
  {
    [Headers] + seq(|ts|, i requires 0 <= i < |ts| => Cells(ts[i], localeFormat))
  }

  // ---------------------------------------------------------------------------
  // Escaping and joining

  /** `s.replace(/"/g, '""')`. */
  function DoubleQuotes(s: string): (r: string)
    ensures |r| >= |s|
    ensures '"' !in s ==> r == s
    ensures '\n' in r <==> '\n' in s
    decreases |s|
  {
    if |s| == 0 then ""
    else if s[0] == '"' then "\"\"" + DoubleQuotes(s[1..])
    else [s[0]] + DoubleQuotes(s[1..])
  }

  /**
   * One written cell: quoted, with inner quotes doubled, exactly when it holds
   * a comma; otherwise verbatim, whatever else it holds.
   */
  function EscapeCell(c: string): (r: string)
    ensures ',' !in c ==> r == c
    ensures ',' in c ==> r == ['"'] + DoubleQuotes(c) + ['"']
    ensures ',' in c ==> |r| >= |c| + 2 && r[0] == '"' && r[|r| - 1] == '"' && UnescapeCell(r) == c
    ensures '\n' in r <==> '\n' in c
  {
    if ',' in c then
      QuotedRoundTrip(c, "");
      assert ['"'] + DoubleQuotes(c) + ['"'] == ['"'] + (DoubleQuotes(c) + ['"'] + "");
      ['"'] + DoubleQuotes(c) + ['"']
    else c
  }

  function EscapeAll(cells: seq<string>): (written: seq<string>)
    ensures |written| == |cells|
    ensures forall i | 0 <= i < |cells| :: written[i] == EscapeCell(cells[i])
  {
    seq(|cells|, i requires 0 <= i < |cells| => EscapeCell(cells[i]))
  }

  /** One CSV line: the escaped cells joined by single commas. It holds a line feed only if a cell does. */
  function CsvLine(cells: seq<string>): (line: string)
    ensures (forall i | 0 <= i < |cells| :: '\n' !in cells[i]) ==> '\n' !in line
  {
    EscapedHaveNoLineFeed(cells);
    Join(",", EscapeAll(cells))
  }

  lemma EscapedHaveNoLineFeed(cells: seq<string>)
    ensures (forall i | 0 <= i < |cells| :: '\n' !in cells[i]) ==> '\n' !in Join(",", EscapeAll(cells))
  {
    if forall i | 0 <= i < |cells| :: '\n' !in cells[i] {
      var e := EscapeAll(cells);
      assert forall i | 0 <= i < |e| :: '\n' !in e[i];
      NotInJoin('\n', ",", e);
    }
  }

  function CsvLines(rows: seq<seq<string>>): (lines: seq<string>)
    ensures |lines| == |rows|
    ensures forall i | 0 <= i < |rows| :: lines[i] == CsvLine(rows[i])
  {
    seq(|rows|, i requires 0 <= i < |rows| => CsvLine(rows[i]))
  }

  /**
   * The lines of the rows joined by single line feeds, without a trailing one.
   * When no cell holds a line feed, splitting the text at line feeds gives
   * back exactly the lines.
   */
  function CsvText(rows: seq<seq<string>>): (text: string)
    ensures |rows| >= 1 && NoLineFeeds(rows) ==> Split(text, '\n') == CsvLines(rows)
  {
    JoinedLines(rows);
    Join("\n", CsvLines(rows))
  }

  /** No cell of any row holds a line feed. */
  predicate NoLineFeeds(rows: seq<seq<string>>) {
    forall i, j | 0 <= i < |rows| && 0 <= j < |rows[i]| :: '\n' !in rows[i][j]
  }

  lemma JoinedLines(rows: seq<seq<string>>)
    ensures |rows| >= 1 && NoLineFeeds(rows) ==> Split(Join("\n", CsvLines(rows)), '\n') == CsvLines(rows)
  {
    if |rows| >= 1 && NoLineFeeds(rows) {
      var lines := CsvLines(rows);
      assert forall i | 0 <= i < |lines| :: '\n' !in lines[i];
      SplitJoin(lines, '\n');
    }
  }

  /** Date,Description,Money Out,Money In,Balance */
  const HeaderLine: string := "Date" + "," + "Description" + "," + "Money Out" + "," + "Money In" + "," + "Balance"

  /**
   * The CSV text `handleDownloadCSV` builds. Its first line is always the
   * fixed header line, and with no transactions that line is the whole text.
   */
  function CsvContent(ts: seq<Transaction>, localeFormat: string -> string): (csv: string)
    ensures Split(csv, '\n')[0] == HeaderLine
    ensures |ts| == 0 ==> csv == HeaderLine
  {
    var rows := Table(ts, localeFormat);
    HeaderLineIsFixed();
    FirstLineOfJoin(CsvLines(rows));
    CsvText(rows)
  }

  // ---------------------------------------------------------------------------
  // The header line

  /** The escaped header cells joined by commas are the fixed header line, which has no line feed. */
  lemma HeaderLineIsFixed()
    ensures CsvLine(Headers) == HeaderLine
    ensures '\n' !in CsvLine(Headers)
  {
    HeadersPlain();
    EscapePlain(Headers);
    JoinHeaders();
    NotInJoin('\n', ",", Headers);
  }

  lemma HeadersPlain()
    ensures forall i | 0 <= i < |Headers| :: ',' !in Headers[i] && '\n' !in Headers[i]
    ensures forall i | 0 <= i < |Headers| :: Readable(Headers[i])
  {
  }

  /** Cells without commas are written verbatim. */
  lemma EscapePlain(cells: seq<string>)
    requires forall i | 0 <= i < |cells| :: ',' !in cells[i]
    ensures EscapeAll(cells) == cells
  {
  }

  lemma JoinHeaders()
    ensures Join(",", Headers) == HeaderLine
  {
    var t3 := ["Balance"];
    var t2 := ["Money In"] + t3;
    var t1 := ["Money Out"] + t2;
    var t0 := ["Description"] + t1;
    JoinCons(",", "Money In", t3);
    JoinCons(",", "Money Out", t2);
    JoinCons(",", "Description", t1);
    JoinCons(",", "Date", t0);
    assert ["Date"] + t0 == Headers;
  }

  /** The first line of a join by line feeds is its first element when that has no line feed. */
  lemma FirstLineOfJoin(lines: seq<string>)
    requires |lines| >= 1 && '\n' !in lines[0]
    ensures Split(Join("\n", lines), '\n')[0] == lines[0]
  {
    if |lines| == 1 {
      SplitPrefix(lines[0], "", '\n');
      assert lines[0] + "" == lines[0];
    } else {
      var rest := "\n" + Join("\n", lines[1..]);
      assert Join("\n", lines) == lines[0] + rest;
      SplitPrefix(lines[0], rest, '\n');
      assert Split(rest, '\n')[0] == "";
    }
  }

  /** A date cell already in the "Feb 18, 2025" shape is always written quoted, and reads back unchanged. */
  lemma DateCellAlwaysQuoted(t: Transaction, localeFormat: string -> string)
    requires HasDatePattern(t.date)
    ensures var e := EscapeCell(Cells(t, localeFormat)[0]);
            e[0] == '"' && e[|e| - 1] == '"' && UnescapeCell(e) == t.date
  {
  }

  // ---------------------------------------------------------------------------
  // Reading a cell back

  /**
   * Reading a doubled-quote body followed by the closing quote gives back the
   * cell, provided what follows the closing quote is not another quote.
   */
  lemma {:induction false} QuotedRoundTrip(c: string, rest: string)
    requires rest == [] || rest[0] != '"'
    ensures ParseQuoted(DoubleQuotes(c) + ['"'] + rest) == (c, rest)
    decreases |c|
  {
    if |c| == 0 {
      var s := DoubleQuotes(c) + ['"'] + rest;
      assert s == ['"'] + rest;
      assert s[1..] == rest;
    } else {
      QuotedRoundTrip(c[1..], rest);
      if c[0] == '"' {
        QuotedStepQuote(c, rest);
      } else {
        QuotedStepPlain(c, rest);
      }
    }
  }

  /** One step of the quoted read: a doubled quote stands for a quote of the cell. */
  lemma QuotedStepQuote(c: string, rest: string)
    requires |c| > 0 && c[0] == '"'
    requires ParseQuoted(DoubleQuotes(c[1..]) + ['"'] + rest) == (c[1..], rest)
    ensures ParseQuoted(DoubleQuotes(c) + ['"'] + rest) == (c, rest)
  {
    var tail := DoubleQuotes(c[1..]) + ['"'] + rest;
    var s := DoubleQuotes(c) + ['"'] + rest;
    assert DoubleQuotes(c) == "\"\"" + DoubleQuotes(c[1..]);
    assert s == "\"\"" + tail;
    assert s[2..] == tail;
    assert c == [c[0]] + c[1..];
  }

  /** One step of the quoted read: any other character stands for itself. */
  lemma QuotedStepPlain(c: string, rest: string)
    requires |c| > 0 && c[0] != '"'
    requires ParseQuoted(DoubleQuotes(c[1..]) + ['"'] + rest) == (c[1..], rest)
    ensures ParseQuoted(DoubleQuotes(c) + ['"'] + rest) == (c, rest)
  {
    var tail := DoubleQuotes(c[1..]) + ['"'] + rest;
    var s := DoubleQuotes(c) + ['"'] + rest;
    assert DoubleQuotes(c) == [c[0]] + DoubleQuotes(c[1..]);
    assert s == [c[0]] + tail;
    assert s[1..] == tail;
    assert c == [c[0]] + c[1..];
  }

  /** Reading up to the next comma or line feed gives back a cell that holds neither. */
  lemma {:induction false} UnquotedRoundTrip(c: string, rest: string)
    requires ',' !in c && '\n' !in c
    requires AtFieldEnd(rest)
    ensures ParseUnquoted(c + rest) == (c, rest)
    decreases |c|
  {
    if |c| == 0 {
      assert c + rest == rest;
    } else {
      UnquotedRoundTrip(c[1..], rest);
      assert (c + rest)[1..] == c[1..] + rest;
      assert c == [c[0]] + c[1..];
    }
  }

  /**
   * A cell the reader can take back. A cell holding a comma is quoted and
   * always reads back, line feeds included; any other cell is written
   * verbatim, so it must hold no line feed and must not open with a quote.
   */
  predicate Readable(c: string) {
    ',' in c || ('\n' !in c && (|c| == 0 || c[0] != '"'))
  }

  lemma QuotedFieldRoundTrip(c: string, rest: string)
    requires ',' in c
    requires AtFieldEnd(rest)
    ensures ParseField(EscapeCell(c) + rest) == (c, rest)
  {
    var body := DoubleQuotes(c) + ['"'] + rest;
    QuotedShape(c, rest);
    QuotedRoundTrip(c, rest);
    FieldQuoted(body, c, rest);
    UnquotedRoundTrip("", rest);
    assert "" + rest == rest;
    assert c + "" == c;
  }

  /** A cell holding a comma is written as an opening quote, its doubled-quote body, and a closing quote. */
  lemma QuotedShape(c: string, rest: string)
    requires ',' in c
    ensures EscapeCell(c) + rest == ['"'] + (DoubleQuotes(c) + ['"'] + rest)
  {
  }

  lemma PlainFieldRoundTrip(c: string, rest: string)
    requires ',' !in c && '\n' !in c && (|c| == 0 || c[0] != '"')
    requires AtFieldEnd(rest)
    ensures ParseField(EscapeCell(c) + rest) == (c, rest)
  {
    UnquotedRoundTrip(c, rest);
    if |c| == 0 {
      assert c + rest == rest;
    } else {
      assert (c + rest)[0] == c[0];
    }
  }

  /** Reading one written cell, followed by the end of the text, a comma or a line feed, gives back the cell. */
  lemma FieldRoundTrip(c: string, rest: string)
    requires Readable(c)
    requires AtFieldEnd(rest)
    ensures ParseField(EscapeCell(c) + rest) == (c, rest)
  {
    if ',' in c {
      QuotedFieldRoundTrip(c, rest);
    } else {
      PlainFieldRoundTrip(c, rest);
    }
  }

  // ---------------------------------------------------------------------------
  // Reading records and the whole text back

  /** A written line is the first written cell, a comma, and the rest of the line. */
  lemma CsvLineCons(cells: seq<string>)
    requires |cells| >= 2
    ensures CsvLine(cells) == EscapeCell(cells[0]) + ("," + CsvLine(cells[1..]))
  {
    var e := EscapeAll(cells);
    assert e == [EscapeCell(cells[0])] + EscapeAll(cells[1..]);
    JoinCons(",", EscapeCell(cells[0]), EscapeAll(cells[1..]));
  }

  /**
   * Reading one written line, followed by the end of the text or by a line
   * feed and more text, gives back its cells and that more text.
   */
  lemma {:induction false} LineRoundTrip(cells: seq<string>, rest: string)
    requires |cells| >= 1
    requires forall i | 0 <= i < |cells| :: Readable(cells[i])
    requires rest == [] || rest[0] == '\n'
    ensures ParseRecord(CsvLine(cells) + rest) == (cells, if rest == [] then None else Some(rest[1..]))
    decreases |cells|
  {
    var s := CsvLine(cells) + rest;
    if |cells| == 1 {
      assert s == EscapeCell(cells[0]) + rest;
      FieldRoundTrip(cells[0], rest);
      RecordEnds(s, cells[0], rest);
      assert cells == [cells[0]];
    } else {
      var tail := CsvLine(cells[1..]) + rest;
      CsvLineCons(cells);
      assert s == EscapeCell(cells[0]) + ([','] + tail);
      FieldRoundTrip(cells[0], [','] + tail);
      RecordContinues(s, cells[0], tail);
      LineRoundTrip(cells[1..], rest);
      assert cells == [cells[0]] + cells[1..];
    }
  }

  /** A written text is the first written line, a line feed, and the rest of the text. */
  lemma CsvTextCons(rows: seq<seq<string>>)
    requires |rows| >= 2
    ensures CsvText(rows) == CsvLine(rows[0]) + ("\n" + CsvText(rows[1..]))
  {
    var lines := CsvLines(rows);
    assert lines == [lines[0]] + CsvLines(rows[1..]);
    JoinCons("\n", lines[0], CsvLines(rows[1..]));
  }

  /** Every cell of every row can be read back, and no row is empty. */
  predicate AllReadable(rows: seq<seq<string>>) {
    && (forall i | 0 <= i < |rows| :: |rows[i]| >= 1)
    && (forall i, j | 0 <= i < |rows| && 0 <= j < |rows[i]| :: Readable(rows[i][j]))
  }

  /** Reading the written text back gives the rows. */
  lemma {:induction false} TextRoundTrip(rows: seq<seq<string>>)
    requires |rows| >= 1
    requires AllReadable(rows)
    ensures ParseCsv(CsvText(rows)) == rows
    decreases |rows|
  {
    if |rows| == 1 {
      assert CsvText(rows) == CsvLine(rows[0]) + "";
      LineRoundTrip(rows[0], "");
      CsvEnds(CsvText(rows), rows[0]);
      assert rows == [rows[0]];
    } else {
      TextRoundTrip(rows[1..]);
      TextStep(rows);
    }
  }

  /** Reading back the first written line and then the rest of the text gives the first row and then the rest. */
  lemma TextStep(rows: seq<seq<string>>)
    requires |rows| >= 2
    requires AllReadable(rows)
    requires ParseCsv(CsvText(rows[1..])) == rows[1..]
    ensures ParseCsv(CsvText(rows)) == rows
  {
    var tail := CsvText(rows[1..]);
    CsvTextCons(rows);
    LineRoundTrip(rows[0], "\n" + tail);
    assert ("\n" + tail)[1..] == tail;
    CsvContinues(CsvText(rows), rows[0], tail);
    assert rows == [rows[0]] + rows[1..];
  }

  /** A quoted cell may hold a line feed: the reader keeps it inside the cell. */
  lemma QuotedLineFeedReadBack()
    ensures ParseCsv(CsvText([["a,\nb", "c"]])) == [["a,\nb", "c"]]
  {
    assert ',' in "a,\nb";
    TextRoundTrip([["a,\nb", "c"]]);
  }

  // ---------------------------------------------------------------------------
  // The export, line by line and read back

  /** Every transaction row is readable once every header row is. */
  lemma TableReadable(ts: seq<Transaction>, localeFormat: string -> string)
    requires forall i, j | 0 <= i < |ts| && 0 <= j < |Headers| :: Readable(Cells(ts[i], localeFormat)[j])
    ensures AllReadable(Table(ts, localeFormat))
  {
    var rows := Table(ts, localeFormat);
    HeadersPlain();
    forall i, j | 0 <= i < |rows| && 0 <= j < |rows[i]|
      ensures Readable(rows[i][j])
    {
      if i > 0 {
        assert rows[i] == Cells(ts[i - 1], localeFormat);
      }
    }
  }

  /** Every transaction row is free of line feeds once every header row is. */
  lemma TableHasNoLineFeeds(ts: seq<Transaction>, localeFormat: string -> string)
    requires forall i, j | 0 <= i < |ts| && 0 <= j < |Headers| :: '\n' !in Cells(ts[i], localeFormat)[j]
    ensures NoLineFeeds(Table(ts, localeFormat))
  {
    var rows := Table(ts, localeFormat);
    HeadersPlain();
    forall i, j | 0 <= i < |rows| && 0 <= j < |rows[i]|
      ensures '\n' !in rows[i][j]
    {
      if i > 0 {
        assert rows[i] == Cells(ts[i - 1], localeFormat);
      }
    }
  }

  /**
   * When no cell holds a line feed, the CSV text has exactly one line per
   * transaction after the header line, in input order, separated by single
   * line feeds.
   */
  lemma CsvLineStructure(ts: seq<Transaction>, localeFormat: string -> string)
    requires forall i, j | 0 <= i < |ts| && 0 <= j < |Headers| :: '\n' !in Cells(ts[i], localeFormat)[j]
    ensures var lines := Split(CsvContent(ts, localeFormat), '\n');
            && |lines| == |ts| + 1
            && lines[0] == HeaderLine
            && forall i | 0 <= i < |ts| :: lines[i + 1] == CsvLine(Cells(ts[i], localeFormat))
  {
    var rows := Table(ts, localeFormat);
    TableHasNoLineFeeds(ts, localeFormat);
    HeaderLineIsFixed();
    var lines := CsvLines(rows);
    forall i | 0 <= i < |ts|
      ensures lines[i + 1] == CsvLine(Cells(ts[i], localeFormat))
    {
      assert lines[i + 1] == CsvLine(rows[i + 1]);
      assert rows[i + 1] == Cells(ts[i], localeFormat);
    }
  }

  /**
   * Reading the CSV text back gives the header cells and then, per
   * transaction and in input order, its five cells: the date as formatted,
   * the description, the money-out and money-in amounts (empty when absent)
   * and the balance.
   */
  lemma CsvRoundTrip(ts: seq<Transaction>, localeFormat: string -> string)
    requires forall i, j | 0 <= i < |ts| && 0 <= j < |Headers| :: Readable(Cells(ts[i], localeFormat)[j])
    ensures ParseCsv(CsvContent(ts, localeFormat)) == Table(ts, localeFormat)
  {
    TableReadable(ts, localeFormat);
    TextRoundTrip(Table(ts, localeFormat));
  }

  /**
   * The fields of each transaction, read back from the CSV text: line i + 1
   * holds its date (as it was, when already in the pattern shape), its
   * description, its amounts (empty when absent) and its balance.
   */
  lemma CsvFields(ts: seq<Transaction>, localeFormat: string -> string)
    requires forall i, j | 0 <= i < |ts| && 0 <= j < |Headers| :: Readable(Cells(ts[i], localeFormat)[j])
    ensures var records := ParseCsv(CsvContent(ts, localeFormat));
            && |records| == |ts| + 1
            && records[0] == Headers
            && forall i | 0 <= i < |ts| ::
                 && |records[i + 1]| == 5
                 && records[i + 1][1] == ts[i].description
                 && records[i + 1][4] == ts[i].balance
                 && (ts[i].moneyOut.None? ==> records[i + 1][2] == "")
                 && (ts[i].moneyOut.Some? ==> records[i + 1][2] == ts[i].moneyOut.value)
                 && (ts[i].moneyIn.None? ==> records[i + 1][3] == "")
                 && (ts[i].moneyIn.Some? ==> records[i + 1][3] == ts[i].moneyIn.value)
                 && (HasDatePattern(ts[i].date) ==> records[i + 1][0] == ts[i].date)
  {
    CsvRoundTrip(ts, localeFormat);
    var rows := Table(ts, localeFormat);
    forall i | 0 <= i < |ts|
      ensures rows[i + 1] == Cells(ts[i], localeFormat)
    {
    }
  }
}
