/**
 * The CSV report (deliverables.ts) and two parsers for section 2 of RFC 4180, with LF between records. The strict
 * one keeps to the characters of its grammar: printable ASCII, and CR and LF in quoted fields only. The other takes
 * every character as text.
 */
module Csv {
  import opened Prelude
  import opened ReportHeader
  import Collector

  // ---------- Printing ----------

  predicate NeedsQuotes(text: string) {
    '"' in text || ',' in text || '\n' in text
  }

  function Doubled(text: string): string {
    if text == "" then "" else (if text[0] == '"' then "\"\"" else [text[0]]) + Doubled(text[1..])
  }

  function CsvCell(text: string): string {
    if NeedsQuotes(text) then "\"" + Doubled(text) + "\"" else text
  }

  /** The printed cells of a row, a comma between them. */
  function PrintedRow(row: seq<string>): string {
    if row == [] then ""
    else if |row| == 1 then CsvCell(row[0])
    else CsvCell(row[0]) + "," + PrintedRow(row[1..])
  }

  /** The printed rows, a line feed between them. */
  function Printed(rows: seq<seq<string>>): string {
    if rows == [] then ""
    else if |rows| == 1 then PrintedRow(rows[0])
    else PrintedRow(rows[0]) + "\n" + Printed(rows[1..])
  }

  // ---------- Parsing ----------

  /** Where the parser is: before a field, in one without quotes, in one with quotes, or behind a quote in it. */
  datatype Mode = Start | Plain | Quoted | Closing

  /** What was read so far: the finished records, the fields of the record being read, and the field. */
  datatype Read = Read(records: seq<seq<string>>, fields: seq<string>, field: string)

  function EndField(read: Read): Read {
    Read(read.records, read.fields + [read.field], "")
  }

  function EndRecord(read: Read): Read {
    Read(read.records + [read.fields + [read.field]], [], "")
  }

  function Add(read: Read, c: char): Read {
    read.(field := read.field + [c])
  }

  /** TEXTDATA with comma and quote: the printable ASCII characters. */
  predicate IsPrintable(c: char) {
    ' ' <= c <= '~'
  }

  /** What a quoted field may hold, quotes doubled. */
  predicate InGrammar(c: char) {
    IsPrintable(c) || c == '\r' || c == '\n'
  }

  /** None for a text that is not CSV: a quote inside a plain field, text behind a closing quote, or no
      closing quote; and for a strict parser a character the grammar does not have there. */
  function ParseFrom(strict: bool, mode: Mode, read: Read, s: string): Option<seq<seq<string>>>
    decreases |s|
  {
    if s == "" then (if mode == Quoted then None else Some(EndRecord(read).records))
    else if mode == Quoted then
      if s[0] == '"' then ParseFrom(strict, Closing, read, s[1..])
      else if strict && !InGrammar(s[0]) then None
      else ParseFrom(strict, Quoted, Add(read, s[0]), s[1..])
    else if s[0] == ',' then ParseFrom(strict, Start, EndField(read), s[1..])
    else if s[0] == '\n' then ParseFrom(strict, Start, EndRecord(read), s[1..])
    else if s[0] == '"' then
      if mode == Start then ParseFrom(strict, Quoted, read, s[1..])
      else if mode == Closing then ParseFrom(strict, Quoted, Add(read, '"'), s[1..])
      else None
    else if mode == Closing || (strict && !IsPrintable(s[0])) then None
    else ParseFrom(strict, Plain, Add(read, s[0]), s[1..])
  }

  function Parse(s: string): Option<seq<seq<string>>> {
    ParseFrom(false, Start, Read([], [], ""), s)
  }

  function ParseStrictly(s: string): Option<seq<seq<string>>> {
    ParseFrom(true, Start, Read([], [], ""), s)
  }

  // ---------- One cell ----------

  /** The text goes on with a separator, or ends. */
  predicate AtSeparator(rest: string) {
    rest == "" || rest[0] == ',' || rest[0] == '\n'
  }

  /** What the parser makes of the text behind a finished field. */
  function Continue(strict: bool, read: Read, rest: string): Option<seq<seq<string>>>
    requires AtSeparator(rest)
  {
    if rest == "" then Some(EndRecord(read).records)
    else if rest[0] == ',' then ParseFrom(strict, Start, EndField(read), rest[1..])
    else ParseFrom(strict, Start, EndRecord(read), rest[1..])
  }

  predicate AllInGrammar(text: string) {
    forall c :: c in text ==> InGrammar(c)
  }

  predicate AllPrintable(text: string) {
    forall c :: c in text ==> IsPrintable(c)
  }

  /** The text has characters of the grammar only, and a carriage return in it is quoted, by way of another
      character that needs quotes. */
  predicate Fits(text: string) {
    AllInGrammar(text) && ('\r' in text ==> NeedsQuotes(text))
  }

  predicate IsReadable(strict: bool, text: string) {
    strict ==> Fits(text)
  }

  lemma PlainFits(text: string)
    requires !NeedsQuotes(text)
    ensures Fits(text) <==> AllPrintable(text)
  {
    if Fits(text) {
      forall c | c in text ensures IsPrintable(c) {
        assert InGrammar(c);
      }
    }
  }

  lemma PrintableStep(c: char, tail: string)
    ensures AllPrintable([c] + tail) <==> IsPrintable(c) && AllPrintable(tail)
    ensures AllInGrammar([c] + tail) <==> InGrammar(c) && AllInGrammar(tail)
  {
    var text := [c] + tail;
    assert c in text && forall d :: d in tail ==> d in text;
  }

  lemma AddTwo(read: Read, c: char, text: string)
    ensures Add(read, c).(field := Add(read, c).field + text) == read.(field := read.field + ([c] + text))
  {
    assert (read.field + [c]) + text == read.field + ([c] + text);
  }

  lemma {:induction false} ParsePlain(strict: bool, mode: Mode, read: Read, text: string, rest: string)
    requires (mode == Start || mode == Plain) && AtSeparator(rest) && !NeedsQuotes(text)
    ensures ParseFrom(strict, mode, read, text + rest)
         == if strict && !AllPrintable(text) then None
            else Continue(strict, read.(field := read.field + text), rest)
    decreases |text|
  {
    if text == "" {
      assert text + rest == rest && read.field + text == read.field;
    } else {
      var c, tail := text[0], text[1..];
      assert c in text && text == [c] + tail;
      assert (text + rest)[0] == c && (text + rest)[1..] == tail + rest;
      PrintableStep(c, tail);
      ParsePlain(strict, Plain, Add(read, c), tail, rest);
      AddTwo(read, c, tail);
    }
  }

  lemma ParseClose(strict: bool, read: Read, rest: string)
    requires AtSeparator(rest)
    ensures ParseFrom(strict, Quoted, read, "\"" + rest) == Continue(strict, read, rest)
  {
    assert ("\"" + rest)[0] == '"' && ("\"" + rest)[1..] == rest;
  }

  lemma ParseQuote(strict: bool, read: Read, rest: string)
    ensures ParseFrom(strict, Quoted, read, "\"\"" + rest) == ParseFrom(strict, Quoted, Add(read, '"'), rest)
  {
    var s := "\"\"" + rest;
    assert s[0] == '"' && s[1..] == "\"" + rest;
    assert s[1..][0] == '"' && s[1..][1..] == rest;
  }

  lemma {:induction false} ParseQuoted(strict: bool, read: Read, text: string, rest: string)
    requires AtSeparator(rest)
    ensures ParseFrom(strict, Quoted, read, Doubled(text) + ("\"" + rest))
         == if strict && !AllInGrammar(text) then None
            else Continue(strict, read.(field := read.field + text), rest)
    decreases |text|
  {
    var closing := "\"" + rest;
    if text == "" {
      assert Doubled(text) + closing == closing && read.field + text == read.field;
      ParseClose(strict, read, rest);
    } else {
      var c, tail := text[0], text[1..];
      assert text == [c] + tail;
      AddTwo(read, c, tail);
      PrintableStep(c, tail);
      ParseQuoted(strict, Add(read, c), tail, rest);
      var behind := Doubled(tail) + closing;
      if c == '"' {
        assert Doubled(text) + closing == "\"\"" + behind;
        ParseQuote(strict, read, behind);
      } else {
        assert (Doubled(text) + closing)[0] == c && (Doubled(text) + closing)[1..] == behind;
      }
    }
  }

  /** A printed cell is read back as its text; the strict parser stops at one that does not fit the grammar. */
  lemma ParseCell(strict: bool, read: Read, text: string, rest: string)
    requires read.field == "" && AtSeparator(rest)
    ensures ParseFrom(strict, Start, read, CsvCell(text) + rest)
         == if IsReadable(strict, text) then Continue(strict, read.(field := text), rest) else None
  {
    assert read.field + text == text;
    if NeedsQuotes(text) {
      var body := Doubled(text) + ("\"" + rest);
      assert CsvCell(text) + rest == "\"" + body;
      assert ("\"" + body)[0] == '"' && ("\"" + body)[1..] == body;
      ParseQuoted(strict, read, text, rest);
    } else {
      PlainFits(text);
      ParsePlain(strict, Start, read, text, rest);
    }
  }

  // ---------- Rows and tables ----------

  predicate IsReadableRow(strict: bool, row: seq<string>) {
    forall n :: 0 <= n < |row| ==> IsReadable(strict, row[n])
  }

  predicate AreReadable(strict: bool, rows: seq<seq<string>>) {
    forall n :: 0 <= n < |rows| ==> IsReadableRow(strict, rows[n])
  }

  lemma ReadableStep(strict: bool, row: seq<string>)
    requires row != []
    ensures IsReadableRow(strict, row) <==> IsReadable(strict, row[0]) && IsReadableRow(strict, row[1..])
  {
    assert forall n :: 1 <= n < |row| ==> row[n] == row[1..][n - 1];
  }

  lemma AllReadableStep(strict: bool, rows: seq<seq<string>>)
    requires rows != []
    ensures AreReadable(strict, rows) <==> IsReadableRow(strict, rows[0]) && AreReadable(strict, rows[1..])
  {
    assert forall n :: 1 <= n < |rows| ==> rows[n] == rows[1..][n - 1];
  }

  lemma ParseNext(strict: bool, read: Read, text: string, more: string)
    requires read.field == ""
    ensures ParseFrom(strict, Start, read, CsvCell(text) + ("," + more))
         == if IsReadable(strict, text)
            then ParseFrom(strict, Start, Read(read.records, read.fields + [text], ""), more)
            else None
  {
    ParseCell(strict, read, text, "," + more);
    assert ("," + more)[1..] == more;
  }

  /** What reading a whole row leaves to be ended: all its fields but the last, and the last one. */
  function RowRead(records: seq<seq<string>>, fields: seq<string>, row: seq<string>): Read
    requires row != []
  {
    Read(records, fields + row[..|row| - 1], row[|row| - 1])
  }

  lemma RowReadStep(records: seq<seq<string>>, fields: seq<string>, row: seq<string>)
    requires |row| > 1
    ensures RowRead(records, fields + [row[0]], row[1..]) == RowRead(records, fields, row)
  {
    assert (fields + [row[0]]) + row[1..][..|row| - 2] == fields + row[..|row| - 1];
  }

  lemma PrintedRowStep(row: seq<string>, rest: string)
    requires row != []
    ensures PrintedRow(row) + rest
         == if |row| == 1 then CsvCell(row[0]) + rest else CsvCell(row[0]) + ("," + (PrintedRow(row[1..]) + rest))
  {
    if |row| > 1 {
      ConcatAssociates(CsvCell(row[0]) + ",", PrintedRow(row[1..]), rest);
      ConcatAssociates(CsvCell(row[0]), ",", PrintedRow(row[1..]) + rest);
    }
  }

  lemma ParseLast(strict: bool, records: seq<seq<string>>, fields: seq<string>, row: seq<string>, rest: string)
    requires |row| == 1 && AtSeparator(rest)
    ensures ParseFrom(strict, Start, Read(records, fields, ""), CsvCell(row[0]) + rest)
         == if IsReadable(strict, row[0]) then Continue(strict, RowRead(records, fields, row), rest) else None
  {
    ParseCell(strict, Read(records, fields, ""), row[0], rest);
    assert fields + row[..0] == fields;
  }

  lemma {:induction false} ParseRow(strict: bool, records: seq<seq<string>>, fields: seq<string>, row: seq<string>,
                                    rest: string, printed: string)
    requires row != [] && AtSeparator(rest) && printed == PrintedRow(row) + rest
    ensures ParseFrom(strict, Start, Read(records, fields, ""), printed)
         == if IsReadableRow(strict, row) then Continue(strict, RowRead(records, fields, row), rest) else None
    decreases |row|
  {
    ReadableStep(strict, row);
    PrintedRowStep(row, rest);
    if |row| == 1 {
      ParseLast(strict, records, fields, row, rest);
    } else {
      var more := PrintedRow(row[1..]) + rest;
      ParseNext(strict, Read(records, fields, ""), row[0], more);
      ParseRow(strict, records, fields + [row[0]], row[1..], rest, more);
      RowReadStep(records, fields, row);
    }
  }

  lemma ParseRecord(strict: bool, records: seq<seq<string>>, row: seq<string>, rest: string)
    requires row != [] && (rest == "" || rest[0] == '\n')
    ensures ParseFrom(strict, Start, Read(records, [], ""), PrintedRow(row) + rest)
         == if !IsReadableRow(strict, row) then None
            else if rest == "" then Some(records + [row])
            else ParseFrom(strict, Start, Read(records + [row], [], ""), rest[1..])
  {
    ParseRow(strict, records, [], row, rest, PrintedRow(row) + rest);
    assert [] + row[..|row| - 1] == row[..|row| - 1];
    assert row[..|row| - 1] + [row[|row| - 1]] == row;
  }

  lemma ParseLastRecord(strict: bool, records: seq<seq<string>>, row: seq<string>)
    requires row != []
    ensures ParseFrom(strict, Start, Read(records, [], ""), PrintedRow(row))
         == if IsReadableRow(strict, row) then Some(records + [row]) else None
  {
    assert PrintedRow(row) + "" == PrintedRow(row);
    ParseRecord(strict, records, row, "");
  }

  lemma ParseNextRecord(strict: bool, records: seq<seq<string>>, row: seq<string>, more: string)
    requires row != []
    ensures ParseFrom(strict, Start, Read(records, [], ""), PrintedRow(row) + ("\n" + more))
         == if IsReadableRow(strict, row) then ParseFrom(strict, Start, Read(records + [row], [], ""), more) else None
  {
    ParseRecord(strict, records, row, "\n" + more);
    assert ("\n" + more)[1..] == more;
  }

  lemma PrintedStep(rows: seq<seq<string>>)
    requires rows != []
    ensures Printed(rows)
         == if |rows| == 1 then PrintedRow(rows[0]) else PrintedRow(rows[0]) + ("\n" + Printed(rows[1..]))
  {
    if |rows| > 1 {
      ConcatAssociates(PrintedRow(rows[0]), "\n", Printed(rows[1..]));
    }
  }

  lemma {:induction false} ParseRows(strict: bool, records: seq<seq<string>>, rows: seq<seq<string>>, printed: string)
    requires rows != [] && printed == Printed(rows) && forall n :: 0 <= n < |rows| ==> rows[n] != []
    ensures ParseFrom(strict, Start, Read(records, [], ""), printed)
         == if AreReadable(strict, rows) then Some(records + rows) else None
    decreases |rows|
  {
    var first, tail := rows[0], rows[1..];
    AllReadableStep(strict, rows);
    PrintedStep(rows);
    if |rows| == 1 {
      ParseLastRecord(strict, records, first);
      assert rows == [first];
    } else {
      var more := Printed(tail);
      ParseNextRecord(strict, records, first, more);
      ParseRows(strict, records + [first], tail, more);
      assert (records + [first]) + tail == records + rows;
    }
  }

  /** Every table with at least one row, and at least one cell in every row, is read back cell by cell; the
      strict parser does so exactly when every cell fits the grammar, and refuses it else. */
  lemma TableReadsBack(rows: seq<seq<string>>)
    requires rows != [] && forall n :: 0 <= n < |rows| ==> rows[n] != []
    ensures Parse(Printed(rows)) == Some(rows)
    ensures ParseStrictly(Printed(rows)) == if AreReadable(true, rows) then Some(rows) else None
  {
    ParseRows(false, [], rows, Printed(rows));
    ParseRows(true, [], rows, Printed(rows));
    assert [] + rows == rows;
  }

  /** A cell without quotes, commas and line feeds is printed as it is, any other in quotes. */
  lemma QuotedExactly(text: string)
    ensures CsvCell(text) == text <==> '"' !in text && ',' !in text && '\n' !in text
    ensures CsvCell(text) != text
            ==> |CsvCell(text)| >= 2 && CsvCell(text)[0] == '"' == CsvCell(text)[|CsvCell(text)| - 1]
  {
    DoubledIsLonger(text);
  }

  lemma {:induction false} DoubledIsLonger(text: string)
    ensures |Doubled(text)| >= |text|
  {
    if text != "" {
      DoubledIsLonger(text[1..]);
    }
  }

  // ---------- The report ----------

  datatype SiteReport = SiteReport(
    siteName: string,
    siteUrl: string,
    newCriticalFindings: nat,
    significantTrafficDrops: nat,
    completedTasks: nat,
    unresolvedRisks: nat,
    overdueTasks: nat,
    failedOperations: nat,
    newRegressions: nat,
    openRegressions: nat,
    outcomes: Outcomes,
    taskOutcomes: TaskOutcomes)

  datatype Outcomes = Outcomes(improved: nat, declined: nat, stable: nat, awaitingFollowup: nat)

  datatype TaskOutcomes = TaskOutcomes(improved: nat, stable: nat, declined: nat, inconclusive: nat,
                                       awaitingVerification: nat)

  function Numbers(site: SiteReport): seq<nat> {
    [site.newCriticalFindings, site.significantTrafficDrops, site.completedTasks, site.unresolvedRisks,
     site.overdueTasks, site.failedOperations, site.newRegressions, site.openRegressions,
     site.outcomes.improved, site.outcomes.declined, site.outcomes.stable, site.outcomes.awaitingFollowup,
     site.taskOutcomes.improved, site.taskOutcomes.stable, site.taskOutcomes.declined,
     site.taskOutcomes.inconclusive, site.taskOutcomes.awaitingVerification]
  }

  function CellsOf(site: SiteReport): seq<string> {
    [site.siteName, site.siteUrl] + Mapped(Numbers(site), Collector.Decimal)
  }

  function FormatClientReportCsv(sites: seq<SiteReport>): string {
    Printed([HEADER] + Mapped(sites, CellsOf))
  }

  /** The report is read back as its header and the cells of its sites, for all names and URLs. */
  lemma ReportReadsBack(sites: seq<SiteReport>)
    ensures Parse(FormatClientReportCsv(sites)) == Some([HEADER] + Mapped(sites, CellsOf))
  {
    var rows := [HEADER] + Mapped(sites, CellsOf);
    forall n | 0 <= n < |rows| ensures rows[n] != [] {
      assert n > 0 ==> rows[n] == CellsOf(sites[n - 1]);
    }
    TableReadsBack(rows);
  }

  /** A word of ASCII letters fits. */
  lemma WordFits(s: string)
    requires IsWord(s)
    ensures Fits(s)
  {
  }

  lemma HeaderIsReadable(header: seq<string>)
    requires forall n :: 0 <= n < |header| ==> IsWord(header[n])
    ensures IsReadableRow(true, header)
  {
    forall n | 0 <= n < |header| ensures Fits(header[n]) {
      WordFits(header[n]);
    }
  }

  /** Name and URL, then the numbers of the site, each in decimal digits. */
  lemma CellsInOrder(site: SiteReport)
    ensures |CellsOf(site)| == 19 && CellsOf(site)[0] == site.siteName && CellsOf(site)[1] == site.siteUrl
    ensures forall n :: 0 <= n < 17 ==> CellsOf(site)[n + 2] == Collector.Decimal(Numbers(site)[n])
  {
  }

  /** The numbers stand under the names of the header that say what they count. */
  lemma NumbersInOrder(site: SiteReport)
    ensures Numbers(site)[0] == site.newCriticalFindings && Numbers(site)[1] == site.significantTrafficDrops
    ensures Numbers(site)[2] == site.completedTasks && Numbers(site)[3] == site.unresolvedRisks
    ensures Numbers(site)[4] == site.overdueTasks && Numbers(site)[5] == site.failedOperations
    ensures Numbers(site)[6] == site.newRegressions && Numbers(site)[7] == site.openRegressions
    ensures Numbers(site)[8] == site.outcomes.improved && Numbers(site)[9] == site.outcomes.declined
    ensures Numbers(site)[10] == site.outcomes.stable && Numbers(site)[11] == site.outcomes.awaitingFollowup
    ensures Numbers(site)[12] == site.taskOutcomes.improved && Numbers(site)[13] == site.taskOutcomes.stable
    ensures Numbers(site)[14] == site.taskOutcomes.declined && Numbers(site)[15] == site.taskOutcomes.inconclusive
    ensures Numbers(site)[16] == site.taskOutcomes.awaitingVerification
  {
  }

  predicate SiteFits(site: SiteReport) {
    Fits(site.siteName) && Fits(site.siteUrl)
  }

  lemma SiteIsReadable(site: SiteReport)
    ensures IsReadableRow(true, CellsOf(site)) <==> SiteFits(site)
  {
    var cells, numbers := CellsOf(site), Numbers(site);
    assert cells[0] == site.siteName && cells[1] == site.siteUrl;
    forall n | 2 <= n < |cells| ensures Fits(cells[n]) {
      assert cells[n] == Collector.Decimal(numbers[n - 2]);
      Collector.DecimalIsDigits(numbers[n - 2]);
    }
  }

  lemma RowsReadable(header: seq<string>, sites: seq<SiteReport>)
    requires header != [] && IsReadableRow(true, header)
    ensures var rows := [header] + Mapped(sites, CellsOf);
            && (forall n :: 0 <= n < |rows| ==> rows[n] != [])
            && (AreReadable(true, rows) <==> forall n :: 0 <= n < |sites| ==> SiteFits(sites[n]))
  {
    var rows := [header] + Mapped(sites, CellsOf);
    assert rows[0] == header;
    forall n | 0 <= n < |sites|
      ensures rows[n + 1] != [] && (IsReadableRow(true, rows[n + 1]) <==> SiteFits(sites[n]))
    {
      assert rows[n + 1] == CellsOf(sites[n]);
      SiteIsReadable(sites[n]);
    }
    forall n | 1 <= n < |rows|
      ensures rows[n] != [] && (IsReadableRow(true, rows[n]) <==> SiteFits(sites[n - 1]))
    {
      assert rows[(n - 1) + 1] == rows[n];
    }
  }

  /** A strict parser reads the report back exactly when every name and URL consists of printable ASCII, CR and LF,
      and one that holds a CR also holds a quote, a comma or an LF; any other report it refuses. */
  lemma ReportReadsBackStrictly(sites: seq<SiteReport>)
    ensures ParseStrictly(FormatClientReportCsv(sites))
         == if forall n :: 0 <= n < |sites| ==> SiteFits(sites[n]) then Some([HEADER] + Mapped(sites, CellsOf))
            else None
  {
    HeaderIsWords();
    HeaderIsReadable(HEADER);
    RowsReadable(HEADER, sites);
    TableReadsBack([HEADER] + Mapped(sites, CellsOf));
  }

  lemma {:induction false} NumbersFromCells(a: seq<nat>, b: seq<nat>)
    requires Mapped(a, Collector.Decimal) == Mapped(b, Collector.Decimal)
    ensures a == b
  {
    assert |a| == |Mapped(a, Collector.Decimal)| == |b|;
    forall n | 0 <= n < |a| ensures a[n] == b[n] {
      assert Mapped(a, Collector.Decimal)[n] == Mapped(b, Collector.Decimal)[n];
      Collector.DecimalInjective(a[n], b[n]);
    }
  }

  /** The cells of a site give back the site. */
  lemma CellsTellSite(a: SiteReport, b: SiteReport)
    requires CellsOf(a) == CellsOf(b)
    ensures a == b
  {
    assert CellsOf(a)[0] == a.siteName && CellsOf(a)[1] == a.siteUrl;
    assert CellsOf(a)[2..] == Mapped(Numbers(a), Collector.Decimal);
    assert CellsOf(b)[2..] == Mapped(Numbers(b), Collector.Decimal);
    NumbersFromCells(Numbers(a), Numbers(b));
    NumbersTellSite(a, b);
  }

  lemma NumbersTellSite(a: SiteReport, b: SiteReport)
    requires Numbers(a) == Numbers(b)
    ensures a.(siteName := "", siteUrl := "") == b.(siteName := "", siteUrl := "")
  {
    var x, y := Numbers(a), Numbers(b);
    assert x[0] == y[0] && x[1] == y[1] && x[2] == y[2] && x[3] == y[3] && x[4] == y[4] && x[5] == y[5];
    assert x[6] == y[6] && x[7] == y[7] && x[8] == y[8] && x[9] == y[9] && x[10] == y[10] && x[11] == y[11];
    assert x[12] == y[12] && x[13] == y[13] && x[14] == y[14] && x[15] == y[15] && x[16] == y[16];
  }

  /** Different reports are different files. */
  lemma ReportsDiffer(a: seq<SiteReport>, b: seq<SiteReport>)
    requires FormatClientReportCsv(a) == FormatClientReportCsv(b)
    ensures a == b
  {
    ReportReadsBack(a);
    ReportReadsBack(b);
    var x, y := [HEADER] + Mapped(a, CellsOf), [HEADER] + Mapped(b, CellsOf);
    assert x == y && |a| == |x| - 1 == |b|;
    forall n | 0 <= n < |a| ensures a[n] == b[n] {
      assert x[n + 1] == CellsOf(a[n]) && y[n + 1] == CellsOf(b[n]);
      CellsTellSite(a[n], b[n]);
    }
  }
}
