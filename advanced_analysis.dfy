/**
 * The analysis panel of the results page (components/advanced-analysis.tsx): the
 * hand-built CSV download, the flattening of raw responses and of the chart data into
 * export rows, the four overall totals and the per-question pie data.
 */
module AdvancedAnalysis {
  import opened Wrappers
  import opened Strings
  import opened JsObject
  import opened Results
  import Catalog

  // ---------------------------------------------------------------- export rows

  /** A cell of an export row: a string, a count, or null/undefined (which `join` writes as ""). */
  datatype Cell = Text(text: string) | Count(n: nat) | Blank

  /** How `Array.prototype.join` writes a cell. */
  function CellText(c: Cell): string
  {
    match c
    case Text(t) => t
    case Count(n) => NatToString(n)
    case Blank => ""
  }

  function CellTexts(cells: seq<Cell>): (texts: seq<string>)
    ensures |texts| == |cells|
    ensures forall i :: 0 <= i < |cells| ==> texts[i] == CellText(cells[i])
  {
    seq(|cells|, i requires 0 <= i < |cells| => CellText(cells[i]))
  }

  /** An export row: a flat object whose key order gives the column order. */
  type Row = Obj<Cell>

  // ---------------------------------------------------------------- CSV as written

  const ExportErrorDescription := "Ocorreu um erro ao exportar os dados."

  datatype Download = Download(fileName: string, contents: string)

  /** What `exportToExcel` ends with: a file offered for download, or the error toast. */
  datatype ExportResult = Downloaded(file: Download) | ExportFailed(description: string)

  /** `Object.keys(data[0]).join(",")`. */
  function HeaderLine(row: Row): string
  {
    Join(Keys(row), ",")
  }

  /** `Object.values(row).join(",")`. */
  function ValueLine(row: Row): string
  {
    Join(CellTexts(Values(row)), ",")
  }

  /** `[headers, ...rows].join("\n")`: the first row's keys, then one line of values per row. */
  function CsvAsWritten(data: seq<Row>): string
    requires |data| >= 1
  {
    Join([HeaderLine(data[0])] + seq(|data|, i requires 0 <= i < |data| => ValueLine(data[i])), "\n")
  }

  /**
   * `exportToExcel`: `data[0]` of an empty list is undefined, so `Object.keys` throws,
   * the error is caught and the toast is shown instead of a download.
   */
  function ExportToExcel(data: seq<Row>, fileName: string): (r: ExportResult)
    ensures r.ExportFailed? <==> data == []
    ensures r.ExportFailed? ==> r.description == ExportErrorDescription
    ensures r.Downloaded? ==> r.file.fileName == fileName + ".csv" && r.file.contents == CsvAsWritten(data)
  {
    if data == [] then ExportFailed(ExportErrorDescription)
    else Downloaded(Download(fileName + ".csv", CsvAsWritten(data)))
  }

  /** No line break in any key of the first row nor in any cell. */
  predicate NoLineBreaks(data: seq<Row>)
    requires |data| >= 1
  {
    && (forall k :: 0 <= k < |data[0]| ==> '\n' !in Keys(data[0])[k])
    && (forall i :: 0 <= i < |data| ==> forall k :: 0 <= k < |data[i]| ==> '\n' !in CellTexts(Values(data[i]))[k])
  }

  /**
   * When no key or cell holds a line break, the CSV splits back into the header line
   * followed by one line per row: 1 + |data| lines.
   */
  lemma CsvAsWrittenLines(data: seq<Row>)
    requires |data| >= 1 && NoLineBreaks(data)
    ensures |Split(CsvAsWritten(data), '\n')| == 1 + |data|
    ensures Split(CsvAsWritten(data), '\n')[0] == HeaderLine(data[0])
    ensures forall i :: 0 <= i < |data| ==> Split(CsvAsWritten(data), '\n')[i + 1] == ValueLine(data[i])
  {
    var lines := [HeaderLine(data[0])] + seq(|data|, i requires 0 <= i < |data| => ValueLine(data[i]));
    JoinExcludes(Keys(data[0]), ",", '\n');
    forall i | 0 <= i < |data| ensures '\n' !in ValueLine(data[i]) {
      JoinExcludes(CellTexts(Values(data[i])), ",", '\n');
    }
    assert forall j :: 0 <= j < |lines| ==> '\n' !in lines[j] by {
      forall j | 0 <= j < |lines| ensures '\n' !in lines[j] {
        if j > 0 {
          assert lines[j] == ValueLine(data[j - 1]);
        }
      }
    }
    SplitJoin(lines, '\n');
  }

  /** A value line splits back into the row's cells when no cell holds a comma. */
  lemma ValueLineFields(row: Row)
    requires |row| >= 1
    requires forall k :: 0 <= k < |row| ==> ',' !in CellTexts(Values(row))[k]
    ensures Split(ValueLine(row), ',') == CellTexts(Values(row))
  {
    SplitJoin(CellTexts(Values(row)), ',');
  }

  /**
   * Fields are written verbatim: a cell holding a comma splits into more fields than the
   * row has columns. The analysis row of question q3, whose text contains a comma, is one.
   */
  lemma CommaInCellAddsField(row: Row, k: nat)
    requires k < |row| && ',' in CellTexts(Values(row))[k]
    ensures |Split(ValueLine(row), ',')| > |row|
  {
    var texts := CellTexts(Values(row));
    var i :| 0 <= i < |texts[k]| && texts[k][i] == ',';
    CountCharPositive(texts[k], ',', i);
    CountCharJoin(texts, ',');
  }

  /**
   * The analysis export of question q3 ("Quando recebo críticas nos, sou capaz ...") has
   * seven columns, yet its CSV line reads back as at least eight fields.
   */
  lemma AnalysisCsvCounterexample(t: Tally)
    ensures var row := AnalysisRow("Bloco 1", "3", Catalog.ResultsBlocks[0].questions[2].text, t).ToRow();
      |Keys(row)| == 7 && |Split(ValueLine(row), ',')| >= 8
  {
    var text := Catalog.ResultsBlocks[0].questions[2].text;
    var row := AnalysisRow("Bloco 1", "3", text, t).ToRow();
    assert text[26] == ',';
    assert CellTexts(Values(row))[2] == text;
    CommaInCellAddsField(row, 2);
  }

  // ---------------------------------------------------------------- CSV with quoting

  /** Every double quote written twice. */
  function Escape(s: string): (r: string)
    ensures |r| >= |s|
  {
    if s == [] then "" else (if s[0] == '"' then "\"\"" else [s[0]]) + Escape(s[1..])
  }

  /** A field between double quotes, inner quotes doubled. */
  function Quote(s: string): string
  {
    "\"" + Escape(s) + "\""
  }

  function QuotedLine(fields: seq<string>): string
  {
    Join(seq(|fields|, i requires 0 <= i < |fields| => Quote(fields[i])), ",")
  }

  /** The CSV with every field quoted: the same lines and columns as `CsvAsWritten`. */
  function QuotedCsv(data: seq<Row>): string
    requires |data| >= 1
  {
    Join([QuotedLine(Keys(data[0]))] + seq(|data|, i requires 0 <= i < |data| => QuotedLine(CellTexts(Values(data[i])))), "\n")
  }

  /** Whether the reader is inside a quoted field after reading `s` from state `quoted`. */
  function QuotedAfter(s: string, quoted: bool): bool
  {
    if s == [] then quoted else QuotedAfter(s[1..], if s[0] == '"' then !quoted else quoted)
  }

  /** The separators `c` a CSV reader sees in `s` (those outside quotes), starting in state `quoted`. */
  function UnquotedCount(s: string, c: char, quoted: bool): nat
  {
    if s == [] then 0
    else if s[0] == '"' then UnquotedCount(s[1..], c, !quoted)
    else (if !quoted && s[0] == c then 1 else 0) + UnquotedCount(s[1..], c, quoted)
  }

  lemma {:induction false} UnquotedAppend(a: string, b: string, c: char, quoted: bool)
    ensures UnquotedCount(a + b, c, quoted) == UnquotedCount(a, c, quoted) + UnquotedCount(b, c, QuotedAfter(a, quoted))
    ensures QuotedAfter(a + b, quoted) == QuotedAfter(b, QuotedAfter(a, quoted))
  {
    if a == [] {
      assert a + b == b;
    } else {
      assert (a + b)[1..] == a[1..] + b;
      UnquotedAppend(a[1..], b, c, if a[0] == '"' then !quoted else quoted);
    }
  }

  /** Inside quotes, an escaped field hides every separator and leaves the reader inside. */
  lemma {:induction false} EscapedStaysQuoted(s: string, c: char)
    requires c != '"'
    ensures UnquotedCount(Escape(s), c, true) == 0 && QuotedAfter(Escape(s), true)
  {
    if s != [] {
      var head := if s[0] == '"' then "\"\"" else [s[0]];
      EscapedStaysQuoted(s[1..], c);
      UnquotedAppend(head, Escape(s[1..]), c, true);
    }
  }

  /** A reader neither sees a separator in `s` nor ends up inside quotes. */
  predicate Neutral(s: string, c: char)
  {
    UnquotedCount(s, c, false) == 0 && !QuotedAfter(s, false)
  }

  lemma QuotedFieldNeutral(s: string, c: char)
    requires c != '"'
    ensures Neutral(Quote(s), c)
  {
    EscapedStaysQuoted(s, c);
    UnquotedAppend("\"", Escape(s), c, false);
    UnquotedAppend("\"" + Escape(s), "\"", c, false);
  }

  /** Joining neutral parts with `sep`: the reader sees exactly the separators between the parts. */
  lemma {:induction false} JoinNeutral(parts: seq<string>, sep: char, c: char)
    requires |parts| >= 1 && sep != '"'
    requires forall i :: 0 <= i < |parts| ==> Neutral(parts[i], c)
    ensures UnquotedCount(Join(parts, [sep]), c, false) == if sep == c then |parts| - 1 else 0
    ensures !QuotedAfter(Join(parts, [sep]), false)
  {
    if |parts| > 1 {
      JoinNeutral(parts[1..], sep, c);
      UnquotedAppend(parts[0], [sep], c, false);
      UnquotedAppend(parts[0] + [sep], Join(parts[1..], [sep]), c, false);
    }
  }

  lemma QuotedLineNeutral(fields: seq<string>, sep: char, c: char)
    requires |fields| >= 1 && c != '"'
    ensures UnquotedCount(QuotedLine(fields), c, false) == if c == ',' then |fields| - 1 else 0
    ensures !QuotedAfter(QuotedLine(fields), false)
  {
    var quoted := seq(|fields|, i requires 0 <= i < |fields| => Quote(fields[i]));
    forall i | 0 <= i < |quoted| ensures Neutral(quoted[i], c) {
      QuotedFieldNeutral(fields[i], c);
    }
    JoinNeutral(quoted, ',', c);
  }

  /**
   * Whatever the cells hold, a CSV reader sees 1 + |data| lines in the quoted CSV, and as
   * many unquoted commas in each line as there are column separators.
   */
  lemma QuotedCsvShape(data: seq<Row>)
    requires |data| >= 1 && |data[0]| >= 1
    ensures UnquotedCount(QuotedCsv(data), '\n', false) == |data|
    ensures UnquotedCount(QuotedLine(Keys(data[0])), ',', false) == |data[0]| - 1
    ensures forall i :: 0 <= i < |data| && |data[i]| >= 1 ==>
      UnquotedCount(QuotedLine(CellTexts(Values(data[i]))), ',', false) == |data[i]| - 1
  {
    var lines := [QuotedLine(Keys(data[0]))] + seq(|data|, i requires 0 <= i < |data| => QuotedLine(CellTexts(Values(data[i]))));
    forall j | 0 <= j < |lines| ensures Neutral(lines[j], '\n') {
      if j == 0 {
        QuotedLineNeutral(Keys(data[0]), ',', '\n');
      } else if |data[j - 1]| == 0 {
        assert lines[j] == "";
      } else {
        QuotedLineNeutral(CellTexts(Values(data[j - 1])), ',', '\n');
      }
    }
    JoinNeutral(lines, '\n', '\n');
    QuotedLineNeutral(Keys(data[0]), ',', ',');
    forall i | 0 <= i < |data| && |data[i]| >= 1
      ensures UnquotedCount(QuotedLine(CellTexts(Values(data[i]))), ',', false) == |data[i]| - 1
    {
      QuotedLineNeutral(CellTexts(Values(data[i])), ',', ',');
    }
  }

  // ---------------------------------------------------------------- raw data rows

  /** `Questão ${key.substring(1)}`. */
  function QuestionColumn(key: string): string
  {
    "Questão " + Substring1(key)
  }

  /** `period` as a cell: null stays empty. */
  function PeriodCell(period: Option<string>): Cell
  {
    match period
    case None => Blank
    case Some(p) => Text(p)
  }

  /** The answers renamed to their columns, in entry order. */
  function AnswerColumns(answers: Obj<string>): (fields: seq<Field<Cell>>)
    ensures |fields| == |answers|
    ensures forall i :: 0 <= i < |answers| ==> fields[i] == Field(QuestionColumn(answers[i].key), Text(answers[i].value))
  {
    seq(|answers|, i requires 0 <= i < |answers| => Field(QuestionColumn(answers[i].key), Text(answers[i].value)))
  }

  /** The three fixed columns; `formatDate` stands for `new Date(created_at).toLocaleString("pt-BR")`. */
  function FixedColumns(r: SurveyResponse, formatDate: string -> string): Row
  {
    [Field("ID", Text(r.id)), Field("Período", PeriodCell(r.period)), Field("Data de Criação", Text(formatDate(r.createdAt)))]
  }

  /** The fixed columns followed by the spread of `Object.entries(responseData || {}).reduce(...)`. */
  function RawRow(r: SurveyResponse, formatDate: string -> string): Row
  {
    Assign(FixedColumns(r, formatDate), Assign([], AnswerColumns(r.answers.GetOr([]))))
  }

  /** `prepareDataForExcel`: one row per response, in order. */
  function PrepareDataForExcel(rs: seq<SurveyResponse>, formatDate: string -> string): (rows: seq<Row>)
    ensures |rows| == |rs|
    ensures forall i :: 0 <= i < |rs| ==> rows[i] == RawRow(rs[i], formatDate)
  {
    seq(|rs|, i requires 0 <= i < |rs| => RawRow(rs[i], formatDate))
  }

  lemma QuestionColumnIsNotFixed(key: string)
    ensures QuestionColumn(key) != "ID" && QuestionColumn(key) != "Período" && QuestionColumn(key) != "Data de Criação"
  {
    assert QuestionColumn(key)[0] == 'Q';
  }

  /** The answer columns never overwrite a fixed column. */
  lemma FixedColumnKept(r: SurveyResponse, formatDate: string -> string, name: string)
    requires name == "ID" || name == "Período" || name == "Data de Criação"
    ensures Get(RawRow(r, formatDate), name) == Get(FixedColumns(r, formatDate), name)
  {
    var answers := r.answers.GetOr([]);
    var columns := AnswerColumns(answers);
    var spread := Assign([], columns);
    forall i | 0 <= i < |columns| ensures Keys(columns)[i] != name {
      QuestionColumnIsNotFixed(answers[i].key);
    }
    LastValueNone(columns, name);
    AssignGet([], columns, name);
    GetNone(spread, name);
    LastValueNone(spread, name);
    AssignGet(FixedColumns(r, formatDate), spread, name);
  }

  /** The column of an answer key holds the last answer renamed to that column. */
  lemma AnswerColumnKept(r: SurveyResponse, formatDate: string -> string, k: string)
    requires k in Keys(r.answers.GetOr([]))
    ensures Get(RawRow(r, formatDate), QuestionColumn(k)) == LastValue(AnswerColumns(r.answers.GetOr([])), QuestionColumn(k))
    ensures LastValue(AnswerColumns(r.answers.GetOr([])), QuestionColumn(k)).Some?
  {
    var answers := r.answers.GetOr([]);
    var columns := AnswerColumns(answers);
    var spread := Assign([], columns);
    var i :| 0 <= i < |answers| && Keys(answers)[i] == k;
    assert Keys(columns)[i] == QuestionColumn(k);
    LastValueNone(columns, QuestionColumn(k));
    AssignGet([], columns, QuestionColumn(k));
    AssignDistinct([], columns);
    LastValueGet(spread, QuestionColumn(k));
    AssignGet(FixedColumns(r, formatDate), spread, QuestionColumn(k));
  }

  /**
   * A raw row starts with the columns ID, Período and Data de Criação holding the id and
   * the period; each answer key k gives the column "Questão " + k.substring(1), holding the
   * last answer renamed to it; with no answers map there are no other columns.
   */
  lemma RawRowSpec(r: SurveyResponse, formatDate: string -> string)
    ensures var row := RawRow(r, formatDate);
      |row| >= 3 && row[0].key == "ID" && row[1].key == "Período" && row[2].key == "Data de Criação"
    ensures Get(RawRow(r, formatDate), "ID") == Some(Text(r.id))
    ensures Get(RawRow(r, formatDate), "Período") == Some(PeriodCell(r.period))
    ensures forall k :: k in Keys(r.answers.GetOr([])) ==>
      Get(RawRow(r, formatDate), QuestionColumn(k)) == LastValue(AnswerColumns(r.answers.GetOr([])), QuestionColumn(k))
    ensures forall k :: k in Keys(r.answers.GetOr([])) ==> Get(RawRow(r, formatDate), QuestionColumn(k)).Some?
    ensures r.answers.None? ==> RawRow(r, formatDate) == FixedColumns(r, formatDate)
  {
    var fixed := FixedColumns(r, formatDate);
    AssignKeepsKeys(fixed, Assign([], AnswerColumns(r.answers.GetOr([]))));
    FixedColumnKept(r, formatDate, "ID");
    FixedColumnKept(r, formatDate, "Período");
    forall k | k in Keys(r.answers.GetOr([]))
      ensures Get(RawRow(r, formatDate), QuestionColumn(k)) == LastValue(AnswerColumns(r.answers.GetOr([])), QuestionColumn(k))
      ensures Get(RawRow(r, formatDate), QuestionColumn(k)).Some?
    {
      AnswerColumnKept(r, formatDate, k);
    }
  }

  /** When no two answer keys share a column (as with "q1".."q26"), each column holds its own answer. */
  lemma RawRowAnswer(r: SurveyResponse, formatDate: string -> string, i: nat)
    requires r.answers.Some? && i < |r.answers.value|
    requires DistinctKeys(AnswerColumns(r.answers.value))
    ensures Get(RawRow(r, formatDate), QuestionColumn(r.answers.value[i].key)) == Some(Text(r.answers.value[i].value))
  {
    RawRowSpec(r, formatDate);
    assert r.answers.value[i].key in Keys(r.answers.value) by {
      assert Keys(r.answers.value)[i] == r.answers.value[i].key;
    }
    LastValueDistinct(AnswerColumns(r.answers.value), i);
  }

  // ---------------------------------------------------------------- analysis rows

  /** `blockId.replace("bloco", "Bloco ")`. */
  function BlockLabel(blockId: string): string
  {
    ReplaceFirst(blockId, "bloco", "Bloco ")
  }

  lemma BlockLabelSpec(suffix: string)
    ensures BlockLabel("bloco" + suffix) == "Bloco " + suffix
  {
    var id := "bloco" + suffix;
    assert OccursAt(id, "bloco", 0) by {
      assert id[0..5] == "bloco";
    }
    assert id[5..] == suffix;
  }

  /** One exported analysis row: block label, question number, question text and the four counts. */
  datatype AnalysisRow = AnalysisRow(bloco: string, questao: string, texto: string, tally: Tally) {

    /** The row as `exportToExcel` sees it, in the column order of the object literal. */
    function ToRow(): Row
    {
      [Field("Bloco", Text(bloco)), Field("Questão", Text(questao)), Field("Texto da Questão", Text(texto)),
       Field("Discordo Totalmente", Count(tally.stronglyDisagree)), Field("Discordo", Count(tally.disagree)),
       Field("Concordo", Count(tally.agree)), Field("Concordo Totalmente", Count(tally.stronglyAgree))]
    }
  }

  function BlockAnalysisRows(blockId: string, rows: seq<ChartRow>): (out: seq<AnalysisRow>)
    ensures |out| == |rows|
  {
    seq(|rows|, j requires 0 <= j < |rows| => AnalysisRow(BlockLabel(blockId), rows[j].questionNumber, rows[j].question, rows[j].tally))
  }

  /** Number of questions over all blocks of the chart data. */
  function QuestionTotal(chart: Obj<seq<ChartRow>>): nat
  {
    if chart == [] then 0 else QuestionTotal(chart[..|chart| - 1]) + |chart[|chart| - 1].value|
  }

  /** The analysis rows: blocks in entry order, questions in block order. */
  function AnalysisRowsOf(chart: Obj<seq<ChartRow>>): (rows: seq<AnalysisRow>)
    ensures |rows| == QuestionTotal(chart)
  {
    if chart == [] then []
    else
      var last := chart[|chart| - 1];
      AnalysisRowsOf(chart[..|chart| - 1]) + BlockAnalysisRows(last.key, last.value)
  }

  /** `prepareAnalysisForExcel`: pushes one row per question of each block. */
  method PrepareAnalysisForExcel(chart: Obj<seq<ChartRow>>) returns (result: seq<AnalysisRow>)
    ensures result == AnalysisRowsOf(chart)
  {
    result := [];
    for b := 0 to |chart|
      invariant result == AnalysisRowsOf(chart[..b])
    {
      var blockId := chart[b].key;
      var questions := chart[b].value;
      for j := 0 to |questions|
        invariant result == AnalysisRowsOf(chart[..b]) + BlockAnalysisRows(blockId, questions)[..j]
      {
        var question := questions[j];
        result := result + [AnalysisRow(BlockLabel(blockId), question.questionNumber, question.question, question.tally)];
      }
      assert chart[..b + 1][..b] == chart[..b];
    }
    assert chart[..|chart|] == chart;
  }

  /** Number of questions of the blocks before block `b`. */
  function Offset(chart: Obj<seq<ChartRow>>, b: nat): nat
    requires b <= |chart|
  {
    QuestionTotal(chart[..b])
  }

  /**
   * Question j of block b is analysis row Offset(b) + j: its label is the block id with
   * "bloco" replaced by "Bloco ", its number and text come from the chart row and its
   * counts are copied unchanged.
   */
  lemma {:induction false} AnalysisRowAt(chart: Obj<seq<ChartRow>>, b: nat, j: nat)
    requires b < |chart| && j < |chart[b].value|
    ensures Offset(chart, b) + j < QuestionTotal(chart)
    ensures AnalysisRowsOf(chart)[Offset(chart, b) + j] ==
      AnalysisRow(BlockLabel(chart[b].key), chart[b].value[j].questionNumber, chart[b].value[j].question, chart[b].value[j].tally)
  {
    var init := chart[..|chart| - 1];
    if b == |chart| - 1 {
      assert chart[..b] == init;
    } else {
      assert init[..b] == chart[..b];
      AnalysisRowAt(init, b, j);
    }
  }

  // ---------------------------------------------------------------- totals and pie data

  datatype Slice = Slice(name: string, value: nat)

  /** The four option counts, as `{ name, value }` entries in fixed option order. */
  function PieData(t: Tally): (data: seq<Slice>)
    ensures IsPie(data)
  {
    [Slice("Discordo Totalmente", t.stronglyDisagree), Slice("Discordo", t.disagree),
     Slice("Concordo", t.agree), Slice("Concordo Totalmente", t.stronglyAgree)]
  }

  predicate IsPie(data: seq<Slice>)
  {
    && |data| == 4
    && data[0].name == "Discordo Totalmente" && data[1].name == "Discordo"
    && data[2].name == "Concordo" && data[3].name == "Concordo Totalmente"
  }

  function SumRows(rows: seq<ChartRow>): Tally
  {
    if rows == [] then Zero else SumRows(rows[..|rows| - 1]).Plus(rows[|rows| - 1].tally)
  }

  /** Per option, the sum of that option's count over every question of every block. */
  function SumTally(chart: Obj<seq<ChartRow>>): Tally
  {
    if chart == [] then Zero else SumTally(chart[..|chart| - 1]).Plus(SumRows(chart[|chart| - 1].value))
  }

  lemma SumRowsStep(rows: seq<ChartRow>, j: nat, acc: Tally)
    requires j < |rows|
    ensures acc.Plus(SumRows(rows[..j])).Plus(rows[j].tally) == acc.Plus(SumRows(rows[..j + 1]))
  {
    assert rows[..j + 1][..j] == rows[..j];
  }

  lemma SumTallyStep(chart: Obj<seq<ChartRow>>, b: nat)
    requires b < |chart|
    ensures SumTally(chart[..b]).Plus(SumRows(chart[b].value)) == SumTally(chart[..b + 1])
  {
    assert chart[..b + 1][..b] == chart[..b];
  }

  /** The inner loop of `processAggregatedData`: adds every question's counts of one block to the totals. */
  method AddBlock(totals: Tally, questions: seq<ChartRow>) returns (sum: Tally)
    ensures sum == totals.Plus(SumRows(questions))
  {
    sum := totals;
    for j := 0 to |questions|
      invariant sum == totals.Plus(SumRows(questions[..j]))
    {
      SumRowsStep(questions, j, totals);
      sum := sum.Plus(questions[j].tally);
    }
    assert questions[..|questions|] == questions;
  }

  /** `processAggregatedData`: four totals accumulated over all questions, in fixed option order. */
  method ProcessAggregatedData(chart: Obj<seq<ChartRow>>) returns (data: seq<Slice>)
    ensures data == PieData(SumTally(chart))
  {
    var totals := Zero;
    for b := 0 to |chart|
      invariant totals == SumTally(chart[..b])
    {
      totals := AddBlock(totals, chart[b].value);
      SumTallyStep(chart, b);
    }
    assert chart[..|chart|] == chart;
    data := PieData(totals);
  }

  lemma Distribute(a: nat, b: nat, n: nat)
    ensures (a + b) * n == a * n + b * n
  {
  }

  lemma {:induction false} SumRowsBound(rows: seq<ChartRow>, n: nat)
    requires forall j :: 0 <= j < |rows| ==> rows[j].tally.Total() <= n
    ensures SumRows(rows).Total() <= |rows| * n
  {
    if rows != [] {
      SumRowsBound(rows[..|rows| - 1], n);
      Distribute(|rows| - 1, 1, n);
    }
  }

  /**
   * When every question's counts sum to at most n (n filtered responses, as the chart data
   * guarantees), the four totals together are at most n times the number of questions.
   */
  lemma {:induction false} AggregateBound(chart: Obj<seq<ChartRow>>, n: nat)
    requires forall b, j :: 0 <= b < |chart| && 0 <= j < |chart[b].value| ==> chart[b].value[j].tally.Total() <= n
    ensures SumTally(chart).Total() <= QuestionTotal(chart) * n
  {
    if chart != [] {
      var init := chart[..|chart| - 1];
      var last := chart[|chart| - 1].value;
      AggregateBound(init, n);
      SumRowsBound(last, n);
      Distribute(QuestionTotal(init), |last|, n);
    }
  }

  /** `${blockId}-q${question.questionNumber}`. */
  function QuestionKey(blockId: string, row: ChartRow): string
  {
    blockId + "-q" + row.questionNumber
  }

  function BlockQuestionEntries(blockId: string, rows: seq<ChartRow>): (entries: seq<Field<seq<Slice>>>)
    ensures |entries| == |rows|
  {
    seq(|rows|, j requires 0 <= j < |rows| => Field(QuestionKey(blockId, rows[j]), PieData(rows[j].tally)))
  }

  /** One pie entry per question, blocks in entry order and questions in block order. */
  function QuestionEntries(chart: Obj<seq<ChartRow>>): (entries: seq<Field<seq<Slice>>>)
    ensures |entries| == QuestionTotal(chart)
    ensures forall i :: 0 <= i < |entries| ==> IsPie(entries[i].value)
  {
    if chart == [] then []
    else
      var last := chart[|chart| - 1];
      QuestionEntries(chart[..|chart| - 1]) + BlockQuestionEntries(last.key, last.value)
  }

  lemma QuestionEntriesStep(chart: Obj<seq<ChartRow>>, b: nat)
    requires b < |chart|
    ensures QuestionEntries(chart[..b]) + BlockQuestionEntries(chart[b].key, chart[b].value) == QuestionEntries(chart[..b + 1])
  {
    assert chart[..b + 1][..b] == chart[..b];
  }

  lemma SliceAll<T>(s: seq<T>)
    ensures s[..|s|] == s
  {
  }

  lemma SnocSlice<T>(a: seq<T>, s: seq<T>, j: nat)
    requires j < |s|
    ensures (a + s[..j]) + [s[j]] == a + s[..j + 1]
  {
    assert s[..j + 1] == s[..j] + [s[j]];
  }

  /** The inner loop of `processQuestionData`: `result[key] = data` for each question of one block. */
  method AddBlockEntries(result: Obj<seq<Slice>>, ghost done: seq<Field<seq<Slice>>>, blockId: string, questions: seq<ChartRow>)
    returns (next: Obj<seq<Slice>>)
    requires result == Assign([], done)
    ensures next == Assign([], done + BlockQuestionEntries(blockId, questions))
  {
    next := result;
    var entries := BlockQuestionEntries(blockId, questions);
    assert done + entries[..0] == done;
    for j := 0 to |questions|
      invariant next == Assign([], done + entries[..j])
    {
      var question := questions[j];
      var entry := Field(QuestionKey(blockId, question), PieData(question.tally));
      ghost var before := done + entries[..j];
      assert entry == entries[j];
      AssignSnoc([], before, entry);
      next := Set(next, entry.key, entry.value);
      SnocSlice(done, entries, j);
    }
    SliceAll(entries);
  }

  /**
   * `processQuestionData`: `result[key] = data` for every question, so each key holds the pie
   * data of the last question with that key, always four slices in fixed option order.
   */
  method ProcessQuestionData(chart: Obj<seq<ChartRow>>) returns (result: Obj<seq<Slice>>)
    ensures result == Assign([], QuestionEntries(chart))
    ensures forall k :: Get(result, k) == LastValue(QuestionEntries(chart), k)
    ensures forall i :: 0 <= i < |result| ==> IsPie(result[i].value)
    ensures DistinctKeys(QuestionEntries(chart)) ==> result == QuestionEntries(chart)
  {
    result := [];
    for b := 0 to |chart|
      invariant result == Assign([], QuestionEntries(chart[..b]))
    {
      result := AddBlockEntries(result, QuestionEntries(chart[..b]), chart[b].key, chart[b].value);
      QuestionEntriesStep(chart, b);
    }
    assert chart[..|chart|] == chart;
    QuestionDataSpec(QuestionEntries(chart));
  }

  /** What assigning the pie entries in order yields. */
  lemma QuestionDataSpec(entries: seq<Field<seq<Slice>>>)
    requires forall i :: 0 <= i < |entries| ==> IsPie(entries[i].value)
    ensures forall k :: Get(Assign([], entries), k) == LastValue(entries, k)
    ensures forall i :: 0 <= i < |Assign([], entries)| ==> IsPie(Assign([], entries)[i].value)
    ensures DistinctKeys(entries) ==> Assign([], entries) == entries
  {
    var result := Assign([], entries);
    forall k ensures Get(result, k) == LastValue(entries, k) {
      AssignGet([], entries, k);
    }
    AssignDistinct([], entries);
    forall i | 0 <= i < |result| ensures IsPie(result[i].value) {
      GetAt(result, i);
      AssignGet([], entries, result[i].key);
      LastValueIsPie(entries, result[i].key);
    }
    if DistinctKeys(entries) {
      assert [] + entries == entries;
      AssignNewKeys([], entries);
    }
  }

  lemma {:induction false} LastValueIsPie(entries: seq<Field<seq<Slice>>>, k: string)
    requires forall i :: 0 <= i < |entries| ==> IsPie(entries[i].value)
    ensures LastValue(entries, k).Some? ==> IsPie(LastValue(entries, k).value)
  {
    if entries != [] {
      LastValueIsPie(entries[..|entries| - 1], k);
    }
  }

  // ---------------------------------------------------------------- the panel

  /** The panel's state: the overall pie and the per-question pies. */
  class AnalysisPanel {
    var aggregatedData: seq<Slice>
    var questionData: Obj<seq<Slice>>

    constructor()
      ensures aggregatedData == [] && questionData == []
    {
      aggregatedData := [];
      questionData := [];
    }

    /** The effect run when the responses or the chart data change: it recomputes only when both are non-empty. */
    method Refresh(responses: seq<SurveyResponse>, chart: Obj<seq<ChartRow>>)
      modifies this
      ensures |responses| > 0 && |chart| > 0 ==>
        aggregatedData == PieData(SumTally(chart)) && questionData == Assign([], QuestionEntries(chart))
      ensures !(|responses| > 0 && |chart| > 0) ==>
        aggregatedData == old(aggregatedData) && questionData == old(questionData)
    {
      if |responses| > 0 && |chart| > 0 {
        aggregatedData := ProcessAggregatedData(chart);
        questionData := ProcessQuestionData(chart);
      }
    }
  }
}
