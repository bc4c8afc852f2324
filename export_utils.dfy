/**
 * The spreadsheet export helpers (lib/export-utils.ts): the column width of the sheet,
 * the raw-data rows built from the keys of each answers map, and the analysis rows with
 * their Total column.
 */
module ExportUtils {
  import opened Wrappers
  import opened JsObject
  import opened Results
  import opened AdvancedAnalysis

  // ---------------------------------------------------------------- column widths

  /** `Object.keys(data[0] || {})`. */
  function FirstKeys(data: seq<Row>): seq<string>
  {
    if data == [] then [] else Keys(data[0])
  }

  /** `keys.reduce((acc, key) => Math.max(acc, key.length), acc)`. */
  function MaxKeyLength(keys: seq<string>, acc: nat): (w: nat)
    ensures w >= acc
    ensures forall i :: 0 <= i < |keys| ==> |keys[i]| <= w
    ensures w == acc || exists i :: 0 <= i < |keys| && |keys[i]| == w
  {
    if keys == [] then acc
    else
      var w := MaxKeyLength(keys[1..], if |keys[0]| > acc then |keys[0]| else acc);
      assert forall i :: 1 <= i < |keys| ==> keys[i] == keys[1..][i - 1];
      w
  }

  /** `maxWidth`: at least 10, and at least the length of every key of the first row. */
  function ColumnWidth(data: seq<Row>): (w: nat)
    ensures w >= 10
    ensures forall i :: 0 <= i < |FirstKeys(data)| ==> |FirstKeys(data)[i]| <= w
    ensures w == 10 || exists i :: 0 <= i < |FirstKeys(data)| && |FirstKeys(data)[i]| == w
    ensures data == [] ==> w == 10
  {
    MaxKeyLength(FirstKeys(data), 10)
  }

  /** `colWidths`: one `{ wch: maxWidth }` per key of the first row. */
  function ColumnWidths(data: seq<Row>): (widths: seq<nat>)
    ensures |widths| == |FirstKeys(data)|
    ensures forall i :: 0 <= i < |widths| ==> widths[i] == ColumnWidth(data)
    ensures data == [] ==> widths == []
  {
    seq(|FirstKeys(data)|, _ => ColumnWidth(data))
  }

  /** What `exportToExcel` hands to `XLSX.writeFile`: one sheet "Respostas" of the rows, with the column widths. */
  datatype Workbook = Workbook(fileName: string, sheetName: string, rows: seq<Row>, columnWidths: seq<nat>)

  function ExportToExcel(data: seq<Row>, fileName: string): (book: Workbook)
    ensures book.fileName == fileName + ".xlsx" && book.sheetName == "Respostas" && book.rows == data
    ensures book.columnWidths == ColumnWidths(data)
  {
    Workbook(fileName + ".xlsx", "Respostas", data, ColumnWidths(data))
  }

  // ---------------------------------------------------------------- raw data rows

  /**
   * `Object.keys(responseData).reduce(acc["Questão " + key.substring(1)] = responseData[key])`:
   * the value is looked up by key (it is always present, the default is never used).
   */
  function KeyedAnswerColumns(answers: Obj<string>): (fields: seq<Field<Cell>>)
    ensures |fields| == |answers|
  {
    seq(|answers|, i requires 0 <= i < |answers| =>
      Field(QuestionColumn(answers[i].key), Text(Get(answers, answers[i].key).GetOr(""))))
  }

  /** The fixed columns followed by the spread of the keyed answer columns. */
  function KeyedRawRow(r: SurveyResponse, formatDate: string -> string): Row
  {
    Assign(FixedColumns(r, formatDate), Assign([], KeyedAnswerColumns(r.answers.GetOr([]))))
  }

  /** `prepareDataForExcel`: one row per response, in order. */
  function PrepareDataForExcel(rs: seq<SurveyResponse>, formatDate: string -> string): (rows: seq<Row>)
    ensures |rows| == |rs|
    ensures forall i :: 0 <= i < |rs| ==> rows[i] == KeyedRawRow(rs[i], formatDate)
  {
    seq(|rs|, i requires 0 <= i < |rs| => KeyedRawRow(rs[i], formatDate))
  }

  /**
   * On answers maps with distinct keys (every JavaScript object), looking values up by key
   * gives the same rows as the entry-based flattening of the analysis panel.
   */
  lemma SameRawRowsAsPanel(rs: seq<SurveyResponse>, formatDate: string -> string)
    requires forall i :: 0 <= i < |rs| ==> DistinctKeys(rs[i].answers.GetOr([]))
    ensures PrepareDataForExcel(rs, formatDate) == AdvancedAnalysis.PrepareDataForExcel(rs, formatDate)
  {
    forall i | 0 <= i < |rs| ensures KeyedRawRow(rs[i], formatDate) == RawRow(rs[i], formatDate) {
      var answers := rs[i].answers.GetOr([]);
      forall j | 0 <= j < |answers| ensures KeyedAnswerColumns(answers)[j] == AnswerColumns(answers)[j] {
        GetAt(answers, j);
      }
      assert KeyedAnswerColumns(answers) == AnswerColumns(answers);
    }
  }

  /** A response without an answers map adds no question columns. */
  lemma NoAnswersNoColumns(r: SurveyResponse, formatDate: string -> string)
    requires r.answers.None?
    ensures KeyedRawRow(r, formatDate) == FixedColumns(r, formatDate)
  {
  }

  // ---------------------------------------------------------------- analysis rows with Total

  /** The analysis row followed by its "Total" column. */
  function TotalRow(a: AnalysisRow, total: nat): Row
  {
    a.ToRow() + [Field("Total", Count(total))]
  }

  function TotalRows(rows: seq<AnalysisRow>): (out: seq<Row>)
    ensures |out| == |rows|
  {
    seq(|rows|, i requires 0 <= i < |rows| => TotalRow(rows[i], rows[i].tally.Total()))
  }

  /** The inner loop of `prepareAnalysisForExcel`: one row per question of the block, Total computed from the four counts. */
  method PushBlockRows(result: seq<Row>, blockId: string, questions: seq<ChartRow>) returns (next: seq<Row>)
    ensures next == result + TotalRows(BlockAnalysisRows(blockId, questions))
  {
    next := result;
    ghost var rows := BlockAnalysisRows(blockId, questions);
    for j := 0 to |questions|
      invariant next == result + TotalRows(rows[..j])
    {
      var question := questions[j];
      var total := question.tally.stronglyDisagree + question.tally.disagree + question.tally.agree + question.tally.stronglyAgree;
      var row := AnalysisRow(BlockLabel(blockId), question.questionNumber, question.question, question.tally);
      assert row == rows[j];
      assert TotalRows(rows[..j + 1]) == TotalRows(rows[..j]) + [TotalRow(row, total)];
      next := next + [TotalRow(row, total)];
    }
    assert rows[..|questions|] == rows;
  }

  /** `prepareAnalysisForExcel`: the analysis rows of every block in entry order, each with its Total. */
  method PrepareAnalysisForExcel(chart: Obj<seq<ChartRow>>) returns (result: seq<Row>)
    ensures result == TotalRows(AnalysisRowsOf(chart))
  {
    result := [];
    for b := 0 to |chart|
      invariant result == TotalRows(AnalysisRowsOf(chart[..b]))
    {
      result := PushBlockRows(result, chart[b].key, chart[b].value);
      assert chart[..b + 1][..b] == chart[..b];
      TotalRowsAppend(AnalysisRowsOf(chart[..b]), BlockAnalysisRows(chart[b].key, chart[b].value));
    }
    assert chart[..|chart|] == chart;
  }

  lemma TotalRowsAppend(a: seq<AnalysisRow>, b: seq<AnalysisRow>)
    ensures TotalRows(a + b) == TotalRows(a) + TotalRows(b)
  {
  }

  /** The four option columns and the Total column of a row hold counts, and Total is their sum. */
  predicate TotalIsSum(row: Row)
  {
    && |row| == 8 && row[7].key == "Total"
    && row[3].value.Count? && row[4].value.Count? && row[5].value.Count? && row[6].value.Count? && row[7].value.Count?
    && row[7].value.n == row[3].value.n + row[4].value.n + row[5].value.n + row[6].value.n
  }

  /**
   * There is one row per question; every row carries the analysis panel's columns in the
   * same order, then a Total equal to the sum of its four option counts.
   */
  lemma AnalysisRowsWithTotal(chart: Obj<seq<ChartRow>>)
    ensures |TotalRows(AnalysisRowsOf(chart))| == QuestionTotal(chart)
    ensures forall i :: 0 <= i < QuestionTotal(chart) ==>
      TotalRows(AnalysisRowsOf(chart))[i][..7] == AnalysisRowsOf(chart)[i].ToRow()
    ensures forall i :: 0 <= i < QuestionTotal(chart) ==> TotalIsSum(TotalRows(AnalysisRowsOf(chart))[i])
  {
    var rows := AnalysisRowsOf(chart);
    forall i | 0 <= i < |rows| ensures TotalRows(rows)[i][..7] == rows[i].ToRow() && TotalIsSum(TotalRows(rows)[i]) {
      assert TotalRows(rows)[i] == rows[i].ToRow() + [Field("Total", Count(rows[i].tally.Total()))];
    }
  }
}
