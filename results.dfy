/**
 * The data side of the researchers' results page (app/results/page.tsx): question labels,
 * the period filter, the per-question counts of the four Likert options, the chart
 * height, the list of distinct periods and the number of responses per period.
 */
module Results {
  import opened Wrappers
  import opened Strings
  import opened JsObject
  import opened Catalog

  /** One row of `survey_responses` as the page receives it; `period` and `answers` may be null. */
  datatype SurveyResponse = SurveyResponse(id: string, period: Option<string>, answers: Option<Obj<string>>, createdAt: string)

  const NotInformed := "Não informado"
  const AllPeriods := "all"

  /** `response.period || "Não informado"`. */
  function PeriodLabel(r: SurveyResponse): string
  {
    if r.period.Some? && r.period.value != "" then r.period.value else NotInformed
  }

  // ---------------------------------------------------------------- labels

  /** `formatQuestionText`: long labels are cut to `maxLength` characters followed by "...". */
  function FormatQuestionText(text: string, maxLength: nat): (r: string)
    ensures |text| <= maxLength ==> r == text
    ensures |text| > maxLength ==> |r| == maxLength + 3 && r[..maxLength] == text[..maxLength] && r[maxLength..] == "..."
  {
    if |text| > maxLength then text[..maxLength] + "..." else text
  }

  /** Formatting an already formatted label changes nothing. */
  lemma FormatQuestionTextIdempotent(text: string, maxLength: nat)
    ensures FormatQuestionText(FormatQuestionText(text, maxLength), maxLength) == FormatQuestionText(text, maxLength)
  {
    var once := FormatQuestionText(text, maxLength);
    if |text| > maxLength {
      assert once[..maxLength] + "..." == once;
    }
  }

  /** The label length used for the current screen size. */
  function MaxTextLength(isMobile: bool, isSmallScreen: bool): nat
  {
    if isMobile then 20 else if isSmallScreen then 40 else 60
  }

  // ---------------------------------------------------------------- counting answers

  /** `Number.parseInt(responseData[questionId] || "0")` with `responseData = response.responses || {}`. */
  function AnswerValue(r: SurveyResponse, questionId: string): Option<int>
  {
    var raw := Get(r.answers.GetOr([]), questionId);
    ParseInt(if raw.Some? && raw.value != "" then raw.value else "0")
  }

  /** The counts of the options "Discordo Totalmente", "Discordo", "Concordo", "Concordo Totalmente". */
  datatype Tally = Tally(stronglyDisagree: nat, disagree: nat, agree: nat, stronglyAgree: nat) {

    function Total(): nat
    {
      stronglyDisagree + disagree + agree + stronglyAgree
    }

    function Plus(other: Tally): Tally
    {
      Tally(stronglyDisagree + other.stronglyDisagree, disagree + other.disagree,
            agree + other.agree, stronglyAgree + other.stronglyAgree)
    }
  }

  const Zero := Tally(0, 0, 0, 0)

  /** One vote for answer value `v` (1..4). */
  function Unit(v: int): Tally
    requires 1 <= v <= 4
  {
    if v == 1 then Tally(1, 0, 0, 0)
    else if v == 2 then Tally(0, 1, 0, 0)
    else if v == 3 then Tally(0, 0, 1, 0)
    else Tally(0, 0, 0, 1)
  }

  /** Number of responses whose answer to `questionId` parses to `v`. */
  function CountAnswers(rs: seq<SurveyResponse>, questionId: string, v: int): nat
  {
    if rs == [] then 0
    else CountAnswers(rs[..|rs| - 1], questionId, v) + (if AnswerValue(rs[|rs| - 1], questionId) == Some(v) then 1 else 0)
  }

  /** The four option counts of one question over a list of responses. */
  function TallyOf(rs: seq<SurveyResponse>, questionId: string): Tally
  {
    Tally(CountAnswers(rs, questionId, 1), CountAnswers(rs, questionId, 2),
          CountAnswers(rs, questionId, 3), CountAnswers(rs, questionId, 4))
  }

  /**
   * The `counts` loop of `processChartData`: every response whose answer parses to a
   * value v in 1..4 adds one to slot v - 1.
   */
  method CountOptions(rs: seq<SurveyResponse>, questionId: string) returns (t: Tally)
    ensures t == TallyOf(rs, questionId)
  {
    var counts := new nat[4](_ => 0);
    for i := 0 to |rs|
      invariant forall s :: 0 <= s < 4 ==> counts[s] == CountAnswers(rs[..i], questionId, s + 1)
    {
      var value := AnswerValue(rs[i], questionId);
      if value.Some? && 1 <= value.value <= 4 {
        counts[value.value - 1] := counts[value.value - 1] + 1;
      }
      assert rs[..i + 1][..i] == rs[..i];
    }
    assert rs[..|rs|] == rs;
    t := Tally(counts[0], counts[1], counts[2], counts[3]);
  }

  /** A single response counts once in the slot of its value when that is 1..4, and nowhere otherwise. */
  lemma TallyOfOne(r: SurveyResponse, questionId: string)
    ensures var v := AnswerValue(r, questionId);
      TallyOf([r], questionId) == if v.Some? && 1 <= v.value <= 4 then Unit(v.value) else Zero
  {
    assert [r][..0] == [];
    forall v ensures CountAnswers([r], questionId, v) == if AnswerValue(r, questionId) == Some(v) then 1 else 0 {
    }
  }

  lemma {:induction false} CountAnswersAppend(a: seq<SurveyResponse>, b: seq<SurveyResponse>, questionId: string, v: int)
    ensures CountAnswers(a + b, questionId, v) == CountAnswers(a, questionId, v) + CountAnswers(b, questionId, v)
  {
    if b == [] {
      assert a + b == a;
    } else {
      var init := b[..|b| - 1];
      assert (a + b)[..|a + b| - 1] == a + init;
      assert (a + b)[|a + b| - 1] == b[|b| - 1];
      CountAnswersAppend(a, init, questionId, v);
    }
  }

  /** Counting over two lists of responses adds up. */
  lemma TallyAppend(a: seq<SurveyResponse>, b: seq<SurveyResponse>, questionId: string)
    ensures TallyOf(a + b, questionId) == TallyOf(a, questionId).Plus(TallyOf(b, questionId))
  {
    CountAnswersAppend(a, b, questionId, 1);
    CountAnswersAppend(a, b, questionId, 2);
    CountAnswersAppend(a, b, questionId, 3);
    CountAnswersAppend(a, b, questionId, 4);
  }

  /** Each response counts at most once, so the four counts sum to at most the number of responses. */
  lemma {:induction false} TallyBound(rs: seq<SurveyResponse>, questionId: string)
    ensures TallyOf(rs, questionId).Total() <= |rs|
  {
    if rs != [] {
      TallyBound(rs[..|rs| - 1], questionId);
    }
  }

  /** A radio-button answer `v.toString()` for v in 1..4 is counted in option v. */
  lemma RadioAnswerCounted(r: SurveyResponse, questionId: string, v: nat)
    requires 1 <= v <= 4
    requires r.answers.Some? && Get(r.answers.value, questionId) == Some(NatToString(v))
    ensures AnswerValue(r, questionId) == Some(v)
    ensures TallyOf([r], questionId) == Unit(v)
  {
    ParseIntOfNatToString(v);
    TallyOfOne(r, questionId);
  }

  lemma ParseZero()
    ensures ParseInt("0") == Some(0)
  {
    ParseIntOfNatToString(0);
  }

  /** A response without an answer for the question adds nothing to its counts. */
  lemma {:induction false} UnansweredCountsNothing(rs: seq<SurveyResponse>, questionId: string)
    requires forall r :: r in rs && r.answers.Some? ==> questionId !in Keys(r.answers.value)
    ensures TallyOf(rs, questionId) == Zero
  {
    if rs != [] {
      var last := rs[|rs| - 1];
      var init := rs[..|rs| - 1];
      assert forall r :: r in init ==> r in rs;
      UnansweredCountsNothing(init, questionId);
      GetNone(last.answers.GetOr([]), questionId);
      ParseZero();
    }
  }

  /**
   * The survey form stores answers under the ids "01".."25", none of which is a question id
   * of the results catalog ("q1".."q26"): responses entered through the form are never counted.
   */
  lemma SurveyFormAnswersNeverCounted(rs: seq<SurveyResponse>, b: nat, j: nat)
    requires forall r, k :: r in rs && r.answers.Some? && k in Keys(r.answers.value) ==>
      exists sb, sq :: 0 <= sb < |SurveyBlocks| && 0 <= sq < |SurveyBlocks[sb].questions| && k == SurveyBlocks[sb].questions[sq].id
    requires b < |ResultsBlocks| && j < |ResultsBlocks[b].questions|
    ensures TallyOf(rs, ResultsBlocks[b].questions[j].id) == Zero
  {
    var qid := ResultsBlocks[b].questions[j].id;
    ResultsIdsStartWithQ();
    SurveyIdsAreDigits();
    assert qid[0] == 'q';
    forall r | r in rs && r.answers.Some? ensures qid !in Keys(r.answers.value) {
      forall k | k in Keys(r.answers.value) ensures k != qid {
        var sb, sq :| 0 <= sb < |SurveyBlocks| && 0 <= sq < |SurveyBlocks[sb].questions| && k == SurveyBlocks[sb].questions[sq].id;
        assert IsDigit(k[0]);
      }
    }
    UnansweredCountsNothing(rs, qid);
  }

  // ---------------------------------------------------------------- the period filter

  function KeepPeriod(rs: seq<SurveyResponse>, period: string): seq<SurveyResponse>
  {
    if rs == [] then []
    else (if rs[0].period == Some(period) then [rs[0]] else []) + KeepPeriod(rs[1..], period)
  }

  /** `periodFilter === "all" ? responses : responses.filter((r) => r.period === periodFilter)`. */
  function FilterByPeriod(rs: seq<SurveyResponse>, periodFilter: string): seq<SurveyResponse>
  {
    if periodFilter == AllPeriods then rs else KeepPeriod(rs, periodFilter)
  }

  lemma {:induction false} KeepPeriodLength(rs: seq<SurveyResponse>, period: string)
    ensures |KeepPeriod(rs, period)| <= |rs|
  {
    if rs != [] {
      KeepPeriodLength(rs[1..], period);
    }
  }

  lemma {:induction false} KeepPeriodSpec(rs: seq<SurveyResponse>, period: string)
    ensures forall x :: multiset(KeepPeriod(rs, period))[x] == if x.period == Some(period) then multiset(rs)[x] else 0
  {
    if rs != [] {
      KeepPeriodSpec(rs[1..], period);
      assert rs == [rs[0]] + rs[1..];
    }
  }

  /**
   * "all" keeps every response in order; any other filter keeps, with their multiplicity,
   * exactly the responses whose period equals it.
   */
  lemma FilterByPeriodSpec(rs: seq<SurveyResponse>, periodFilter: string)
    ensures periodFilter == AllPeriods ==> FilterByPeriod(rs, periodFilter) == rs
    ensures periodFilter != AllPeriods ==> forall x ::
      multiset(FilterByPeriod(rs, periodFilter))[x] == if x.period == Some(periodFilter) then multiset(rs)[x] else 0
    ensures |FilterByPeriod(rs, periodFilter)| <= |rs|
  {
    KeepPeriodSpec(rs, periodFilter);
    KeepPeriodLength(rs, periodFilter);
  }

  /** A response without a period is listed as "Não informado" yet only the "all" filter keeps it. */
  lemma MissingPeriodOnlyInAll(r: SurveyResponse, periodFilter: string)
    requires r.period.None?
    ensures PeriodLabel(r) == NotInformed
    ensures FilterByPeriod([r], periodFilter) == if periodFilter == AllPeriods then [r] else []
  {
    assert [r][1..] == [];
    assert KeepPeriod([r], periodFilter) == [] + KeepPeriod([], periodFilter);
  }

  // ---------------------------------------------------------------- chart data

  datatype ChartRow = ChartRow(question: string, questionShort: string, questionId: string, questionNumber: string, tally: Tally)

  /** The row of one question: its text, its short label, its id, the id without its first character, and its counts. */
  function RowFor(q: Question, t: Tally, maxLength: nat): ChartRow
  {
    ChartRow(q.text, FormatQuestionText(q.text, maxLength), q.id, Substring1(q.id), t)
  }

  /** The rows of one block for the given (already filtered) responses. */
  function BlockRows(filtered: seq<SurveyResponse>, block: ResultsBlock, maxLength: nat): (rows: seq<ChartRow>)
    ensures |rows| == |block.questions|
  {
    seq(|block.questions|, j requires 0 <= j < |block.questions| =>
      RowFor(block.questions[j], TallyOf(filtered, block.questions[j].id), maxLength))
  }

  /** The inner loop of `processChartData`: one row per question of the block, in order. */
  method ChartRowsOfBlock(filtered: seq<SurveyResponse>, block: ResultsBlock, maxLength: nat) returns (rows: seq<ChartRow>)
    ensures rows == BlockRows(filtered, block, maxLength)
  {
    rows := [];
    for j := 0 to |block.questions|
      invariant rows == BlockRows(filtered, block, maxLength)[..j]
    {
      var question := block.questions[j];
      var t := CountOptions(filtered, question.id);
      rows := rows + [RowFor(question, t, maxLength)];
    }
  }

  /** Every count of the chart is bounded by the number of filtered responses. */
  lemma BlockRowsBounded(filtered: seq<SurveyResponse>, block: ResultsBlock, maxLength: nat)
    ensures forall j :: 0 <= j < |block.questions| ==> BlockRows(filtered, block, maxLength)[j].tally.Total() <= |filtered|
  {
    forall j | 0 <= j < |block.questions| ensures BlockRows(filtered, block, maxLength)[j].tally.Total() <= |filtered| {
      TallyBound(filtered, block.questions[j].id);
    }
  }

  /**
   * `processChartData`: filters by period, then produces one entry per block id, in catalog
   * order, each with one row per catalog question, in catalog order.
   */
  method ProcessChartData(rs: seq<SurveyResponse>, periodFilter: string, isMobile: bool, isSmallScreen: bool)
    returns (chart: Obj<seq<ChartRow>>)
    ensures Keys(chart) == ResultsBlockIds()
    ensures forall b :: 0 <= b < |chart| ==>
      chart[b].value == BlockRows(FilterByPeriod(rs, periodFilter), ResultsBlocks[b], MaxTextLength(isMobile, isSmallScreen))
    ensures forall b, j :: 0 <= b < |chart| && 0 <= j < |chart[b].value| ==>
      chart[b].value[j].tally.Total() <= |FilterByPeriod(rs, periodFilter)|
  {
    var filtered := FilterByPeriod(rs, periodFilter);
    var maxTextLength := MaxTextLength(isMobile, isSmallScreen);
    var ids := ResultsBlockIds();
    ResultsCatalogShape();
    chart := [];
    for b := 0 to |ResultsBlocks|
      invariant Keys(chart) == ids[..b]
      invariant forall k :: 0 <= k < b ==> chart[k].value == BlockRows(filtered, ResultsBlocks[k], maxTextLength)
    {
      var block := ResultsBlocks[b];
      var rows := ChartRowsOfBlock(filtered, block, maxTextLength);
      assert block.id !in ids[..b];
      chart := Set(chart, block.id, rows);
      assert Keys(chart) == ids[..b] + [block.id];
    }
    assert ids[..|ResultsBlocks|] == ids;
    forall b | 0 <= b < |chart| ensures forall j :: 0 <= j < |chart[b].value| ==> chart[b].value[j].tally.Total() <= |filtered| {
      BlockRowsBounded(filtered, ResultsBlocks[b], maxTextLength);
    }
  }

  // ---------------------------------------------------------------- chart height

  /** `surveyBlocks.find((b) => b.id === blockId)?.questions.length || 0`. */
  function QuestionCount(blocks: seq<ResultsBlock>, blockId: string): nat
  {
    if blocks == [] then 0
    else if blocks[0].id == blockId then |blocks[0].questions|
    else QuestionCount(blocks[1..], blockId)
  }

  /** `getChartHeight`. */
  function ChartHeight(blockId: string, isMobile: bool, isSmallScreen: bool): nat
  {
    var n := QuestionCount(ResultsBlocks, blockId);
    if isMobile then (if 60 * n > 400 then 60 * n else 400)
    else if isSmallScreen then (if 50 * n > 500 then 50 * n else 500)
    else 700
  }

  /** Block ids the catalog does not know count as zero questions. */
  lemma {:induction false} QuestionCountUnknown(blocks: seq<ResultsBlock>, blockId: string)
    requires forall b :: b in blocks ==> b.id != blockId
    ensures QuestionCount(blocks, blockId) == 0
  {
    if blocks != [] {
      QuestionCountUnknown(blocks[1..], blockId);
    }
  }

  /** The height is at least 60 px (mobile) or 50 px (small screen) per question, never below 400 / 500, and 700 otherwise. */
  lemma ChartHeightSpec(blockId: string, isMobile: bool, isSmallScreen: bool)
    ensures var n := QuestionCount(ResultsBlocks, blockId); var h := ChartHeight(blockId, isMobile, isSmallScreen);
      (isMobile ==> h >= 400 && h >= 60 * n && (h == 400 || h == 60 * n)) &&
      (!isMobile && isSmallScreen ==> h >= 500 && h >= 50 * n && (h == 500 || h == 50 * n)) &&
      (!isMobile && !isSmallScreen ==> h == 700)
    ensures (forall k :: 0 <= k < |ResultsBlocks| ==> ResultsBlocks[k].id != blockId) ==>
      ChartHeight(blockId, isMobile, isSmallScreen) == if isMobile then 400 else if isSmallScreen then 500 else 700
  {
    if forall k :: 0 <= k < |ResultsBlocks| ==> ResultsBlocks[k].id != blockId {
      QuestionCountUnknown(ResultsBlocks, blockId);
    }
  }

  // ---------------------------------------------------------------- periods

  function PeriodLabels(rs: seq<SurveyResponse>): (labels: seq<string>)
    ensures |labels| == |rs|
  {
    seq(|rs|, i requires 0 <= i < |rs| => PeriodLabel(rs[i]))
  }

  /** `allResponses.map(period || "Não informado").filter(first occurrence).sort()`. */
  function AvailablePeriods(rs: seq<SurveyResponse>): seq<string>
  {
    SortStrings(Dedup(PeriodLabels(rs)))
  }

  /** The period list is sorted without duplicates and holds exactly the responses' period labels. */
  lemma AvailablePeriodsSpec(rs: seq<SurveyResponse>)
    ensures StrictlySorted(AvailablePeriods(rs))
    ensures forall p :: p in AvailablePeriods(rs) <==> exists r :: r in rs && PeriodLabel(r) == p
    ensures forall p :: p in AvailablePeriods(rs) ==> p == NotInformed || exists r :: r in rs && r.period == Some(p)
  {
    var labels := PeriodLabels(rs);
    var d := Dedup(labels);
    SortStringsCorrect(d);
    PermutationKeepsDistinct(d, AvailablePeriods(rs));
    SortedDistinctIsStrict(AvailablePeriods(rs));
    forall p ensures p in AvailablePeriods(rs) <==> p in labels {
      assert p in AvailablePeriods(rs) <==> p in multiset(AvailablePeriods(rs));
    }
    forall p ensures p in labels <==> exists r :: r in rs && PeriodLabel(r) == p {
      if p in labels {
        var i :| 0 <= i < |labels| && labels[i] == p;
        assert rs[i] in rs;
      }
      if exists r :: r in rs && PeriodLabel(r) == p {
        var r :| r in rs && PeriodLabel(r) == p;
        var i :| 0 <= i < |rs| && rs[i] == r;
        assert labels[i] == p;
      }
    }
  }

  /** What the period counters hold after the labels `seen`. */
  ghost predicate CountsOf(counts: Obj<nat>, seen: seq<string>)
  {
    && DistinctKeys(counts)
    && Keys(counts) == Dedup(seen)
    && (forall p :: Get(counts, p) == if p in seen then Some(Occurrences(seen, p)) else None)
    && SumValues(counts) == |seen|
  }

  lemma PeriodCountsStep(counts: Obj<nat>, seen: seq<string>, period: string)
    requires CountsOf(counts, seen)
    ensures CountsOf(Increment(counts, period), seen + [period])
  {
    var next := Increment(counts, period);
    var seen' := seen + [period];
    assert seen'[..|seen|] == seen;
    GetNone(counts, period);
    IncrementSum(counts, period);
    if period !in Keys(counts) {
      assert Keys(next) == Keys(counts) + [period];
    }
    forall p ensures Get(next, p) == if p in seen' then Some(Occurrences(seen', p)) else None {
      assert p in seen' <==> p in seen || p == period;
      assert Occurrences(seen', p) == Occurrences(seen, p) + if p == period then 1 else 0;
      if p != period {
        assert Get(next, p) == Get(counts, p);
      } else if period !in seen {
        OccurrencesAbsent(seen, period);
      }
    }
  }

  lemma CountsPositive(counts: Obj<nat>, seen: seq<string>)
    requires CountsOf(counts, seen)
    ensures forall i :: 0 <= i < |counts| ==> counts[i].value >= 1
  {
    forall i | 0 <= i < |counts| ensures counts[i].value >= 1 {
      GetAt(counts, i);
      OccurrencesPositive(seen, counts[i].key);
    }
  }

  /**
   * The `periodCounts` loop of `fetchData`: one counter per period label, created at its
   * first occurrence and incremented once per response.
   */
  method PeriodCounts(rs: seq<SurveyResponse>) returns (counts: Obj<nat>)
    ensures Keys(counts) == Dedup(PeriodLabels(rs))
    ensures forall p :: Get(counts, p) == if p in PeriodLabels(rs) then Some(Occurrences(PeriodLabels(rs), p)) else None
    ensures forall i :: 0 <= i < |counts| ==> counts[i].value >= 1
    ensures SumValues(counts) == |rs|
  {
    var labels := PeriodLabels(rs);
    counts := [];
    for i := 0 to |rs|
      invariant CountsOf(counts, labels[..i])
    {
      var period := PeriodLabel(rs[i]);
      assert labels[..i + 1] == labels[..i] + [period];
      PeriodCountsStep(counts, labels[..i], period);
      counts := Increment(counts, period);
    }
    assert labels[..|rs|] == labels;
    CountsPositive(counts, labels);
  }
}
