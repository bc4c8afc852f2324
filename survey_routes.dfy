/**
 * The routes over `survey_responses`: the two submission routes (POST /api/submit-survey
 * and POST /api/survey/submit, which differ only in the store client they use), the reset
 * route POST /api/admin/reset, and the listing GET /api/survey/responses.
 */
module SurveyRoutes {
  import opened Wrappers
  import opened JsObject
  import opened Store
  import opened Api

  const MissingFields := "Período e respostas são obrigatórios"
  const Saved := "Resposta salva com sucesso"
  const SaveFailedPrefix := "Erro ao salvar resposta: "
  const InternalPrefix := "Erro interno do servidor: "
  const InternalError := "Erro interno do servidor"
  const EmailsReset := "Emails resetados com sucesso"
  const ResetFailed := "Erro ao resetar emails"
  const InvalidReset := "Tipo de reset inválido"
  const ListFailed := "Erro ao buscar respostas"
  const CountFailed := "Erro ao contar emails"

  /** The id the reset's "delete all" condition excludes. */
  const NilUuid := "00000000-0000-0000-0000-000000000000"

  // ---------------------------------------------------------------- submit-survey, survey/submit

  /**
   * POST /api/submit-survey and POST /api/survey/submit: a missing period or answers map
   * gives 400; otherwise exactly one row with the period and the answers as received is
   * appended (ids and values are not checked), or a store error gives 500 with its message.
   */
  method SubmitSurvey(db: Database, request: SubmitRequest, newId: string, now: int, fault: Option<DbError>) returns (r: Reply)
    requires db.Valid()
    modifies db
    ensures db.Valid() && db.usedEmails == old(db.usedEmails)
    ensures request.UnparsableSubmit? ==>
      r == Reply(500, Outcome(false, InternalPrefix + request.reason)) && db.surveyResponses == old(db.surveyResponses)
    ensures request.JsonSubmit? && !(Present(request.period) && request.responses.Some?) ==>
      r == Reply(400, Outcome(false, MissingFields)) && db.surveyResponses == old(db.surveyResponses)
    ensures request.JsonSubmit? && Present(request.period) && request.responses.Some? && fault.Some? ==>
      r == Reply(500, Outcome(false, SaveFailedPrefix + fault.value.message)) && db.surveyResponses == old(db.surveyResponses)
    ensures request.JsonSubmit? && Present(request.period) && request.responses.Some? && fault.None? ==>
      && r == Reply(200, Outcome(true, Saved))
      && db.surveyResponses == old(db.surveyResponses) + [SurveyRow(newId, request.period.value, request.responses.value, now)]
  {
    match request
    case UnparsableSubmit(reason) =>
      return Reply(500, Outcome(false, InternalPrefix + reason));
    case JsonSubmit(period, responses) =>
      if !Present(period) || responses.None? {
        return Reply(400, Outcome(false, MissingFields));
      }
      var error := db.InsertResponse(period.value, responses.value, newId, now, fault);
      if error.Some? {
        return Reply(500, Outcome(false, SaveFailedPrefix + error.value.message));
      }
      return Reply(200, Outcome(true, Saved));
  }

  // ---------------------------------------------------------------- admin/reset

  /**
   * POST /api/admin/reset: only `resetType` "emails" is accepted; it deletes every
   * `used_emails` row whose id is not the nil UUID and never touches `survey_responses`.
   * Any other reset type, "all" included, gives 400 and deletes nothing.
   */
  method AdminReset(db: Database, request: ResetRequest, fault: Option<DbError>) returns (r: Reply)
    requires db.Valid()
    modifies db
    ensures db.Valid() && db.surveyResponses == old(db.surveyResponses)
    ensures request.UnparsableReset? ==> r == Reply(500, Outcome(false, InternalError)) && db.usedEmails == old(db.usedEmails)
    ensures request.JsonReset? && request.resetType != Some("emails") ==>
      r == Reply(400, Outcome(false, InvalidReset)) && db.usedEmails == old(db.usedEmails)
    ensures request == JsonReset(Some("emails")) && fault.Some? ==>
      r == Reply(500, Outcome(false, ResetFailed)) && db.usedEmails == old(db.usedEmails)
    ensures request == JsonReset(Some("emails")) && fault.None? ==>
      && r == Reply(200, Outcome(true, EmailsReset))
      && db.usedEmails == RowsWithId(old(db.usedEmails), NilUuid)
      && forall row :: row in db.usedEmails ==> row.id == NilUuid
  {
    match request
    case UnparsableReset =>
      return Reply(500, Outcome(false, InternalError));
    case JsonReset(resetType) =>
      if resetType == Some("emails") {
        var error := db.DeleteEmailsWhereIdNot(NilUuid, fault);
        if error.Some? {
          return Reply(500, Outcome(false, ResetFailed));
        }
        return Reply(200, Outcome(true, EmailsReset));
      }
      return Reply(400, Outcome(false, InvalidReset));
  }

  // ---------------------------------------------------------------- survey/responses

  predicate NewestFirst(rows: seq<SurveyRow>)
  {
    forall i, j :: 0 <= i < j < |rows| ==> rows[i].createdAt >= rows[j].createdAt
  }

  /** Inserts `row` into a newest-first sequence before the first row that is not newer. */
  function InsertByCreated(row: SurveyRow, rows: seq<SurveyRow>): (out: seq<SurveyRow>)
    requires NewestFirst(rows)
    ensures NewestFirst(out)
    ensures multiset(out) == multiset(rows) + multiset{row}
  {
    if rows == [] || rows[0].createdAt <= row.createdAt then [row] + rows
    else
      var rest := InsertByCreated(row, rows[1..]);
      assert rows == [rows[0]] + rows[1..];
      assert forall x :: x in rest ==> x.createdAt <= rows[0].createdAt by {
        forall x | x in rest ensures x.createdAt <= rows[0].createdAt {
          assert x in multiset(rest);
          if x != row {
            assert x in multiset(rows[1..]);
          }
        }
      }
      [rows[0]] + rest
  }

  /** `order("created_at", { ascending: false })`: the rows, newest first; ties come in no particular order. */
  function OrderByCreatedDesc(rows: seq<SurveyRow>): (out: seq<SurveyRow>)
    ensures NewestFirst(out)
    ensures multiset(out) == multiset(rows)
  {
    if rows == [] then []
    else
      assert rows == [rows[0]] + rows[1..];
      InsertByCreated(rows[0], OrderByCreatedDesc(rows[1..]))
  }

  /**
   * GET /api/survey/responses: every response, newest first, and the exact number of
   * `used_emails` rows; a failing responses query gives 500 before the count is asked for,
   * a failing count gives 500. The store is only read.
   */
  function ListResponses(responses: seq<SurveyRow>, usedEmails: seq<EmailRow>, listFault: Option<DbError>, countFault: Option<DbError>)
    : (r: Reply)
    ensures listFault.Some? ==> r == Reply(500, ErrorBody(ListFailed))
    ensures listFault.None? && countFault.Some? ==> r == Reply(500, ErrorBody(CountFailed))
    ensures listFault.None? && countFault.None? ==>
      && r.status == 200 && r.body.Listing?
      && NewestFirst(r.body.responses)
      && multiset(r.body.responses) == multiset(responses)
      && r.body.emailCount == |usedEmails|
  {
    if listFault.Some? then Reply(500, ErrorBody(ListFailed))
    else if countFault.Some? then Reply(500, ErrorBody(CountFailed))
    else Reply(200, Listing(OrderByCreatedDesc(responses), |usedEmails|))
  }

  /** A submission followed by a listing shows the new row, and the e-mail count is unchanged. */
  method SubmitThenList(db: Database, period: string, answers: Obj<string>, newId: string, now: int)
    returns (submitted: Reply, listed: Reply)
    requires db.Valid() && period != ""
    modifies db
    ensures submitted == Reply(200, Outcome(true, Saved))
    ensures listed.status == 200 && listed.body.Listing?
    ensures SurveyRow(newId, period, answers, now) in listed.body.responses
    ensures |listed.body.responses| == |old(db.surveyResponses)| + 1
    ensures listed.body.emailCount == |old(db.usedEmails)|
  {
    submitted := SubmitSurvey(db, JsonSubmit(Some(period), Some(answers)), newId, now, None);
    listed := ListResponses(db.surveyResponses, db.usedEmails, None, None);
    assert SurveyRow(newId, period, answers, now) in multiset(db.surveyResponses);
    assert |multiset(listed.body.responses)| == |multiset(db.surveyResponses)|;
  }
}
