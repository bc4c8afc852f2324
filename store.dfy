/**
 * The two tables the API routes work on, `used_emails { id, email }` and
 * `survey_responses { id, period, responses, created_at }`, as an abstract store: inserts
 * that may fail (a uniqueness violation on `used_emails.email` is reported with code
 * "23505"), a bulk delete, and the snapshots the read-only routes look at. Store-assigned
 * ids, timestamps and store failures other than the uniqueness violation are parameters.
 */
module Store {
  import opened Wrappers
  import opened JsObject

  datatype EmailRow = EmailRow(id: string, email: string)

  datatype SurveyRow = SurveyRow(id: string, period: string, responses: Obj<string>, createdAt: int)

  /** A store error: its code (as in `error.code`) and its message. */
  datatype DbError = DbError(code: string, message: string)

  const UniqueViolation := "23505"
  const DuplicateEmail := DbError(UniqueViolation, "duplicate key value violates unique constraint")

  function EmailValues(rows: seq<EmailRow>): (values: seq<string>)
    ensures |values| == |rows|
    ensures forall i :: 0 <= i < |rows| ==> values[i] == rows[i].email
  {
    seq(|rows|, i requires 0 <= i < |rows| => rows[i].email)
  }

  predicate DistinctEmails(rows: seq<EmailRow>)
  {
    forall i, j :: 0 <= i < j < |rows| ==> rows[i].email != rows[j].email
  }

  /** The rows kept by `delete().neq("id", id)`: those whose id equals `id`. */
  function RowsWithId(rows: seq<EmailRow>, id: string): (kept: seq<EmailRow>)
    ensures |kept| <= |rows|
    ensures forall r :: r in kept <==> r in rows && r.id == id
  {
    if rows == [] then []
    else
      var init := RowsWithId(rows[..|rows| - 1], id);
      var last := rows[|rows| - 1];
      assert rows == rows[..|rows| - 1] + [last];
      if last.id == id then init + [last] else init
  }

  lemma RowsWithIdSnoc(rows: seq<EmailRow>, row: EmailRow, id: string)
    ensures RowsWithId(rows + [row], id) == RowsWithId(rows, id) + (if row.id == id then [row] else [])
  {
    assert (rows + [row])[..|rows + [row]| - 1] == rows;
  }

  /** Removing rows keeps distinct e-mail values distinct. */
  lemma RowsWithIdDistinct(rows: seq<EmailRow>, id: string)
    requires DistinctEmails(rows)
    ensures DistinctEmails(RowsWithId(rows, id))
  {
    if rows != [] {
      var init := rows[..|rows| - 1];
      RowsWithIdDistinct(init, id);
      var last := rows[|rows| - 1];
      assert forall r :: r in RowsWithId(init, id) ==> r.email != last.email by {
        forall r | r in RowsWithId(init, id) ensures r.email != last.email {
          var i :| 0 <= i < |init| && init[i] == r;
        }
      }
    }
  }

  /** The store. With `emailUnique` (the uniqueness constraint on `used_emails.email`), no two rows share an e-mail value. */
  class Database {
    var usedEmails: seq<EmailRow>
    var surveyResponses: seq<SurveyRow>
    const emailUnique: bool

    predicate Valid()
      reads this
    {
      emailUnique ==> DistinctEmails(usedEmails)
    }

    constructor(emailUnique: bool)
      ensures Valid()
      ensures this.emailUnique == emailUnique && usedEmails == [] && surveyResponses == []
    {
      this.emailUnique := emailUnique;
      usedEmails := [];
      surveyResponses := [];
    }

    /**
     * `from("used_emails").insert({ email: value })`: a store failure `fault` leaves the
     * table as it was; so does a value already present under the constraint, reported as
     * "23505"; otherwise one row is appended.
     */
    method InsertEmail(value: string, id: string, fault: Option<DbError>) returns (error: Option<DbError>)
      requires Valid()
      modifies this
      ensures Valid()
      ensures surveyResponses == old(surveyResponses)
      ensures fault.Some? ==> error == fault && usedEmails == old(usedEmails)
      ensures fault.None? && emailUnique && value in EmailValues(old(usedEmails)) ==>
        error == Some(DuplicateEmail) && usedEmails == old(usedEmails)
      ensures fault.None? && !(emailUnique && value in EmailValues(old(usedEmails))) ==>
        error.None? && usedEmails == old(usedEmails) + [EmailRow(id, value)]
    {
      if fault.Some? {
        return fault;
      }
      if emailUnique && value in EmailValues(usedEmails) {
        return Some(DuplicateEmail);
      }
      assert forall i :: 0 <= i < |usedEmails| ==> usedEmails[i].email != value || !emailUnique by {
        forall i | 0 <= i < |usedEmails| && emailUnique ensures usedEmails[i].email != value {
          assert EmailValues(usedEmails)[i] == usedEmails[i].email;
        }
      }
      usedEmails := usedEmails + [EmailRow(id, value)];
      return None;
    }

    /** `from("survey_responses").insert({ period, responses })`: one row appended, or nothing on a failure. */
    method InsertResponse(period: string, responses: Obj<string>, id: string, createdAt: int, fault: Option<DbError>)
      returns (error: Option<DbError>)
      requires Valid()
      modifies this
      ensures Valid()
      ensures usedEmails == old(usedEmails)
      ensures error == fault
      ensures fault.Some? ==> surveyResponses == old(surveyResponses)
      ensures fault.None? ==> surveyResponses == old(surveyResponses) + [SurveyRow(id, period, responses, createdAt)]
    {
      if fault.Some? {
        return fault;
      }
      surveyResponses := surveyResponses + [SurveyRow(id, period, responses, createdAt)];
      return None;
    }

    /** `from("used_emails").delete().neq("id", id)`: every row whose id differs from `id` is removed. */
    method DeleteEmailsWhereIdNot(id: string, fault: Option<DbError>) returns (error: Option<DbError>)
      requires Valid()
      modifies this
      ensures Valid()
      ensures surveyResponses == old(surveyResponses)
      ensures error == fault
      ensures fault.Some? ==> usedEmails == old(usedEmails)
      ensures fault.None? ==> usedEmails == RowsWithId(old(usedEmails), id)
    {
      if fault.Some? {
        return fault;
      }
      var rows := usedEmails;
      var kept: seq<EmailRow> := [];
      var i := 0;
      while i < |rows|
        invariant 0 <= i <= |rows|
        invariant kept == RowsWithId(rows[..i], id)
        modifies {}
      {
        var row := rows[i];
        assert rows[..i + 1] == rows[..i] + [row];
        RowsWithIdSnoc(rows[..i], row, id);
        if row.id == id {
          kept := kept + [row];
        }
        i := i + 1;
      }
      assert rows[..i] == rows;
      if emailUnique {
        RowsWithIdDistinct(rows, id);
      }
      usedEmails := kept;
      return None;
    }
  }
}
