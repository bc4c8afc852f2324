/**
 * The e-mail routes: the verdict of POST /api/check-email over a snapshot of `used_emails`,
 * and the two registration routes, POST /api/register-email (stores a salted hash of the
 * lowercased e-mail) and POST /api/emails/register (stores the lowercased e-mail).
 */
module EmailRoutes {
  import opened Wrappers
  import opened Strings
  import opened Store
  import opened Api
  import StudentAuth

  const EmailRequired := "Email é obrigatório"
  const CheckFailed := "Erro ao verificar email"
  const InternalError := "Erro interno do servidor"
  const UsedMessage := "Email já utilizado"
  const AvailableMessage := "Email disponível"
  const RegisterFailed := "Erro ao registrar email"
  const Registered := "Email registrado com sucesso"
  const AlreadyAnsweredQuestionnaire := "Este email já foi utilizado para responder ao questionário."
  const AlreadyAnsweredSurvey := "Este email já foi utilizado para responder à pesquisa."

  // ---------------------------------------------------------------- check-email

  /** The number of rows holding exactly `value`. */
  function MatchCount(rows: seq<EmailRow>, value: string): (n: nat)
    ensures n > 0 <==> value in EmailValues(rows)
    ensures n <= |rows|
    ensures DistinctEmails(rows) ==> n <= 1
  {
    if rows == [] then 0
    else
      var init := rows[..|rows| - 1];
      var last := rows[|rows| - 1];
      var n := MatchCount(init, value);
      assert EmailValues(rows) == EmailValues(init) + [last.email];
      assert DistinctEmails(rows) && last.email == value ==> value !in EmailValues(init) by {
        if DistinctEmails(rows) && last.email == value {
          forall i | 0 <= i < |init| ensures EmailValues(init)[i] != value {
            assert rows[i].email != rows[|rows| - 1].email;
          }
        }
      }
      n + (if last.email == value then 1 else 0)
  }

  /**
   * POST /api/check-email: a missing or empty e-mail gives 400 before the store is read; a
   * store error (including `maybeSingle` finding more than one row) gives 500 with an
   * error body; otherwise the verdict says whether the lowercased e-mail is stored as is.
   */
  function CheckEmail(request: EmailRequest, rows: seq<EmailRow>, fault: Option<DbError>): (r: Reply)
    ensures r.status in {200, 400, 500}
    ensures r.status == 400 <==> request.JsonEmail? && !Present(request.email)
    ensures r.status != 200 ==> r.body.ErrorBody?
    ensures r.status == 200 ==> request.JsonEmail? && Present(request.email) && fault.None?
    ensures r.status == 200 ==>
      && r.body.Verdict?
      && (r.body.isUsed <==> Lower(request.email.value) in EmailValues(rows))
      && r.body.message == (if r.body.isUsed then UsedMessage else AvailableMessage)
    ensures request.JsonEmail? && Present(request.email) && fault.None? && DistinctEmails(rows) ==> r.status == 200
  {
    match request
    case UnparsableEmail => Reply(500, ErrorBody(InternalError))
    case JsonEmail(email) =>
      if !Present(email) then Reply(400, ErrorBody(EmailRequired))
      else
        var n := MatchCount(rows, Lower(email.value));
        if fault.Some? || n > 1 then Reply(500, ErrorBody(CheckFailed))
        else
          var isUsed := n == 1;
          Reply(200, Verdict(isUsed, if isUsed then UsedMessage else AvailableMessage))
  }

  lemma LowerLength(s: string)
    ensures |Lower(s)| == |s|
  {
  }

  /** The verdict depends on the e-mail only through its lowercase form. */
  lemma CheckEmailCaseInsensitive(e1: string, e2: string, rows: seq<EmailRow>, fault: Option<DbError>)
    requires Lower(e1) == Lower(e2)
    ensures CheckEmail(JsonEmail(Some(e1)), rows, fault) == CheckEmail(JsonEmail(Some(e2)), rows, fault)
  {
    LowerLength(e1);
    LowerLength(e2);
  }

  // ---------------------------------------------------------------- register-email

  /**
   * POST /api/register-email: `saltedHash` is `bcrypt.hash` with this call's salt, applied
   * to the lowercased e-mail by `hashEmail`. The hash, never the e-mail, is inserted; a
   * "23505" error gives 409, any other error 500, success 201.
   */
  method RegisterEmail(db: Database, request: EmailRequest, saltedHash: string -> string, newId: string, fault: Option<DbError>)
    returns (r: Reply)
    requires db.Valid()
    modifies db
    ensures db.Valid() && db.surveyResponses == old(db.surveyResponses)
    ensures request.UnparsableEmail? ==> r == Reply(500, ErrorBody(RegisterFailed)) && db.usedEmails == old(db.usedEmails)
    ensures request.JsonEmail? && !Present(request.email) ==>
      r == Reply(400, ErrorBody(EmailRequired)) && db.usedEmails == old(db.usedEmails)
    ensures request.JsonEmail? && Present(request.email) ==>
      var hashed := saltedHash(Lower(request.email.value));
      && (fault.Some? ==>
            && db.usedEmails == old(db.usedEmails)
            && r == if fault.value.code == UniqueViolation then Reply(409, Outcome(false, AlreadyAnsweredQuestionnaire))
                    else Reply(500, Outcome(false, RegisterFailed)))
      && (fault.None? && db.emailUnique && hashed in EmailValues(old(db.usedEmails)) ==>
            db.usedEmails == old(db.usedEmails) && r == Reply(409, Outcome(false, AlreadyAnsweredQuestionnaire)))
      && (fault.None? && !(db.emailUnique && hashed in EmailValues(old(db.usedEmails))) ==>
            db.usedEmails == old(db.usedEmails) + [EmailRow(newId, hashed)] && r == Reply(201, Outcome(true, Registered)))
  {
    match request
    case UnparsableEmail =>
      return Reply(500, ErrorBody(RegisterFailed));
    case JsonEmail(email) =>
      if !Present(email) {
        return Reply(400, ErrorBody(EmailRequired));
      }
      var hashed := saltedHash(Lower(email.value));
      var error := db.InsertEmail(hashed, newId, fault);
      if error.Some? {
        if error.value.code == UniqueViolation {
          return Reply(409, Outcome(false, AlreadyAnsweredQuestionnaire));
        }
        return Reply(500, Outcome(false, RegisterFailed));
      }
      return Reply(201, Outcome(true, Registered));
  }

  // ---------------------------------------------------------------- emails/register

  /**
   * POST /api/emails/register: the lowercased e-mail itself is inserted; a "23505" error
   * gives 409, any other error 500, success the default 200.
   */
  method RegisterLowercased(db: Database, request: EmailRequest, newId: string, fault: Option<DbError>) returns (r: Reply)
    requires db.Valid()
    modifies db
    ensures db.Valid() && db.surveyResponses == old(db.surveyResponses)
    ensures request.UnparsableEmail? ==> r == Reply(500, Outcome(false, InternalError)) && db.usedEmails == old(db.usedEmails)
    ensures request.JsonEmail? && !Present(request.email) ==>
      r == Reply(400, ErrorBody(EmailRequired)) && db.usedEmails == old(db.usedEmails)
    ensures request.JsonEmail? && Present(request.email) ==>
      var stored := Lower(request.email.value);
      && (fault.Some? ==>
            && db.usedEmails == old(db.usedEmails)
            && r == if fault.value.code == UniqueViolation then Reply(409, Outcome(false, AlreadyAnsweredSurvey))
                    else Reply(500, Outcome(false, RegisterFailed)))
      && (fault.None? && db.emailUnique && stored in EmailValues(old(db.usedEmails)) ==>
            db.usedEmails == old(db.usedEmails) && r == Reply(409, Outcome(false, AlreadyAnsweredSurvey)))
      && (fault.None? && !(db.emailUnique && stored in EmailValues(old(db.usedEmails))) ==>
            db.usedEmails == old(db.usedEmails) + [EmailRow(newId, stored)] && r == Reply(200, Outcome(true, Registered)))
  {
    match request
    case UnparsableEmail =>
      return Reply(500, Outcome(false, InternalError));
    case JsonEmail(email) =>
      if !Present(email) {
        return Reply(400, ErrorBody(EmailRequired));
      }
      var error := db.InsertEmail(Lower(email.value), newId, fault);
      if error.Some? {
        if error.value.code == UniqueViolation {
          return Reply(409, Outcome(false, AlreadyAnsweredSurvey));
        }
        return Reply(500, Outcome(false, RegisterFailed));
      }
      return Reply(200, Outcome(true, Registered));
  }

  /**
   * With the lowercased variant and the uniqueness constraint, registering then checking
   * says "used", and a second registration of the same e-mail (in any case) gives 409.
   */
  method RegisterLowercasedTwice(db: Database, email: string, sameInOtherCase: string, id1: string, id2: string)
    returns (first: Reply, verdict: Reply, second: Reply)
    requires db.Valid() && db.emailUnique
    requires email != "" && Lower(sameInOtherCase) == Lower(email)
    modifies db
    ensures first.status in {200, 409}
    ensures verdict == Reply(200, Verdict(true, UsedMessage))
    ensures second == Reply(409, Outcome(false, AlreadyAnsweredSurvey))
    ensures db.usedEmails == old(db.usedEmails) || db.usedEmails == old(db.usedEmails) + [EmailRow(id1, Lower(email))]
  {
    first := RegisterLowercased(db, JsonEmail(Some(email)), id1, None);
    assert Lower(email) in EmailValues(db.usedEmails) by {
      if first.status == 200 {
        assert EmailValues(db.usedEmails)[|db.usedEmails| - 1] == Lower(email);
      }
    }
    verdict := CheckEmail(JsonEmail(Some(email)), db.usedEmails, None);
    LowerLength(email);
    LowerLength(sameInOtherCase);
    second := RegisterLowercased(db, JsonEmail(Some(sameInOtherCase)), id2, None);
  }

  // ---------------------------------------------------------------- the hashed variant

  /** The shape of a bcrypt hash: it starts with "$" (as in "$2b$10$..."). */
  predicate BcryptShaped(h: string)
  {
    |h| > 0 && h[0] == '$'
  }

  /** An address accepted by the student page's validator never contains "$". */
  lemma ValidEmailHasNoDollar(email: string)
    requires StudentAuth.EmailPattern(email)
    ensures '$' !in email
  {
    var at: nat, dot: nat :| StudentAuth.MatchesAt(email, at, dot);
    forall i | 0 <= i < |email| ensures email[i] != '$' {
      if i < at {
        assert StudentAuth.LocalChar(email[..at][i]);
      } else if at < i < dot {
        assert StudentAuth.DomainChar(email[at + 1..dot][i - at - 1]);
      } else if dot < i {
        assert StudentAuth.IsLetter(email[dot + 1..][i - dot - 1]);
      }
    }
  }

  /** Against a table of bcrypt hashes, the plaintext lookup of check-email never finds an e-mail without "$". */
  lemma HashedRowsNeverMatch(rows: seq<EmailRow>, email: string)
    requires forall i :: 0 <= i < |rows| ==> BcryptShaped(rows[i].email)
    requires email != "" && '$' !in email
    ensures CheckEmail(JsonEmail(Some(email)), rows, None) == Reply(200, Verdict(false, AvailableMessage))
  {
    var lowered := Lower(email);
    assert lowered[0] == LowerChar(email[0]);
    forall i | 0 <= i < |rows| ensures EmailValues(rows)[i] != lowered {
      assert BcryptShaped(rows[i].email);
    }
  }

  /**
   * As written, a student who passed the page's validator can register twice through
   * /api/register-email: each registration stores a freshly salted hash, so the
   * uniqueness constraint never fires, and /api/check-email still answers "available".
   */
  method RegisterTwiceAsWritten(db: Database, email: string, salt1: string -> string, salt2: string -> string, id1: string, id2: string)
    returns (first: Reply, second: Reply, verdict: Reply)
    requires db.Valid()
    requires StudentAuth.EmailPattern(email)
    requires forall i :: 0 <= i < |db.usedEmails| ==> BcryptShaped(db.usedEmails[i].email)
    requires BcryptShaped(salt1(Lower(email))) && BcryptShaped(salt2(Lower(email)))
    requires salt1(Lower(email)) != salt2(Lower(email))
    requires salt1(Lower(email)) !in EmailValues(db.usedEmails) && salt2(Lower(email)) !in EmailValues(db.usedEmails)
    modifies db
    ensures first == Reply(201, Outcome(true, Registered)) && second == Reply(201, Outcome(true, Registered))
    ensures verdict == Reply(200, Verdict(false, AvailableMessage))
    ensures |db.usedEmails| == |old(db.usedEmails)| + 2
  {
    ValidEmailHasNoDollar(email);
    assert email != "" by {
      var at: nat, dot: nat :| StudentAuth.MatchesAt(email, at, dot);
    }
    ghost var h1 := salt1(Lower(email));
    first := RegisterEmail(db, JsonEmail(Some(email)), salt1, id1, None);
    assert db.usedEmails == old(db.usedEmails) + [EmailRow(id1, h1)];
    assert salt2(Lower(email)) !in EmailValues(db.usedEmails) by {
      assert EmailValues(db.usedEmails) == EmailValues(old(db.usedEmails)) + [h1];
    }
    second := RegisterEmail(db, JsonEmail(Some(email)), salt2, id2, None);
    assert forall i :: 0 <= i < |db.usedEmails| ==> BcryptShaped(db.usedEmails[i].email);
    HashedRowsNeverMatch(db.usedEmails, email);
    verdict := CheckEmail(JsonEmail(Some(email)), db.usedEmails, None);
  }

  /**
   * The check the hashed registration needs: compare the lowercased e-mail with every
   * stored hash (`compareEmailWithHash`, given as `matches`, which is `bcrypt.compare`).
   */
  method CheckEmailByHash(request: EmailRequest, rows: seq<EmailRow>, fault: Option<DbError>, matches: (string, string) -> bool)
    returns (r: Reply)
    ensures r.status in {200, 400, 500}
    ensures r.status == 400 <==> request.JsonEmail? && !Present(request.email)
    ensures r.status != 200 ==> r.body.ErrorBody?
    ensures r.status == 200 <==> request.JsonEmail? && Present(request.email) && fault.None?
    ensures r.status == 200 ==>
      && r.body.Verdict?
      && (r.body.isUsed <==> exists i :: 0 <= i < |rows| && matches(Lower(request.email.value), rows[i].email))
      && r.body.message == (if r.body.isUsed then UsedMessage else AvailableMessage)
  {
    match request
    case UnparsableEmail =>
      return Reply(500, ErrorBody(InternalError));
    case JsonEmail(email) =>
      if !Present(email) {
        return Reply(400, ErrorBody(EmailRequired));
      }
      if fault.Some? {
        return Reply(500, ErrorBody(CheckFailed));
      }
      var lowered := Lower(email.value);
      var isUsed := false;
      var i := 0;
      while i < |rows| && !isUsed
        invariant 0 <= i <= |rows|
        invariant isUsed <==> exists j :: 0 <= j < i && matches(lowered, rows[j].email)
      {
        isUsed := matches(lowered, rows[i].email);
        i := i + 1;
      }
      return Reply(200, Verdict(isUsed, if isUsed then UsedMessage else AvailableMessage));
  }

  /**
   * With the hash-comparing check, registering through /api/register-email and then
   * checking the same e-mail says "used", provided `bcrypt.compare` accepts the e-mail
   * against its own hash.
   */
  method RegisterThenCheckByHash(db: Database, email: string, saltedHash: string -> string, matches: (string, string) -> bool, id: string)
    returns (registered: Reply, verdict: Reply)
    requires db.Valid() && email != ""
    requires matches(Lower(email), saltedHash(Lower(email)))
    modifies db
    ensures registered.status in {201, 409}
    ensures verdict == Reply(200, Verdict(true, UsedMessage))
  {
    var hashed := saltedHash(Lower(email));
    ghost var before := db.usedEmails;
    registered := RegisterEmail(db, JsonEmail(Some(email)), saltedHash, id, None);
    assert exists i :: 0 <= i < |db.usedEmails| && db.usedEmails[i].email == hashed by {
      if db.emailUnique && hashed in EmailValues(before) {
        var i :| 0 <= i < |before| && EmailValues(before)[i] == hashed;
        assert db.usedEmails[i].email == hashed;
      } else {
        assert db.usedEmails[|db.usedEmails| - 1].email == hashed;
      }
    }
    verdict := CheckEmailByHash(JsonEmail(Some(email)), db.usedEmails, None, matches);
  }
}
