/**
 * The student's entry page (app/student-auth/page.tsx): the e-mail syntax check, the
 * choice of the error message, and the check -> register -> authenticate sequence that
 * lets the student into the questionnaire.
 */
module StudentAuth {
  import opened Wrappers

  // ---------------------------------------------------------------- validateEmail

  predicate IsLetter(c: char)
  {
    'a' <= c <= 'z' || 'A' <= c <= 'Z'
  }

  predicate IsDigitChar(c: char)
  {
    '0' <= c <= '9'
  }

  /** `[a-zA-Z0-9._%+-]`. */
  predicate LocalChar(c: char)
  {
    IsLetter(c) || IsDigitChar(c) || c == '.' || c == '_' || c == '%' || c == '+' || c == '-'
  }

  /** `[a-zA-Z0-9.-]`. */
  predicate DomainChar(c: char)
  {
    IsLetter(c) || IsDigitChar(c) || c == '.' || c == '-'
  }

  predicate AllLocal(s: string)
  {
    forall i :: 0 <= i < |s| ==> LocalChar(s[i])
  }

  predicate AllDomain(s: string)
  {
    forall i :: 0 <= i < |s| ==> DomainChar(s[i])
  }

  predicate AllLetters(s: string)
  {
    forall i :: 0 <= i < |s| ==> IsLetter(s[i])
  }

  /**
   * The regular expression `^[a-zA-Z0-9._%+-]+@[a-zA-Z0-9.-]+\.[a-zA-Z]{2,}$` matched with
   * the "@" at index `at` and the last dot at index `dot`.
   */
  ghost predicate MatchesAt(s: string, at: nat, dot: nat)
  {
    && 1 <= at && at + 2 <= dot && dot + 3 <= |s|
    && s[at] == '@' && s[dot] == '.'
    && AllLocal(s[..at]) && AllDomain(s[at + 1..dot]) && AllLetters(s[dot + 1..])
  }

  /** The whole string matches the e-mail pattern for some choice of the "@" and the dot. */
  ghost predicate EmailPattern(s: string)
  {
    exists at: nat, dot: nat :: MatchesAt(s, at, dot)
  }

  /** The first index of `c` in `s`. */
  function FirstIndex(s: string, c: char): (r: Option<nat>)
    ensures r.Some? ==> r.value < |s| && s[r.value] == c && forall j :: 0 <= j < r.value ==> s[j] != c
    ensures r.None? ==> forall j :: 0 <= j < |s| ==> s[j] != c
  {
    if s == [] then None
    else if s[0] == c then Some(0)
    else
      match FirstIndex(s[1..], c)
      case None => None
      case Some(i) => Some(i + 1)
  }

  /** The last index of `c` in `s`. */
  function LastIndex(s: string, c: char): (r: Option<nat>)
    ensures r.Some? ==> r.value < |s| && s[r.value] == c && forall j :: r.value < j < |s| ==> s[j] != c
    ensures r.None? ==> forall j :: 0 <= j < |s| ==> s[j] != c
  {
    if s == [] then None
    else if s[|s| - 1] == c then Some(|s| - 1)
    else LastIndex(s[..|s| - 1], c)
  }

  /**
   * `validateEmail`: the local part runs up to the only "@" (local characters exclude "@"),
   * and the top-level domain starts after the last dot (it is made of letters only).
   */
  function ValidateEmail(s: string): (ok: bool)
    ensures ok <==> EmailPattern(s)
  {
    var at := FirstIndex(s, '@');
    var dot := LastIndex(s, '.');
    var ok := at.Some? && dot.Some? && 1 <= at.value && at.value + 2 <= dot.value && dot.value + 3 <= |s|
      && AllLocal(s[..at.value]) && AllDomain(s[at.value + 1..dot.value]) && AllLetters(s[dot.value + 1..]);
    ValidateEmailComplete(s);
    ok
  }

  /** Any match fixes the "@" at the first "@" and the dot at the last dot. */
  lemma ValidateEmailComplete(s: string)
    ensures var at := FirstIndex(s, '@'); var dot := LastIndex(s, '.');
      EmailPattern(s) <==>
        at.Some? && dot.Some? && MatchesAt(s, at.value, dot.value)
  {
    if EmailPattern(s) {
      var a: nat, d: nat :| MatchesAt(s, a, d);
      assert forall j :: 0 <= j < a ==> s[j] != '@' by {
        forall j | 0 <= j < a ensures s[j] != '@' {
          assert LocalChar(s[..a][j]);
        }
      }
      assert forall j :: d < j < |s| ==> s[j] != '.' by {
        forall j | d < j < |s| ensures s[j] != '.' {
          assert IsLetter(s[d + 1..][j - d - 1]);
        }
      }
    }
  }

  const MissingEmail := "Ei! Não esqueça de informar seu e-mail 😊"
  const InvalidEmail := "Ops! Esse e-mail parece estar incorreto. Tente novamente ✨"

  /** The e-mail error of `handleSubmit`; the period is not validated. */
  function EmailError(email: string): (error: Option<string>)
    ensures error == Some(MissingEmail) <==> email == ""
    ensures error == Some(InvalidEmail) <==> email != "" && !EmailPattern(email)
    ensures error.None? <==> EmailPattern(email)
  {
    if email == "" then
      assert !MatchesAt(email, 0, 0);
      Some(MissingEmail)
    else if !ValidateEmail(email) then Some(InvalidEmail)
    else None
  }

  // ---------------------------------------------------------------- handleSubmit

  const CheckPath := "/api/check-email"
  const RegisterPath := "/api/register-email"
  const AuthenticatedKey := "studentAuthenticated"

  /** A POST of `{ email }` to one of the two e-mail routes. */
  datatype EmailRequest = EmailRequest(path: string, email: string)

  /** The JSON body of the check reply (`isUsed` may be absent, as in an error body), or a thrown fetch/parse error. */
  datatype CheckReply = CheckBody(isUsed: Option<bool>) | CheckThrew

  /** Whether the register reply was ok, with the `message` of its JSON body if any, or a thrown fetch/parse error. */
  datatype RegisterReply = RegisterBody(ok: bool, message: Option<string>) | RegisterThrew

  datatype Toast = Toast(title: string, description: string)

  const UsedToast := Toast("Este e-mail já foi usado!", "Parece que esse e-mail já participou do estudo. 😊")
  const GenericErrorToast := Toast("Erro", "Algo deu errado ao processar sua solicitação. Que tal tentar novamente? 😊")

  function RegisterErrorToast(message: Option<string>): Toast
  {
    Toast("Erro", if message.Some? && message.value != "" then message.value else "Ops, deu ruim no registro do e-mail! Tenta de novo?")
  }

  /** The page's state: the form, the error shown, the requests sent, the toasts, session storage and the redirect. */
  class StudentAuthPage {
    var email: string
    var period: string
    var emailError: Option<string>
    var isSubmitting: bool
    var requests: seq<EmailRequest>
    var toasts: seq<Toast>
    var session: map<string, string>
    var redirectedToSurvey: bool

    constructor(email: string, period: string, session: map<string, string>)
      ensures this.email == email && this.period == period && this.session == session
      ensures emailError.None? && !isSubmitting && requests == [] && toasts == [] && !redirectedToSurvey
    {
      this.email := email;
      this.period := period;
      this.session := session;
      emailError := None;
      isSubmitting := false;
      requests := [];
      toasts := [];
      redirectedToSurvey := false;
    }

    /**
     * `handleSubmit`: a validation error stops before any request; otherwise the check is
     * sent, a reply saying `isUsed` stops before the register, and only an ok register
     * reply sets `studentAuthenticated` and redirects to the questionnaire.
     */
    method HandleSubmit(check: CheckReply, register: RegisterReply)
      modifies this
      ensures email == old(email) && period == old(period)
      ensures emailError == EmailError(email)
      ensures emailError.Some? ==>
        && requests == old(requests) && toasts == old(toasts) && session == old(session)
        && isSubmitting == old(isSubmitting) && redirectedToSurvey == old(redirectedToSurvey)
      ensures emailError.None? && (check.CheckThrew? || check.isUsed == Some(true)) ==>
        && requests == old(requests) + [EmailRequest(CheckPath, email)]
        && toasts == old(toasts) + [if check.CheckThrew? then GenericErrorToast else UsedToast]
        && session == old(session) && !isSubmitting && redirectedToSurvey == old(redirectedToSurvey)
      ensures emailError.None? && check.CheckBody? && check.isUsed != Some(true) ==>
        requests == old(requests) + [EmailRequest(CheckPath, email), EmailRequest(RegisterPath, email)]
      ensures emailError.None? && check.CheckBody? && check.isUsed != Some(true) && register.RegisterBody? && register.ok ==>
        && session == old(session)[AuthenticatedKey := "true"] && redirectedToSurvey && isSubmitting
        && toasts == old(toasts)
      ensures emailError.None? && check.CheckBody? && check.isUsed != Some(true) && !(register.RegisterBody? && register.ok) ==>
        && session == old(session) && !isSubmitting && redirectedToSurvey == old(redirectedToSurvey)
        && toasts == old(toasts) + [if register.RegisterThrew? then GenericErrorToast else RegisterErrorToast(register.message)]
    {
      emailError := EmailError(email);
      if emailError.Some? {
        return;
      }
      isSubmitting := true;
      requests := requests + [EmailRequest(CheckPath, email)];
      if check.CheckThrew? {
        toasts := toasts + [GenericErrorToast];
        isSubmitting := false;
        return;
      }
      if check.isUsed == Some(true) {
        toasts := toasts + [UsedToast];
        isSubmitting := false;
        return;
      }
      requests := requests + [EmailRequest(RegisterPath, email)];
      if register.RegisterThrew? {
        toasts := toasts + [GenericErrorToast];
        isSubmitting := false;
        return;
      }
      if !register.ok {
        toasts := toasts + [RegisterErrorToast(register.message)];
        isSubmitting := false;
        return;
      }
      session := session[AuthenticatedKey := "true"];
      redirectedToSurvey := true;
    }
  }

  /** The page never writes the e-mail or the period into session storage: only the authentication flag. */
  lemma SessionHoldsOnlyTheFlag(before: map<string, string>, after: map<string, string>)
    requires after == before || after == before[AuthenticatedKey := "true"]
    ensures forall k :: k in after && k != AuthenticatedKey ==> k in before && after[k] == before[k]
  {
  }
}
