/**
 * The student's questionnaire page (app/survey/page.tsx): answers recorded per question
 * id, block-by-block navigation, and the submission of the whole answers map from the
 * last block.
 */
module SurveyPage {
  import opened Wrappers
  import opened JsObject
  import opened Catalog

  const NotInformed := "Não informado"
  const SubmitPath := "/api/submit-survey"
  const AuthenticatedKey := "studentAuthenticated"
  const PeriodKey := "studentPeriod"

  /** The body of the POST to /api/submit-survey. */
  datatype SubmitRequest = SubmitRequest(path: string, period: string, responses: Obj<string>)

  /**
   * How the submission ends: the server answers ok, answers not ok (with the `message` of
   * its JSON body, if any), or the fetch itself throws (with the error's message).
   */
  datatype SubmitReply = Accepted | Rejected(message: Option<string>) | FetchFailed(reason: string)

  datatype Toast = Toast(title: string, description: string)

  const IncompleteToast := Toast("Por favor, responda todas as perguntas", "É necessário responder todas as perguntas antes de prosseguir.")
  const SuccessToast := Toast("Respostas enviado com sucesso!", "Obrigado por participar da nosso estudo.")

  /** The toast of a failed submission: the thrown error's message. */
  function FailureToast(reply: SubmitReply): Toast
    requires !reply.Accepted?
  {
    match reply
    case Rejected(message) => Toast("Erro", if message.Some? && message.value != "" then message.value else "Erro ao enviar as respostas")
    case FetchFailed(reason) => Toast("Erro", reason)
  }

  /** `responses[questionId]` is truthy. */
  predicate Answered(responses: Obj<string>, questionId: string)
  {
    Get(responses, questionId).Some? && Get(responses, questionId).value != ""
  }

  /** `questions.every((q) => responses[q.id])`. */
  function BlockComplete(responses: Obj<string>, questions: seq<Question>): (complete: bool)
    ensures complete <==> forall i :: 0 <= i < |questions| ==> Answered(responses, questions[i].id)
  {
    if questions == [] then true
    else
      var rest := BlockComplete(responses, questions[1..]);
      assert forall i :: 1 <= i < |questions| ==> questions[i] == questions[1..][i - 1];
      Answered(responses, questions[0].id) && rest
  }

  /** `sessionStorage.getItem("studentPeriod") || "Não informado"`. */
  function SessionPeriod(session: map<string, string>): string
  {
    if PeriodKey in session && session[PeriodKey] != "" then session[PeriodKey] else NotInformed
  }

  /** Recording a non-empty answer never turns a complete block incomplete. */
  lemma AnswerKeepsComplete(responses: Obj<string>, questions: seq<Question>, questionId: string, value: string)
    requires BlockComplete(responses, questions) && value != ""
    ensures BlockComplete(Set(responses, questionId, value), questions)
  {
    var updated := Set(responses, questionId, value);
    forall i | 0 <= i < |questions| ensures Answered(updated, questions[i].id) {
      assert Answered(responses, questions[i].id);
    }
  }

  /** Answering the last missing question of a block completes it. */
  lemma AnswerCompletes(responses: Obj<string>, questions: seq<Question>, questionId: string, value: string)
    requires value != ""
    requires forall i :: 0 <= i < |questions| && questions[i].id != questionId ==> Answered(responses, questions[i].id)
    ensures BlockComplete(Set(responses, questionId, value), questions)
  {
    var updated := Set(responses, questionId, value);
    forall i | 0 <= i < |questions| ensures Answered(updated, questions[i].id) {
      if questions[i].id != questionId {
        assert Answered(responses, questions[i].id);
      }
    }
  }

  /** The page's state: the answers, the current block, the submission flag, session storage and what the user was shown. */
  class SurveyPage {
    var responses: Obj<string>
    var currentBlock: nat
    var isSubmitting: bool
    var session: map<string, string>
    var toasts: seq<Toast>
    var requests: seq<SubmitRequest>
    var completed: bool
    var isAuthenticated: bool
    var redirectedToAuth: bool

    /** The current block is one of the catalog's blocks. */
    predicate Valid()
      reads this
    {
      currentBlock < |SurveyBlocks|
    }

    /** The first render and its effect: a session without `studentAuthenticated` set to "true" is sent to the entry page. */
    constructor(session: map<string, string>)
      ensures Valid()
      ensures responses == [] && currentBlock == 0 && !isSubmitting && !completed
      ensures this.session == session && toasts == [] && requests == []
      ensures isAuthenticated <==> AuthenticatedKey in session && session[AuthenticatedKey] == "true"
      ensures redirectedToAuth <==> !isAuthenticated
    {
      var authenticated := AuthenticatedKey in session && session[AuthenticatedKey] == "true";
      isAuthenticated := authenticated;
      redirectedToAuth := !authenticated;
      responses := [];
      currentBlock := 0;
      isSubmitting := false;
      this.session := session;
      toasts := [];
      requests := [];
      completed := false;
    }

    /** `isBlockComplete`. */
    function IsBlockComplete(): bool
      reads this
      requires Valid()
    {
      BlockComplete(responses, SurveyBlocks[currentBlock].questions)
    }

    /** `handleResponseChange`: sets the answer of one question and nothing else. */
    method HandleResponseChange(questionId: string, value: string)
      modifies this
      ensures responses == Set(old(responses), questionId, value)
      ensures Get(responses, questionId) == Some(value)
      ensures forall k :: k != questionId ==> Get(responses, k) == Get(old(responses), k)
      ensures currentBlock == old(currentBlock) && isSubmitting == old(isSubmitting) && session == old(session)
      ensures toasts == old(toasts) && requests == old(requests) && completed == old(completed)
      ensures isAuthenticated == old(isAuthenticated) && redirectedToAuth == old(redirectedToAuth)
    {
      responses := Set(responses, questionId, value);
    }

    /**
     * `handleNext`: an incomplete block only shows a toast; a complete block that is not the
     * last moves to the next one; the complete last block submits the period and every answer.
     */
    method HandleNext(reply: SubmitReply) returns (submitted: Option<SubmitRequest>)
      requires Valid()
      modifies this
      ensures Valid()
      ensures responses == old(responses)
      ensures isAuthenticated == old(isAuthenticated) && redirectedToAuth == old(redirectedToAuth)
      ensures !old(IsBlockComplete()) ==>
        && submitted.None? && currentBlock == old(currentBlock) && isSubmitting == old(isSubmitting)
        && session == old(session) && requests == old(requests) && completed == old(completed)
        && toasts == old(toasts) + [IncompleteToast]
      ensures old(IsBlockComplete()) && old(currentBlock) < |SurveyBlocks| - 1 ==>
        && submitted.None? && currentBlock == old(currentBlock) + 1 && isSubmitting == old(isSubmitting)
        && session == old(session) && requests == old(requests) && completed == old(completed) && toasts == old(toasts)
      ensures old(IsBlockComplete()) && old(currentBlock) == |SurveyBlocks| - 1 ==>
        && submitted == Some(SubmitRequest(SubmitPath, SessionPeriod(old(session)), old(responses)))
        && requests == old(requests) + [submitted.value] && currentBlock == old(currentBlock)
      ensures old(IsBlockComplete()) && old(currentBlock) == |SurveyBlocks| - 1 && reply.Accepted? ==>
        && isSubmitting && completed && toasts == old(toasts) + [SuccessToast]
        && session == old(session) - {AuthenticatedKey, PeriodKey}
      ensures old(IsBlockComplete()) && old(currentBlock) == |SurveyBlocks| - 1 && !reply.Accepted? ==>
        && !isSubmitting && completed == old(completed) && toasts == old(toasts) + [FailureToast(reply)]
        && session == old(session)
    {
      submitted := None;
      if IsBlockComplete() {
        if currentBlock < |SurveyBlocks| - 1 {
          currentBlock := currentBlock + 1;
        } else {
          isSubmitting := true;
          var request := SubmitRequest(SubmitPath, SessionPeriod(session), responses);
          requests := requests + [request];
          submitted := Some(request);
          if reply.Accepted? {
            toasts := toasts + [SuccessToast];
            session := session - {AuthenticatedKey, PeriodKey};
            completed := true;
          } else {
            toasts := toasts + [FailureToast(reply)];
            isSubmitting := false;
          }
        }
      } else {
        toasts := toasts + [IncompleteToast];
      }
    }

    /** `handlePrevious`: moves back one block, never before the first. */
    method HandlePrevious()
      requires Valid()
      modifies this
      ensures Valid()
      ensures old(currentBlock) > 0 ==> currentBlock == old(currentBlock) - 1
      ensures old(currentBlock) == 0 ==> currentBlock == 0
      ensures responses == old(responses) && isSubmitting == old(isSubmitting) && session == old(session)
      ensures toasts == old(toasts) && requests == old(requests) && completed == old(completed)
      ensures isAuthenticated == old(isAuthenticated) && redirectedToAuth == old(redirectedToAuth)
    {
      if currentBlock > 0 {
        currentBlock := currentBlock - 1;
      }
    }
  }
}
