/**
 * What the API routes receive and answer: the parsed JSON request body (or a body that
 * fails to parse, which lands in the route's `catch`) and a `NextResponse.json` reply as a
 * status code and one of the body shapes the routes build.
 */
module Api {
  import opened Wrappers
  import opened JsObject
  import opened Store

  /** `{ email }` of the e-mail routes. */
  datatype EmailRequest = JsonEmail(email: Option<string>) | UnparsableEmail

  /** `{ period, responses }` of the submission routes; a parse failure carries the error's message. */
  datatype SubmitRequest = JsonSubmit(period: Option<string>, responses: Option<Obj<string>>) | UnparsableSubmit(reason: string)

  /** `{ resetType }` of the reset route. */
  datatype ResetRequest = JsonReset(resetType: Option<string>) | UnparsableReset

  datatype Body =
    | ErrorBody(error: string)
    | Verdict(isUsed: bool, message: string)
    | Outcome(success: bool, message: string)
    | Listing(responses: seq<SurveyRow>, emailCount: nat)

  datatype Reply = Reply(status: nat, body: Body)

  /** A truthy string field: present and not empty. */
  predicate Present(field: Option<string>)
  {
    field.Some? && field.value != ""
  }
}
