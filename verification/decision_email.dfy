/** The decision-email endpoint `POST /api/email-decision`.

    The handler reads `{email, name, status, notes}` from the request body,
    rejects the request with 400 when `email` or `status` is missing or empty,
    otherwise builds one templated message for the mail provider and answers
    200 `{success: true}` when the provider reports `'success'` for that
    message and 500 otherwise.

    The network call is not modelled: the provider's answer is an input
    (`ProviderReply`). The two template ids and the sender address come from
    the environment and are a `Config` parameter; the submission date comes
    from the clock and is a parameter too.
 */
module DecisionEmail {
  import opened Text

  const ApprovedStatus: string := "approved"
  const DefaultNotes: string := "No additional notes provided."
  const SenderName: string := "Developer Evaluation Team"
  const ProviderSuccess: string := "success"
  const MissingFieldsMessage: string := "Missing required fields"
  const SendFailedMessage: string := "Failed to send email"
  const ProviderFailedMessage: string := "Failed to send email via Mailjet"

  /** The JSON request body; every field may be absent. */
  datatype Request = Request(email: Option<string>, name: Option<string>, status: Option<string>, notes: Option<string>)

  /** Deployment configuration: the two template ids and the sender address. */
  datatype Config = Config(approvedTemplateId: int, rejectedTemplateId: int, fromEmail: Option<string>)

  datatype Sender = Sender(email: Option<string>, name: string)

  datatype Recipient = Recipient(email: string, name: Option<string>)

  /** The template variables. */
  datatype Variables = Variables(developerName: Option<string>, evaluatorNotes: string, submissionDate: string, status: string)

  /** One message of the provider's send request. */
  datatype Message = Message(from: Sender, to: seq<Recipient>, templateId: int, templateLanguage: bool, variables: Variables)

  /** What the handler decides to do before talking to the provider. */
  datatype Outcome = BadRequest | Send(message: Message)

  /** What the provider call produced: the status reported for the first
      message, or an exception with its message (a failed call, or a reply
      without a first message). */
  datatype ProviderReply = Replied(firstStatus: string) | Threw(message: string)

  datatype Body = SuccessBody | ErrorBody(message: string, error: Option<string>)

  datatype Response = Response(status: int, body: Body)

  /** The message handed to the provider, if any, and the HTTP response. */
  datatype Exchange = Exchange(sent: Option<Message>, response: Response)

  /** The status as shown in the email: its first character upper-cased and
      the rest kept as it is; the empty string stays empty. */
  function Capitalize(s: string): (r: string)
    ensures |r| == |s|
    ensures |s| > 0 ==> r[0] == UpperChar(s[0]) && !IsLower(r[0])
    ensures forall i :: 1 <= i < |s| ==> r[i] == s[i]
  {
    if s == "" then "" else [UpperChar(s[0])] + s[1..]
  }

  /** Capitalising twice is capitalising once. */
  lemma CapitalizeIdempotent(s: string)
    ensures Capitalize(Capitalize(s)) == Capitalize(s)
  {
  }

  /** The notes as shown in the email: the request's notes when they are a
      non-empty string, the fixed default text otherwise, so the template
      never receives empty notes. */
  function NotesOrDefault(notes: Option<string>): (r: string)
    ensures r != ""
    ensures Truthy(notes) ==> r == notes.value
    ensures !Truthy(notes) ==> r == DefaultNotes
  {
    if Truthy(notes) then notes.value else DefaultNotes
  }

  /** The template is chosen by exact comparison with `"approved"`. */
  function TemplateFor(config: Config, status: string): (id: int)
    ensures status == ApprovedStatus ==> id == config.approvedTemplateId
    ensures status != ApprovedStatus ==> id == config.rejectedTemplateId
  {
    if status == ApprovedStatus then config.approvedTemplateId else config.rejectedTemplateId
  }

  /** Validation, template selection and variable construction of the
      handler; `today` is the formatted current date. */
  function Prepare(request: Request, config: Config, today: string): (o: Outcome)
    ensures o.BadRequest? <==> !Truthy(request.email) || !Truthy(request.status)
    ensures o.Send? ==>
      var m := o.message;
      && m.from == Sender(config.fromEmail, SenderName)
      && |m.to| == 1
      && m.to[0].email == request.email.value
      && m.to[0].name == request.name
      && m.templateLanguage
      && (request.status.value == ApprovedStatus ==> m.templateId == config.approvedTemplateId)
      && (request.status.value != ApprovedStatus ==> m.templateId == config.rejectedTemplateId)
      && m.variables.developerName == request.name
      && m.variables.submissionDate == today
      && (Truthy(request.notes) ==> m.variables.evaluatorNotes == request.notes.value)
      && (!Truthy(request.notes) ==> m.variables.evaluatorNotes == DefaultNotes)
      && |m.variables.status| == |request.status.value|
      && m.variables.status[0] == UpperChar(request.status.value[0])
      && m.variables.status[1..] == request.status.value[1..]
  {
    if !Truthy(request.email) || !Truthy(request.status) then BadRequest
    else
      var status := request.status.value;
      var variables := Variables(request.name, NotesOrDefault(request.notes), today, Capitalize(status));
      Send(Message(Sender(config.fromEmail, SenderName),
                   [Recipient(request.email.value, request.name)],
                   TemplateFor(config, status),
                   true,
                   variables))
  }

  /** The response to a message that was handed to the provider. */
  function Respond(reply: ProviderReply): (r: Response)
    ensures r.status == 200 <==> reply == Replied(ProviderSuccess)
    ensures r.status == 200 ==> r.body == SuccessBody
    ensures r.status != 200 ==> r.status == 500 && r.body.ErrorBody? && r.body.message == SendFailedMessage
    ensures reply.Replied? && reply.firstStatus != ProviderSuccess ==> r.body.error == Some(ProviderFailedMessage)
    ensures reply.Threw? ==> r.body.error == Some(reply.message)
  {
    match reply
    case Replied(status) =>
      if status != ProviderSuccess then Response(500, ErrorBody(SendFailedMessage, Some(ProviderFailedMessage)))
      else Response(200, SuccessBody)
    case Threw(message) => Response(500, ErrorBody(SendFailedMessage, Some(message)))
  }

  /** The whole handler. `reply` is what the provider would answer; it is
      consulted only when a message is sent. */
  function Handle(request: Request, config: Config, today: string, reply: ProviderReply): (x: Exchange)
    ensures x.sent.None? <==> !Truthy(request.email) || !Truthy(request.status)
    ensures x.sent.None? ==> x.response == Response(400, ErrorBody(MissingFieldsMessage, None))
    ensures x.sent.Some? ==> Prepare(request, config, today) == Send(x.sent.value)
    ensures x.sent.Some? ==> x.response == Respond(reply)
    ensures x.response.body == SuccessBody <==> x.sent.Some? && reply == Replied(ProviderSuccess)
    ensures x.response.status in {200, 400, 500}
  {
    match Prepare(request, config, today)
    case BadRequest => Exchange(None, Response(400, ErrorBody(MissingFieldsMessage, None)))
    case Send(message) => Exchange(Some(message), Respond(reply))
  }

  /** A rejected request does not depend on the provider at all. */
  lemma BadRequestIgnoresProvider(request: Request, config: Config, today: string, reply1: ProviderReply, reply2: ProviderReply)
    requires !Truthy(request.email) || !Truthy(request.status)
    ensures Handle(request, config, today, reply1) == Handle(request, config, today, reply2)
  {
  }

  /** The answer is `{success: true}` exactly when validation passed and the
      provider reported `'success'`; then, and only then, it is a 200. */
  lemma SuccessIff(request: Request, config: Config, today: string, reply: ProviderReply)
    ensures var r := Handle(request, config, today, reply).response;
      && (r == Response(200, SuccessBody) <==> Truthy(request.email) && Truthy(request.status) && reply == Replied(ProviderSuccess))
      && (r.status == 200 <==> r.body == SuccessBody)
  {
  }

  /** Only the exact lower-case spelling selects the approved template: a
      capitalised `"Approved"` gets the rejection template. */
  lemma ApprovedIsCaseSensitive(config: Config, email: string)
    requires email != ""
    ensures Prepare(Request(Some(email), None, Some("Approved"), None), config, "").message.templateId == config.rejectedTemplateId
    ensures Prepare(Request(Some(email), None, Some("approved"), None), config, "").message.variables.status == "Approved"
  {
  }
}
