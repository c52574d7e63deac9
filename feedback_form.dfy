/** The feedback form of report/report.js: the label of each feedback type,
    the guard on the details, the request body it sends and the message it
    shows for the server's answer. */
module FeedbackForm {
  import opened Wrappers
  import opened Strings
  import Feedback

  /** `getFriendlyType`: the four known types get their label; any other
      type is shown as it is (every label is truthy, so `||` keeps it). */
  function GetFriendlyType(kind: string): (name: string)
    ensures kind == "bug" ==> name == "Bug Report"
    ensures kind == "feature" ==> name == "Feature Suggestion"
    ensures kind == "general" ==> name == "General Feedback"
    ensures kind == "complaint" ==> name == "Complaint"
    ensures kind !in {"bug", "feature", "general", "complaint"} ==> name == kind
  {
    var types := map["bug" := "Bug Report", "feature" := "Feature Suggestion",
                     "general" := "General Feedback", "complaint" := "Complaint"];
    if kind in types && types[kind] != "" then types[kind] else kind
  }

  /** The label is empty only for the empty type, and only the four known
      types are relabelled. */
  lemma FriendlyTypeProperties(kind: string)
    ensures GetFriendlyType(kind) == "" <==> kind == ""
    ensures GetFriendlyType(kind) != kind <==> kind in {"bug", "feature", "general", "complaint"}
  {
  }

  const DetailsRequired := "Please provide detailed description"
  const SubmitError := "Error submitting feedback. Please try again later."

  /** The JSON body of the `submitFeedback` request. */
  datatype SubmitBody = SubmitBody(kind: string, email: Option<string>, details: string)

  /** The server's answer; `message` is `None` when missing or falsy. */
  datatype ServerReply = ServerReply(success: bool, message: Option<string>)

  /** What `submitFeedback` does: the request it sends (if any) and the
      message it finally shows. */
  datatype FormOutcome = FormOutcome(sent: Option<SubmitBody>, message: string)

  /** `submitFeedback`. `reply` is `None` when `fetch` or the JSON decoding
      throws. */
  function SubmitFeedback(kind: string, emailInput: string, detailsInput: string,
                          reply: Option<ServerReply>): (o: FormOutcome)
    ensures JsTrim(detailsInput) == "" <==> o.sent.None?
    ensures o.sent.None? ==> o.message == DetailsRequired
    ensures o.sent.Some? ==>
      && o.sent.value.kind == kind
      && o.sent.value.details == JsTrim(detailsInput)
      && (o.sent.value.email.None? <==> JsTrim(emailInput) == "")
      && (o.sent.value.email.Some? ==> o.sent.value.email.value == JsTrim(emailInput))
    ensures o.sent.Some? && reply.None? ==> o.message == SubmitError
    ensures o.sent.Some? && reply.Some? && reply.value.success ==>
      o.message == "✅ Thank you for your " + GetFriendlyType(kind) + "! Your report has been submitted successfully."
    ensures o.sent.Some? && reply.Some? && !reply.value.success ==>
      o.message == "Failed to submit feedback: " +
                   (if reply.value.message.Some? && reply.value.message.value != "" then reply.value.message.value
                    else "Unknown error")
  {
    var email, details := JsTrim(emailInput), JsTrim(detailsInput);
    if details == "" then FormOutcome(None, DetailsRequired)
    else
      var body := SubmitBody(kind, if email != "" then Some(email) else None, details);
      var message :=
        if reply.None? then SubmitError
        else if reply.value.success then
          "✅ Thank you for your " + GetFriendlyType(kind) + "! Your report has been submitted successfully."
        else
          "Failed to submit feedback: " +
          (if reply.value.message.Some? && reply.value.message.value != "" then reply.value.message.value
           else "Unknown error");
      FormOutcome(Some(body), message)
  }

  /** The email the server stores for a form submission: none when the
      trimmed input is empty, and none as well for the input "0", which the
      page sends but PHP's `?:` treats as false. */
  lemma StoredEmail(kind: string, emailInput: string, detailsInput: string, reply: Option<ServerReply>)
    requires JsTrim(detailsInput) != ""
    ensures var body := SubmitFeedback(kind, emailInput, detailsInput, reply).sent.value;
      Feedback.SubmittedEmail(body.email) ==
        if JsTrim(emailInput) == "" || JsTrim(emailInput) == "0" then None else Some(JsTrim(emailInput))
  {
  }
}
