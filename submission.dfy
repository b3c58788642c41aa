/**
 * How the page and the route meet: the page posts its `form` object to
 * `/api/ask`, the route builds its prompt from the body it receives, and the
 * reply it returns is what the page stores and shows.
 */
module Submission {
  import opened Wrappers
  import opened AskPage
  import opened AskRoute

  /** The four detail fields of a form fit on one line each. */
  predicate OneLineDetails(form: Form)
  {
    '\n' !in form.name && '\n' !in form.age && '\n' !in form.gender && '\n' !in form.pincode
  }

  /**
   * As written, the page posts the symptom text under `issue` while the
   * route reads `message`: for every form the route's `message` is the text
   * "undefined", and neither `issue` nor `duration` has any effect on what
   * is sent to the provider, so none on the reply for a given provider answer.
   */
  lemma IssueAndDurationIgnored(form: Form, other: Form, provider: ChatRequest -> ProviderResult)
    requires other == form.(issue := other.issue, duration := other.duration)
    ensures Destructure(FormBody(form)).message == "undefined"
    ensures RequestFor(FormBody(form)) == RequestFor(FormBody(other))
    ensures Post(Json(FormBody(form)), provider) == Post(Json(FormBody(other)), provider)
  {
    PostIgnoresOtherFields(FormBody(form), FormBody(other), provider);
  }

  /**
   * The prompt built from the posted form, read back: the four details are
   * there, and the symptoms section holds "undefined" instead of the issue.
   */
  lemma SymptomsNeverReachPrompt(form: Form)
    requires OneLineDetails(form)
    ensures ReadPrompt(RequestFor(FormBody(form)).messages[1].content)
      == Some(PromptFields(form.name, form.age, form.gender, form.pincode, "undefined"))
  {
    RequestCarriesFields(FormBody(form));
  }

  /** The body the page evidently means to send: the form with the symptoms also under `message`. */
  function CorrectedFormBody(form: Form): (body: map<string, string>)
    ensures "message" in body && body["message"] == form.issue
    ensures forall k :: k in FormBody(form) ==> k in body && body[k] == FormBody(form)[k]
  {
    FormBody(form)["message" := form.issue]
  }

  /**
   * With the corrected body the prompt carries all five values: reading it
   * back gives the name, age, gender, pincode and the symptom text.
   */
  lemma CorrectedPromptCarriesSymptoms(form: Form)
    requires OneLineDetails(form)
    ensures ReadPrompt(RequestFor(CorrectedFormBody(form)).messages[1].content)
      == Some(PromptFields(form.name, form.age, form.gender, form.pincode, form.issue))
  {
    RequestCarriesFields(CorrectedFormBody(form));
  }

  /**
   * Every answer the route gives is shown as it is once the page stores it:
   * the reply is never empty, so the placeholder never replaces it.
   */
  lemma PanelShowsServerReply(body: RequestBody, provider: ChatRequest -> ProviderResult)
    ensures PanelText(false, Post(body, provider).reply) == Post(body, provider).reply
    ensures Post(body, provider).reply != PlaceholderText || (
      body.Json? && provider(RequestFor(body.fields)) == Parsed(Some(PlaceholderText)))
  {
  }

}
