/** `TemplateFormsDemoComponent`: a contact form bound with `ngModel`.
    Form validity comes from the framework and is an input here. */
module TemplateForms {
  import opened Common

  datatype ContactForm = ContactForm(
    name: String, email: String, phone: String,
    subject: String, message: String, newsletter: bool)

  const InitialContact := ContactForm("", "", "", "general", "", false)

  /** The subject choices, as (value, label). */
  const Subjects: seq<(String, String)> := [
    ("general", "General Inquiry"), ("support", "Technical Support"),
    ("sales", "Sales Question"), ("feedback", "Feedback")]

  datatype TemplateFormsDemo = TemplateFormsDemo(
    contact: ContactForm,
    submitted: bool,
    submittedData: Option<ContactForm>)

  const Initial := TemplateFormsDemo(InitialContact, false, None)

  /** A change the user makes to the bound model. */
  function Edit(c: TemplateFormsDemo, contact: ContactForm): (r: TemplateFormsDemo)
    ensures r.contact == contact
    ensures r.submitted == c.submitted && r.submittedData == c.submittedData
  {
    c.(contact := contact)
  }

  /** `onSubmit(form)`: a valid form records a copy of the contact; an
      invalid one changes nothing. */
  function OnSubmit(c: TemplateFormsDemo, valid: bool): (r: TemplateFormsDemo)
    ensures valid ==> r.submitted && r.submittedData == Some(c.contact) && r.contact == c.contact
    ensures !valid ==> r == c
  {
    if valid then c.(submitted := true, submittedData := Some(c.contact)) else c
  }

  /** `onReset(form)`: back to the initial state from any state. */
  function OnReset(c: TemplateFormsDemo): (r: TemplateFormsDemo)
    ensures r.contact == InitialContact && !r.submitted && r.submittedData.None?
  {
    TemplateFormsDemo(InitialContact, false, None)
  }

  /** The submitted data is a copy: editing the contact afterwards leaves it
      as it was at submit time. */
  lemma {:induction false} SubmittedDataIsACopy(c: TemplateFormsDemo, edits: seq<ContactForm>)
    ensures var s := OnSubmit(c, true);
      EditAll(s, edits).submittedData == Some(c.contact)
  {
    var s := OnSubmit(c, true);
    EditsKeepSubmission(s, edits);
  }

  function EditAll(c: TemplateFormsDemo, edits: seq<ContactForm>): TemplateFormsDemo {
    if edits == [] then c else Edit(EditAll(c, edits[..|edits| - 1]), Last(edits))
  }

  /** No sequence of edits touches the submission state. */
  lemma {:induction false} EditsKeepSubmission(c: TemplateFormsDemo, edits: seq<ContactForm>)
    ensures EditAll(c, edits).submitted == c.submitted
    ensures EditAll(c, edits).submittedData == c.submittedData
    ensures edits != [] ==> EditAll(c, edits).contact == Last(edits)
  {
    if edits != [] {
      EditsKeepSubmission(c, edits[..|edits| - 1]);
    }
  }

  /** Reset restores exactly the initial component. */
  lemma ResetRestoresInitial(c: TemplateFormsDemo)
    ensures OnReset(c) == Initial
  {
  }
}
