/** The contact page: a five-field form with a simulated two-second submission and a
    thank-you view, plus the FAQ accordion. The browser blocks submission while a
    `required` field is empty; e-mail format validation is not modelled. */
module Contact {
  import opened Wrappers

  const Fields: seq<string> := ["name", "email", "organization", "inquiryType", "message"]

  /** The fields marked `required` (the inquiry type is not). */
  const RequiredFields: seq<string> := ["name", "email", "organization", "message"]

  /** The number of FAQ entries. */
  const FaqCount: nat := 6

  datatype ContactPage = ContactPage(formData: map<string, string>, isSubmitting: bool, isSubmitted: bool,
                                     expandedFaq: Option<nat>)

  const Initial := ContactPage(map["name" := "", "email" := "", "organization" := "", "inquiryType" := "", "message" := ""],
                               false, false, None)

  /** `handleInputChange`: field `field` becomes `value`, every other field is kept. */
  function InputChange(st: ContactPage, field: string, value: string): (r: ContactPage)
    ensures r.formData.Keys == st.formData.Keys + {field} && r.formData[field] == value
    ensures forall f :: f in st.formData && f != field ==> r.formData[f] == st.formData[f]
    ensures r.(formData := st.formData) == st
  {
    st.(formData := st.formData[field := value])
  }

  /** The form is on screen, the button enabled and every required field filled. */
  predicate CanSubmit(st: ContactPage)
  {
    !st.isSubmitted && !st.isSubmitting
    && forall i :: 0 <= i < |RequiredFields| ==> RequiredFields[i] in st.formData && st.formData[RequiredFields[i]] != ""
  }

  /** Submitting starts the simulated request; otherwise nothing happens. */
  function Submit(st: ContactPage): (r: ContactPage)
    ensures CanSubmit(st) ==> r == st.(isSubmitting := true)
    ensures !CanSubmit(st) ==> r == st
  {
    if CanSubmit(st) then st.(isSubmitting := true) else st
  }

  /** The submission timer, pending exactly while submitting, shows the thank-you view. */
  function SubmitTimerFires(st: ContactPage): (r: ContactPage)
    ensures st.isSubmitting ==> !r.isSubmitting && r.isSubmitted && r.formData == st.formData
    ensures !st.isSubmitting ==> r == st
  {
    if st.isSubmitting then st.(isSubmitting := false, isSubmitted := true) else st
  }

  /** "Send Another Message" (shown only on the thank-you view) returns to the form without clearing it. */
  function SendAnother(st: ContactPage): (r: ContactPage)
    ensures st.isSubmitted ==> !r.isSubmitted && r.formData == st.formData
    ensures !st.isSubmitted ==> r == st
  {
    if st.isSubmitted then st.(isSubmitted := false) else st
  }

  /** A FAQ question click (the accordion is part of the form view): the open entry closes, any other opens alone. */
  function ToggleFaq(st: ContactPage, i: nat): (r: ContactPage)
    requires i < FaqCount
    ensures !st.isSubmitted && st.expandedFaq == Some(i) ==> r.expandedFaq.None?
    ensures !st.isSubmitted && st.expandedFaq != Some(i) ==> r.expandedFaq == Some(i)
    ensures st.isSubmitted ==> r == st
    ensures r.(expandedFaq := st.expandedFaq) == st
  {
    if st.isSubmitted then st
    else st.(expandedFaq := if st.expandedFaq == Some(i) then None else Some(i))
  }

  /** Clicking the same question twice restores the accordion when nothing else was open before. */
  lemma ToggleFaqTwice(st: ContactPage, i: nat)
    requires i < FaqCount && (st.expandedFaq.None? || st.expandedFaq == Some(i))
    ensures ToggleFaq(ToggleFaq(st, i), i) == st
  {
  }

  /** With another question open, two clicks on question `i` leave everything closed instead. */
  lemma ToggleFaqTwiceClosesOther(st: ContactPage, i: nat, j: nat)
    requires i < FaqCount && !st.isSubmitted && st.expandedFaq == Some(j) && j != i
    ensures ToggleFaq(st, i).expandedFaq == Some(i)
    ensures ToggleFaq(ToggleFaq(st, i), i).expandedFaq.None?
  {
  }

  datatype ContactEvent = Edit(field: nat, value: string) | SubmitForm | TimerFires | SendAnotherMessage | ClickFaq(index: nat)

  /** One event; edits name one of the five fields and FAQ clicks one of the six questions, as the page's controls do. */
  function Step(st: ContactPage, ev: ContactEvent): ContactPage
  {
    match ev
    case Edit(f, v) => if f < |Fields| then InputChange(st, Fields[f], v) else st
    case SubmitForm => Submit(st)
    case TimerFires => SubmitTimerFires(st)
    case SendAnotherMessage => SendAnother(st)
    case ClickFaq(i) => if i < FaqCount then ToggleFaq(st, i) else st
  }

  /** Reachable states: never submitting and submitted at once, the form keeps exactly its five fields,
      and at most one FAQ entry, a real one, is expanded. */
  ghost predicate Inv(st: ContactPage)
  {
    && !(st.isSubmitting && st.isSubmitted)
    && (forall f :: f in st.formData <==> f in Fields)
    && (st.expandedFaq.Some? ==> st.expandedFaq.value < FaqCount)
  }

  lemma InitialInv()
    ensures Inv(Initial)
  {
  }

  lemma StepInv(st: ContactPage, ev: ContactEvent)
    requires Inv(st)
    ensures Inv(Step(st, ev))
  {
    match ev
    case Edit(f, v) =>
      if f < |Fields| {
        assert Fields[f] in Fields;
      }
    case SubmitForm =>
    case TimerFires =>
    case SendAnotherMessage =>
    case ClickFaq(i) =>
      if i < FaqCount {
        assert ToggleFaq(st, i).formData == st.formData;
      }
  }

  /** A submission is seen through: submit then the timer lands on the thank-you view with the data kept,
      and "Send Another Message" brings back the filled-in form. */
  lemma SubmitRoundTrip(st: ContactPage)
    requires Inv(st) && CanSubmit(st)
    ensures var done := SubmitTimerFires(Submit(st));
            done.isSubmitted && !done.isSubmitting && done.formData == st.formData
            && SendAnother(done) == st
  {
  }
}
