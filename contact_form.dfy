/** The `ContactForm` component: a draft of the six form fields and an
    in-flight flag, edited one field at a time and submitted through the
    validator and the email provider. The provider's answer is a parameter
    (`SendResult`); toasts, logging and rendering are not modelled. */
module ContactForm {
  import opened EmailService

  /** The `name` attribute of the six inputs, which `handleInputChange`
      uses as the key of the field it overwrites. */
  datatype Field = Name | Email | Company | Phone | Service | Message

  /** What the email provider answers: the awaited promise resolves or rejects. */
  datatype SendResult = SendSucceeded | SendFailed

  /** What one press of the submit button comes to: the validation message
      shown, or the payload handed to the provider and whether it went out. */
  datatype SubmitOutcome =
    | Rejected(error: string)
    | Delivered(payload: TemplateParams)
    | NotDelivered(payload: TemplateParams)

  /** The state between the validation step and the provider's answer. */
  datatype Started = Invalid(error: string) | Sending(payload: TemplateParams)

  /** The all-empty draft the form starts from and returns to. */
  const EmptyDraft: FormData := FormData("", "", "", "", "", "")

  function FieldValue(f: FormData, field: Field): string {
    match field
    case Name => f.name
    case Email => f.email
    case Company => f.company
    case Phone => f.phone
    case Service => f.service
    case Message => f.message
  }

  /** `{ ...prev, [name]: value }`: the named field takes `value`, the other
      five keep theirs. */
  function WithField(f: FormData, field: Field, value: string): (g: FormData)
    ensures FieldValue(g, field) == value
    ensures forall other :: other != field ==> FieldValue(g, other) == FieldValue(f, other)
  {
    match field
    case Name => f.(name := value)
    case Email => f.(email := value)
    case Company => f.(company := value)
    case Phone => f.(phone := value)
    case Service => f.(service := value)
    case Message => f.(message := value)
  }

  /** A draft is determined by its six field values. */
  lemma DraftExtensional(f: FormData, g: FormData)
    requires forall field :: FieldValue(f, field) == FieldValue(g, field)
    ensures f == g
  {
    assert FieldValue(f, Name) == FieldValue(g, Name);
    assert FieldValue(f, Email) == FieldValue(g, Email);
    assert FieldValue(f, Company) == FieldValue(g, Company);
    assert FieldValue(f, Phone) == FieldValue(g, Phone);
    assert FieldValue(f, Service) == FieldValue(g, Service);
    assert FieldValue(f, Message) == FieldValue(g, Message);
  }

  /** Typing into a field what it already holds changes nothing, and of two
      edits to one field the later wins. */
  lemma WithFieldLastWriteWins(f: FormData, field: Field, a: string, b: string)
    ensures WithField(f, field, FieldValue(f, field)) == f
    ensures WithField(WithField(f, field, a), field, b) == WithField(f, field, b)
  {
    DraftExtensional(WithField(f, field, FieldValue(f, field)), f);
    DraftExtensional(WithField(WithField(f, field, a), field, b), WithField(f, field, b));
  }

  /** Edits to two different fields commute. */
  lemma WithFieldCommutes(f: FormData, x: Field, a: string, y: Field, b: string)
    requires x != y
    ensures WithField(WithField(f, x, a), y, b) == WithField(WithField(f, y, b), x, a)
  {
    DraftExtensional(WithField(WithField(f, x, a), y, b), WithField(WithField(f, y, b), x, a));
  }

  /** The whole of `handleSubmit` as one step, from the draft at the press
      of the button and the provider's answer to the new draft and what the
      user is told. */
  function Submit(draft: FormData, send: SendResult): (r: (FormData, SubmitOutcome))
    ensures r.1.Rejected? <==> ValidateForm(draft).Some?
    ensures r.1.Rejected? ==> r.1.error == ValidateForm(draft).value
    ensures !r.1.Rejected? ==> r.1.payload == BuildTemplateParams(draft)
    ensures r.1.Delivered? <==> (ValidateForm(draft) == None && send == SendSucceeded)
    ensures r.0 == if r.1.Delivered? then EmptyDraft else draft
  {
    var v := ValidateForm(draft);
    if v.Some? && v.value != "" then
      (draft, Rejected(v.value))
    else if send == SendSucceeded then
      (EmptyDraft, Delivered(BuildTemplateParams(draft)))
    else
      (draft, NotDelivered(BuildTemplateParams(draft)))
  }

  /** Only a payload built from a draft that passed validation reaches the
      provider: the sender's name and message are present, the address is
      well formed, every optional field is filled in and the recipient is fixed. */
  lemma SubmitSendsOnlyValidPayloads(draft: FormData, send: SendResult)
    requires !Submit(draft, send).1.Rejected?
    ensures var p := Submit(draft, send).1.payload;
            p.fromName != "" && p.message != "" && MatchesEmailPattern(p.fromEmail)
            && p.company != "" && p.phone != "" && p.service != "" && p.toName == Recipient
  {
    var p := Submit(draft, send).1.payload;
    ValidateEmailMatchesPattern(p.fromEmail);
  }

  /** A failed send leaves the draft as it was, so submitting it again once
      the provider answers delivers the very same payload and empties the form. */
  lemma RetryAfterFailure(draft: FormData)
    requires Submit(draft, SendFailed).1.NotDelivered?
    ensures Submit(draft, SendFailed).0 == draft
    ensures Submit(Submit(draft, SendFailed).0, SendSucceeded)
            == (EmptyDraft, Delivered(Submit(draft, SendFailed).1.payload))
  {
  }

  /** Submitting the form as first shown is always turned down for the
      missing required fields, whatever the provider would answer. */
  lemma SubmitEmptyDraft(send: SendResult)
    ensures Submit(EmptyDraft, send) == (EmptyDraft, Rejected(MissingFieldsMessage))
  {
  }

  /** A draft with a required field empty: the provider is never reached. */
  lemma SubmitMissingName(send: SendResult)
    ensures var draft := FormData("", "ana@x.com", "", "", "", "Hola");
            Submit(draft, send) == (draft, Rejected(MissingFieldsMessage))
  {
  }

  /** A valid draft with the optional fields empty: the payload carries the
      placeholders; on success the form empties, on failure it is kept. */
  lemma SubmitValidDraft(send: SendResult)
    ensures var draft := FormData("Ana", "ana@x.com", "", "", "", "Hola");
            var payload := TemplateParams("Ana", "ana@x.com", "No especificada",
                                          "No especificado", "No especificado", "Hola", "ITopIA");
            Submit(draft, send) == if send == SendSucceeded then (EmptyDraft, Delivered(payload))
                                   else (draft, NotDelivered(payload))
  {
    ValidateEmailAcceptsSample();
  }

  class ContactForm {
    var formData: FormData
    var isLoading: bool
    /** The draft captured when the send started: the `formData` that the
        pending continuation of `handleSubmit` closes over. */
    var pending: Option<FormData>

    /** A send is in flight exactly when a captured draft awaits the
        provider, and that draft passed validation. */
    predicate Valid()
      reads this
    {
      (isLoading <==> pending.Some?) && (pending.Some? ==> ValidateForm(pending.value) == None)
    }

    /** The form as first shown: all six fields empty, nothing in flight. */
    constructor ()
      ensures Valid()
      ensures formData == EmptyDraft && !isLoading
    {
      formData := EmptyDraft;
      isLoading := false;
      pending := None;
    }

    /** The submit button (`disabled={isLoading}`) is enabled exactly when no
        draft is awaiting the provider. */
    predicate SubmitEnabled()
      requires Valid()
      reads this
      ensures SubmitEnabled() <==> pending == None
    {
      !isLoading
    }

    /** `handleInputChange`: overwrite the named field. A send in flight is
        not affected. */
    method HandleInputChange(field: Field, value: string)
      requires Valid()
      modifies this
      ensures Valid()
      ensures formData == WithField(old(formData), field, value)
      ensures isLoading == old(isLoading) && pending == old(pending)
    {
      formData := WithField(formData, field, value);
    }

    /** `handleSubmit` up to the `await`: validate, and either stop with the
        message (nothing changes) or raise the in-flight flag, capture the
        current draft and hand over the payload built from it. */
    method BeginSubmit() returns (started: Started)
      requires Valid() && SubmitEnabled()
      modifies this
      ensures Valid()
      ensures formData == old(formData)
      ensures ValidateForm(formData).Some? ==>
                started == Invalid(ValidateForm(formData).value) && !isLoading && pending == None
      ensures ValidateForm(formData) == None ==>
                started == Sending(BuildTemplateParams(formData)) && isLoading
                && pending == Some(formData)
    {
      var validationError := ValidateForm(formData);
      if validationError.Some? && validationError.value != "" {
        return Invalid(validationError.value);
      }
      isLoading := true;
      pending := Some(formData);
      started := Sending(BuildTemplateParams(formData));
    }

    /** `handleSubmit` after the `await`: the payload of the captured draft
        was or was not delivered; on success empty the form (whatever was
        typed meanwhile), on failure keep it, and in both cases lower the
        in-flight flag. The outcome is the one `Submit` gives the captured
        draft, so it only ever carries the payload of a validated draft. */
    method FinishSubmit(send: SendResult) returns (outcome: SubmitOutcome)
      requires Valid() && isLoading
      modifies this
      ensures Valid() && !isLoading && pending == None
      ensures formData == if send == SendSucceeded then EmptyDraft else old(formData)
      ensures ValidateForm(old(pending).value) == None
      ensures outcome == Submit(old(pending).value, send).1
      ensures outcome == if send == SendSucceeded then Delivered(BuildTemplateParams(old(pending).value))
                         else NotDelivered(BuildTemplateParams(old(pending).value))
    {
      var payload := BuildTemplateParams(pending.value);
      if send == SendSucceeded {
        outcome := Delivered(payload);
        formData := EmptyDraft;
      } else {
        outcome := NotDelivered(payload);
      }
      isLoading := false;
      pending := None;
    }

    /** `handleSubmit` run to completion with no edit while the send is in
        flight: the step `Submit` describes, with the flag down afterwards. */
    method HandleSubmit(send: SendResult) returns (outcome: SubmitOutcome)
      requires Valid() && SubmitEnabled()
      modifies this
      ensures Valid() && !isLoading
      ensures (formData, outcome) == Submit(old(formData), send)
    {
      var started := BeginSubmit();
      match started
      case Invalid(error) =>
        outcome := Rejected(error);
      case Sending(payload) =>
        outcome := FinishSubmit(send);
    }
  }

  /** A session: one failed send; a retry, during which the button is
      disabled and the user edits a field; the retry succeeds, delivers the
      payload of the first attempt and the reset discards the edit. */
  method RetrySession(form: ContactForm)
    returns (first: SubmitOutcome, enabledDuringRetry: bool, second: SubmitOutcome)
    requires form.Valid() && form.SubmitEnabled()
    requires form.formData == FormData("Ana", "ana@x.com", "", "", "", "Hola")
    modifies form
    ensures first.NotDelivered? && !enabledDuringRetry && second == Delivered(first.payload)
    ensures form.Valid() && form.formData == EmptyDraft && form.SubmitEnabled()
  {
    ValidateEmailAcceptsSample();
    first := form.HandleSubmit(SendFailed);
    var started := form.BeginSubmit();
    enabledDuringRetry := form.SubmitEnabled();
    form.HandleInputChange(Phone, "099 123 456");
    second := form.FinishSubmit(SendSucceeded);
  }
}
