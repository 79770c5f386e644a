# ITopIA contact form — a verified model

The ITopIA website is mostly static pages. Its one piece of behaviour is the
contact form. This project models that form in Dafny, in two modules.

- `EmailService` (`email_service.dfy`) models the pure validator and payload
  builder:
  - `FormData`, the six-field draft;
  - `ValidateEmail`, the check `^[^\s@]+@[^\s@]+\.[^\s@]+$`, written as a scan
    for the first `@`;
  - `ValidateForm`, the two-rule classifier: missing required fields first,
    then the email format;
  - `BuildTemplateParams`, the seven-field payload for the email provider.
    Empty optional fields get the placeholders `"No especificada"` and
    `"No especificado"`, and the recipient is always `"ITopIA"`.
- `ContactForm` (`contact_form.dfy`) models the form component as a class.
  It holds the draft `formData` and the in-flight flag `isLoading`. A third
  field, `pending`, holds the draft captured when a send starts: the
  `formData` that the code after the `await` closes over. `Valid()` ties it
  to the flag and requires that it passed validation.
  - `HandleInputChange` overwrites one field.
  - `HandleSubmit` validates the draft and stops with the message when it is
    invalid. Otherwise it raises the flag, sends the payload, empties the
    draft on success, keeps it on failure, and always lowers the flag.
  - The send is split at its `await` into `BeginSubmit` and `FinishSubmit`,
    so the state while a send is in flight can be stated.
  - The provider's answer is a parameter, `SendResult`.
  - The pure function `Submit` describes the whole handler. `HandleSubmit`
    is proved against it, and the lemmas about the form's behaviour are
    stated over it.

Whitespace is the exact set of JavaScript's `\s`: the ECMAScript WhiteSpace
code points and the four LineTerminator code points, with the space
separators of current Unicode. A Dafny `char` is a Unicode scalar value.
JavaScript matches this regular expression on UTF-16 code units. The two
readings agree: a character outside the Basic Multilingual Plane is neither
whitespace nor `@`, so `[^\s@]+` accepts it as one unit or as two.

Two consequences of the code are worth stating:
- Required fields are not trimmed. A name of only spaces passes the
  missing-field rule.
- One might expect the payload's company to be `No especificada` exactly
  when the draft's company is empty. That does not hold, because a company
  typed as the text `No especificada` gives the same payload as an empty one
  (`company || 'No especificada'` keeps a non-empty value as it is). The same
  goes for phone and service. `BuildTemplateParams` states the exact
  condition, and `PlaceholderIndistinguishable` shows the collision.

## Model

| member | source | states |
|---|---|---|
| `EmailService.IndexOf` | src/utils/emailService.ts:13 | The position of the first occurrence of a character, or the length when there is none. The character is there and not before it. The email format check uses it to find the `@`. |
| `EmailService.IsWhitespace` | src/utils/emailService.ts:13 | The `\s` class of JavaScript, listed code point by code point. None of its characters is `@` or `.`, so the pattern's `.` is itself an address character. |
| `EmailService.ValidateEmail` | src/utils/emailService.ts:12-15 | The format check as a scan for the first `@`. Its meaning is fixed by `ValidateEmailIsLocalAtDomain` and `ValidateEmailMatchesPattern`. Its own contract states that an accepted address has at least five characters. |
| `EmailService.ValidateEmailIsLocalAtDomain` | src/utils/emailService.ts:12-15 | `validateEmail(s)` holds exactly when `s = L + "@" + D`. `L` is non-empty with no `@` and no whitespace. `D` is the same, plus a `.` that is neither its first nor its last character. Both directions are proved. |
| `EmailService.AddressSplitUnique` | src/utils/emailService.ts:13 | When `s = L + "@" + D` with an `@`-free `L`, the first `@` of `s` is at position `|L|`, and `L` and `D` are recovered. So an address splits in only one way. |
| `EmailService.DomainIsDotSplit` | src/utils/emailService.ts:13 | A domain is exactly a string `a + "." + b` where `a` and `b` are runs of `[^\s@]+`. |
| `EmailService.ValidateEmailMatchesPattern` | src/utils/emailService.ts:12-15 | The scan accepts exactly the strings that `[^\s@]+ @ [^\s@]+ \. [^\s@]+`, anchored at both ends, matches. Both directions are proved. |
| `EmailService.ValidateEmailRejects` | src/utils/emailService.ts:13 | An accepted address has no whitespace and exactly one `@`. So a string with whitespace, with no `@`, or with two or more `@` is rejected. |
| `EmailService.ValidateEmailRejectsSamples` | src/utils/emailService.ts:12-15 | `"not-an-email"`, `"a@b"` and `"@b.com"` are rejected. |
| `EmailService.ValidateEmailAcceptsSample` | src/utils/emailService.ts:12-15 | `"ana@x.com"` is accepted. |
| `EmailService.ValidateForm` | src/utils/emailService.ts:17-27 | The missing-fields message is returned exactly when `name`, `email` or `message` is empty. The invalid-email message is returned exactly when all three are present and the email fails the check. `null` is returned exactly when `name` and `message` are present and the email passes. Every message is non-empty, so it is truthy. |
| `EmailService.ValidateFormIgnoresOptionalFields` | src/utils/emailService.ts:17-27 | `company`, `phone` and `service` never change the verdict. |
| `EmailService.BuildTemplateParams` | src/utils/emailService.ts:35-43 | `from_name`, `from_email` and `message` are copied verbatim, and `to_name` is `ITopIA`. A non-empty optional field is copied. Its payload value is the placeholder exactly when the field is empty or already holds that placeholder text. No optional payload field is ever empty. |
| `EmailService.DraftOfBuildTemplateParams` | src/utils/emailService.ts:35-43 | Reading placeholders back as empty fields recovers the draft exactly, unless an optional field was typed as its placeholder text. |
| `EmailService.PlaceholderIndistinguishable` | src/utils/emailService.ts:38 | An empty company and the company `No especificada` give the same payload. |
| `EmailService.SelectedServiceRecoverable` | src/components/contact/contactData.ts:25-32 | A service chosen from the selector's values (including "none") comes back unchanged from the payload. |
| `ContactForm.WithField` | src/components/contact/ContactForm.tsx:24-27 | Overwriting a field: the named field takes the value, and the other five keep theirs. |
| `ContactForm.WithFieldLastWriteWins` | src/components/contact/ContactForm.tsx:24-27 | Re-entering a field's current value changes nothing. Of two edits to one field, the later wins. |
| `ContactForm.WithFieldCommutes` | src/components/contact/ContactForm.tsx:24-27 | Edits to two different fields commute. |
| `ContactForm.Submit` | src/components/contact/ContactForm.tsx:29-72 | The handler as one step. It rejects exactly when validation fails, reports that message, and keeps the draft. Otherwise it sends the payload of the current draft. The draft is emptied exactly when the send succeeds, and kept otherwise. |
| `ContactForm.SubmitSendsOnlyValidPayloads` | src/components/contact/ContactForm.tsx:32-45 | Only a payload from a validated draft reaches the provider. Name and message are present, the address matches the pattern, the optional fields are filled, and the recipient is fixed. |
| `ContactForm.RetryAfterFailure` | src/components/contact/ContactForm.tsx:62-71 | After a failed send the draft is unchanged. Submitting it again with success delivers the same payload and empties the form. |
| `ContactForm.SubmitEmptyDraft` | src/components/contact/ContactForm.tsx:32-40 | Submitting the initial, empty form is always rejected with the missing-fields message, and the provider is never reached. |
| `ContactForm.SubmitMissingName` | src/components/contact/ContactForm.tsx:32-40 | A draft with an empty name is rejected with the missing-fields message. The draft is kept and nothing is sent. |
| `ContactForm.SubmitValidDraft` | src/components/contact/ContactForm.tsx:42-71 | For `Ana`, `ana@x.com`, `Hola` with empty optional fields, the payload carries the three placeholders. On success the form empties. On failure it is kept. |
| `ContactForm.ContactForm.constructor` | src/components/contact/ContactForm.tsx:14-22 | The form starts with all six fields empty and nothing in flight. |
| `ContactForm.ContactForm.SubmitEnabled` | src/components/contact/ContactForm.tsx:165 | The submit button, `disabled={isLoading}`, is enabled exactly when no captured draft awaits the provider. |
| `ContactForm.ContactForm.HandleInputChange` | src/components/contact/ContactForm.tsx:24-27 | The draft becomes `WithField` of the old draft. The in-flight flag and the captured draft are untouched. |
| `ContactForm.ContactForm.BeginSubmit` | src/components/contact/ContactForm.tsx:29-42 | Requires the button to be enabled. The draft is never changed. On a validation error it returns the message and leaves the flag down. Otherwise it raises the flag, captures the current draft and returns its payload to send. |
| `ContactForm.ContactForm.FinishSubmit` | src/components/contact/ContactForm.tsx:44-71 | Requires a send in flight. Only the payload of the captured draft can be delivered, and that draft passed validation. The outcome is the one `Submit` gives the captured draft. On success the form becomes empty. On failure the current form is kept. The flag is down and nothing is captured afterwards. |
| `ContactForm.ContactForm.HandleSubmit` | src/components/contact/ContactForm.tsx:29-72 | The new draft and the outcome are exactly `Submit(old draft, answer)`, and the flag is down afterwards. |
| `ContactForm.RetrySession` | src/components/contact/ContactForm.tsx:42-71 | A failed send, then a retry while the user edits a field. The button is disabled while the retry is in flight (returned as `enabledDuringRetry`). The retry delivers the first attempt's payload, and the reset discards the edit. |

## Left out

- The `emailjs.send` call and its three credentials
  (src/utils/emailService.ts:31-33, 45) are a foreign library and network I/O.
  Only the provider's answer is modelled, as the parameter `SendResult`.
- Toasts, `console.error` logging and all rendering in `ContactForm.tsx` are
  user-interface effects. The message a rejected submit shows is modelled as
  `Rejected(error)`. The success and failure toasts are modelled only as
  `Delivered` and `NotDelivered`.
- The browser's own constraint validation is not modelled. The `required`
  and `type="email"` attributes on the inputs can stop the submit event
  before `handleSubmit` runs. The model lets `handleSubmit` see every draft.
- The browser's value sanitization of the `type="email"` input is not
  modelled. The browser strips line breaks and leading and trailing ASCII
  whitespace from that input's value before `handleInputChange` sees it.
  `HandleInputChange(Email, v)` stores any `v` as given. Every lemma covers
  all drafts, so a sanitized value is one case among those proved.
- The disabled submit button (src/components/contact/ContactForm.tsx:165) is
  modelled as the precondition `SubmitEnabled()` (that is, `!isLoading`) of
  `BeginSubmit` and `HandleSubmit`. A click on a disabled button does nothing,
  so no second send can start while one is in flight.
- Async scheduling is modelled only at the single `await`. Between
  `BeginSubmit` and `FinishSubmit` the user may still edit fields. On success
  those edits are dropped by the reset. On failure the edited draft is kept.
  `HandleSubmit` covers the run with no edit in between, where a failure
  leaves the draft exactly as it was before the press.
- `SEOHead.tsx` mutates `document.head` in the browser. It is not part of this model.
- `seoData.ts` holds constant copy and schema.org JSON, and it depends on
  `window.location.origin`. It is not part of this model.
- The pages, `Layout.tsx`, `ContactInfo.tsx`, `Header.tsx` and the 3D scene
  component are static content, navigation or third-party rendering. They are
  not part of this model.
- Of `contactData.ts`, only the selector's service values are used, as
  `ServiceValues`.
- Lone UTF-16 surrogates cannot occur in a Dafny `string` and are not
  modelled. The regular expression would treat them as address characters.
