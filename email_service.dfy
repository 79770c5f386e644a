/** The validator and payload builder of the contact form:
    `FormData`, `validateEmail`, `validateForm` and the `templateParams`
    record that `sendEmail` hands to the email provider. */
module EmailService {

  datatype Option<+T> = None | Some(value: T)

  /** The six-field draft of a contact submission. */
  datatype FormData = FormData(
    name: string,
    email: string,
    company: string,
    phone: string,
    service: string,
    message: string)

  // ---------------------------------------------------------------------------
  // validateEmail: the pattern ^[^\s@]+@[^\s@]+\.[^\s@]+$
  // ---------------------------------------------------------------------------

  /** The characters of JavaScript's `\s` class: the ECMAScript WhiteSpace
      code points (tab, vertical tab, form feed, U+FEFF and the Unicode
      space separators) and the four LineTerminator code points. None of
      them is one of the pattern's literal characters `@` and `.`. */
  predicate IsWhitespace(c: char)
    ensures IsWhitespace(c) ==> c != '@' && c != '.'
  {
    c == '\t' || c == '\n' || c == '\U{000B}' || c == '\U{000C}' || c == '\r'
    || c == ' ' || c == '\U{00A0}' || c == '\U{1680}'
    || ('\U{2000}' <= c <= '\U{200A}')
    || c == '\U{2028}' || c == '\U{2029}' || c == '\U{202F}' || c == '\U{205F}'
    || c == '\U{3000}' || c == '\U{FEFF}'
  }

  /** The character class `[^\s@]`. */
  predicate IsAddressChar(c: char) {
    !IsWhitespace(c) && c != '@'
  }

  /** The repetition `[^\s@]+`: a non-empty run of address characters. */
  predicate IsAddressRun(s: string) {
    |s| > 0 && forall i :: 0 <= i < |s| ==> IsAddressChar(s[i])
  }

  /** A domain part: address characters only, with a dot that is neither
      its first nor its last character. */
  predicate IsEmailDomain(d: string) {
    IsAddressRun(d) && exists i :: 0 < i < |d| - 1 && d[i] == '.'
  }

  /** Position of the first `c` in `s`, or `|s|` when there is none. */
  function IndexOf(s: string, c: char): (k: nat)
    ensures k <= |s|
    ensures k < |s| ==> s[k] == c
    ensures forall i :: 0 <= i < k ==> s[i] != c
  {
    if s == [] then 0
    else if s[0] == c then 0
    else 1 + IndexOf(s[1..], c)
  }

  /** The email format check, written as a scan: the text before the first
      `@` is a non-empty run of address characters and the text after it is
      a domain (which, having no `@`, makes that `@` the only one). What it
      accepts is pinned down by `ValidateEmailIsLocalAtDomain` and
      `ValidateEmailMatchesPattern`; the shortest address it accepts has
      five characters. */
  function ValidateEmail(email: string): (ok: bool)
    ensures ok ==> |email| >= 5
  {
    var k := IndexOf(email, '@');
    k < |email| && IsAddressRun(email[..k]) && IsEmailDomain(email[k + 1..])
  }

  /** What the regular expression denotes, read piece by piece:
      `[^\s@]+` `@` `[^\s@]+` `\.` `[^\s@]+`, anchored at both ends. */
  ghost predicate MatchesEmailPattern(s: string) {
    exists l, a, b :: IsAddressRun(l) && IsAddressRun(a) && IsAddressRun(b)
                      && s == l + "@" + a + "." + b
  }

  /** The decomposition of an accepted address into local part and domain. */
  ghost predicate IsLocalAtDomain(s: string) {
    exists l, d :: IsAddressRun(l) && IsEmailDomain(d) && s == l + "@" + d
  }

  /** `validateEmail(s)` holds exactly when `s` is `L + "@" + D` with a local
      part `L` and a domain `D`. */
  lemma ValidateEmailIsLocalAtDomain(s: string)
    ensures ValidateEmail(s) <==> IsLocalAtDomain(s)
  {
    var k := IndexOf(s, '@');
    if ValidateEmail(s) {
      assert s == s[..k] + "@" + s[k + 1..];
    }
    if IsLocalAtDomain(s) {
      var l, d :| IsAddressRun(l) && IsEmailDomain(d) && s == l + "@" + d;
      AddressSplitUnique(s, l, d);
    }
  }

  /** When `s == l + "@" + d` and `l` holds no `@`, the first `@` of `s` is
      the one after `l`, so the scan recovers `l` and `d`. */
  lemma AddressSplitUnique(s: string, l: string, d: string)
    requires IsAddressRun(l) && s == l + "@" + d
    ensures IndexOf(s, '@') == |l|
    ensures s[..|l|] == l && s[|l| + 1..] == d
  {
    var k := IndexOf(s, '@');
    assert s[|l|] == '@';
  }

  /** A domain splits as `a + "." + b`, exactly as `[^\s@]+\.[^\s@]+` reads. */
  lemma DomainIsDotSplit(d: string)
    ensures IsEmailDomain(d) <==>
            exists a, b :: IsAddressRun(a) && IsAddressRun(b) && d == a + "." + b
  {
    if IsEmailDomain(d) {
      var i :| 0 < i < |d| - 1 && d[i] == '.';
      var a, b := d[..i], d[i + 1..];
      assert d == a + "." + b;
      assert IsAddressRun(a) && IsAddressRun(b);
    }
    if exists a, b :: IsAddressRun(a) && IsAddressRun(b) && d == a + "." + b {
      var a, b :| IsAddressRun(a) && IsAddressRun(b) && d == a + "." + b;
      assert d[|a|] == '.';
      forall i | 0 <= i < |d| ensures IsAddressChar(d[i]) {
        if i < |a| {
          assert d[i] == a[i];
        } else if |a| < i {
          assert d[i] == b[i - |a| - 1];
        }
      }
    }
  }

  /** Regrouping `l + "@" + (a + "." + b)` as the pattern reads it. */
  lemma RegroupPattern(l: string, a: string, b: string)
    ensures l + "@" + (a + "." + b) == l + "@" + a + "." + b
  {
  }

  /** The scan accepts exactly the strings the regular expression matches. */
  lemma ValidateEmailMatchesPattern(s: string)
    ensures ValidateEmail(s) <==> MatchesEmailPattern(s)
  {
    ValidateEmailIsLocalAtDomain(s);
    if IsLocalAtDomain(s) {
      var l, d :| IsAddressRun(l) && IsEmailDomain(d) && s == l + "@" + d;
      DomainIsDotSplit(d);
      var a, b :| IsAddressRun(a) && IsAddressRun(b) && d == a + "." + b;
      RegroupPattern(l, a, b);
    }
    if MatchesEmailPattern(s) {
      var l, a, b :| IsAddressRun(l) && IsAddressRun(a) && IsAddressRun(b)
                     && s == l + "@" + a + "." + b;
      DomainIsDotSplit(a + "." + b);
      RegroupPattern(l, a, b);
      assert IsLocalAtDomain(s) by {
        assert IsEmailDomain(a + "." + b) && s == l + "@" + (a + "." + b);
      }
    }
  }

  /** An accepted address has no whitespace and exactly one `@`; so any
      string with whitespace, with no `@` or with two or more is rejected. */
  lemma ValidateEmailRejects(s: string)
    ensures ValidateEmail(s) ==>
              (forall i :: 0 <= i < |s| ==> !IsWhitespace(s[i])) && multiset(s)['@'] == 1
  {
    if ValidateEmail(s) {
      var k := IndexOf(s, '@');
      var l, d := s[..k], s[k + 1..];
      assert s == l + "@" + d;
      forall i | 0 <= i < |s| ensures !IsWhitespace(s[i]) {
        if i < k {
          assert s[i] == l[i];
        } else if k < i {
          assert s[i] == d[i - k - 1];
        }
      }
      assert forall j :: 0 <= j < |l| ==> l[j] != '@';
      assert forall j :: 0 <= j < |d| ==> d[j] != '@';
      assert multiset(s) == multiset(l) + multiset{'@'} + multiset(d);
    }
  }

  /** Sample addresses that the format check turns down. */
  lemma ValidateEmailRejectsSamples()
    ensures !ValidateEmail("not-an-email")
    ensures !ValidateEmail("a@b")
    ensures !ValidateEmail("@b.com")
  {
    var s := "not-an-email";
    assert '@' !in s;
    assert IndexOf(s, '@') == |s|;
    assert IndexOf("@b.com", '@') == 0;
  }

  /** A sample address that the format check accepts. */
  lemma ValidateEmailAcceptsSample()
    ensures ValidateEmail("ana@x.com")
  {
    var s := "ana@x.com";
    assert s[4..][1] == '.';
  }

  // ---------------------------------------------------------------------------
  // validateForm: required fields first, then the email format
  // ---------------------------------------------------------------------------

  const MissingFieldsMessage: string := "Por favor completa los campos obligatorios."
  const InvalidEmailMessage: string := "Por favor ingresa un email v\U{00E1}lido."

  /** `validateForm`: `None` stands for `null`. In JavaScript `!field` holds of
      a string exactly when it is empty; nothing is trimmed. */
  function ValidateForm(f: FormData): (r: Option<string>)
    ensures r == Some(MissingFieldsMessage) <==> (f.name == "" || f.email == "" || f.message == "")
    ensures r == Some(InvalidEmailMessage) <==>
              (f.name != "" && f.email != "" && f.message != "" && !ValidateEmail(f.email))
    ensures r == None <==> (f.name != "" && f.message != "" && ValidateEmail(f.email))
    ensures r.Some? ==> r.value != ""
  {
    if f.name == "" || f.email == "" || f.message == "" then
      Some(MissingFieldsMessage)
    else if !ValidateEmail(f.email) then
      Some(InvalidEmailMessage)
    else
      None
  }

  /** `company`, `phone` and `service` never influence the verdict. */
  lemma ValidateFormIgnoresOptionalFields(f: FormData, g: FormData)
    requires f.name == g.name && f.email == g.email && f.message == g.message
    ensures ValidateForm(f) == ValidateForm(g)
  {
  }

  // ---------------------------------------------------------------------------
  // templateParams: the payload sent to the email provider
  // ---------------------------------------------------------------------------

  const CompanyPlaceholder: string := "No especificada"
  const UnspecifiedPlaceholder: string := "No especificado"
  const Recipient: string := "ITopIA"

  /** The seven-field payload handed to the email provider. */
  datatype TemplateParams = TemplateParams(
    fromName: string,
    fromEmail: string,
    company: string,
    phone: string,
    service: string,
    message: string,
    toName: string)

  /** JavaScript's `s || fallback` for a string `s`: the empty string is falsy. */
  function OrElse(s: string, fallback: string): string {
    if s == "" then fallback else s
  }

  /** The `templateParams` object built by `sendEmail`. */
  function BuildTemplateParams(f: FormData): (p: TemplateParams)
    ensures p.fromName == f.name && p.fromEmail == f.email && p.message == f.message
    ensures p.toName == Recipient
    ensures p.company == CompanyPlaceholder <==> (f.company == "" || f.company == CompanyPlaceholder)
    ensures p.phone == UnspecifiedPlaceholder <==> (f.phone == "" || f.phone == UnspecifiedPlaceholder)
    ensures p.service == UnspecifiedPlaceholder <==> (f.service == "" || f.service == UnspecifiedPlaceholder)
    ensures f.company != "" ==> p.company == f.company
    ensures f.phone != "" ==> p.phone == f.phone
    ensures f.service != "" ==> p.service == f.service
    ensures p.company != "" && p.phone != "" && p.service != ""
  {
    TemplateParams(
      f.name,
      f.email,
      OrElse(f.company, CompanyPlaceholder),
      OrElse(f.phone, UnspecifiedPlaceholder),
      OrElse(f.service, UnspecifiedPlaceholder),
      f.message,
      Recipient)
  }

  /** Reads a draft back from a payload, taking each placeholder for an
      empty field. */
  function DraftOf(p: TemplateParams): FormData {
    FormData(
      p.fromName,
      p.fromEmail,
      if p.company == CompanyPlaceholder then "" else p.company,
      if p.phone == UnspecifiedPlaceholder then "" else p.phone,
      if p.service == UnspecifiedPlaceholder then "" else p.service,
      p.message)
  }

  /** The payload loses nothing unless an optional field was typed as the
      very text of its placeholder. */
  lemma DraftOfBuildTemplateParams(f: FormData)
    requires f.company != CompanyPlaceholder
    requires f.phone != UnspecifiedPlaceholder && f.service != UnspecifiedPlaceholder
    ensures DraftOf(BuildTemplateParams(f)) == f
  {
  }

  /** The exception above is real: an empty company and one typed as the
      placeholder text give the same payload. */
  lemma PlaceholderIndistinguishable(f: FormData)
    ensures BuildTemplateParams(f.(company := "")) == BuildTemplateParams(f.(company := CompanyPlaceholder))
  {
  }

  /** The values the service selector offers; `""` is "no service chosen". */
  const ServiceValues: seq<string> :=
    ["", "soporte", "consultoria", "asesoria", "modernizacion", "ia", "procesos"]

  /** A service picked from the selector always survives the payload. */
  lemma SelectedServiceRecoverable(f: FormData)
    requires f.service in ServiceValues
    ensures DraftOf(BuildTemplateParams(f)).service == f.service
  {
  }
}
