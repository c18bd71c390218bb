/** The contact endpoint (`POST` in src/app/api/contact/route.ts): validate
    the body with the contact schema, compose the notification, and send it
    over SMTP when host, user and password are all configured. */
module ContactRoute {
  import opened Wrappers
  import opened Strings
  import opened HtmlEscape
  import opened Mail

  /** A payload the contact schema accepted. */
  datatype Contact = Contact(name: string, email: string, subject: string, message: string)

  /** What the contact schema made of the body. The schema's rules are not
      part of this model, so its verdict is an input: the body did not decode,
      the schema reported issues, or it produced a contact. */
  datatype ContactParse<I> = Unparseable | Invalid(issues: seq<I>) | Parsed(contact: Contact)

  const SubjectPrefix := "[Tahawiyyah Institute] Contact Form: "
  const Footer := "This email was sent from the Tahawiyyah Institute contact form."
  // Written as two joined literals: the verifier cannot index a single
  // literal this long, and the proofs need their first characters.
  const SendFailed := "Failed to send email. " + "Please check your SMTP configuration."
  const NotConfigured := "Email service not configured. " + "Please set SMTP credentials in your .env.local file."

  /** All three SMTP settings the route checks are set and non-empty. */
  predicate SmtpConfigured(env: Env) {
    Truthy(env.smtpHost) && Truthy(env.smtpUser) && Truthy(env.smtpPassword)
  }

  /** The notification's subject line. */
  function Subject(c: Contact): (r: string)
    ensures StartsWith(r, SubjectPrefix)
    ensures r[|SubjectPrefix|..] == c.subject
  {
    SubjectPrefix + c.subject
  }

  /** The rows of the HTML table: name, email and subject as submitted, the
      message through the escaping chain. */
  function HtmlRows(c: Contact): (r: seq<HtmlRow>)
    ensures |r| == 4
    ensures r[0] == HtmlRow("Name:", c.name) && r[1] == HtmlRow("Email:", MailtoLink(c.email))
    ensures r[2] == HtmlRow("Subject:", c.subject) && r[3] == HtmlRow("Message:", EscapeHtml(c.message))
  {
    [HtmlRow("Name:", c.name),
     HtmlRow("Email:", MailtoLink(c.email)),
     HtmlRow("Subject:", c.subject),
     HtmlRow("Message:", EscapeHtml(c.message))]
  }

  function HtmlBody(c: Contact): string {
    HtmlDocument("Contact Form Submission", "New Contact Form Submission", "Contact Information",
      HtmlRows(c), Footer)
  }

  /** The lines of the plain-text body, from the heading to the footer; the
      message appears here unescaped. */
  function TextLines(c: Contact): (r: seq<string>)
    ensures |r| == 9
    ensures r[0] == "New Contact Form Submission" && r[|r| - 1] == Footer
    ensures r[3] == "Name: " + c.name && r[4] == "Email: " + c.email
    ensures r[5] == "Subject: " + c.subject && r[6] == "Message: " + c.message
  {
    ["New Contact Form Submission", "", "Contact Information:",
     "Name: " + c.name, "Email: " + c.email, "Subject: " + c.subject,
     "Message: " + c.message, "", Footer]
  }

  /** The message handed to the SMTP transport. The sender is
      `SMTP_FROM_EMAIL` when set, else the SMTP user. */
  function Compose(c: Contact, env: Env): (m: Message)
    requires SmtpConfigured(env)
    ensures m.to == InstituteAddress
    ensures m.from == if Truthy(env.smtpFromEmail) then env.smtpFromEmail.value else env.smtpUser.value
    ensures m.subject == Subject(c)
    ensures m.html == HtmlBody(c) && m.text == TextBody(TextLines(c))
  {
    Message(OrElse(env.smtpFromEmail, env.smtpUser.value), InstituteAddress, Subject(c),
      HtmlBody(c), TextBody(TextLines(c)))
  }

  /** The route. `outcome` is what the SMTP call does if it is made. */
  function Post<I>(parsed: ContactParse<I>, env: Env, outcome: SendOutcome): (h: Handled<I>)
    ensures parsed.Unparseable? ==> h == Handled(Failed(500, Unexpected), None)
    ensures parsed.Invalid? ==>
      && h.response == Response(false, 400, Some(ValidationFailed), Some(parsed.issues))
      && h.attempted.None?
    ensures h.attempted.Some? ==> parsed.Parsed? && SmtpConfigured(env)
    ensures parsed.Parsed? ==>
      && (h.attempted.Some? <==> SmtpConfigured(env))
      && (!SmtpConfigured(env) ==> h.response == Failed(500, NotConfigured))
      && (SmtpConfigured(env) && outcome == Returned ==> h.response == Accepted())
      && (SmtpConfigured(env) && outcome == Threw ==> h.response == Failed(500, SendFailed))
    ensures h.attempted.Some? ==> h.attempted.value == Compose(parsed.contact, env)
  {
    match parsed
    case Unparseable => Handled(Failed(500, Unexpected), None)
    case Invalid(issues) => Rejected(issues)
    case Parsed(c) =>
      if SmtpConfigured(env) then
        var m := Compose(c, env);
        if outcome == Returned then Handled(Accepted(), Some(m))
        else Handled(Failed(500, SendFailed), Some(m))
      else Handled(Failed(500, NotConfigured), None)
  }

  // ---------------------------------------------------------------------------
  // Properties

  /** A failed send and a missing configuration are told apart: both are 500,
      with different error texts, and only the first attempted a send. */
  lemma FailureDistinctFromUnconfigured<I>(c: Contact, configured: Env, missing: Env)
    requires SmtpConfigured(configured) && !SmtpConfigured(missing)
    ensures Post<I>(Parsed(c), configured, Threw).response.status == 500
    ensures Post<I>(Parsed(c), missing, Returned).response.status == 500
    ensures Post<I>(Parsed(c), configured, Threw).response != Post<I>(Parsed(c), missing, Returned).response
    ensures Post<I>(Parsed(c), configured, Threw).attempted.Some?
    ensures Post<I>(Parsed(c), missing, Returned).attempted.None?
  {
    assert SendFailed[0] == 'F' && NotConfigured[0] == 'E';
  }

  /** With any one of host, user or password unset or empty, no send is
      attempted and the answer is "not configured", even when the other two
      are set. */
  lemma EachSettingRequired<I>(c: Contact, env: Env, unset: Option<string>, outcome: SendOutcome)
    requires SmtpConfigured(env) && !Truthy(unset)
    ensures Post<I>(Parsed(c), env.(smtpHost := unset), outcome).attempted.None?
    ensures Post<I>(Parsed(c), env.(smtpHost := unset), outcome).response == Failed(500, NotConfigured)
    ensures Post<I>(Parsed(c), env.(smtpUser := unset), outcome).attempted.None?
    ensures Post<I>(Parsed(c), env.(smtpUser := unset), outcome).response == Failed(500, NotConfigured)
    ensures Post<I>(Parsed(c), env.(smtpPassword := unset), outcome).attempted.None?
    ensures Post<I>(Parsed(c), env.(smtpPassword := unset), outcome).response == Failed(500, NotConfigured)
  {
  }

  /** The message row holds the escaped message, which carries no raw markup,
      while name and subject reach the HTML body as submitted. */
  lemma HtmlCarriesFields(c: Contact)
    ensures HtmlRow("Message:", EscapeHtml(c.message)) in HtmlRows(c)
    ensures MarkupSafe(EscapeHtml(c.message))
    ensures Contains(HtmlBody(c), EscapeHtml(c.message))
    ensures Contains(HtmlBody(c), c.name)
    ensures Contains(HtmlBody(c), c.subject)
  {
    var rows := HtmlRows(c);
    assert rows[3] == HtmlRow("Message:", EscapeHtml(c.message));
    EscapedIsMarkupSafe(c.message);
    var title, heading, section := "Contact Form Submission", "New Contact Form Submission", "Contact Information";
    CellInDocument(title, heading, section, rows, Footer, 0);
    CellInDocument(title, heading, section, rows, Footer, 2);
    CellInDocument(title, heading, section, rows, Footer, 3);
  }

  /** The plain-text body carries the message unescaped. */
  lemma TextCarriesMessage(c: Contact)
    ensures Contains(TextBody(TextLines(c)), "Message: " + c.message)
  {
    PartInJoin(TextLines(c), "\n", 6);
  }
}
