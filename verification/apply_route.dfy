/** The application endpoint (`POST` in src/app/api/apply/route.ts): validate
    the body, compose the notification, send it through Resend when an API key
    is configured, and answer with a JSON response. */
module ApplyRoute {
  import opened Wrappers
  import opened Strings
  import opened HtmlEscape
  import opened ApplySchema
  import opened Mail

  const SubjectPrefix := "[Tahawiyyah Institute] New Application - "
  const DefaultFrom := "noreply@example.com"
  // Written as two joined literals: the verifier cannot index a single
  // literal this long, and the proofs need the footer's first character.
  const Footer := "This email was sent from the " + "Tahawiyyah Institute application form."
  const NotConfigured := "Email service not configured. Please set RESEND_API_KEY or SMTP credentials."

  /** The notification's subject line. */
  function Subject(a: Application): (r: string)
    ensures StartsWith(r, SubjectPrefix)
    ensures r[|SubjectPrefix|..] == a.firstName + " " + a.lastName
  {
    SubjectPrefix + a.firstName + " " + a.lastName
  }

  function DayName(d: Day): string {
    match d
    case Mon => "Monday"
    case Wed => "Wednesday"
  }

  function DayNames(days: seq<Day>): (r: seq<string>)
    ensures |r| == |days|
  {
    seq(|days|, i requires 0 <= i < |days| => DayName(days[i]))
  }

  /** The availability line: each code's day name, in the submitted order
      and with repeats kept, separated by ", ". It reads back as exactly the
      submitted days, none dropped and none merged. */
  function AvailabilityText(days: seq<Day>): (r: string)
    ensures ParseDays(r) == Some(days)
  {
    if |days| == 0 then ""
    else
      ParseJoinedDays(days);
      assert |DayName(days[0])| > 0;
      assert |Join(DayNames(days), ", ")| > 0 by {
        if |days| > 1 {
          assert Join(DayNames(days), ", ") == DayName(days[0]) + ", " + Join(DayNames(days)[1..], ", ");
        }
      }
      Join(DayNames(days), ", ")
  }

  /** The track line; the two tracks get different texts. */
  function TrackLabel(t: Track): (r: string)
    ensures r == "Online" <==> t == Online
    ensures r == "Not sure" <==> t == NotSure
  {
    match t
    case Online => "Online"
    case NotSure => "Not sure"
  }

  /** Reads an availability line back into days: day names separated by
      ", ", nothing else. */
  function ParseDays(t: string): Option<seq<Day>> {
    if |t| == 0 then Some([]) else ParseDayList(t)
  }

  function ParseDayList(t: string): Option<seq<Day>>
    decreases |t|
  {
    var first: Option<(Day, nat)> :=
      if StartsWith(t, "Monday") then Some((Mon, 6))
      else if StartsWith(t, "Wednesday") then Some((Wed, 9))
      else None;
    if first.None? then None
    else
      var (d, n) := first.value;
      if |t| == n then Some([d])
      else if StartsWith(t[n..], ", ") then
        match ParseDayList(t[n + 2..])
        case Some(ds) => Some([d] + ds)
        case None => None
      else None
  }

  /** The rows of the HTML table. Name, email and phone are interpolated as
      submitted; only the notes go through the escaping chain. */
  function HtmlRows(a: Application): (r: seq<HtmlRow>)
    ensures |r| == 4 + (if Truthy(a.phone) then 1 else 0) + (if Truthy(a.notes) then 1 else 0)
    ensures r[0] == HtmlRow("Name:", a.firstName + " " + a.lastName)
    ensures r[1] == HtmlRow("Email:", MailtoLink(a.email))
    ensures Truthy(a.phone) ==> r[2] == HtmlRow("Phone:", a.phone.value)
    ensures
      var p := if Truthy(a.phone) then 1 else 0;
      && r[2 + p] == HtmlRow("Preferred Track:", TrackLabel(a.track))
      && r[3 + p] == HtmlRow("Availability:", AvailabilityText(a.availability))
      && (Truthy(a.notes) ==> r[4 + p] == HtmlRow("Notes:", EscapeHtml(a.notes.value)))
  {
    [HtmlRow("Name:", a.firstName + " " + a.lastName),
     HtmlRow("Email:", MailtoLink(a.email))]
    + (if Truthy(a.phone) then [HtmlRow("Phone:", a.phone.value)] else [])
    + [HtmlRow("Preferred Track:", TrackLabel(a.track)),
       HtmlRow("Availability:", AvailabilityText(a.availability))]
    + (if Truthy(a.notes) then [HtmlRow("Notes:", EscapeHtml(a.notes.value))] else [])
  }

  function HtmlBody(a: Application): string {
    HtmlDocument("New Application", "New Application Received", "Applicant Information",
      HtmlRows(a), Footer)
  }

  /** The lines of the plain-text body, from the heading to the footer; the
      notes appear here unescaped. */
  function TextLines(a: Application): (r: seq<string>)
    ensures |r| == 10 + (if Truthy(a.phone) then 1 else 0) + (if Truthy(a.notes) then 1 else 0)
    ensures r[0] == "New Application Received" && r[|r| - 1] == Footer
    ensures r[3] == "Name: " + a.firstName + " " + a.lastName && r[4] == "Email: " + a.email
    ensures Truthy(a.phone) ==> r[5] == "Phone: " + a.phone.value
    ensures
      var p := if Truthy(a.phone) then 1 else 0;
      && r[5 + p] == "Preferred Track: " + TrackLabel(a.track)
      && r[6 + p] == "Availability: " + AvailabilityText(a.availability)
      && (Truthy(a.notes) ==> r[7 + p] == "Notes: " + a.notes.value)
  {
    ["New Application Received", "", "Applicant Information:",
     "Name: " + a.firstName + " " + a.lastName,
     "Email: " + a.email]
    + (if Truthy(a.phone) then ["Phone: " + a.phone.value] else [])
    + ["Preferred Track: " + TrackLabel(a.track),
       "Availability: " + AvailabilityText(a.availability)]
    + (if Truthy(a.notes) then ["Notes: " + a.notes.value] else [])
    + ["", "", Footer]
  }

  /** The message handed to Resend. */
  function Compose(a: Application, env: Env): (m: Message)
    ensures m.to == InstituteAddress
    ensures m.subject == Subject(a)
    ensures Truthy(env.resendFromEmail) ==> m.from == env.resendFromEmail.value
    ensures !Truthy(env.resendFromEmail) ==> m.from == DefaultFrom
    ensures m.html == HtmlBody(a) && m.text == TextBody(TextLines(a))
  {
    Message(OrElse(env.resendFromEmail, DefaultFrom), InstituteAddress, Subject(a),
      HtmlBody(a), TextBody(TextLines(a)))
  }

  /** The route. `body` is the decoded JSON (`None` when decoding threw),
      `emailOk` the email-format check and `outcome` what the provider call
      does if it is made: a call that returns, even with a refusal in its
      value, is answered `ok`. */
  function Post(body: Option<RawApply>, emailOk: string -> bool, env: Env, outcome: SendOutcome): (h: Handled<Field>)
    ensures body.None? ==> h == Handled(Failed(500, Unexpected), None)
    ensures body.Some? && !Valid(body.value, emailOk) ==>
      && h.response == Response(false, 400, Some(ValidationFailed), h.response.details)
      && h.response.details == Some(Validate(body.value, emailOk).error)
      && |h.response.details.value| > 0
      && h.attempted.None?
    ensures h.attempted.Some? ==> body.Some? && Valid(body.value, emailOk) && Truthy(env.resendApiKey)
    ensures body.Some? && Valid(body.value, emailOk) ==>
      && (h.attempted.Some? <==> Truthy(env.resendApiKey))
      && (h.response.ok <==> Truthy(env.resendApiKey) && outcome == Returned)
      && (!h.response.ok ==> h.response == Failed(500, NotConfigured))
      && (h.response.ok ==> h.response == Accepted())
    ensures h.attempted.Some? ==>
      var a := Validate(body.value, emailOk).value;
      h.attempted.value == Compose(a, env)
  {
    match body
    case None => Handled(Failed(500, Unexpected), None)
    case Some(raw) =>
      match Validate(raw, emailOk)
      case Failure(issues) => Rejected(issues)
      case Success(a) =>
        if Truthy(env.resendApiKey) then
          var m := Compose(a, env);
          if outcome == Returned then Handled(Accepted(), Some(m))
          else Handled(Failed(500, NotConfigured), Some(m))
        else Handled(Failed(500, NotConfigured), None)
  }

  // ---------------------------------------------------------------------------
  // Properties

  /** A provider call that throws is answered exactly as if no key were set:
      the same 500 "not configured" response. */
  lemma ThrowLooksUnconfigured(raw: RawApply, emailOk: string -> bool, env: Env, outcome: SendOutcome)
    requires Valid(raw, emailOk) && Truthy(env.resendApiKey)
    ensures Post(Some(raw), emailOk, env, Threw).response
         == Post(Some(raw), emailOk, env.(resendApiKey := None), outcome).response
    ensures Post(Some(raw), emailOk, env, Threw).attempted.Some?
    ensures Post(Some(raw), emailOk, env.(resendApiKey := None), outcome).attempted.None?
  {
  }

  /** A typical application (Ali Khan, online track, Monday and Wednesday, no
      phone or notes) is accepted when a key is set and the provider delivers,
      and refused as not configured when no key is set. */
  lemma ExampleApplication(emailOk: string -> bool, env: Env)
    requires emailOk("a@example.com")
    ensures
      var raw := RawApply(Some(Str("Ali")), Some(Str("Khan")), Some(Str("a@example.com")), None,
        Some(Str("online")), Some(Arr([Str("mon"), Str("wed")])), None);
      && (Truthy(env.resendApiKey) ==> Post(Some(raw), emailOk, env, Returned).response == Accepted())
      && (!Truthy(env.resendApiKey) ==> Post(Some(raw), emailOk, env, Returned).response == Failed(500, NotConfigured))
  {
    var raw := RawApply(Some(Str("Ali")), Some(Str("Khan")), Some(Str("a@example.com")), None,
      Some(Str("online")), Some(Arr([Str("mon"), Str("wed")])), None);
    assert DayEntry(raw.availability.value.items[0]);
    assert DayEntry(raw.availability.value.items[1]);
    assert Valid(raw, emailOk);
  }

  // ---------------------------------------------------------------------------
  // Formatting

  lemma {:induction false} ParseJoinedDays(days: seq<Day>)
    requires |days| > 0
    ensures ParseDayList(Join(DayNames(days), ", ")) == Some(days)
    decreases |days|
  {
    var d := days[0];
    var name := DayName(d);
    var t := Join(DayNames(days), ", ");
    var rest := if |days| == 1 then "" else ", " + Join(DayNames(days[1..]), ", ");
    if |days| > 1 {
      assert DayNames(days)[1..] == DayNames(days[1..]);
    }
    assert t == name + rest;
    Prefixed(name, rest);
    if d == Wed {
      Differs(t, "Monday", 0);
    }
    assert StartsWith(t, "Monday") <==> d == Mon;
    assert !StartsWith(t, "Monday") ==> StartsWith(t, "Wednesday");
    if |days| == 1 {
      assert t == name;
      assert days == [d];
    } else {
      var more := Join(DayNames(days[1..]), ", ");
      Prefixed(", ", more);
      assert t[|name|..] == ", " + more;
      assert StartsWith(t[|name|..], ", ");
      assert t[|name| + 2..] == more;
      assert |t| != |name|;
      ParseJoinedDays(days[1..]);
      assert days == [d] + days[1..];
    }
  }

  /** "Online" for the online track, "Not sure" for not-sure. */
  lemma TrackText(raw: RawApply, emailOk: string -> bool)
    requires Valid(raw, emailOk)
    ensures raw.preferredTrack.value.s == "online" ==> TrackLabel(Validate(raw, emailOk).value.track) == "Online"
    ensures raw.preferredTrack.value.s == "not-sure" ==> TrackLabel(Validate(raw, emailOk).value.track) == "Not sure"
  {
  }

  /** The phone row exists exactly when a non-empty phone was given, and then
      holds the phone as submitted. */
  lemma PhoneRow(a: Application)
    ensures HasRow(HtmlRows(a), "Phone:") <==> Truthy(a.phone)
    ensures Truthy(a.phone) ==> HtmlRow("Phone:", a.phone.value) in HtmlRows(a)
  {
    var rows := HtmlRows(a);
    if Truthy(a.phone) {
      assert rows[2] == HtmlRow("Phone:", a.phone.value);
    } else {
      forall k | 0 <= k < |rows| ensures rows[k].caption != "Phone:" {
      }
    }
  }

  /** The notes row exists exactly when non-empty notes were given, and then
      holds the escaped notes, which carry no raw markup. */
  lemma NotesRow(a: Application)
    ensures HasRow(HtmlRows(a), "Notes:") <==> Truthy(a.notes)
    ensures Truthy(a.notes) ==>
      && HtmlRow("Notes:", EscapeHtml(a.notes.value)) in HtmlRows(a)
      && MarkupSafe(EscapeHtml(a.notes.value))
  {
    var rows := HtmlRows(a);
    if Truthy(a.notes) {
      assert rows[|rows| - 1] == HtmlRow("Notes:", EscapeHtml(a.notes.value));
      EscapedIsMarkupSafe(a.notes.value);
    } else {
      forall k | 0 <= k < |rows| ensures rows[k].caption != "Notes:" {
      }
    }
  }

  /** Name, email and phone reach the HTML body as submitted; the notes reach
      it escaped. */
  lemma HtmlCarriesFields(a: Application)
    ensures Contains(HtmlBody(a), a.firstName + " " + a.lastName)
    ensures Contains(HtmlBody(a), MailtoLink(a.email))
    ensures Truthy(a.phone) ==> Contains(HtmlBody(a), a.phone.value)
    ensures Truthy(a.notes) ==> Contains(HtmlBody(a), EscapeHtml(a.notes.value))
  {
    var rows := HtmlRows(a);
    var title, heading, section := "New Application", "New Application Received", "Applicant Information";
    var footer := Footer;
    CellInDocument(title, heading, section, rows, footer, 0);
    CellInDocument(title, heading, section, rows, footer, 1);
    if Truthy(a.phone) {
      assert rows[2].cell == a.phone.value;
      CellInDocument(title, heading, section, rows, footer, 2);
    }
    if Truthy(a.notes) {
      assert rows[|rows| - 1].cell == EscapeHtml(a.notes.value);
      CellInDocument(title, heading, section, rows, footer, |rows| - 1);
    }
  }

  /** Markup-safe text never contains a `<b>` tag: its only `<` opens `<br>`. */
  lemma SafeHasNoBoldTag(t: string)
    requires MarkupSafe(t)
    ensures !Contains(t, "<b>")
  {
    forall j | 0 <= j && j + 3 <= |t|
      ensures !OccursAt(t, "<b>", j)
    {
      if t[j] == '<' {
        assert OccursAt(t, Br, j);
        assert t[j + 2] == 'r';
        assert t[j..j + 3][2] == 'r';
      } else {
        assert t[j..j + 3][0] != '<';
      }
    }
  }

  /** Escaped text never contains a `<b>` tag. */
  lemma NoTagInEscaped(s: string)
    ensures !Contains(EscapeHtml(s), "<b>")
  {
    EscapedIsMarkupSafe(s);
    SafeHasNoBoldTag(EscapeHtml(s));
  }

  /** A name holding markup reaches the HTML body as markup, while the same
      text given as notes cannot: escaping only covers the notes. */
  lemma MarkupInNameNotInNotes(a: Application)
    requires a.firstName == "<b>"
    ensures Contains(HtmlBody(a), "<b>")
    ensures !Contains(EscapeHtml(a.firstName), "<b>")
  {
    HtmlCarriesFields(a);
    ContainsPrefix(HtmlBody(a), a.firstName + " ", a.lastName);
    ContainsPrefix(HtmlBody(a), a.firstName, " ");
    NoTagInEscaped(a.firstName);
  }

  lemma NotPhoneLine(line: string, k: nat)
    requires k < 7 && k < |line| && line[k] != "Phone: "[k]
    ensures !StartsWith(line, "Phone: ")
  {
    Differs(line, "Phone: ", k);
  }

  lemma NotNotesLine(line: string, k: nat)
    requires k < 7 && k < |line| && line[k] != "Notes: "[k]
    ensures !StartsWith(line, "Notes: ")
  {
    Differs(line, "Notes: ", k);
  }

  /** The fixed lines before the phone line start with neither tag. */
  lemma HeadLineTag(a: Application, k: nat)
    requires k < 5
    ensures
      var p := if Truthy(a.phone) then 1 else 0;
      && (StartsWith(TextLines(a)[k], "Phone: ") ==> Truthy(a.phone) && k == 5)
      && (StartsWith(TextLines(a)[k], "Notes: ") ==> Truthy(a.notes) && k == 7 + p)
  {
    var head := ["New Application Received", "", "Applicant Information:",
      "Name: " + a.firstName + " " + a.lastName, "Email: " + a.email];
    assert TextLines(a)[k] == head[k];
    var l := head[k];
    if k == 0 {
      assert l == "New Application Received";
      NotPhoneLine(l, 0); NotNotesLine(l, 1);
    } else if k == 2 {
      assert l == "Applicant Information:";
      NotPhoneLine(l, 0); NotNotesLine(l, 0);
    } else if k == 3 {
      assert l[0] == 'N' && l[1] == 'a';
      NotPhoneLine(l, 0); NotNotesLine(l, 1);
    } else if k == 4 {
      assert l[0] == 'E';
      NotPhoneLine(l, 0); NotNotesLine(l, 0);
    } else {
      assert l == "";
    }
  }

  /** From the phone line on, only the phone line and the notes line carry
      their tags. */
  lemma TailLineTag(a: Application, k: nat)
    requires 5 <= k < |TextLines(a)|
    ensures
      var p := if Truthy(a.phone) then 1 else 0;
      && (StartsWith(TextLines(a)[k], "Phone: ") ==> Truthy(a.phone) && k == 5)
      && (StartsWith(TextLines(a)[k], "Notes: ") ==> Truthy(a.notes) && k == 7 + p)
  {
    var p := if Truthy(a.phone) then 1 else 0;
    var n := if Truthy(a.notes) then 1 else 0;
    var tail :=
      (if Truthy(a.phone) then ["Phone: " + a.phone.value] else [])
      + ["Preferred Track: " + TrackLabel(a.track),
         "Availability: " + AvailabilityText(a.availability)]
      + (if Truthy(a.notes) then ["Notes: " + a.notes.value] else [])
      + ["", "", Footer];
    assert TextLines(a)[k] == tail[k - 5];
    var l := tail[k - 5];
    if k == 5 && p == 1 {
      assert l[0] == 'P';
      NotNotesLine(l, 0);
    } else if k == 5 + p {
      assert l[0] == 'P' && l[1] == 'r';
      NotPhoneLine(l, 1); NotNotesLine(l, 0);
    } else if k == 6 + p {
      assert l[0] == 'A';
      NotPhoneLine(l, 0); NotNotesLine(l, 0);
    } else if k == 7 + p && n == 1 {
      assert l[0] == 'N';
      NotPhoneLine(l, 0);
    } else if k == 9 + p + n {
      assert l == Footer;
      assert Footer[0] == 'T';
      NotPhoneLine(l, 0); NotNotesLine(l, 0);
    } else {
      assert l == "";
    }
  }

  /** The text body has a phone line exactly when a non-empty phone was given,
      and a notes line exactly when non-empty notes were given; the notes are
      copied there unescaped. */
  lemma TextOptionalLines(a: Application)
    ensures HasLine(TextLines(a), "Phone: ") <==> Truthy(a.phone)
    ensures HasLine(TextLines(a), "Notes: ") <==> Truthy(a.notes)
    ensures Truthy(a.notes) ==> Contains(TextBody(TextLines(a)), "Notes: " + a.notes.value)
  {
    var lines := TextLines(a);
    var p := if Truthy(a.phone) then 1 else 0;
    var n := if Truthy(a.notes) then 1 else 0;
    assert |lines| == 10 + p + n;
    forall k | 0 <= k < |lines|
      ensures StartsWith(lines[k], "Phone: ") ==> Truthy(a.phone) && k == 5
      ensures StartsWith(lines[k], "Notes: ") ==> Truthy(a.notes) && k == 7 + p
    {
      if k < 5 { HeadLineTag(a, k); } else { TailLineTag(a, k); }
    }
    if Truthy(a.phone) {
      Prefixed("Phone: ", a.phone.value);
      assert StartsWith(lines[5], "Phone: ");
    }
    if Truthy(a.notes) {
      Prefixed("Notes: ", a.notes.value);
      assert lines[7 + p] == "Notes: " + a.notes.value;
      assert StartsWith(lines[7 + p], "Notes: ");
      PartInJoin(lines, "\n", 7 + p);
    }
  }
}
