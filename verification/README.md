# Tahawiyyah Institute site: form pipeline and navigation rules in Dafny

This project models the logic of the Tahawiyyah Institute marketing site:

- the application form's schema (`applySchema`);
- the two submission endpoints, `/api/apply` and `/api/contact`. Each is modelled as a pure decision from
  (decoded body, environment, outcome of the mail-provider call) to
  (JSON response, message handed to the provider, if any);
- the notification each endpoint composes: the subject, the availability and track
  text, the HTML table rows, the plain-text lines, and the markup-escaping chain
  applied to the free-text field;
- the navigation bar's "is this link active" rule and its mobile-menu state machine;
- the mobile sticky call-to-action's visibility rule.

Modules, one per source component:

| file | module | models |
|---|---|---|
| `apply_schema.dfy` | `ApplySchema` | `src/lib/apply-schema.ts` |
| `html_escape.dfy` | `HtmlEscape` | the `.replace` chain shared by both routes |
| `mail.dfy` | `Mail` | environment, message, response and body rendering shared by both routes |
| `apply_route.dfy` | `ApplyRoute` | `src/app/api/apply/route.ts` |
| `contact_route.dfy` | `ContactRoute` | `src/app/api/contact/route.ts` |
| `navbar.dfy` | `Navbar` | `src/components/Navbar.tsx` |
| `mobile_sticky_cta.dfy` | `MobileStickyCta` | `src/components/MobileStickyCTA.tsx` |
| `strings.dfy`, `wrappers.dfy` | `Strings`, `Wrappers` | string helpers, `Option`/`Result` |

Inputs the model takes as parameters:

- The decoded request body is an `Option`. `None` stands for a body whose decoding threw; the route answers it with its catch-all 500.
- The email-format check is a parameter `emailOk: string -> bool`.
- `process.env` is an `Env` record. An unset variable is `None`. "Set" means JavaScript-truthy: present and non-empty.
- The awaited mail-provider call is a `SendOutcome` input, either `Returned` or `Threw`. The route consults it only when it actually sends. The routes never read the value the call returns, so `Returned` covers every call that comes back without throwing, including one whose value reports a refused message.
- The contact schema is not part of this model. Its verdict is an input: the body did not decode, the schema reported issues, or it produced a `Contact`.

Behaviour of the code that the model keeps:

- **Repeated days are kept.** The schema accepts repeated availability codes, and the formatter maps each entry in order. So `["mon", "mon"]` gives `Monday, Monday` (`ApplySchema.DuplicateDaysAccepted`, `ApplyRoute.AvailabilityText`).
- **Only the free-text field is escaped.** The code escapes only the apply notes and the contact message. Names, email, phone and the contact subject are interpolated raw (`ApplyRoute.MarkupInNameNotInNotes`, `ContactRoute.HtmlCarriesFields`).
- **Apply uses one provider.** In the apply route the nodemailer fallback is commented out, so a thrown Resend error falls through to the "not configured" answer (`ApplyRoute.ThrowLooksUnconfigured`).
- **A returned call counts as success.** The apply route answers `ok=true` whenever the awaited Resend call returns without throwing (src/app/api/apply/route.ts:135-143). A refusal that the client reports in its returned value, rather than by throwing, is therefore answered `ok=true` too. The contact route likewise ignores the value `sendMail` returns (src/app/api/contact/route.ts:103-111).

## Model

| member | source | states |
|---|---|---|
| `Strings.ReplaceChar` | src/app/api/apply/route.ts:98-103 | a one-character global replacement leaves text without that character unchanged; it distributes over concatenation (`ReplaceCharAppend`) |
| `HtmlEscape.EscapeHtml` | src/app/api/apply/route.ts:97-103 | the escaped text contains no raw `"`, `'` or newline, and text without any of the six special characters passes through unchanged |
| `HtmlEscape.EscapeChainIsSinglePass` | src/app/api/apply/route.ts:97-103 | the six chained replacements equal one left-to-right pass: `&`→`&amp;`, `<`→`&lt;`, `>`→`&gt;`, `"`→`&quot;`, `'`→`&#x27;`, newline→`<br>`, all other characters kept. Replacing `&` first means no entity is escaped twice |
| `HtmlEscape.EscapedIsMarkupSafe` | src/app/api/apply/route.ts:97-103 | for every input, the escaped text has no raw `"` or `'`. Every `&` in it begins one of the five entities. Every `<` begins a `<br>` and every `>` ends one |
| `HtmlEscape.TagsComeFromNewlines` | src/app/api/apply/route.ts:103 | the escaped text has exactly as many `<` and as many `>` as the input has newlines, so every tag comes from a newline |
| `HtmlEscape.UnescapeEscape` | src/app/api/apply/route.ts:97-103 | decoding entities and `<br>` back to characters recovers the original text exactly |
| `HtmlEscape.EscapeInjective` | src/app/api/contact/route.ts:69-75 | distinct free texts give distinct escaped texts (the message and the notes go through the same chain) |
| `ApplySchema.TrackCode` | src/lib/apply-schema.ts:8-10 | a track code decodes to Online exactly for "online" and to NotSure exactly for "not-sure"; every other string is refused |
| `ApplySchema.DayCode` | src/lib/apply-schema.ts:12 | an availability code decodes to Mon exactly for "mon" and to Wed exactly for "wed"; every other string is refused |
| `ApplySchema.Days` | src/lib/apply-schema.ts:11-13 | the decoded availability list has one day per submitted entry, in order, each the decoding of its entry, repeats kept |
| `ApplySchema.Valid` | src/lib/apply-schema.ts:3-15 | the object rule holds iff every one of the seven field rules holds; no field goes unchecked |
| `ApplySchema.Validate` | src/lib/apply-schema.ts:3-15 | a body is accepted iff all seven field rules hold. On rejection the issue list is non-empty and names exactly the failing fields, each once. On acceptance the strings are copied unchanged, absent optional fields stay absent, and the track and every availability code are decoded in order with repeats kept |
| `ApplySchema.EmptyNameRejected` | src/lib/apply-schema.ts:4-5 | an empty first or last name rejects the body, reported against that field |
| `ApplySchema.BadEmailRejected` | src/lib/apply-schema.ts:6 | an email string failing the format check rejects the body, reported against the email field |
| `ApplySchema.TrackRule` | src/lib/apply-schema.ts:8-10 | the track rule holds iff the value is exactly the string "online" or "not-sure" |
| `ApplySchema.AvailabilityRuleExact` | src/lib/apply-schema.ts:11-13 | the availability rule holds iff the value is a non-empty array whose every element is the string "mon" or "wed" |
| `ApplySchema.DuplicateDaysAccepted` | src/lib/apply-schema.ts:11-13 | a body whose other six fields pass, with availability `["mon", "mon"]`, passes the schema, and the repeated code survives decoding as `[Mon, Mon]` |
| `ApplySchema.OptionalFieldsNeverReject` | src/lib/apply-schema.ts:7-14 | an absent phone or notes, or any string value for them, never appears among the failing fields |
| `ApplySchema.FailingFields` | src/app/api/apply/route.ts:25 | the reported issue list contains a field iff its rule fails; from a field list without repeats, each failing field is reported once |
| `ApplyRoute.Post` | src/app/api/apply/route.ts:17-185 | an undecodable body gives 500 "An unexpected error occurred…". A body failing the schema gives `ok=false`, 400, "Validation failed", with the schema's own non-empty issue list as details, and no send. A send happens iff the body is valid and `RESEND_API_KEY` is set. The response is `ok=true` (200) iff additionally the call returns without throwing; otherwise it is the 500 "Email service not configured…". The message sent is the one composed from the validated application |
| `ApplyRoute.Subject` | src/app/api/apply/route.ts:33 | the subject is the prefix "[Tahawiyyah Institute] New Application - " followed by first name, a space and last name |
| `ApplyRoute.AvailabilityText` | src/app/api/apply/route.ts:36-42 | the availability text parses back into exactly the submitted days: each code became its day name ("Monday"/"Wednesday"), in order, none dropped or merged, separated by ", " |
| `ApplyRoute.TrackLabel` | src/app/api/apply/route.ts:45-49 | the text is "Online" exactly for the online track and "Not sure" exactly for not-sure, so the two tracks are told apart |
| `ApplyRoute.TrackText` | src/app/api/apply/route.ts:45-49 | the track text is "Online" for "online" and "Not sure" for "not-sure" |
| `ApplyRoute.HtmlRows` | src/app/api/apply/route.ts:71-106 | the template's table rows in order: name, the email's mailto link, the phone when given, track text, availability text, the escaped notes when given. That is four rows, plus one for a non-empty phone and one for non-empty notes |
| `ApplyRoute.PhoneRow` | src/app/api/apply/route.ts:80-85 | the template emits a phone row iff a non-empty phone was given; the row holds the phone unescaped |
| `ApplyRoute.NotesRow` | src/app/api/apply/route.ts:94-105 | the template emits a notes row iff non-empty notes were given; the row holds the escaped notes, which are markup-safe |
| `ApplyRoute.HtmlCarriesFields` | src/app/api/apply/route.ts:72-105 | the HTML body contains the full name, the mailto link and the phone verbatim, and the notes escaped |
| `ApplyRoute.MarkupInNameNotInNotes` | src/app/api/apply/route.ts:74 | a first name `<b>` appears as the tag `<b>` in the HTML body, while the same text escaped as notes cannot contain `<b>` |
| `ApplyRoute.TextLines` | src/app/api/apply/route.ts:118-129 | the template's text lines in order: heading "New Application Received", name and email lines, the "Phone: " line when a phone is given, track and availability lines, the unescaped "Notes: " line when notes are given, and the footer last. That is ten lines plus one per optional field given |
| `ApplyRoute.TextOptionalLines` | src/app/api/apply/route.ts:118-129 | the template emits a "Phone: " line iff a non-empty phone was given and a "Notes: " line iff non-empty notes were given; the notes appear there unescaped |
| `Mail.OrElse` | src/app/api/apply/route.ts:136 | `value || fallback` on an environment value: the value when it is set and non-empty, the fallback when it is unset or empty |
| `ApplyRoute.Compose` | src/app/api/apply/route.ts:135-141 | the message goes to the fixed institute address with the formatted subject, and carries the HTML body and the plain-text body built from the same application; the sender is `RESEND_FROM_EMAIL` when set, else "noreply@example.com" |
| `ApplyRoute.ThrowLooksUnconfigured` | src/app/api/apply/route.ts:132-174 | for a valid body, a provider call that throws gets the same response as an unset API key; only the former attempted a send |
| `ApplyRoute.ExampleApplication` | src/app/api/apply/route.ts:22-174 | a typical valid application is accepted with a key and a returning provider call, and gets the 500 "not configured" answer without a key |
| `ContactRoute.Post` | src/app/api/contact/route.ts:16-143 | an undecodable body gives the 500 "unexpected" error. Schema issues give `ok=false`, 400, "Validation failed" with those issues, and no send. A send happens iff the contact is valid and host, user and password are all set. A call that returns gives `ok=true`; a throw gives 500 "Failed to send email…"; missing settings give 500 "Email service not configured…" |
| `ContactRoute.Subject` | src/app/api/contact/route.ts:32 | the subject is "[Tahawiyyah Institute] Contact Form: " followed by the submitted subject |
| `ContactRoute.HtmlRows` | src/app/api/contact/route.ts:54-77 | the template's table has exactly four rows, in order: the name, the email's mailto link, the subject and the escaped message |
| `ContactRoute.TextLines` | src/app/api/contact/route.ts:89-99 | the template's nine text lines run from the heading "New Contact Form Submission" through the name, email, subject and unescaped message lines to the footer |
| `ContactRoute.Compose` | src/app/api/contact/route.ts:104-110 | the sender is `SMTP_FROM_EMAIL` when set, else `SMTP_USER`; the recipient is always the institute address; the subject is the formatted one; the message carries the HTML body and the plain-text body built from the same contact |
| `ContactRoute.FailureDistinctFromUnconfigured` | src/app/api/contact/route.ts:102-132 | a failed send and a missing configuration are both 500 but have different responses, and only the first attempted a send |
| `ContactRoute.EachSettingRequired` | src/app/api/contact/route.ts:102 | with any one of host, user or password unset or empty and the other two set, no send is attempted and the answer is the 500 "not configured" response |
| `ContactRoute.HtmlCarriesFields` | src/app/api/contact/route.ts:54-77 | the message row holds the escaped, markup-safe message; name and subject appear in the HTML body verbatim |
| `ContactRoute.TextCarriesMessage` | src/app/api/contact/route.ts:89-99 | the text body carries "Message: " followed by the unescaped message |
| `Navbar.IsActive` | src/components/Navbar.tsx:82-85 | a link is active on its own page; when active, the path starts with the link's href and, if longer, continues with "/"; home is active only on "/"; any other link is active on every path below it |
| `Navbar.DesktopItems` | src/components/Navbar.tsx:81-101 | the desktop bar renders the five links in table order, each with its href and caption; a link gets the gold underlined class iff it is active and the plain class iff it is not |
| `Navbar.MobileItems` | src/components/Navbar.tsx:158-177 | the mobile panel renders the five links in table order, each with its href and caption; a link gets the gold class iff it is active and the plain class iff it is not |
| `Navbar.SegmentPrefix` | src/components/Navbar.tsx:82-85 | "/programs" does not activate "/program", "/program/x" does, and "/program" does not activate the home link |
| `Navbar.CoversNested` | src/components/Navbar.tsx:85 | if two links both cover a path, the shorter one plus "/" begins the longer one, or they are the same link |
| `Navbar.AtMostOneActive` | src/components/Navbar.tsx:11-17 | for the site's five-link table and any path, no two links are active together |
| `Navbar.SameHighlight` | src/components/Navbar.tsx:159-171 | the mobile panel highlights a link iff the desktop bar does, iff the link is active |
| `Navbar.Mount` | src/components/Navbar.tsx:20-21 | on first render the mobile menu is closed and belongs to the current path |
| `Navbar.Step` | src/components/Navbar.tsx:23-45 | toggle flips the menu. Escape, a mobile link click and the mobile Apply click leave it closed. Escape while closed and any other key change nothing. A route change to a new path closes it; a "change" to the same path changes nothing |
| `Navbar.MenuOpenIffOddToggles` | src/components/Navbar.tsx:20-45 | starting closed, after any sequence of events the menu is open iff an odd number of toggles followed the last closing event, and it belongs to the last route visited |
| `Navbar.ToggleTwice` | src/components/Navbar.tsx:23-25 | two toggles restore the state |
| `MobileStickyCta.StickyCta` | src/components/MobileStickyCTA.tsx:8-22 | the bar is shown iff the path is exactly "/", "/program", "/curriculum" or "/schedule", and then it targets "/apply" |
| `MobileStickyCta.HiddenOnFormPages` | src/components/MobileStickyCTA.tsx:14-16 | hidden on "/apply" and "/contact" |
| `MobileStickyCta.ExactMatchUnlikeNavbar` | src/components/MobileStickyCTA.tsx:12 | hidden on "/program/x", where the navigation bar still highlights "/program" |
| `MobileStickyCta.ShownOnNavPages` | src/components/MobileStickyCTA.tsx:8 | wherever the bar shows, the path is a navigation link's own page and that link is active |

## Left out

- JSON decoding (`request.json()`) is library behaviour. It is reduced to an optional body, whose absence takes the catch-all 500 path.
- zod internals are not modelled: the email regular expression (a parameter here), the wording of zod's messages, and its one-issue-per-array-element reporting. Issues are modelled as the list of failing fields. Unknown keys, which zod strips, never appear in the body record. Lengths count characters rather than UTF-16 units; the two agree on "non-empty".
- The contact schema (`@/lib/contact-schema`) is not part of this model. Its verdict is an input to `ContactRoute.Post`.
- The Resend and nodemailer calls and the transporter's construction are foreign I/O. `SMTP_PORT` and `SMTP_SECURE` only configure the transporter, so they are not modelled. The call's effect is the `SendOutcome` input.
- The commented-out nodemailer fallback in the apply route is inert code and is not modelled.
- The HTML templates' styling attributes and indentation are not reproduced. The documents are rows of (caption, cell) between constant fragments. The text bodies are modelled exactly, as lines joined by newlines; `.trim()` only removes the template's constant leading newline and trailing indentation.
- Logging (`console.error`) and async/await are left out.
- Rendering in the navigation components is left out: logo, class names other than the highlight, ARIA attributes. Registering and removing the Escape listener is modelled as a key event reaching the current state.
- The client-side form controllers (`src/app/(site)/apply/page.tsx`, `src/app/(site)/contact/page.tsx`) are outside the modelled core. So are the presentational components (Button, Badge, Container, Divider, SectionHeader, Footer, Accordion), the layouts and the Tailwind configuration.
- A JSON body that decodes to something other than an object (`null`, an array, a number) is not representable as a `RawApply`; zod answers it with a single root-level issue and the route with the same 400 response.
- ApplyRoute.PhoneRow, ApplyRoute.NotesRow, ApplyRoute.TextOptionalLines: these hold for the rows and lines the template emits, not for the rendered strings. Raw fields can forge a row or line: a first name holding `</td></tr><tr><td>Phone:</td><td>1`, or notes holding a newline followed by `Phone: 1` in the text body.
- The value the provider call returns is not modelled, because neither route reads it.
- ContactRoute.Compose: requires that host, user and password are set, because the route builds the message only inside that check. `SMTP_USER` is then defined.
