/** What the two form routes share: the process environment they read, the
    message they hand to the mail provider, the JSON response they return,
    and the HTML and plain-text bodies built from constant fragments around
    the submitted values. */
module Mail {
  import opened Wrappers
  import opened Strings

  /** The environment variables the routes read; `None` is an unset variable. */
  datatype Env = Env(
    resendApiKey: Option<string>,
    resendFromEmail: Option<string>,
    smtpHost: Option<string>,
    smtpUser: Option<string>,
    smtpPassword: Option<string>,
    smtpFromEmail: Option<string>)

  /** JavaScript truthiness of an optional string (an environment value or an
      optional form field): set and not empty. */
  predicate Truthy(v: Option<string>) {
    v.Some? && |v.value| > 0
  }

  /** `v || fallback` on an environment value. */
  function OrElse(v: Option<string>, fallback: string): (r: string)
    ensures Truthy(v) ==> r == v.value
    ensures !Truthy(v) ==> r == fallback
  {
    if Truthy(v) then v.value else fallback
  }

  /** The fixed destination of every notification. */
  const InstituteAddress := "Darultahawiyyah@gmail.com"

  /** One message handed to the provider. */
  datatype Message = Message(from: string, to: string, subject: string, html: string, text: string)

  /** What the awaited provider call did: returned (whatever value it
      returned, which the routes never read), or threw. */
  datatype SendOutcome = Returned | Threw

  /** A JSON response: `ok`, the HTTP status, the error text and the
      validation issues (`details`). */
  datatype Response<I> = Response(ok: bool, status: int, error: Option<string>, details: Option<seq<I>>)

  /** A route's decision: the response, and the message it tried to send
      (`None` when no send was attempted). */
  datatype Handled<I> = Handled(response: Response<I>, attempted: Option<Message>)

  function Accepted<I>(): Response<I> {
    Response(true, 200, None, None)
  }

  function Failed<I>(status: int, error: string): Response<I> {
    Response(false, status, Some(error), None)
  }

  const ValidationFailed := "Validation failed"
  const Unexpected := "An unexpected error occurred. Please try again later."

  /** The 400 answer to a body the schema rejected; nothing is sent. */
  function Rejected<I>(issues: seq<I>): (h: Handled<I>)
    ensures !h.response.ok && h.response.status == 400 && h.attempted.None?
    ensures h.response.error == Some(ValidationFailed) && h.response.details == Some(issues)
  {
    Handled(Response(false, 400, Some(ValidationFailed), Some(issues)), None)
  }

  // ---------------------------------------------------------------------------
  // HTML body

  /** One row of the body's table: a caption cell and a value cell. */
  datatype HtmlRow = HtmlRow(caption: string, cell: string)

  function RenderRow(row: HtmlRow): string {
    "<tr><td>" + row.caption + "</td><td>" + row.cell + "</td></tr>"
  }

  function RenderRows(rows: seq<HtmlRow>): string {
    if |rows| == 0 then "" else RenderRow(rows[0]) + RenderRows(rows[1..])
  }

  /** The document's fixed opening: doctype, character set and viewport. */
  const DocumentHead := "<!DOCTYPE html><html><head><meta charset=\"utf-8\">"
    + "<meta name=\"viewport\" content=\"width=device-width, initial-scale=1.0\">"

  /** Everything before the table's rows: head, title, heading and section
      heading. */
  function DocumentOpening(title: string, heading: string, section: string): string {
    DocumentHead
    + "<title>" + title + "</title></head><body><div><h1>" + heading + "</h1>"
    + "<div><h2>" + section + "</h2><table>"
  }

  /** Everything after the table's rows: the footer line. */
  function DocumentClosing(footer: string): string {
    "</table></div>" + "<p>" + footer + "</p></div></body></html>"
  }

  /** The document around the table: title, heading, section heading and
      footer line are constants of each route. */
  function HtmlDocument(title: string, heading: string, section: string, rows: seq<HtmlRow>, footer: string): string {
    DocumentOpening(title, heading, section) + RenderRows(rows) + DocumentClosing(footer)
  }

  /** The `mailto:` link shown in the email cell. */
  function MailtoLink(address: string): string {
    "<a href=\"mailto:" + address + "\">" + address + "</a>"
  }

  /** Some row of the table carries `caption`. */
  predicate HasRow(rows: seq<HtmlRow>, caption: string) {
    exists k :: 0 <= k < |rows| && rows[k].caption == caption
  }

  /** Some line of the text body starts with `tag`. */
  predicate HasLine(lines: seq<string>, tag: string) {
    exists k :: 0 <= k < |lines| && StartsWith(lines[k], tag)
  }

  /** Row `k`'s cell appears verbatim in the rendered rows. */
  lemma {:induction false} CellRendered(rows: seq<HtmlRow>, k: nat)
    requires k < |rows|
    ensures Contains(RenderRows(rows), rows[k].cell)
    decreases |rows|
  {
    var head := RenderRow(rows[0]);
    if k == 0 {
      var pre := "<tr><td>" + rows[0].caption + "</td><td>";
      var post := "</td></tr>";
      assert head == pre + rows[0].cell + post;
      OccursInRight(pre, rows[0].cell, rows[0].cell, 0);
      assert OccursAt(pre + rows[0].cell, rows[0].cell, |pre|);
      OccursInLeft(pre + rows[0].cell, post, rows[0].cell, |pre|);
      OccursInLeft(head, RenderRows(rows[1..]), rows[0].cell, |pre|);
    } else {
      CellRendered(rows[1..], k - 1);
      assert rows[1..][k - 1] == rows[k];
      var i :| OccursAt(RenderRows(rows[1..]), rows[k].cell, i);
      OccursInRight(head, RenderRows(rows[1..]), rows[k].cell, i);
    }
  }

  /** Every row's cell appears verbatim in the document. */
  lemma CellInDocument(title: string, heading: string, section: string, rows: seq<HtmlRow>, footer: string, k: nat)
    requires k < |rows|
    ensures Contains(HtmlDocument(title, heading, section, rows, footer), rows[k].cell)
  {
    CellRendered(rows, k);
    var pre := DocumentOpening(title, heading, section);
    var post := DocumentClosing(footer);
    var body := RenderRows(rows);
    assert HtmlDocument(title, heading, section, rows, footer) == pre + body + post;
    var i :| OccursAt(body, rows[k].cell, i);
    OccursInRight(pre, body, rows[k].cell, i);
    OccursInLeft(pre + body, post, rows[k].cell, |pre| + i);
  }

  // ---------------------------------------------------------------------------
  // Plain-text body

  /** The text body: its lines joined by newlines. */
  function TextBody(lines: seq<string>): string {
    Join(lines, "\n")
  }
}
