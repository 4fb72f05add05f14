/**
 * The contact endpoint: the required-field check, then two emails sent one
 * after the other (a notification to the site owner, a confirmation to the
 * visitor), then a success body carrying the ids the mail service returned.
 *
 * Sending is an outcome handed in per email; the emails themselves are
 * records of what the handler asks to send (sender, recipients, subject and
 * the values it places in the message), without the HTML styling around
 * them.
 */
module ContactRoute {
  import opened JsText

  /** The request fields; "" stands for a field that is absent or empty. */
  datatype ContactFields = ContactFields(
    name: string, email: string, company: string,
    subject: string, inquiryType: string, message: string)

  /** The fields without which a submission is refused (company is optional). */
  predicate HasRequired(f: ContactFields) {
    f.name != "" && f.email != "" && f.subject != "" && f.inquiryType != "" && f.message != ""
  }

  /** A labelled value placed in an email. */
  datatype Detail = Detail(field: string, value: string)

  datatype Email = Email(from: string, to: seq<string>, subject: string, details: seq<Detail>)

  const OwnerAddress := "omkardongre5@gmail.com"
  const NotificationSender := "contact@omkard.site"
  const ConfirmationSender := "Omkar Dongre <hello@omkard.site>"
  const NotificationPrefix := "New Contact Form Submission: "
  const ConfirmationSubject := "Thank you for reaching out!"

  /** `s.replace("-", " ")`: a string pattern replaces its first occurrence
      only. */
  function ReplaceFirstHyphen(s: string): (r: string)
    ensures |r| == |s|
    ensures IndexOfFrom(s, '-', 0).None? ==> r == s
    ensures IndexOfFrom(s, '-', 0).Some? ==>
              var k := IndexOfFrom(s, '-', 0).value;
              r == s[..k] + " " + s[k + 1..]
  {
    if s == [] then []
    else if s[0] == '-' then " " + s[1..]
    else
      var r := [s[0]] + ReplaceFirstHyphen(s[1..]);
      assert IndexOfFrom(s, '-', 0) == Shifted(IndexOfFrom(s[1..], '-', 0)) by {
        IndexOfShift(s, '-', 0);
      }
      r
  }

  function Shifted(k: Option<nat>): Option<nat> {
    match k
    case None => None
    case Some(i) => Some(i + 1)
  }

  lemma IndexOfShift(s: string, c: char, from: nat)
    requires from < |s| && s[from] != c
    ensures IndexOfFrom(s, c, from) == Shifted(IndexOfFrom(s[1..], c, from))
    decreases |s| - from
  {
    if from + 1 < |s| && s[from + 1] != c {
      IndexOfShift(s, c, from + 1);
    }
  }

  /** Only the first hyphen becomes a space: every other character, later
      hyphens included, is kept. */
  lemma ReplaceKeepsLaterHyphens(s: string, j: nat)
    requires j < |s| && s[j] == '-'
    requires exists i :: 0 <= i < j && s[i] == '-'
    ensures ReplaceFirstHyphen(s)[j] == '-'
  {
    var i :| 0 <= i < j && s[i] == '-';
    var k := IndexOfFrom(s, '-', 0).value;
    assert k <= i;
  }

  /** The owner's notification: every submitted value, the company line only
      when a company was given. */
  function Notification(f: ContactFields): (n: Email)
    ensures n.from == NotificationSender && n.to == [OwnerAddress]
    ensures n.subject == NotificationPrefix + f.subject
    ensures n.details == [Detail("Name", f.name), Detail("Email", f.email)]
                         + (if f.company != "" then [Detail("Company", f.company)] else [])
                         + [Detail("Inquiry Type", f.inquiryType), Detail("Subject", f.subject), Detail("Message", f.message)]
    ensures Detail("Company", f.company) in n.details <==> f.company != ""
    ensures Detail("Name", f.name) in n.details && Detail("Email", f.email) in n.details
    ensures Detail("Subject", f.subject) in n.details && Detail("Message", f.message) in n.details
    ensures Detail("Inquiry Type", f.inquiryType) in n.details
  {
    var company := if f.company != "" then [Detail("Company", f.company)] else [];
    var details := [Detail("Name", f.name), Detail("Email", f.email)] + company
      + [Detail("Inquiry Type", f.inquiryType), Detail("Subject", f.subject), Detail("Message", f.message)];
    assert f.company == "" ==> Detail("Company", f.company) !in details by {
      if f.company == "" {
        forall d | d in details ensures d.field != "Company" { }
      }
    }
    Email(NotificationSender, [OwnerAddress], NotificationPrefix + f.subject, details)
  }

  /** The visitor's confirmation: addressed to the visitor alone, greeting
      them by name, echoing the subject and the inquiry type with its first
      hyphen turned into a space. */
  function Confirmation(f: ContactFields): (c: Email)
    ensures c.from == ConfirmationSender && c.to == [f.email] && c.subject == ConfirmationSubject
    ensures c.details == [Detail("Hi", f.name), Detail("About", f.subject),
                          Detail("Discuss your", ReplaceFirstHyphen(f.inquiryType))]
  {
    Email(ConfirmationSender, [f.email], ConfirmationSubject,
          [Detail("Hi", f.name), Detail("About", f.subject), Detail("Discuss your", ReplaceFirstHyphen(f.inquiryType))])
  }

  /** What the request body turned out to be. */
  datatype RequestBody = Fields(fields: ContactFields) | Malformed(parseError: JsError)

  /** What one send call did: it returned (with the id of the sent email,
      absent when the service reported an error instead) or it threw. */
  datatype SendResult = Returned(id: Option<string>) | Threw(error: JsError)

  datatype ContactResponse =
    | Sent(message: string, notificationId: Option<string>, confirmationId: Option<string>)
    | Failed(status: nat, error: string, details: Option<string>)

  const SuccessMessage := "Email sent successfully"
  const MissingFields := "Missing required fields"
  const SendFailed := "Failed to send email"

  /** The `details` of the 500 response. */
  function Details(e: JsError): (d: string)
    ensures !e.NotAnError? ==> d == e.message
    ensures e.NotAnError? ==> d == "Unknown error"
  {
    if e.NotAnError? then "Unknown error" else e.message
  }

  /** The emails the handler asked to send, in order, and its response. */
  datatype Outcome = Outcome(attempted: seq<Email>, response: ContactResponse)

  /** `POST /api/contact`, given what each of the two sends does. */
  function Post(body: RequestBody, notify: SendResult, confirm: SendResult): (o: Outcome)
    ensures body.Malformed? ==>
              o == Outcome([], Failed(500, SendFailed, Some(Details(body.parseError))))
    ensures body.Fields? && !HasRequired(body.fields) ==>
              o == Outcome([], Failed(400, MissingFields, None))
    ensures body.Fields? && HasRequired(body.fields) && notify.Threw? ==>
              o == Outcome([Notification(body.fields)], Failed(500, SendFailed, Some(Details(notify.error))))
    ensures body.Fields? && HasRequired(body.fields) && notify.Returned? && confirm.Threw? ==>
              o == Outcome([Notification(body.fields), Confirmation(body.fields)],
                           Failed(500, SendFailed, Some(Details(confirm.error))))
    ensures o.response.Sent? <==>
              body.Fields? && HasRequired(body.fields) && notify.Returned? && confirm.Returned?
    ensures o.response.Sent? ==>
              o.attempted == [Notification(body.fields), Confirmation(body.fields)]
              && o.response == Sent(SuccessMessage, notify.id, confirm.id)
  {
    match body
    case Malformed(e) => Outcome([], Failed(500, SendFailed, Some(Details(e))))
    case Fields(f) =>
      if !HasRequired(f) then Outcome([], Failed(400, MissingFields, None))
      else
        var n := Notification(f);
        match notify
        case Threw(e) => Outcome([n], Failed(500, SendFailed, Some(Details(e))))
        case Returned(nid) =>
          var c := Confirmation(f);
          match confirm
          case Threw(e) => Outcome([n, c], Failed(500, SendFailed, Some(Details(e))))
          case Returned(cid) => Outcome([n, c], Sent(SuccessMessage, nid, cid))
  }

  /** A request is refused with 400 exactly when a required field is
      missing, and then nothing is sent. */
  lemma MissingFieldIff(f: ContactFields, notify: SendResult, confirm: SendResult)
    ensures Post(Fields(f), notify, confirm).response.Failed?
              && Post(Fields(f), notify, confirm).response.status == 400
            <==> !HasRequired(f)
    ensures !HasRequired(f) ==> Post(Fields(f), notify, confirm).attempted == []
  {
  }

  /** Whenever both emails are asked for, the notification comes first and
      only the confirmation goes to the visitor. */
  lemma NotificationFirst(body: RequestBody, notify: SendResult, confirm: SendResult)
    ensures var o := Post(body, notify, confirm);
            |o.attempted| == 2 ==>
              o.attempted[0].to == [OwnerAddress] && o.attempted[1].to == [body.fields.email]
  {
  }
}
