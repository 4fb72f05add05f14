/**
 * The contact form on the client: six text fields, the required-field
 * check, the email-shape check, the request to the contact endpoint and the
 * status and message shown afterwards.
 *
 * The request's fate is handed in as a `Reply`; the form records every body
 * it sends in `sent`.
 */
module ContactForm {
  import opened JsText
  import ContactRoute

  type FormData = ContactRoute.ContactFields

  const EmptyForm: FormData := ContactRoute.ContactFields("", "", "", "", "", "")

  datatype Field = Name | Email | Company | Subject | InquiryType | Message

  function Get(d: FormData, f: Field): string {
    match f
    case Name => d.name
    case Email => d.email
    case Company => d.company
    case Subject => d.subject
    case InquiryType => d.inquiryType
    case Message => d.message
  }

  /** `{ ...prev, [field]: value }`. */
  function With(d: FormData, f: Field, v: string): (e: FormData)
    ensures Get(e, f) == v
    ensures forall g :: g != f ==> Get(e, g) == Get(d, g)
  {
    match f
    case Name => d.(name := v)
    case Email => d.(email := v)
    case Company => d.(company := v)
    case Subject => d.(subject := v)
    case InquiryType => d.(inquiryType := v)
    case Message => d.(message := v)
  }

  /** No whitespace and no `@`: the class `[^\s@]`. */
  predicate Plain(s: string) {
    forall k :: 0 <= k < |s| ==> !IsSpace(s[k]) && s[k] != '@'
  }

  /** `s` is `local@middle.last` with the `@` at `i` and the dot at `j`, each
      part non-empty and made of `[^\s@]`. */
  predicate SplitsAt(s: string, i: int, j: int) {
    0 < i && i + 1 < j && j + 1 < |s| && s[i] == '@' && s[j] == '.'
    && Plain(s[..i]) && Plain(s[i + 1..j]) && Plain(s[j + 1..])
  }

  /** `/^[^\s@]+@[^\s@]+\.[^\s@]+$/.test(s)`: the pattern matches some split
      of the whole string. */
  ghost predicate RegexMatch(s: string) {
    exists i, j :: SplitsAt(s, i, j)
  }

  /** The same test read as rules on the string: exactly one `@`, not first;
      no whitespace; a dot in the domain that is neither its first nor its
      last character. */
  predicate EmailShape(s: string) {
    match IndexOfFrom(s, '@', 0)
    case None => false
    case Some(at) =>
      at > 0 && IndexOfFrom(s, '@', at + 1).None? && AllNonSpace(s)
      && match IndexOfFrom(s[at + 1..], '.', 1)
         case None => false
         case Some(p) => p < |s| - at - 2
  }

  predicate AllNonSpace(s: string) {
    forall k :: 0 <= k < |s| ==> !IsSpace(s[k])
  }

  lemma RegexMatchIsShape(s: string, i: int, j: int)
    requires SplitsAt(s, i, j)
    ensures EmailShape(s)
  {
    assert forall k :: 0 <= k < i ==> s[k] == s[..i][k];
    assert IndexOfFrom(s, '@', 0) == Some(i);
    forall k | i + 1 <= k < |s| ensures s[k] != '@' && !IsSpace(s[k]) {
      if k < j { assert s[k] == s[i + 1..j][k - i - 1]; }
      else if k > j { assert s[k] == s[j + 1..][k - j - 1]; }
    }
    forall k | 0 <= k < i ensures !IsSpace(s[k]) {
      assert s[k] == s[..i][k];
    }
    var d := s[i + 1..];
    assert d[j - i - 1] == '.';
    var p := IndexOfFrom(d, '.', 1);
    assert p.Some? && p.value <= j - i - 1;
  }

  lemma ShapeIsRegexMatch(s: string)
    requires EmailShape(s)
    ensures RegexMatch(s)
  {
    var at := IndexOfFrom(s, '@', 0).value;
    var p := IndexOfFrom(s[at + 1..], '.', 1).value;
    var j := at + 1 + p;
    assert s[j] == s[at + 1..][p];
    forall k | 0 <= k < |s| && k != at ensures s[k] != '@' {
    }
    assert Plain(s[..at]);
    assert Plain(s[at + 1..j]);
    assert Plain(s[j + 1..]);
    assert SplitsAt(s, at, j);
  }

  /** The rules say exactly what the regular expression accepts. */
  lemma EmailShapeIff(s: string)
    ensures EmailShape(s) <==> RegexMatch(s)
  {
    if RegexMatch(s) {
      var i, j :| SplitsAt(s, i, j);
      RegexMatchIsShape(s, i, j);
    }
    if EmailShape(s) {
      ShapeIsRegexMatch(s);
    }
  }

  const FillRequired := "Please fill in all required fields"
  const InvalidEmail := "Please enter a valid email address"
  const NetworkError := "Network error: Unable to connect to the server. Please check your internet connection."
  const UnexpectedError := "An unexpected error occurred. Please try again."
  const UnexpectedFormat := "Server returned an unexpected response format"

  /** The message of a form that must not be sent, checked in order: required
      fields first, then the email shape. */
  function Validate(d: FormData): (m: Option<string>)
    ensures m == None <==> ContactRoute.HasRequired(d) && EmailShape(d.email)
    ensures !ContactRoute.HasRequired(d) ==> m == Some(FillRequired)
    ensures ContactRoute.HasRequired(d) && !EmailShape(d.email) ==> m == Some(InvalidEmail)
  {
    if !ContactRoute.HasRequired(d) then Some(FillRequired)
    else if !EmailShape(d.email) then Some(InvalidEmail)
    else None
  }

  /** The company field is never required. */
  lemma CompanyOptional(d: FormData, company: string)
    ensures Validate(d.(company := company)) == Validate(d)
  {
  }

  /** What the body read produced: a parsed object (with its `error`
      property, "" when absent or falsy) or an exception. */
  datatype JsonRead = Parsed(error: string) | ParseThrew(thrown: JsError)

  /** What became of the request. */
  datatype Reply =
    | FetchThrew(thrown: JsError)
    | Responded(status: nat, contentType: string, json: JsonRead)

  datatype Status = Idle | Success | Failure

  /** The message set by the catch block. */
  function CaughtMessage(e: JsError): (m: string)
    ensures e.TypeError? && Includes(e.message, "fetch") ==> m == NetworkError
    ensures e.TypeError? && !Includes(e.message, "fetch") ==> m == e.message
    ensures e.OtherError? ==> m == e.message
    ensures e.NotAnError? ==> m == UnexpectedError
  {
    match e
    case TypeError(msg) => if Includes(msg, "fetch") then NetworkError else msg
    case OtherError(msg) => msg
    case NotAnError => UnexpectedError
  }

  /** `response.ok`. */
  predicate Ok(status: nat) {
    200 <= status <= 299
  }

  /** The status and message an attempt that reached the request ends with:
      success on any OK response whose body could be read, the error chosen
      by the catch block otherwise. */
  function Settle(reply: Reply): (r: (Status, string))
    ensures r.0 == Success <==>
              reply.Responded? && Ok(reply.status)
              && (!Includes(reply.contentType, "application/json") || reply.json.Parsed?)
    ensures r.0 == Success ==> r.1 == ""
    ensures r.0 != Idle
    ensures reply.FetchThrew? ==> r == (Failure, CaughtMessage(reply.thrown))
    ensures reply.Responded? && Includes(reply.contentType, "application/json") && reply.json.ParseThrew? ==>
              r == (Failure, CaughtMessage(reply.json.thrown))
    ensures reply.Responded? && !Ok(reply.status) && !Includes(reply.contentType, "application/json") ==>
              r == (Failure, UnexpectedFormat)
    ensures reply.Responded? && !Ok(reply.status) && Includes(reply.contentType, "application/json")
              && reply.json.Parsed? ==>
              r == (Failure, if reply.json.error != "" then reply.json.error
                             else "Server error: " + NatToString(reply.status))
  {
    match reply
    case FetchThrew(e) => (Failure, CaughtMessage(e))
    case Responded(status, contentType, json) =>
      if Includes(contentType, "application/json") && json.ParseThrew? then
        (Failure, CaughtMessage(json.thrown))
      else
        var error := if Includes(contentType, "application/json") then json.error else UnexpectedFormat;
        if Ok(status) then (Success, "")
        else if error != "" then (Failure, error)
        else (Failure, "Server error: " + NatToString(status))
  }

  class ContactFormState {
    var formData: FormData
    var isSubmitting: bool
    var submitStatus: Status
    var errorMessage: string
    /** The bodies posted to the contact endpoint, oldest first. */
    var sent: seq<FormData>

    constructor ()
      ensures formData == EmptyForm && !isSubmitting && submitStatus == Idle
      ensures errorMessage == "" && sent == []
    {
      formData := EmptyForm;
      isSubmitting := false;
      submitStatus := Idle;
      errorMessage := "";
      sent := [];
    }

    /** Typing into one field changes that field only. */
    method HandleInputChange(field: Field, value: string)
      modifies this
      ensures formData == With(old(formData), field, value)
      ensures isSubmitting == old(isSubmitting) && submitStatus == old(submitStatus)
      ensures errorMessage == old(errorMessage) && sent == old(sent)
    {
      formData := With(formData, field, value);
    }

    /** Submitting: a form that fails validation shows the error and
        changes nothing else; otherwise its data is posted once, the
        outcome decides status and message, and submitting ends. */
    method HandleSubmit(reply: Reply)
      modifies this
      ensures Validate(old(formData)).Some? ==>
                submitStatus == Failure && errorMessage == Validate(old(formData)).value
                && formData == old(formData) && isSubmitting == old(isSubmitting) && sent == old(sent)
      ensures Validate(old(formData)).None? ==>
                sent == old(sent) + [old(formData)] && !isSubmitting
                && (submitStatus, errorMessage) == Settle(reply)
                && formData == (if submitStatus == Success then EmptyForm else old(formData))
    {
      var invalid := Validate(formData);
      if invalid.Some? {
        errorMessage := invalid.value;
        submitStatus := Failure;
        return;
      }
      isSubmitting := true;
      submitStatus := Idle;
      errorMessage := "";
      sent := sent + [formData];
      var outcome := Settle(reply);
      submitStatus := outcome.0;
      if outcome.0 == Success {
        formData := EmptyForm;
      } else {
        errorMessage := outcome.1;
      }
      isSubmitting := false;
    }

    /** The "Send Another Message" button of the success view. */
    method SendAnother()
      modifies this
      ensures submitStatus == Idle
      ensures formData == old(formData) && isSubmitting == old(isSubmitting)
      ensures errorMessage == old(errorMessage) && sent == old(sent)
    {
      submitStatus := Idle;
    }
  }

  /** Whatever the form lets through, the contact endpoint does not refuse
      as incomplete. */
  lemma ClientCheckImpliesServerCheck(d: FormData, notify: ContactRoute.SendResult, confirm: ContactRoute.SendResult)
    requires Validate(d) == None
    ensures ContactRoute.Post(ContactRoute.Fields(d), notify, confirm).response != ContactRoute.Failed(400, ContactRoute.MissingFields, None)
  {
  }
}
