/** The page component's own state: the contact form's submission machine around its one relay
    call, the payload it sends, the feedback line next to the submit button, and the mobile menu. */
module App {
  import opened Wrappers
  import opened JsString

  // ----- the relay configuration -----

  const ServiceId: string := "service_7ss2s0l"
  const TemplateId: string := "template_vy2y36q"
  const PublicKey: string := "yrE4rcKrf6Wy1PbZ8"
  const DestinationEmail: string := "info@falconviewgroup.io"

  /** The one message every relay failure is reported with. */
  const RetryMessage: string := "Something went wrong. Please try again or email info@falconviewgroup.io."

  /** The choices of the interest select, after its disabled placeholder whose value is "". */
  const InterestOptions: seq<string> := ["Strategy", "Software", "Niche SaaS", "Other"]

  // ----- the form's values and the relay payload -----

  /** The five named controls of the form, by value. */
  datatype FormData = FormData(name: string, email: string, company: string, interest: string, message: string)

  /** What the form holds when first rendered and after `reset()`: empty inputs and the
      placeholder option of the select. */
  const Blank: FormData := FormData("", "", "", "", "")

  predicate InterestChoice(v: string) {
    v == "" || v in InterestOptions
  }

  predicate AllTrimmed(d: FormData) {
    Trimmed(d.name) && Trimmed(d.email) && Trimmed(d.company) && Trimmed(d.interest) && Trimmed(d.message)
  }

  /** The constraints the browser checks before it fires the submit event: the `required` name,
      email and message controls are not empty. */
  predicate NativeValid(v: FormData) {
    v.name != "" && v.email != "" && v.message != ""
  }

  /** The values the submit handler captures: each control's value, trimmed. No field keeps
      an outer space, a form already trimmed is captured as it is, and the interest stays one of
      the select's values. */
  function Capture(raw: FormData): (d: FormData)
    ensures AllTrimmed(d)
    ensures AllTrimmed(raw) ==> d == raw
    ensures InterestChoice(raw.interest) ==> d.interest == raw.interest
  {
    assert AllTrimmed(raw) ==> (Trim(raw.name) == raw.name && Trim(raw.email) == raw.email
                                && Trim(raw.company) == raw.company && Trim(raw.interest) == raw.interest
                                && Trim(raw.message) == raw.message) by {
      if AllTrimmed(raw) {
        TrimOfTrimmed(raw.name); TrimOfTrimmed(raw.email); TrimOfTrimmed(raw.company);
        TrimOfTrimmed(raw.interest); TrimOfTrimmed(raw.message);
      }
    }
    assert InterestChoice(raw.interest) ==> Trim(raw.interest) == raw.interest by {
      if InterestChoice(raw.interest) {
        InterestOptionsTrimmed(raw.interest);
      }
    }
    FormData(Trim(raw.name), Trim(raw.email), Trim(raw.company), Trim(raw.interest), Trim(raw.message))
  }

  lemma InterestOptionsTrimmed(v: string)
    requires InterestChoice(v)
    ensures Trim(v) == v
  {
    assert Trimmed(v) by {
      if v != "" {
        var k :| 0 <= k < |InterestOptions| && InterestOptions[k] == v;
        assert k == 0 || k == 1 || k == 2 || k == 3;
      }
    }
    TrimOfTrimmed(v);
  }

  /** Capturing twice is capturing once. */
  lemma CaptureIdempotent(raw: FormData)
    ensures Capture(Capture(raw)) == Capture(raw)
  {
  }

  /** The template parameters of the relay's message. */
  datatype TemplateParams = TemplateParams(fromName: string, fromEmail: string, company: string,
                                           interest: string, message: string, toEmail: string)

  datatype RelayRequest = RelayRequest(serviceId: string, templateId: string, params: TemplateParams, publicKey: string)

  /** Reads the captured fields back from a payload. */
  function FieldsOf(p: TemplateParams): FormData {
    FormData(p.fromName, p.fromEmail, p.company, p.interest, p.message)
  }

  /** The name and email go out as the sender, the other three fields under their own names, and
      the message is addressed to the fixed destination; nothing captured is lost. */
  function ToTemplateParams(d: FormData): (p: TemplateParams)
    ensures FieldsOf(p) == d
    ensures p.toEmail == DestinationEmail
  {
    TemplateParams(d.name, d.email, d.company, d.interest, d.message, DestinationEmail)
  }

  /** The one relay call a submission makes: the fixed service, template and public key, with the
      trimmed form values as its payload. */
  function RequestFor(raw: FormData): (r: RelayRequest)
    ensures r.serviceId == ServiceId && r.templateId == TemplateId && r.publicKey == PublicKey
    ensures r.params.toEmail == DestinationEmail
    ensures FieldsOf(r.params) == Capture(raw) && AllTrimmed(FieldsOf(r.params))
  {
    RelayRequest(ServiceId, TemplateId, ToTemplateParams(Capture(raw)), PublicKey)
  }

  // ----- the submission flags -----

  datatype Flags = Flags(sending: bool, sent: bool, err: string)

  const Idle: Flags := Flags(false, false, "")

  /** What the handler keeps true: never a success and an error at once; while a call is in
      flight, neither; and the only error text is the retry message. */
  predicate Consistent(f: Flags) {
    !(f.sent && f.err != "")
    && (f.sending ==> !f.sent && f.err == "")
    && (f.err == "" || f.err == RetryMessage)
  }

  datatype Status = Ready | Sending | Sent | Failed

  /** The four-way status the three flags encode. */
  function StatusOf(f: Flags): Status {
    if f.sending then Sending else if f.sent then Sent else if f.err != "" then Failed else Ready
  }

  /** The synchronous part of the handler, before the await. */
  function OnBegin(f: Flags): (r: Flags)
    ensures Consistent(r) && StatusOf(r) == Sending
  {
    Flags(true, false, "")
  }

  /** The relay call settles: success marks the form sent, failure records the retry message,
      and either way the call is no longer in flight. */
  function OnSettle(f: Flags, success: bool): (r: Flags)
    requires Consistent(f) && f.sending
    ensures Consistent(r) && !r.sending
    ensures r.sent <==> success
    ensures r.err != "" <==> !success
    ensures StatusOf(r) == if success then Sent else Failed
  {
    if success then f.(sending := false, sent := true) else f.(sending := false, err := RetryMessage)
  }

  /** The browser fires the submit event only while the button is enabled and the form passes
      its native constraints. */
  predicate SubmitAllowed(f: Flags, v: FormData) {
    !f.sending && NativeValid(v)
  }

  // ----- the feedback line -----

  datatype Notice = Thanks | ErrorNotice(text: string) | GoesTo(address: string)

  /** The three conditional elements after the button, in order, each present when its JSX
      condition holds. Exactly one is shown precisely when the flags never claim success and
      error together; for consistent flags it is the one the status calls for. */
  function Feedback(f: Flags): (shown: seq<Notice>)
    ensures |shown| == 1 <==> !(f.sent && f.err != "")
    ensures Consistent(f) ==> shown == [match StatusOf(f)
                                        case Sent => Thanks
                                        case Failed => ErrorNotice(RetryMessage)
                                        case _ => GoesTo(DestinationEmail)]
  {
    (if f.sent then [Thanks] else [])
    + (if f.err != "" then [ErrorNotice(f.err)] else [])
    + (if !f.sent && f.err == "" then [GoesTo(DestinationEmail)] else [])
  }

  // ----- runs of submissions -----

  datatype FormEvent = SubmitPressed(values: FormData) | RelaySettled(success: bool)

  /** One event: a submit the browser lets through begins a send; a settlement ends the call in
      flight (with none in flight there is nothing to settle). */
  function FormStep(f: Flags, e: FormEvent): Flags
    requires Consistent(f)
  {
    match e
    case SubmitPressed(v) => if SubmitAllowed(f, v) then OnBegin(f) else f
    case RelaySettled(ok) => if f.sending then OnSettle(f, ok) else f
  }

  /** The flags after a run of events, with the number of relay calls begun and the number
      settled during the run. */
  function FormRun(f: Flags, events: seq<FormEvent>): (r: (Flags, nat, nat))
    requires Consistent(f)
    ensures Consistent(r.0)
    decreases |events|
  {
    if events == [] then (f, 0, 0)
    else
      var rest := FormRun(FormStep(f, events[0]), events[1..]);
      var begun := if events[0].SubmitPressed? && SubmitAllowed(f, events[0].values) then 1 else 0;
      var settled := if events[0].RelaySettled? && f.sending then 1 else 0;
      (rest.0, rest.1 + begun, rest.2 + settled)
  }

  /** A press while a call is in flight changes nothing. */
  lemma NoSecondBegin(f: Flags, v: FormData)
    requires Consistent(f) && f.sending
    ensures FormStep(f, SubmitPressed(v)) == f
  {
  }

  /** Submissions are serialised: over any run, the calls in flight at the start plus the calls
      begun equal the calls settled plus the one still in flight, if any. As this holds for
      every prefix of a run, at most one call is ever in flight, and it is in flight exactly
      while `sending` holds. */
  lemma {:induction false} CallsSerialised(f: Flags, events: seq<FormEvent>)
    requires Consistent(f)
    ensures var r := FormRun(f, events);
      r.1 + (if f.sending then 1 else 0) == r.2 + (if r.0.sending then 1 else 0)
    decreases |events|
  {
    if events != [] {
      CallsSerialised(FormStep(f, events[0]), events[1..]);
    }
  }

  /** After the call settles the line next to the button thanks the user on success and shows the
      retry message on failure. */
  lemma SettleShowsOutcome(f: Flags, success: bool)
    requires Consistent(f) && f.sending
    ensures Feedback(OnSettle(f, success)) == if success then [Thanks] else [ErrorNotice(RetryMessage)]
  {
  }

  // ----- the DOM form -----

  /** The form element; its control values change when the user types and on `reset()`. */
  class ContactForm {
    var name: string
    var email: string
    var company: string
    var interest: string
    var message: string

    function Values(): FormData
      reads this
    {
      FormData(name, email, company, interest, message)
    }

    predicate Valid()
      reads this
    {
      InterestChoice(interest)
    }

    constructor ()
      ensures Valid() && Values() == Blank
    {
      name, email, company, interest, message := "", "", "", "", "";
    }

    /** `form.reset()`: every control back to its default. */
    method Reset()
      modifies this
      ensures Valid() && Values() == Blank
    {
      name, email, company, interest, message := "", "", "", "", "";
    }

    /** The user edits the controls; the select only offers its options and the placeholder. */
    method Input(v: FormData)
      requires InterestChoice(v.interest)
      modifies this
      ensures Valid() && Values() == v
    {
      name, email, company, interest, message := v.name, v.email, v.company, v.interest, v.message;
    }
  }

  // ----- the component -----

  class AppComponent {
    var sending: bool
    var sent: bool
    var err: string
    var mobileMenuOpen: bool
    const form: ContactForm

    function SubmitFlags(): Flags
      reads this
    {
      Flags(sending, sent, err)
    }

    predicate Valid()
      reads this, form
    {
      Consistent(SubmitFlags()) && form.Valid()
    }

    constructor ()
      ensures Valid() && SubmitFlags() == Idle && !mobileMenuOpen
      ensures fresh(form) && form.Values() == Blank
    {
      sending, sent, err := false, false, "";
      mobileMenuOpen := false;
      form := new ContactForm();
    }

    /** `handleSubmit` up to its await: clear the flags, mark the call in flight, capture the
        trimmed values and hand the relay its request. The form is left as it is. */
    method BeginSubmit() returns (request: RelayRequest)
      requires Valid() && !sending && NativeValid(form.Values())
      modifies this`sending, this`sent, this`err
      ensures Valid() && SubmitFlags() == OnBegin(old(SubmitFlags()))
      ensures request == RequestFor(form.Values())
    {
      sending := true;
      sent := false;
      err := "";
      var data := Capture(form.Values());
      request := RelayRequest(ServiceId, TemplateId, ToTemplateParams(data), PublicKey);
    }

    /** `handleSubmit` after its await. Success resets the form; failure keeps whatever the
        controls hold. */
    method CompleteSubmit(success: bool)
      requires Valid() && sending
      modifies this`sending, this`sent, this`err, form
      ensures Valid() && SubmitFlags() == OnSettle(old(SubmitFlags()), success)
      ensures form.Values() == if success then Blank else old(form.Values())
    {
      if success {
        sending := false;
        sent := true;
        form.Reset();
      } else {
        sending := false;
        err := RetryMessage;
      }
    }

    /** A press of the submit button: the browser runs the handler only when the button is
        enabled and the form is valid, and otherwise nothing happens. */
    method PressSubmit() returns (request: Option<RelayRequest>)
      requires Valid()
      modifies this`sending, this`sent, this`err
      ensures Valid()
      ensures request.Some? <==> SubmitAllowed(old(SubmitFlags()), form.Values())
      ensures request.Some? ==> request.value == RequestFor(form.Values())
      ensures SubmitFlags() == FormStep(old(SubmitFlags()), SubmitPressed(form.Values()))
    {
      if !sending && NativeValid(form.Values()) {
        var r := BeginSubmit();
        request := Some(r);
      } else {
        request := None;
      }
    }

    method ToggleMobileMenu()
      modifies this`mobileMenuOpen
      ensures mobileMenuOpen == !old(mobileMenuOpen)
    {
      mobileMenuOpen := !mobileMenuOpen;
    }

    /** Any link of the mobile menu closes it. */
    method ChooseMobileLink()
      modifies this`mobileMenuOpen
      ensures !mobileMenuOpen
    {
      mobileMenuOpen := false;
    }
  }
}
