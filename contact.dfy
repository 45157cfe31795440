/** The contact form: validation of its three required fields and the
    submission controller around the request to the form relay. The request
    itself is not modelled: its result reaches the model as an `Outcome`. */
module Contact {
  import opened Wrappers
  import opened Text
  import opened Email

  const NameRequired := "Name is required"
  const EmailRequired := "Email is required"
  const EmailInvalid := "Please enter a valid email"
  const MessageRequired := "Message is required"

  /** The relay endpoint the page ships with, and the token whose presence
      marks an endpoint that was never configured. */
  const FormEndpoint := "https://formspree.io/f/xqeldwoe"
  const PlaceholderToken := "YOUR_FORM_ID"

  const NotConfiguredText := "Contact form not configured yet. Please email me directly at pmule390@gmail.com."
  const SentText := "Thanks! Your message was sent. I'll get back to you soon."
  const FailedText := "Something went wrong. Please try again or email me directly."
  const SendingLabel := "Sending..."

  /** The status banner: its text and whether it carries the error class
      (`form-status--error`) rather than the success class. */
  datatype Status = Status(text: string, isError: bool)

  /** How the request settled: a response with its HTTP status code, or a
      rejected promise (the network failed). */
  datatype Outcome = Responded(code: int) | NetworkFailure

  /** `res.ok`: a response whose status is in the range 200 to 299. */
  predicate Succeeded(outcome: Outcome) {
    outcome.Responded? && 200 <= outcome.code <= 299
  }

  /** The error text of a required field: `blankText` when the value is blank
      after trimming, cleared otherwise. */
  function RequiredError(value: string, blankText: string): (e: string)
    requires blankText != ""
    ensures e == "" <==> !Blank(value)
    ensures e != "" ==> e == blankText
  {
    if Blank(value) then blankText else ""
  }

  /** The e-mail field's error text. Blankness is checked first, on the
      trimmed value; the pattern is then tested on the value as typed. The
      text is cleared exactly when the pattern accepts the value. */
  function EmailError(value: string): (e: string)
    ensures e == "" <==> IsEmail(value)
    ensures Blank(value) ==> e == EmailRequired
    ensures !Blank(value) && !IsEmail(value) ==> e == EmailInvalid
  {
    if IsEmail(value) then EmailIsNotBlank(value); ""
    else if Blank(value) then EmailRequired
    else EmailInvalid
  }

  /** The form passes validation: a non-blank name and message, and an
      e-mail the pattern accepts. */
  predicate FormValid(name: string, email: string, message: string) {
    !Blank(name) && IsEmail(email) && !Blank(message)
  }

  /** The form is valid exactly when all three error texts are cleared. */
  lemma ValidIffNoErrors(name: string, email: string, message: string)
    ensures FormValid(name, email, message) <==>
              RequiredError(name, NameRequired) == "" && EmailError(email) == ""
              && RequiredError(message, MessageRequired) == ""
  {
  }

  /** Any of the three fields left blank (or white space only) fails the
      form and leaves a non-empty error text for that field. */
  lemma BlankFieldFails(name: string, email: string, message: string)
    requires Blank(name) || Blank(email) || Blank(message)
    ensures !FormValid(name, email, message)
    ensures Blank(name) ==> RequiredError(name, NameRequired) == NameRequired
    ensures Blank(email) ==> EmailError(email) == EmailRequired
    ensures Blank(message) ==> RequiredError(message, MessageRequired) == MessageRequired
  {
  }

  /** The shipped endpoint passes the configuration guard: it has no
      upper-case `Y`, so the token cannot occur in it. */
  lemma ShippedEndpointConfigured()
    ensures !Contains(FormEndpoint, PlaceholderToken)
  {
    assert PlaceholderToken[0] !in FormEndpoint;
  }

  class ContactForm {
    /** The values of the `name`, `email` and `message` fields. */
    var name: string
    var email: string
    var message: string
    /** The texts of the `name-error`, `email-error` and `message-error` slots. */
    var nameError: string
    var emailError: string
    var messageError: string
    /** Whether each field's class list holds `error`. */
    var nameFlagged: bool
    var emailFlagged: bool
    var messageFlagged: bool
    /** The submit button, when the form has one: disabled, and its label. */
    const hasButton: bool
    var buttonDisabled: bool
    var buttonText: string
    /** The `form-status` slot, when the page has one, and what it shows. */
    const hasStatusSlot: bool
    var status: Option<Status>
    /** The requests sent and not yet settled, each with the button label it
        captured when it was sent (the empty string without a button). */
    var inFlight: seq<string>

    /** The submit button is disabled exactly while a request is in flight,
        and then there is one, and the button reads `Sending...`. */
    ghost predicate ButtonGuard()
      reads this
    {
      hasButton ==>
        && (buttonDisabled <==> inFlight != [])
        && (inFlight != [] ==> |inFlight| == 1 && buttonText == SendingLabel)
    }

    /** The form as the page loads it: empty fields, no errors, nothing shown,
        the button enabled under its own label. */
    constructor (hasButton: bool, buttonText: string, hasStatusSlot: bool)
      ensures this.hasButton == hasButton && this.hasStatusSlot == hasStatusSlot
      ensures name == "" && email == "" && message == ""
      ensures nameError == "" && emailError == "" && messageError == ""
      ensures !nameFlagged && !emailFlagged && !messageFlagged
      ensures !buttonDisabled && this.buttonText == buttonText
      ensures status == None && inFlight == []
      ensures ButtonGuard()
    {
      this.hasButton := hasButton;
      this.hasStatusSlot := hasStatusSlot;
      name, email, message := "", "", "";
      nameError, emailError, messageError := "", "", "";
      nameFlagged, emailFlagged, messageFlagged := false, false, false;
      buttonDisabled := false;
      this.buttonText := buttonText;
      status := None;
      inFlight := [];
    }

    /** What the status slot shows after `showFormStatus(text, isError)`
        when it showed `previous`: without a slot, nothing changes. */
    function Shown(previous: Option<Status>, text: string, isError: bool): Option<Status> {
      if hasStatusSlot then Some(Status(text, isError)) else previous
    }

    /** `showFormStatus`. */
    method ShowFormStatus(text: string, isError: bool)
      modifies this`status
      ensures status == Shown(old(status), text, isError)
    {
      if hasStatusSlot {
        status := Some(Status(text, isError));
      }
    }

    /** `validateForm`: writes each field's error text and error class and
        answers whether all three fields passed. A field is flagged exactly
        when its error text is non-empty; the answer is true exactly when no
        field is flagged. */
    method ValidateForm() returns (valid: bool)
      modifies this`nameError, this`emailError, this`messageError
      modifies this`nameFlagged, this`emailFlagged, this`messageFlagged
      ensures valid <==> FormValid(name, email, message)
      ensures valid <==> nameError == "" && emailError == "" && messageError == ""
      ensures nameError == RequiredError(name, NameRequired) && nameFlagged == (nameError != "")
      ensures emailError == EmailError(email) && emailFlagged == (emailError != "")
      ensures messageError == RequiredError(message, MessageRequired)
      ensures messageFlagged == (messageError != "")
    {
      var nameBlank, emailBlank, messageBlank := Blank(name), Blank(email), Blank(message);
      var emailMatches := IsEmail(email);
      if emailMatches {
        EmailIsNotBlank(email);
      }
      valid := true;

      if nameBlank {
        nameError, nameFlagged := NameRequired, true;
        valid := false;
      } else {
        nameError, nameFlagged := "", false;
      }

      if emailBlank {
        emailError, emailFlagged := EmailRequired, true;
        valid := false;
      } else if !emailMatches {
        emailError, emailFlagged := EmailInvalid, true;
        valid := false;
      } else {
        emailError, emailFlagged := "", false;
      }

      if messageBlank {
        messageError, messageFlagged := MessageRequired, true;
        valid := false;
      } else {
        messageError, messageFlagged := "", false;
      }
    }

    /** `handleSubmit` up to the request: validate; if that fails, stop with
        the errors shown; if the endpoint still holds the placeholder token,
        show the configuration error and stop; otherwise disable the button,
        label it `Sending...` and send, remembering the label it had. The
        browser does not submit through a disabled submit button, so a
        submission arrives only while the button (if any) is enabled. */
    method HandleSubmit(endpoint: string) returns (sent: bool)
      requires ButtonGuard()
      requires hasButton ==> !buttonDisabled
      modifies this
      ensures ButtonGuard()
      ensures name == old(name) && email == old(email) && message == old(message)
      ensures nameError == RequiredError(name, NameRequired) && nameFlagged == (nameError != "")
      ensures emailError == EmailError(email) && emailFlagged == (emailError != "")
      ensures messageError == RequiredError(message, MessageRequired)
      ensures messageFlagged == (messageError != "")
      ensures sent <==> FormValid(name, email, message) && !Contains(endpoint, PlaceholderToken)
      ensures !FormValid(name, email, message) ==> status == old(status)
      ensures FormValid(name, email, message) && Contains(endpoint, PlaceholderToken) ==>
                status == Shown(old(status), NotConfiguredText, true)
      ensures !sent ==>
                inFlight == old(inFlight) && buttonDisabled == old(buttonDisabled)
                && buttonText == old(buttonText)
      ensures sent ==>
                && inFlight == old(inFlight) + [if hasButton then old(buttonText) else ""]
                && status == old(status)
                && (hasButton ==> buttonDisabled && buttonText == SendingLabel)
                && (!hasButton ==> buttonDisabled == old(buttonDisabled) && buttonText == old(buttonText))
    {
      var valid := ValidateForm();
      if !valid {
        return false;
      }
      if Contains(endpoint, PlaceholderToken) {
        ShowFormStatus(NotConfiguredText, true);
        return false;
      }
      var originalText := if hasButton then buttonText else "";
      if hasButton {
        buttonDisabled := true;
        buttonText := SendingLabel;
      }
      inFlight := inFlight + [originalText];
      sent := true;
    }

    /** The request at position `i` of `inFlight` settles. On success the
        fields are reset, every error text and error class is cleared and the
        thanks message shown; on an HTTP error or a network failure the
        generic failure message is shown and the fields keep their values.
        Either way the button is re-enabled under the label it had before
        the request was sent. */
    method Settle(i: nat, outcome: Outcome)
      requires ButtonGuard()
      requires i < |inFlight|
      modifies this
      ensures ButtonGuard()
      ensures inFlight == old(inFlight[..i] + inFlight[i + 1..])
      ensures hasButton ==> !buttonDisabled && buttonText == old(inFlight[i])
      ensures !hasButton ==> buttonDisabled == old(buttonDisabled) && buttonText == old(buttonText)
      ensures Succeeded(outcome) ==>
                && name == "" && email == "" && message == ""
                && nameError == "" && emailError == "" && messageError == ""
                && !nameFlagged && !emailFlagged && !messageFlagged
                && status == Shown(old(status), SentText, false)
      ensures !Succeeded(outcome) ==>
                && name == old(name) && email == old(email) && message == old(message)
                && nameError == old(nameError) && emailError == old(emailError)
                && messageError == old(messageError)
                && nameFlagged == old(nameFlagged) && emailFlagged == old(emailFlagged)
                && messageFlagged == old(messageFlagged)
                && status == Shown(old(status), FailedText, true)
    {
      var originalText := inFlight[i];
      if Succeeded(outcome) {
        name, email, message := "", "", "";
        nameError, emailError, messageError := "", "", "";
        nameFlagged, emailFlagged, messageFlagged := false, false, false;
        ShowFormStatus(SentText, false);
      } else {
        ShowFormStatus(FailedText, true);
      }
      if hasButton {
        buttonDisabled := false;
        buttonText := originalText;
      }
      inFlight := inFlight[..i] + inFlight[i + 1..];
    }
  }

  /** A valid form sent to the shipped endpoint: whatever the outcome, the
      button comes back enabled under its original label and nothing is left
      in flight; on success the form is cleared, on failure it keeps what the
      user typed and shows the failure message. */
  method SubmitToShippedEndpoint(form: ContactForm, outcome: Outcome)
    requires form.ButtonGuard() && form.hasButton && form.inFlight == []
    requires FormValid(form.name, form.email, form.message)
    modifies form
    ensures form.ButtonGuard() && form.inFlight == []
    ensures !form.buttonDisabled && form.buttonText == old(form.buttonText)
    ensures Succeeded(outcome) ==> form.name == "" && form.email == "" && form.message == ""
    ensures !Succeeded(outcome) ==>
              form.name == old(form.name) && form.email == old(form.email)
              && form.message == old(form.message)
              && form.status == form.Shown(old(form.status), FailedText, true)
  {
    ShippedEndpointConfigured();
    var sent := form.HandleSubmit(FormEndpoint);
    assert sent;
    form.Settle(0, outcome);
  }
}
