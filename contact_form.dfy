/** The contact-form wizard of `src/components/ContactFormPopup.tsx`: six
    questions asked one at a time, each checked before moving on, and a
    submission on the last step whose outcome is supplied from outside. */
module ContactWizard {
  import opened Wrappers
  import opened Text
  import opened BlogTypes

  datatype FieldId = Name | Email | Phone | ProjectType | Budget | Message

  datatype FormData = FormData(
    name: string, email: string, phone: string, message: string, projectType: string, budget: string)

  const EmptyForm := FormData("", "", "", "", "", "")

  /** `formData[id]`. */
  function Get(d: FormData, f: FieldId): string {
    match f
    case Name => d.name
    case Email => d.email
    case Phone => d.phone
    case ProjectType => d.projectType
    case Budget => d.budget
    case Message => d.message
  }

  /** `{ ...formData, [id]: value }`: that field changes, no other does. */
  function Set(d: FormData, f: FieldId, value: string): (r: FormData)
    ensures Get(r, f) == value
    ensures forall g :: g != f ==> Get(r, g) == Get(d, g)
  {
    match f
    case Name => d.(name := value)
    case Email => d.(email := value)
    case Phone => d.(phone := value)
    case ProjectType => d.(projectType := value)
    case Budget => d.(budget := value)
    case Message => d.(message := value)
  }

  /** Which `validate` function a question carries, if any. */
  datatype Validator = NoValidator | EmailValidator | PhoneValidator

  datatype Question = Question(id: FieldId, prompt: string, required: bool, validate: Validator)

  /** The six questions, in order. */
  const Questions: seq<Question> := [
    Question(Name, "What's your name?", true, NoValidator),
    Question(Email, "What's your email?", true, EmailValidator),
    Question(Phone, "What's your phone number?", false, PhoneValidator),
    Question(ProjectType, "What type of project are you interested in?", true, NoValidator),
    Question(Budget, "What's your budget range?", true, NoValidator),
    Question(Message, "Tell me about your project", true, NoValidator)
  ]

  const LastStep := 5

  const RequiredMessage := "This field is required"
  const EmailMessage := "Please enter a valid email address"
  const PhoneMessage := "Please enter a valid phone number"
  const SubmitFailedMessage := "Failed to submit form. Please try again."
  const SubmitThrewMessage := "An unexpected error occurred. Please try again."

  /** A character of the class `[^\s@]`. */
  predicate Plain(c: char) { !IsSpace(c) && c != '@' }

  predicate AllPlain(t: string) {
    forall i :: 0 <= i < |t| ==> Plain(t[i])
  }

  /** The email pattern `^[^\s@]+@[^\s@]+\.[^\s@]+$` read as a regular
      expression: some split of `s` into `L @ A . B` with `L`, `A` and `B`
      non-empty runs of `[^\s@]`. */
  predicate EmailPattern(s: string) {
    exists at, dot :: 0 < at && at + 1 < dot && dot + 1 < |s| &&
                      s[at] == '@' && s[dot] == '.' &&
                      AllPlain(s[..at]) && AllPlain(s[at + 1..dot]) && AllPlain(s[dot + 1..])
  }

  /** The position of the first `c` in `s`. */
  function IndexOf(s: string, c: char): (r: Option<nat>)
    ensures r.Some? ==> r.value < |s| && s[r.value] == c && forall k :: 0 <= k < r.value ==> s[k] != c
    ensures r.None? ==> forall k :: 0 <= k < |s| ==> s[k] != c
  {
    if s == [] then None
    else if s[0] == c then Some(0)
    else match IndexOf(s[1..], c)
      case None => None
      case Some(k) => Some(k + 1)
  }

  /** What the pattern accepts, said plainly: no whitespace anywhere, a single
      `@` that is not the first character, and after it a `.` that is neither
      directly after the `@` nor the last character. */
  predicate EmailValid(s: string) {
    && (forall i :: 0 <= i < |s| ==> !IsSpace(s[i]))
    && match IndexOf(s, '@')
       case None => false
       case Some(at) =>
         var domain := s[at + 1..];
         && 0 < at
         && IndexOf(domain, '@').None?
         && exists k :: 1 <= k < |domain| - 1 && domain[k] == '.'
  }

  /** The plain reading is exactly the regular expression. */
  lemma EmailValidIsPattern(s: string)
    ensures EmailValid(s) <==> EmailPattern(s)
  {
    if EmailPattern(s) {
      var at, dot :| 0 < at && at + 1 < dot && dot + 1 < |s| &&
                     s[at] == '@' && s[dot] == '.' &&
                     AllPlain(s[..at]) && AllPlain(s[at + 1..dot]) && AllPlain(s[dot + 1..]);
      PatternIsValid(s, at, dot);
    }
    if EmailValid(s) {
      ValidIsPattern(s);
    }
  }

  lemma PatternIsValid(s: string, at: nat, dot: nat)
    requires 0 < at && at + 1 < dot && dot + 1 < |s| && s[at] == '@' && s[dot] == '.'
    requires AllPlain(s[..at]) && AllPlain(s[at + 1..dot]) && AllPlain(s[dot + 1..])
    ensures EmailValid(s)
  {
    forall i | 0 <= i < |s| ensures !IsSpace(s[i]) && (i != at ==> s[i] != '@') {
      if i < at {
        assert s[..at][i] == s[i];
      } else if at < i < dot {
        assert s[at + 1..dot][i - at - 1] == s[i];
      } else if dot < i {
        assert s[dot + 1..][i - dot - 1] == s[i];
      }
    }
    assert IndexOf(s, '@') == Some(at);
    var domain := s[at + 1..];
    assert domain[dot - at - 1] == '.';
    assert IndexOf(domain, '@').None?;
  }

  lemma ValidIsPattern(s: string)
    requires EmailValid(s)
    ensures EmailPattern(s)
  {
    var at := IndexOf(s, '@').value;
    var domain := s[at + 1..];
    var k :| 1 <= k < |domain| - 1 && domain[k] == '.';
    var dot := at + 1 + k;
    assert s[dot] == '.';
    forall i | at < i < |s| ensures s[i] != '@' {
      assert domain[i - at - 1] == s[i];
    }
    assert AllPlain(s[..at]);
    assert AllPlain(s[at + 1..dot]);
    assert AllPlain(s[dot + 1..]);
  }

  /** A character of the class `[\d\s\+\-\(\)]`. */
  predicate PhoneChar(c: char) {
    IsDigit(c) || IsSpace(c) || c == '+' || c == '-' || c == '(' || c == ')'
  }

  /** `!value.trim() || /^[\d\s\+\-\(\)]{7,20}$/.test(value)`. */
  predicate PhoneValid(s: string) {
    Trim(s) == [] || (7 <= |s| <= 20 && forall i :: 0 <= i < |s| ==> PhoneChar(s[i]))
  }

  /** Blank numbers pass; otherwise 7 to 20 characters from the phone set. */
  lemma PhoneValidMeaning(s: string)
    ensures IsBlank(s) ==> PhoneValid(s)
    ensures !IsBlank(s) ==> (PhoneValid(s) <==> 7 <= |s| <= 20 && forall i :: 0 <= i < |s| ==> PhoneChar(s[i]))
    ensures |s| > 20 && !IsBlank(s) ==> !PhoneValid(s)
  {
  }

  /** A question's own `validate` function: `None` for `true`, otherwise
      the message it returns. */
  function RunValidator(v: Validator, value: string): (r: Option<string>)
    ensures v.NoValidator? ==> r.None?
    ensures v.EmailValidator? ==> (r.None? <==> EmailPattern(value)) && (r.Some? ==> r == Some(EmailMessage))
    ensures v.PhoneValidator? ==> (r.None? <==> PhoneValid(value)) && (r.Some? ==> r == Some(PhoneMessage))
  {
    EmailValidIsPattern(value);
    match v
    case NoValidator => None
    case EmailValidator => if EmailValid(value) then None else Some(EmailMessage)
    case PhoneValidator => if PhoneValid(value) then None else Some(PhoneMessage)
  }

  /** What `validateCurrentField` decides for one question and value: `None`
      when it passes, otherwise the message shown. A required question that
      is blank after trimming fails before its own validator is consulted. */
  function ValidateField(q: Question, value: string): (r: Option<string>)
    ensures q.required && IsBlank(value) ==> r == Some(RequiredMessage)
    ensures !(q.required && IsBlank(value)) ==> r == RunValidator(q.validate, value)
    ensures r.Some? ==> r.value in {RequiredMessage, EmailMessage, PhoneMessage} && |r.value| > 0
  {
    if q.required && Trim(value) == [] then Some(RequiredMessage)
    else RunValidator(q.validate, value)
  }

  /** Per question: name, project type, budget and message only need a
      non-blank answer; email needs a non-blank answer matching the email
      pattern; phone may be blank, or else must match the phone pattern. */
  lemma QuestionRules(value: string)
    ensures ValidateField(Questions[0], value).None? <==> !IsBlank(value)
    ensures ValidateField(Questions[1], value).None? <==> !IsBlank(value) && EmailPattern(value)
    ensures ValidateField(Questions[2], value).None? <==> PhoneValid(value)
    ensures ValidateField(Questions[3], value).None? <==> !IsBlank(value)
    ensures ValidateField(Questions[4], value).None? <==> !IsBlank(value)
    ensures ValidateField(Questions[5], value).None? <==> !IsBlank(value)
  {
  }

  /** What `submitFormToGoogleSheets` did: succeeded, reported failure with
      an optional message, or threw. */
  datatype SubmitOutcome = Succeeded | Failed(error: Option<string>) | Threw

  /** The submit error left after an attempt. */
  function SubmitErrorOf(outcome: SubmitOutcome): (r: Option<string>)
    ensures outcome.Succeeded? <==> r.None?
    ensures r.Some? ==> |r.value| > 0
  {
    match outcome
    case Succeeded => None
    case Failed(e) => Some(OptOrElse(e, SubmitFailedMessage))
    case Threw => Some(SubmitThrewMessage)
  }

  class ContactForm {
    var currentStep: nat
    var isSubmitting: bool
    var submitError: Option<string>
    var validationError: Option<string>
    var submitted: bool
    var formData: FormData

    /** The step names a question, and no submission is in flight between
        handler calls. */
    ghost predicate Valid()
      reads this
    {
      currentStep <= LastStep && !isSubmitting
    }

    constructor ()
      ensures Valid()
      ensures currentStep == 0 && formData == EmptyForm
      ensures validationError.None? && submitError.None? && !isSubmitting && !submitted
    {
      currentStep := 0;
      isSubmitting := false;
      submitError := None;
      validationError := None;
      submitted := false;
      formData := EmptyForm;
    }

    /** `handleInputChange`: the current question's field takes `value`, and
        any validation error is cleared. */
    method HandleInputChange(value: string)
      requires Valid()
      modifies this
      ensures Valid()
      ensures formData == Set(old(formData), Questions[currentStep].id, value)
      ensures validationError.None?
      ensures currentStep == old(currentStep) && submitError == old(submitError)
      ensures submitted == old(submitted) && isSubmitting == old(isSubmitting)
    {
      formData := Set(formData, Questions[currentStep].id, value);
      if validationError.Some? {
        validationError := None;
      }
    }

    /** `validateCurrentField`: checks the current answer and records the
        message when it fails. */
    method ValidateCurrentField() returns (ok: bool)
      requires Valid()
      modifies this
      ensures Valid() && currentStep == old(currentStep)
      ensures ok <==> ValidateField(Questions[currentStep], Get(formData, Questions[currentStep].id)).None?
      ensures !ok ==> validationError == ValidateField(Questions[currentStep], Get(formData, Questions[currentStep].id))
      ensures ok ==> validationError == old(validationError)
      ensures currentStep == old(currentStep) && formData == old(formData) && submitError == old(submitError)
      ensures submitted == old(submitted) && isSubmitting == old(isSubmitting)
    {
      var q := Questions[currentStep];
      var value := Get(formData, q.id);
      if q.required && Trim(value) == [] {
        validationError := Some(RequiredMessage);
        return false;
      }
      var result := RunValidator(q.validate, value);
      if result.Some? {
        validationError := result;
        return false;
      }
      return true;
    }

    /** `handleNext`: stays put with a message when the answer fails; moves on
        when it passes; on the last step submits, with `outcome` as the result. */
    method HandleNext(outcome: SubmitOutcome)
      requires Valid()
      modifies this
      ensures Valid()
      ensures formData == old(formData)
      ensures var err := ValidateField(Questions[old(currentStep)], Get(old(formData), Questions[old(currentStep)].id));
        && (err.Some? ==> currentStep == old(currentStep) && validationError == err &&
                          submitError == old(submitError) && submitted == old(submitted))
        && (err.None? && old(currentStep) < LastStep ==>
              currentStep == old(currentStep) + 1 && validationError == old(validationError) &&
              submitError == old(submitError) && submitted == old(submitted))
        && (err.None? && old(currentStep) == LastStep ==>
              currentStep == LastStep && validationError == old(validationError) &&
              submitError == SubmitErrorOf(outcome) &&
              submitted == (old(submitted) || outcome.Succeeded?))
    {
      var ok := ValidateCurrentField();
      if !ok {
        return;
      }
      if currentStep < |Questions| - 1 {
        currentStep := currentStep + 1;
      } else {
        isSubmitting := true;
        submitError := None;
        match outcome {
          case Succeeded =>
            submitted := true;
          case Failed(e) =>
            submitError := Some(OptOrElse(e, SubmitFailedMessage));
          case Threw =>
            submitError := Some(SubmitThrewMessage);
        }
        isSubmitting := false;
      }
    }

    /** `handleBack`: one step back with the message cleared; nothing at the
        first step. */
    method HandleBack()
      requires Valid()
      modifies this
      ensures Valid()
      ensures old(currentStep) > 0 ==> currentStep == old(currentStep) - 1 && validationError.None?
      ensures old(currentStep) == 0 ==> currentStep == 0 && validationError == old(validationError)
      ensures formData == old(formData) && submitError == old(submitError)
      ensures submitted == old(submitted) && isSubmitting == old(isSubmitting)
    {
      if currentStep > 0 {
        currentStep := currentStep - 1;
        validationError := None;
      }
    }
  }
}
