/** form-validate.php: the same handler reduced to one required field and one paragraph. */
module FormValidate {
  import opened Php
  import opened Checks
  import opened Pages

  /** The single test of the validation block. */
  const RequiredChecks: seq<Check> := [NonEmpty("email")]

  /** The form is complete when `email` is present and neither "" nor "0". */
  predicate IsValid(post: Post)
  {
    !PhpEmpty(post, "email")
  }

  /** What the script answers to `post`, stated without its control flow. */
  function Expected(post: Post): Response
  {
    if !IsSet(post, "submit") then HardStop(NotSubmittedMessage)
    else if IsValid(post) then Page(EmailLine(post["email"]))
    else Page(FailureBody)
  }

  /** The validation block: the flag starts true and is cleared when `email` is empty; otherwise the
      local `email` is assigned. */
  method Validate(post: Post) returns (validForm: bool, email: Option<string>)
    ensures validForm <==> IsValid(post)
    ensures validForm == RunChecks(post, RequiredChecks, true)
    ensures email == (if PhpEmpty(post, "email") then None else Some(post["email"]))
    ensures validForm <==> email.Some?
  {
    validForm := true;
    email := None;

    if PhpEmpty(post, "email") {
      validForm := false;
    } else {
      email := Some(post["email"]);
    }

    ChecksMeanValid(post);
  }

  /** The echo block: `email` is read only when the flag is set. */
  method Render(validForm: bool, email: Option<string>) returns (body: string)
    requires validForm ==> email.Some?
    ensures validForm ==> body == EmailLine(email.value)
    ensures !validForm ==> body == FailureBody
  {
    body := "";
    if validForm {
      body := body + EmailLine(email.value);
    } else {
      body := body + FailureBody;
    }
  }

  /** The whole script: the `submit` guard with its `exit`, validation, then rendering. */
  method Handle(post: Post) returns (r: Response)
    ensures r == Expected(post)
    ensures !IsSet(post, "submit") ==> r == HardStop(NotSubmittedMessage)
    ensures IsSet(post, "submit") ==> r.Page?
  {
    var validForm, email;
    if IsSet(post, "submit") {
      validForm, email := Validate(post);
    } else {
      return HardStop(NotSubmittedMessage);
    }
    var body := Render(validForm, email);
    r := Page(body);
  }

  /** The one-check sequence from a true flag decides exactly `IsValid`. */
  lemma ChecksMeanValid(post: Post)
    ensures RunChecks(post, RequiredChecks, true) <==> IsValid(post)
  {
    RunChecksAllPass(post, RequiredChecks, true);
  }

  /** With no `submit` key the answer is the hard stop, and any `submit` value gives a page. */
  lemma SubmitGuard(post: Post, v: string)
    ensures !IsSet(post, "submit") ==> Expected(post) == HardStop(NotSubmittedMessage)
    ensures Output(Expected(post - {"submit"})) == NotSubmittedMessage
    ensures Expected(post["submit" := v]).Page?
  {
  }

  /** Both directions: a submitted form gets a page other than the failure page exactly when
      its email is not empty, and that page is the one email paragraph. */
  lemma ValidIff(post: Post)
    requires IsSet(post, "submit")
    ensures Expected(post) != Page(FailureBody) <==> IsValid(post)
    ensures IsValid(post) ==> Expected(post) == Page(EmailLine(post["email"]))
  {
    if IsValid(post) {
      EmailLineIsNotFailure(post["email"], []);
      assert EmailLine(post["email"]) + [] == EmailLine(post["email"]);
    }
  }

  /** An email of "0", an empty email and a missing email all give the failure page. */
  lemma EmptyEmails(post: Post)
    requires IsSet(post, "submit")
    ensures Expected(post["email" := "0"]) == Page(FailureBody)
    ensures Expected(post["email" := ""]) == Page(FailureBody)
    ensures Expected(post - {"email"}) == Page(FailureBody)
  {
  }

  /** The answer depends only on the presence of `submit` and on the value of `email`. */
  lemma OnlySubmitAndEmailMatter(a: Post, b: Post)
    requires IsSet(a, "submit") == IsSet(b, "submit")
    requires Read(a, "email") == Read(b, "email")
    ensures Expected(a) == Expected(b)
  {
  }

  /** Adding, changing or removing any key other than `submit` and `email` changes nothing. */
  lemma OtherKeysIgnored(post: Post, k: string, v: string)
    requires k != "submit" && k != "email"
    ensures Expected(post[k := v]) == Expected(post)
    ensures Expected(post - {k}) == Expected(post)
  {
    ChecksAreLocal(post, "email", k, v);
    ChecksAreLocal(post, "submit", k, v);
    OnlySubmitAndEmailMatter(post[k := v], post);
    OnlySubmitAndEmailMatter(post - {k}, post);
  }
}
