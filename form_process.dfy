/** form-process.php: the full handler, five required-field checks and a five-paragraph echo. */
module FormProcess {
  import opened Php
  import opened Checks
  import opened Pages

  /** The five tests of the validation block, in the order the script runs them. */
  const RequiredChecks: seq<Check> :=
    [NonEmpty("email"), NonEmpty("fullname"), NonEmpty("phone"), Present("hear"), Present("terms")]

  /** The form is complete: three non-empty text fields, and `hear` and `terms` present with
      any value at all. */
  predicate IsValid(post: Post)
  {
    && !PhpEmpty(post, "email")
    && !PhpEmpty(post, "fullname")
    && !PhpEmpty(post, "phone")
    && IsSet(post, "hear")
    && IsSet(post, "terms")
  }

  const FullnamePrefix: string := "<p> You entered a fullname of "
  const PhonePrefix: string := "<p> You entered a phone number of "
  const HearPrefix: string := "<p> You heard about carboot.com through a "
  const TermsLine: string := "<p> You agreed to the terms and conditions.</p>"

  function FullnameLine(fullname: string): string { FullnamePrefix + fullname + ".</p>" }
  function PhoneLine(phone: string): string { PhonePrefix + phone + ".</p>" }
  function HearLine(hear: string): string { HearPrefix + hear + ".</p>" }

  /** The five paragraphs of a valid submission, in echo order. */
  function SuccessBody(email: string, fullname: string, phone: string, hear: string): string
  {
    EmailLine(email) + FullnameLine(fullname) + PhoneLine(phone) + HearLine(hear) + TermsLine
  }

  /** What the script answers to `post`, stated without its control flow. */
  function Expected(post: Post): Response
  {
    if !IsSet(post, "submit") then HardStop(NotSubmittedMessage)
    else if IsValid(post) then Page(SuccessBody(post["email"], post["fullname"], post["phone"], post["hear"]))
    else Page(FailureBody)
  }

  /** The validation block: the flag starts true and each failing check clears it; each passing check on
      email, fullname, phone and hear assigns that local, whatever earlier checks said. */
  method Validate(post: Post)
    returns (validForm: bool, email: Option<string>, fullname: Option<string>,
             phone: Option<string>, hear: Option<string>)
    ensures validForm <==> IsValid(post)
    ensures validForm == RunChecks(post, RequiredChecks, true)
    ensures email == (if PhpEmpty(post, "email") then None else Some(post["email"]))
    ensures fullname == (if PhpEmpty(post, "fullname") then None else Some(post["fullname"]))
    ensures phone == (if PhpEmpty(post, "phone") then None else Some(post["phone"]))
    ensures hear == Read(post, "hear")
    ensures validForm ==> email.Some? && fullname.Some? && phone.Some? && hear.Some?
  {
    validForm := true;
    email, fullname, phone, hear := None, None, None, None;

    if PhpEmpty(post, "email") {
      validForm := false;
    } else {
      email := Some(post["email"]);
    }
    assert validForm == RunChecks(post, RequiredChecks[..1], true) by {
      StepInto(post, 0, true);
    }

    if PhpEmpty(post, "fullname") {
      validForm := false;
    } else {
      fullname := Some(post["fullname"]);
    }
    assert validForm == RunChecks(post, RequiredChecks[..2], true) by {
      StepInto(post, 1, true);
    }

    if PhpEmpty(post, "phone") {
      validForm := false;
    } else {
      phone := Some(post["phone"]);
    }
    assert validForm == RunChecks(post, RequiredChecks[..3], true) by {
      StepInto(post, 2, true);
    }

    if !IsSet(post, "hear") {
      validForm := false;
    } else {
      hear := Some(post["hear"]);
    }
    assert validForm == RunChecks(post, RequiredChecks[..4], true) by {
      StepInto(post, 3, true);
    }

    if !IsSet(post, "terms") {
      validForm := false;
    }
    assert validForm == RunChecks(post, RequiredChecks[..5], true) by {
      StepInto(post, 4, true);
    }

    ChecksMeanValid(post);
  }

  /** The echo block. It reads the four locals only when the flag is set, and
      on that path they are all assigned. */
  method Render(validForm: bool, email: Option<string>, fullname: Option<string>,
                phone: Option<string>, hear: Option<string>)
    returns (body: string)
    requires validForm ==> email.Some? && fullname.Some? && phone.Some? && hear.Some?
    ensures validForm ==> body == SuccessBody(email.value, fullname.value, phone.value, hear.value)
    ensures !validForm ==> body == FailureBody
  {
    body := "";
    if validForm {
      body := body + EmailLine(email.value);
      body := body + FullnameLine(fullname.value);
      body := body + PhoneLine(phone.value);
      body := body + HearLine(hear.value);
      body := body + TermsLine;
    } else {
      body := body + FailureBody;
    }
  }

  /** The whole script: the `submit` guard with its `exit`, validation, then rendering. */
  method Handle(post: Post) returns (r: Response)
    ensures r == Expected(post)
    ensures !IsSet(post, "submit") ==> r == HardStop(NotSubmittedMessage)
    ensures IsSet(post, "submit") ==> r.Page?
  {
    var validForm, email, fullname, phone, hear;
    if IsSet(post, "submit") {
      validForm, email, fullname, phone, hear := Validate(post);
    } else {
      return HardStop(NotSubmittedMessage);
    }
    var body := Render(validForm, email, fullname, phone, hear);
    r := Page(body);
  }

  /** Running one more check extends the prefix already run by one `Step`. */
  lemma StepInto(post: Post, k: nat, start: bool)
    requires k < |RequiredChecks|
    ensures RunChecks(post, RequiredChecks[..k + 1], start)
         == Step(post, RunChecks(post, RequiredChecks[..k], start), RequiredChecks[k])
  {
    assert RequiredChecks[..k + 1] == RequiredChecks[..k] + [RequiredChecks[k]];
    RunChecksAppend(post, RequiredChecks[..k], [RequiredChecks[k]], start);
  }

  /** Running the five checks in sequence from a true flag decides exactly `IsValid`. */
  lemma ChecksMeanValid(post: Post)
    ensures RunChecks(post, RequiredChecks, true) <==> IsValid(post)
  {
    RunChecksAllPass(post, RequiredChecks, true);
    assert AllPass(post, RequiredChecks) <==> IsValid(post) by {
      assert forall c :: c in RequiredChecks <==>
        c in {NonEmpty("email"), NonEmpty("fullname"), NonEmpty("phone"), Present("hear"), Present("terms")};
    }
  }

  /** Whatever order the five checks ran in, the final flag would be the same. */
  lemma ValidityIsOrderFree(post: Post, order: seq<Check>)
    requires multiset(order) == multiset(RequiredChecks)
    ensures RunChecks(post, order, true) <==> IsValid(post)
  {
    RunChecksOrderFree(post, order, RequiredChecks, true);
    ChecksMeanValid(post);
  }

  /** Once some check has cleared the flag, the checks after it leave the form invalid. */
  lemma InvalidAfterFirstFailure(post: Post, i: nat)
    requires i < |RequiredChecks|
    requires !Passes(post, RequiredChecks[i])
    ensures !RunChecks(post, RequiredChecks[..i + 1], true)
    ensures !IsValid(post)
  {
    RunChecksAllPass(post, RequiredChecks[..i + 1], true);
    assert RequiredChecks[i] in RequiredChecks[..i + 1];
    ClearedStaysCleared(post, RequiredChecks, i + 1, true);
    ChecksMeanValid(post);
  }

  /** With no `submit` key the answer is the hard stop, and any `submit` value gives a page. */
  lemma SubmitGuard(post: Post, v: string)
    ensures !IsSet(post, "submit") ==> Expected(post) == HardStop(NotSubmittedMessage)
    ensures Output(Expected(post - {"submit"})) == NotSubmittedMessage
    ensures Expected(post["submit" := v]).Page?
  {
  }

  /** Both directions: a submitted form gets a page other than the failure page exactly when
      it is valid, and that page is the five paragraphs. */
  lemma ValidIff(post: Post)
    requires IsSet(post, "submit")
    ensures Expected(post) != Page(FailureBody) <==> IsValid(post)
    ensures IsValid(post) ==>
      Expected(post) == Page(SuccessBody(post["email"], post["fullname"], post["phone"], post["hear"]))
  {
    if IsValid(post) {
      EmailLineIsNotFailure(post["email"],
        FullnameLine(post["fullname"]) + PhoneLine(post["phone"]) + HearLine(post["hear"]) + TermsLine);
    }
  }

  /** Every invalid submission gets the same page, whichever fields failed. */
  lemma InvalidPagesAgree(a: Post, b: Post)
    requires IsSet(a, "submit") && IsSet(b, "submit")
    requires !IsValid(a) && !IsValid(b)
    ensures Expected(a) == Expected(b) == Page(FailureBody)
  {
  }

  /** `hear` and `terms` are only tested for presence: any value, "" and "0" included, passes. */
  lemma PresenceOnly(post: Post, hear: string, terms: string)
    ensures IsValid(post["hear" := hear]["terms" := terms]) <==>
      !PhpEmpty(post, "email") && !PhpEmpty(post, "fullname") && !PhpEmpty(post, "phone")
  {
  }

  /** The value of `terms` never reaches the output: changing it changes nothing. */
  lemma TermsValueUnused(post: Post, terms: string)
    requires IsSet(post, "terms")
    ensures Expected(post["terms" := terms]) == Expected(post)
  {
  }

  /** The answer depends only on the presence of `submit` and `terms` and on the values of
      `email`, `fullname`, `phone` and `hear`. */
  lemma OnlyFormFieldsMatter(a: Post, b: Post)
    requires IsSet(a, "submit") == IsSet(b, "submit")
    requires IsSet(a, "terms") == IsSet(b, "terms")
    requires forall k :: k in ["email", "fullname", "phone", "hear"] ==> Read(a, k) == Read(b, k)
    ensures Expected(a) == Expected(b)
  {
    assert Read(a, "email") == Read(b, "email");
    assert Read(a, "fullname") == Read(b, "fullname");
    assert Read(a, "phone") == Read(b, "phone");
    assert Read(a, "hear") == Read(b, "hear");
  }

  /** On success each raw value sits unescaped right after its paragraph's fixed prefix, the
      paragraphs in the order email, fullname, phone, hear, and the fixed terms line last. */
  lemma ValuesVerbatim(email: string, fullname: string, phone: string, hear: string)
    ensures var body := SuccessBody(email, fullname, phone, hear);
      var f := |EmailLine(email)| + |FullnamePrefix|;
      var p := f + |fullname| + 5 + |PhonePrefix|;
      var h := p + |phone| + 5 + |HearPrefix|;
      && h + |hear| <= |body|
      && body[|EmailPrefix|..|EmailPrefix| + |email|] == email
      && body[f..f + |fullname|] == fullname
      && body[p..p + |phone|] == phone
      && body[h..h + |hear|] == hear
      && body[|body| - |TermsLine|..] == TermsLine
  {
    var e, fl, pl, hl := EmailLine(email), FullnameLine(fullname), PhoneLine(phone), HearLine(hear);
    var body := SuccessBody(email, fullname, phone, hear);
    ParagraphAt([], EmailPrefix, email, fl + pl + hl + TermsLine);
    ParagraphAt(e, FullnamePrefix, fullname, pl + hl + TermsLine);
    ParagraphAt(e + fl, PhonePrefix, phone, hl + TermsLine);
    ParagraphAt(e + fl + pl, HearPrefix, hear, TermsLine);
  }

  /** A paragraph `prefix + v + ".</p>"` placed after `before` holds `v` right after `prefix`. */
  lemma ParagraphAt(before: string, prefix: string, v: string, after: string)
    ensures var all := before + (prefix + v + ".</p>") + after;
      |before| + |prefix| + |v| <= |all| && all[|before| + |prefix|..|before| + |prefix| + |v|] == v
  {
    var all := before + (prefix + v + ".</p>") + after;
    assert all == (before + prefix) + v + (".</p>" + after);
  }

  /** The two worked scenarios: a complete form, and the same form with an empty email. */
  lemma Scenarios()
    ensures Expected(map["submit" := "1", "email" := "a@b.com", "fullname" := "Jane Doe",
                         "phone" := "555-1234", "hear" := "friend", "terms" := "on"])
         == Page(SuccessBody("a@b.com", "Jane Doe", "555-1234", "friend"))
    ensures Expected(map["submit" := "1", "email" := "", "fullname" := "Jane Doe",
                         "phone" := "555-1234", "hear" := "friend", "terms" := "on"])
         == Page(FailureBody)
    ensures Expected(map[]) == HardStop(NotSubmittedMessage)
  {
  }
}
