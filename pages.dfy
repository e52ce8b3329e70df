/** What the scripts write back: the texts both share and the static document around them. */
module Pages {

  /** `HardStop(msg)` is `exit(msg)` before any HTML; `Page(body)` is a rendered document whose
      `body` is what the `echo` statements wrote between the fixed head and tail. */
  datatype Response = HardStop(msg: string) | Page(body: string)

  /** The text `exit` prints when the form was not submitted. */
  const NotSubmittedMessage: string := "You shouldn't have got to this page."

  /** The only paragraph written when a check failed, whichever it was. */
  const FailureBody: string :=
    "<p>" + "You need to complete all the fields. " + "<a href='html-forms.html'>"
    + "Go back and try again." + "</a></p>"

  /** The static text before the `echo` block; PHP drops the newline right after `?>`. */
  const DocumentHead: string :=
    "<!DOCTYPE html>\n<html>\n<head>\n"
    + "<meta http-equiv=\"content-type\" content=\"text/html;charset=utf-8\">\n"
    + "<title>Basic Form Processing</title>\n</head>\n<body>\n"

  /** The static text after the `echo` block. */
  const DocumentTail: string := "</body>\n</html>\n"

  /** The paragraph both scripts write first on success; the raw value goes in unescaped. */
  const EmailPrefix: string := "<p> You entered an email address of "

  function EmailLine(email: string): (line: string)
    ensures |line| == |EmailPrefix| + |email| + 5
    ensures line[|EmailPrefix|..|EmailPrefix| + |email|] == email
  {
    EmailPrefix + email + ".</p>"
  }

  /** The characters of the response. */
  function Output(r: Response): (out: string)
    ensures r.HardStop? ==> out == r.msg
    ensures r.Page? ==> |out| == |DocumentHead| + |r.body| + |DocumentTail|
    ensures r.Page? ==> out[..|DocumentHead|] == DocumentHead
    ensures r.Page? ==> out[|DocumentHead|..|DocumentHead| + |r.body|] == r.body
    ensures r.Page? ==> out[|DocumentHead| + |r.body|..] == DocumentTail
  {
    match r
    case HardStop(msg) => msg
    case Page(body) => DocumentHead + body + DocumentTail
  }

  /** The hard stop writes no markup at all. */
  lemma HardStopHasNoMarkup()
    ensures forall i :: 0 <= i < |Output(HardStop(NotSubmittedMessage))| ==>
      Output(HardStop(NotSubmittedMessage))[i] !in {'<', '>'}
  {
  }

  /** A success body starts "<p> You", the failure body "<p>You": they can never be equal. */
  lemma EmailLineIsNotFailure(email: string, rest: string)
    ensures EmailLine(email) + rest != FailureBody
  {
    assert (EmailLine(email) + rest)[3] == ' ';
    assert FailureBody[3] == 'Y';
  }
}
