# Form intake handler (form-validation), modelled in Dafny

The repository holds two PHP scripts that handle one HTML form submission.

- `form-process.php` is the full handler.
- `form-validate.php` is the same handler reduced to one required field.

Each script reads the POSTed fields and answers in one of three ways.

- When `submit` is absent, it exits at once with the plain text "You shouldn't have got to this page."
- When a required-field check fails, it writes an HTML page with one fixed failure paragraph. That paragraph links back to `html-forms.html`.
- Otherwise it writes one paragraph per captured field, with the raw submitted value inside.

The model has six modules, one per file.

- `Php` (php.dfy) holds PHP's `empty()` and `isset()` on a `map<string, string>`, which stands for `$_POST`. A missing key, `""` and `"0"` are empty. `" "`, `"00"` and `"0.0"` are not.
- `Checks` (checks.dfy) models a validation block as a sequence of checks run one after another. Each check can clear the flag `validForm` and none can set it. The lemmas show three things: the final flag means "every check passed", a cleared flag stays cleared, and the order of the checks does not matter.
- `Pages` (pages.dfy) holds the `Response` result, `HardStop(msg) | Page(body)`, and the fixed texts. Its function `Output` adds the static HTML head and tail around a page body.
- `FormProcess` (form_process.dfy) and `FormValidate` (form_validate.dfy) each mirror their script in three imperative methods:
  - `Validate` is the validation block. It has a mutable `validForm` flag and the locals that are assigned only on some paths. `Option` models a local as assigned (`Some`) or undefined (`None`).
  - `Render` is the `echo` block. Its `requires` is the definedness obligation: when the flag is set, every local it reads has been assigned.
  - `Handle` is the whole script: the `submit` guard with its `exit`, then `Validate`, then `Render`.

  Each `Handle` is proved equal to `Expected`, a declarative statement of the script's answer. The lemmas about `Expected` state the properties the scripts promise.
- `Variants` (variants.dfy) relates the two scripts. Every form the full handler accepts, the reduced one accepts too.

Values are written into the page unescaped. A whitespace-only value is non-empty. Success paragraphs begin `<p> You` with a space, the failure paragraph `<p>You` without one. The two scripts stay two modules that share `Checks` and `Pages`.

## Model

| member | source | states |
|---|---|---|
| Php.Read | form-process.php:10 | the value a passing check assigns: defined exactly when the key is present, and then the raw POSTed string |
| Php.PhpEmptyValues | form-process.php:7 | `empty()` holds exactly for a missing key, `""` or `"0"`, and a non-empty field is always present |
| Php.PhpEmptyBoundary | form-process.php:7 | `"0"`, `""` and a missing key are empty; `" "`, `"00"` and `"0.0"` are not |
| Php.ChecksAreLocal | form-process.php:7-33 | `empty`/`isset` on one key are unaffected by writing or removing any other key |
| Checks.Step | form-process.php:7-9 | one `if (fails) $validForm = false;`: a failing check clears the flag, a passing one keeps it, none raises it |
| Checks.RunChecks | form-process.php:4-33 | checks run in sequence with no short-circuit; the final flag implies the starting flag |
| Checks.RunChecksAllPass | form-process.php:4-33 | the final flag is true iff it started true and every check passed (both directions) |
| Checks.RunChecksAppend | form-process.php:4-33 | running two blocks of checks in turn equals running their concatenation, each check seeing the flag left before it |
| Checks.ClearedStaysCleared | form-process.php:4-33 | once the flag is false after a prefix of the checks, no later check sets it back to true |
| Checks.RunChecksOrderFree | form-process.php:4-33 | any reordering (same multiset) of the checks gives the same final flag |
| Checks.FewerChecksAcceptMore | form-validate.php:7-13 | a subset of checks accepts every form the full set accepts |
| Pages.EmailLine | form-process.php:53 | the email paragraph holds the raw email verbatim right after its fixed prefix, with the length that implies |
| Pages.Output | form-process.php:35-66 | a hard stop writes only its message; a page writes the fixed head, then the body verbatim, then the fixed tail `</body>\n</html>\n` |
| Pages.HardStopHasNoMarkup | form-process.php:37 | the hard-stop response contains no `<` or `>`: no HTML at all |
| Pages.EmailLineIsNotFailure | form-process.php:53-59 | no success body can equal the failure paragraph |
| FormProcess.Validate | form-process.php:4-33 | its body proves after each of the five `if`s that the flag equals the fold of the checks run so far, so a cleared flag stays cleared; the final flag is true iff email, fullname and phone are not empty and hear and terms are present, and it equals the sequential fold of the five checks; each local is assigned exactly when its own check passes, independent of earlier failures; a true flag implies all four locals are assigned |
| FormProcess.Render | form-process.php:51-60 | when valid, the body is the five paragraphs email, fullname, phone, hear, terms from the assigned values; otherwise exactly the failure paragraph; callable only when a set flag implies every read local is assigned |
| FormProcess.Handle | form-process.php:3-60 | the script's answer equals `Expected`: hard stop with the fixed text without `submit`, otherwise a page |
| FormProcess.StepInto | form-process.php:7-33 | running one more of the five checks extends the flag after the checks before it by exactly one `Step` |
| FormProcess.ChecksMeanValid | form-process.php:4-33 | the five checks run in source order from `true` decide exactly the validity condition |
| FormProcess.ValidityIsOrderFree | form-process.php:4-33 | running the five checks in any order decides the same validity |
| FormProcess.InvalidAfterFirstFailure | form-process.php:4-33 | after the first failing check the flag is false and the form ends invalid |
| FormProcess.SubmitGuard | form-process.php:3 | no `submit` key gives exactly the hard stop, whose output is only the message; any `submit` value gives a page |
| FormProcess.ValidIff | form-process.php:51-59 | a submitted form gets a non-failure page iff it is valid, and then the page is the five-paragraph body of its raw values |
| FormProcess.InvalidPagesAgree | form-process.php:58-59 | every invalid submission gets the same failure page, whichever fields failed |
| FormProcess.PresenceOnly | form-process.php:25-33 | any value of hear and terms, `""` and `"0"` included, passes; validity then rests on the three text fields |
| FormProcess.TermsValueUnused | form-process.php:31-33 | changing the value of a present `terms` leaves the response unchanged |
| FormProcess.OnlyFormFieldsMatter | form-process.php:3-57 | the response depends only on the presence of submit and terms and the values of email, fullname, phone and hear |
| FormProcess.ValuesVerbatim | form-process.php:53-57 | each raw value sits unescaped right after its paragraph prefix, in the order email, fullname, phone, hear, and the body ends with the terms line |
| FormProcess.ParagraphAt | form-process.php:53-56 | a paragraph placed after any text holds its value right after its prefix |
| FormProcess.Scenarios | form-process.php:3-59 | a complete form gives the five paragraphs; an empty email gives the failure page; an empty map gives the hard stop |
| FormValidate.Validate | form-validate.php:4-11 | the flag is true iff email is not empty, it equals the one-check fold, and it is true exactly when `email` was assigned |
| FormValidate.Render | form-validate.php:31-36 | when valid, the body is exactly the one email paragraph; otherwise exactly the failure paragraph |
| FormValidate.Handle | form-validate.php:3-36 | the script's answer equals `Expected`: hard stop without `submit`, otherwise a page |
| FormValidate.ChecksMeanValid | form-validate.php:7-11 | the single check run from `true` decides exactly "email is not empty" |
| FormValidate.SubmitGuard | form-validate.php:3 | no `submit` key gives exactly the hard stop; any `submit` value gives a page |
| FormValidate.ValidIff | form-validate.php:31-35 | a submitted form gets a non-failure page iff email is not empty, and then the page is exactly its email paragraph |
| FormValidate.EmptyEmails | form-validate.php:7-8 | email `"0"`, email `""` and a missing email each give the failure page |
| FormValidate.OnlySubmitAndEmailMatter | form-validate.php:7-13 | the response depends only on the presence of submit and on the value of email |
| FormValidate.OtherKeysIgnored | form-validate.php:7-13 | adding, changing or removing a key other than submit and email leaves the response unchanged |
| Variants.FullAcceptsFewer | form-validate.php:7-11 | every form form-process.php accepts, form-validate.php accepts |
| Variants.SameGuardSharedFirstParagraph | form-process.php:3-53 | both scripts hard-stop on the same requests with the same text; on a fully valid form the reduced body is a prefix of the full body |
| Variants.ReducedAcceptsMore | form-process.php:13-33 | a form with only submit and email passes the reduced handler but not the full one |

## Left out

- Reading the `$_POST` superglobal: the handlers take the field map as an explicit immutable argument.
- `exit()` ending the process: modelled as the `HardStop` result, returned early.
- HTTP transport and the response headers: the `<meta http-equiv>` line is kept only as part of the static document head text.
- HTML escaping and sanitisation: the scripts do none, so the model does none.
- Non-string POST values, such as array fields like `hear[]`, and PHP's wider `empty()`/`isset()` type juggling: values are strings only.
- PHP's behaviour when an undefined variable is read (a notice, a warning from PHP 8, and null, written as an empty string): `Render` requires that this never happens, and `Validate` proves that it cannot.
- Byte strings: PHP strings are bytes, while the model's `string` is a sequence of Unicode characters, so a POST value that is not valid UTF-8 cannot be represented; the checks and the verbatim interpolation do not depend on this.
- Repeating a request: there is no state, so the handlers are functions of their input and nothing about determinism needs stating.
