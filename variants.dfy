/** How the two scripts relate: form-validate.php checks a subset of what form-process.php checks. */
module Variants {
  import opened Php
  import opened Checks
  import opened Pages
  import FormProcess
  import FormValidate

  /** Every form the full handler accepts, the reduced one accepts too. */
  lemma FullAcceptsFewer(post: Post)
    ensures FormProcess.IsValid(post) ==> FormValidate.IsValid(post)
  {
    FormProcess.ChecksMeanValid(post);
    FormValidate.ChecksMeanValid(post);
    assert FormValidate.RequiredChecks[0] == FormProcess.RequiredChecks[0];
    FewerChecksAcceptMore(post, FormProcess.RequiredChecks, FormValidate.RequiredChecks, true);
  }

  /** The two scripts stop at the same requests, and on a form the full handler accepts the
      reduced one writes exactly the first paragraph of the full one. */
  lemma SameGuardSharedFirstParagraph(post: Post)
    ensures FormProcess.Expected(post).HardStop? <==> FormValidate.Expected(post).HardStop?
    ensures FormProcess.Expected(post).HardStop? ==> FormProcess.Expected(post) == FormValidate.Expected(post)
    ensures IsSet(post, "submit") && FormProcess.IsValid(post) ==>
      FormValidate.Expected(post).body <= FormProcess.Expected(post).body
  {
    FullAcceptsFewer(post);
  }

  /** The inclusion is strict: an email alone satisfies the reduced handler only. */
  lemma ReducedAcceptsMore()
    ensures var post := map["submit" := "1", "email" := "a@b.com"];
      FormValidate.IsValid(post) && !FormProcess.IsValid(post)
  {
  }
}
