/** The validation block of both scripts as a sequence of checks that each may clear one flag. */
module Checks {
  import opened Php

  /** One `if` of a validation block: `empty($_POST[k])` or `!isset($_POST[k])` fails it. */
  datatype Check = NonEmpty(field: string) | Present(field: string)

  predicate Passes(post: Post, c: Check)
  {
    match c
    case NonEmpty(k) => !PhpEmpty(post, k)
    case Present(k) => IsSet(post, k)
  }

  /** Every check of `cs` passes on `post`. */
  predicate AllPass(post: Post, cs: seq<Check>)
  {
    forall c :: c in cs ==> Passes(post, c)
  }

  /** One statement `if (fails) { $validForm = false; }`: a failing check clears the flag,
      and no check ever raises it. */
  function Step(post: Post, validForm: bool, c: Check): (next: bool)
    ensures next ==> validForm
    ensures !Passes(post, c) ==> !next
    ensures Passes(post, c) ==> next == validForm
  {
    if Passes(post, c) then validForm else false
  }

  /** The checks of `cs` run one after the other, none skipped, starting from `validForm`.
      The flag only goes down. */
  function RunChecks(post: Post, cs: seq<Check>, validForm: bool): (r: bool)
    ensures r ==> validForm
    decreases |cs|
  {
    if cs == [] then validForm else RunChecks(post, cs[1..], Step(post, validForm, cs[0]))
  }

  /** The final flag is true exactly when it started true and every check passed. */
  lemma {:induction false} RunChecksAllPass(post: Post, cs: seq<Check>, validForm: bool)
    ensures RunChecks(post, cs, validForm) <==> validForm && AllPass(post, cs)
    decreases |cs|
  {
    if cs != [] {
      RunChecksAllPass(post, cs[1..], Step(post, validForm, cs[0]));
      assert forall c :: c in cs <==> c == cs[0] || c in cs[1..];
    }
  }

  /** Running `xs` and then `ys` is running `xs + ys`: each check sees the flag the previous
      ones left. */
  lemma {:induction false} RunChecksAppend(post: Post, xs: seq<Check>, ys: seq<Check>, validForm: bool)
    ensures RunChecks(post, xs + ys, validForm) == RunChecks(post, ys, RunChecks(post, xs, validForm))
    decreases |xs|
  {
    if xs == [] {
      assert xs + ys == ys;
    } else {
      assert (xs + ys)[0] == xs[0];
      assert (xs + ys)[1..] == xs[1..] + ys;
      RunChecksAppend(post, xs[1..], ys, Step(post, validForm, xs[0]));
    }
  }

  /** Once the flag is false after some prefix of the checks, the remaining checks never set
      it back to true. */
  lemma ClearedStaysCleared(post: Post, cs: seq<Check>, i: nat, validForm: bool)
    requires i <= |cs|
    requires !RunChecks(post, cs[..i], validForm)
    ensures !RunChecks(post, cs, validForm)
  {
    assert cs == cs[..i] + cs[i..];
    RunChecksAppend(post, cs[..i], cs[i..], validForm);
  }

  /** The order in which the checks run does not change the final flag. */
  lemma RunChecksOrderFree(post: Post, cs: seq<Check>, ds: seq<Check>, validForm: bool)
    requires multiset(cs) == multiset(ds)
    ensures RunChecks(post, cs, validForm) == RunChecks(post, ds, validForm)
  {
    RunChecksAllPass(post, cs, validForm);
    RunChecksAllPass(post, ds, validForm);
    assert forall c :: c in cs <==> c in multiset(cs);
    assert forall c :: c in ds <==> c in multiset(ds);
  }

  /** Dropping checks can only make a form valid that was not, never the other way round. */
  lemma FewerChecksAcceptMore(post: Post, cs: seq<Check>, ds: seq<Check>, validForm: bool)
    requires forall c :: c in ds ==> c in cs
    ensures RunChecks(post, cs, validForm) ==> RunChecks(post, ds, validForm)
  {
    RunChecksAllPass(post, cs, validForm);
    RunChecksAllPass(post, ds, validForm);
  }
}
