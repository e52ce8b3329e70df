/** The two PHP primitives the form scripts apply to the POST map, for string values only. */
module Php {

  /** `$_POST` as the scripts see it: field name to the raw submitted string. */
  type Post = map<string, string>

  /** A field value as a script may hold it: `Some` once assigned, `None` while undefined. */
  datatype Option<T> = None | Some(value: T)

  /** PHP's `empty($_POST[k])` on a string-valued map: the key is missing, or its value is
      the empty string or the string "0". Every other string, whitespace included, is not empty. */
  predicate PhpEmpty(post: Post, k: string)
  {
    k !in post || post[k] == "" || post[k] == "0"
  }

  /** PHP's `isset($_POST[k])`: POST values are never null, so this is plain presence. */
  predicate IsSet(post: Post, k: string)
  {
    k in post
  }

  /** The look-up a script performs after a passing check, as an assigned or undefined local. */
  function Read(post: Post, k: string): (v: Option<string>)
    ensures v.Some? <==> k in post
    ensures v.Some? ==> v.value == post[k]
  {
    if k in post then Some(post[k]) else None
  }

  /** Of the present values exactly "" and "0" are empty; emptiness implies nothing else. */
  lemma PhpEmptyValues(post: Post, k: string)
    ensures PhpEmpty(post, k) <==> Read(post, k) in {None, Some(""), Some("0")}
    ensures !PhpEmpty(post, k) ==> IsSet(post, k)
  {
  }

  /** The boundary: "0" is empty, while " ", "00" and "0.0" are not. */
  lemma PhpEmptyBoundary(post: Post, k: string)
    ensures PhpEmpty(post[k := "0"], k)
    ensures PhpEmpty(post[k := ""], k)
    ensures PhpEmpty(post - {k}, k)
    ensures !PhpEmpty(post[k := " "], k)
    ensures !PhpEmpty(post[k := "00"], k)
    ensures !PhpEmpty(post[k := "0.0"], k)
  {
  }

  /** `empty` and `isset` on one key look at that key and nothing else. */
  lemma ChecksAreLocal(post: Post, k: string, j: string, v: string)
    requires j != k
    ensures PhpEmpty(post[j := v], k) == PhpEmpty(post, k)
    ensures PhpEmpty(post - {j}, k) == PhpEmpty(post, k)
    ensures IsSet(post[j := v], k) == IsSet(post, k)
    ensures IsSet(post - {j}, k) == IsSet(post, k)
  {
  }
}
