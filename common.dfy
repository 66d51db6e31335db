/** Values shared by every module: optional values, results, and the raised Python exception. */
module Common {

  datatype Option<+T> = None | Some(value: T)

  /** The outcome of a step that may raise: a value, or the exception it raised. */
  datatype Result<+T, +E> = Ok(value: T) | Err(error: E)

  /** A raised exception, seen as its class name (`type(e).__name__`) and its `str(e)`. */
  datatype Exception = Exception(name: string, message: string)

  /** Python truthiness of an optional string: present and non-empty. */
  predicate Truthy(s: Option<string>)
  {
    s.Some? && s.value != ""
  }

  /** The number of elements of `s` for which `p` holds, as `sum(1 for x in s if p(x))` counts them. */
  function CountWhere<T>(s: seq<T>, p: T -> bool): (n: nat)
    ensures n <= |s|
  {
    if s == [] then 0
    else CountWhere(s[..|s| - 1], p) + (if p(s[|s| - 1]) then 1 else 0)
  }

  /** Counting by a test and by its negation splits the sequence: the two counts add up to its length. */
  lemma {:induction false} CountComplement<T>(s: seq<T>, p: T -> bool, q: T -> bool)
    requires forall x :: q(x) == !p(x)
    ensures CountWhere(s, p) + CountWhere(s, q) == |s|
    decreases |s|
  {
    if s != [] {
      CountComplement(s[..|s| - 1], p, q);
    }
  }
}
