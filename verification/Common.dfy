// Types and arithmetic shared by every component.

module Common {
  datatype Option<+T> = None | Some(value: T)

  datatype Result<+T, +E> = Ok(value: T) | Err(error: E)

  function AbsReal(x: real): real {
    if x < 0.0 then -x else x
  }

  // Math.max(0, x).
  function MaxZero(x: real): real {
    if x < 0.0 then 0.0 else x
  }

  // Math.round: halves go up.
  function Round(x: real): (n: int)
    ensures n as real - 0.5 <= x < n as real + 0.5
  {
    (x + 0.5).Floor
  }

  lemma {:induction false} ProductKeepsOrder(a: real, b: real, q: real)
    requires a <= b && q >= 0.0
    ensures a * q <= b * q
  {
  }

  lemma {:induction false} ProductKeepsStrictOrder(a: real, b: real, q: real)
    requires a < b && q > 0.0
    ensures a * q < b * q
  {
  }

  lemma {:induction false} ProductCancels(a: real, b: real, q: real)
    requires a * q <= b * q && q > 0.0
    ensures a <= b
  {
    if a > b {
      ProductKeepsStrictOrder(b, a, q);
    }
  }

  ghost predicate Distinct<T>(s: seq<T>) {
    forall i, j :: 0 <= i < j < |s| ==> s[i] != s[j]
  }

  // A refused call changes nothing and reports why.
  ghost predicate Settles<S, E>(outcome: Result<S, E>, before: S, after: S, failure: Option<E>) {
    match outcome
    case Ok(next) => after == next && failure.None?
    case Err(e) => after == before && failure == Some(e)
  }
}
