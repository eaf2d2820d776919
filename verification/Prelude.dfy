/** Vocabulary shared by all the models: optional values and small arithmetic. */
module Prelude {

  datatype Option<+T> = None | Some(value: T)

  /** Python's `a or b` on optional numbers: a missing value and zero both fall through. */
  function OrElse(a: Option<real>, b: real): real {
    if a.Some? && a.value != 0.0 then a.value else b
  }

  /** The value given, else what is there already. */
  function Or<T>(a: Option<T>, b: T): T {
    if a.Some? then a.value else b
  }

  function Min(a: int, b: int): int {
    if a < b then a else b
  }

  function Max(a: int, b: int): int {
    if a < b then b else a
  }

  function Abs(a: int): int {
    if a < 0 then -a else a
  }

  ghost predicate Distinct<T(!new)>(xs: seq<T>) {
    forall i, j :: 0 <= i < j < |xs| ==> xs[i] != xs[j]
  }

  /** Overwriting the first element behind a finished prefix extends the prefix. */
  lemma ReplaceHead<T>(done: seq<T>, rest: seq<T>, x: T)
    requires rest != []
    ensures (done + rest)[|done| := x] == done + [x] + rest[1..]
    ensures (done + rest)[|done|] == rest[0]
  {
  }
}
