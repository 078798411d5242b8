/** Small shared types: optional values, results, and the ways a request can be refused. */
module Common {
  datatype Option<+T> = None | Some(value: T) {
    function GetOr(default: T): T {
      match this
      case Some(v) => v
      case None => default
    }
  }

  // The outcome of a check or a lookup that may end the request.
  datatype Result<+T> = Ok(value: T) | Refused(why: Refusal)

  /** Why a request ended without any change. The first four are the handlers' own answers
      (404, 409, 422, 403); the last two are raised below them, by a lookup that expected at
      most one row and by a unique index or CHECK constraint at commit. */
  datatype Refusal = NotFound | Conflict | Unprocessable | Forbidden | MultipleRows | ConstraintFailed

  type Actor = string

  // Time stamps are compared, never computed with.
  type Time = nat

  lemma Associative<T>(a: seq<T>, b: seq<T>, c: seq<T>)
    ensures (a + b) + c == a + (b + c)
  {
  }

  lemma SliceSplit<T>(a: seq<T>, i: nat, j: nat)
    requires i <= j <= |a|
    ensures a[i..j] + a[j..] == a[i..]
  {
  }
}
