/**
  Vocabulary shared by every module of the model.

  Identifiers (tickets, players, parties, reservations, matches, regions) are drawn from a
  totally ordered set with a least element; natural numbers stand for them, and NO_ID, the
  least one, stands for the blank string.  Times are integers (nanoseconds) and ZERO_TIME is
  Go's zero time.
*/
module Prelude {
  type Id = nat
  type Time = int

  const NO_ID: Id := 0
  const ZERO_TIME: Time := 0

  datatype Option<+T> = None | Some(value: T)

  datatype Result<+T, +E> = Ok(value: T) | Err(error: E)

  ghost predicate Distinct<T>(s: seq<T>) {
    forall i, j :: 0 <= i < j < |s| ==> s[i] != s[j]
  }

  lemma DistinctConcat<T>(a: seq<T>, b: seq<T>)
    requires Distinct(a) && Distinct(b)
    requires forall x :: x in a ==> x !in b
    ensures Distinct(a + b)
  {
    forall i, j | 0 <= i < j < |a + b| ensures (a + b)[i] != (a + b)[j] {
      if i < |a| <= j {
        assert (a + b)[i] in a && (a + b)[j] in b;
      }
    }
  }
}
