/** Success and absence, in the failure-compatible form that `:-` understands. */
module Wrappers {

  datatype Option<+T> = None | Some(value: T)

  datatype Result<+T, +E> = Ok(value: T) | Err(error: E) {

    predicate IsFailure() {
      Err?
    }

    function PropagateFailure<U>(): Result<U, E>
      requires Err?
    {
      Err(error)
    }

    function Extract(): T
      requires Ok?
    {
      value
    }
  }

  datatype Outcome<+E> = Pass | Fail(error: E) {

    predicate IsFailure() {
      Fail?
    }

    function PropagateFailure<U>(): Result<U, E>
      requires Fail?
    {
      Err(error)
    }
  }

  function Need<E>(condition: bool, error: E): Outcome<E> {
    if condition then Pass else Fail(error)
  }

  /** All values in order, or the first error. */
  function Collect<T, E>(read: seq<Result<T, E>>): (r: Result<seq<T>, E>)
    ensures r.Ok? <==> forall i :: 0 <= i < |read| ==> read[i].Ok?
    ensures r.Ok? ==> |r.value| == |read| && forall i :: 0 <= i < |read| ==> read[i] == Ok(r.value[i])
  {
    if read == [] then Ok([])
    else
      var head :- read[0];
      var tail :- Collect(read[1..]);
      assert forall i :: 0 < i < |read| ==> read[i] == read[1..][i - 1];
      Ok([head] + tail)
  }

  lemma {:induction false} CollectStopsAt<T, E>(read: seq<Result<T, E>>, at: nat)
    requires at < |read| && read[at].Err?
    requires forall i :: 0 <= i < at ==> read[i].Ok?
    ensures Collect(read) == Err(read[at].error)
  {
    if at > 0 {
      CollectStopsAt(read[1..], at - 1);
    }
  }
}
