/** Option and Result, shared by every module that models a Go (value, error) pair. */
module Wrappers {

  datatype Option<+T> = None | Some(value: T)

  datatype Result<+T, +E> = Success(value: T) | Failure(error: E)

  /** Results already collected, followed by the outcome of the remaining loop. */
  function Prepend<T, E>(done: seq<T>, rest: Result<seq<T>, E>): Result<seq<T>, E> {
    match rest
    case Failure(e) => Failure(e)
    case Success(items) => Success(done + items)
  }

  lemma PrependNothing<T, E>(rest: Result<seq<T>, E>)
    ensures Prepend([], rest) == rest
  {
    if rest.Success? {
      assert [] + rest.value == rest.value;
    }
  }

  lemma PrependEnd<T, E>(done: seq<T>, rest: Result<seq<T>, E>)
    requires rest == Success([])
    ensures Prepend(done, rest) == Success(done)
  {
    assert done + [] == done;
  }

  lemma PrependMore<T, E>(done: seq<T>, x: T, rest: Result<seq<T>, E>)
    ensures Prepend(done + [x], rest) == Prepend(done, Prepend([x], rest))
  {
    if rest.Success? {
      assert (done + [x]) + rest.value == done + ([x] + rest.value);
    }
  }
}
