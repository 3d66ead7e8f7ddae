/** Option and Result types shared by every solver model.
    A Rust `panic!`, `expect` or `unwrap` on a missing value becomes `Err(message)`,
    carrying the message the solver would print. */
module Wrappers {

  datatype Option<+T> = None | Some(value: T) {
    predicate IsFailure() { None? }

    function PropagateFailure<U>(): Option<U>
      requires None?
    {
      None
    }

    function Extract(): T
      requires Some?
    {
      value
    }

    function GetOr(default: T): T {
      match this
      case Some(v) => v
      case None => default
    }
  }

  datatype Result<+T> = Ok(value: T) | Err(msg: string) {
    predicate IsFailure() { Err? }

    function PropagateFailure<U>(): Result<U>
      requires Err?
    {
      Err(msg)
    }

    function Extract(): T
      requires Ok?
    {
      value
    }
  }

  /** `option.expect(msg)` */
  function Expect<T>(o: Option<T>, msg: string): (r: Result<T>)
    ensures o.Some? <==> r.Ok?
    ensures o.Some? ==> r.value == o.value
    ensures o.None? ==> r.msg == msg
  {
    match o
    case Some(v) => Ok(v)
    case None => Err(msg)
  }
}
