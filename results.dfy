/** Outcomes of operations that can fail, and the failures the container raises. */
module Results {

  datatype Option<T> = None | Some(value: T)

  /**
   * The exceptions the modelled code throws.  The comment at the head of each group names
   * the Java exception class.
   */
  datatype Error =
    // IllegalArgumentException raised by the descriptor constructors and by TypeData
    | PrimitiveNotAllowed
    | NoOwnerForEnclosed
    | OwnerForUnenclosed
    | TooManyLowerBounds
    | NotOneUpperBound
    | BoundedBothWays
    | UnsupportedTypeKind
    | NotASupertype
    | NotDefinedBySupertype
    | NotConstructingSupertype
    // NullPointerException, NoSuchElementException, ArrayIndexOutOfBoundsException, ClassCastException
    | NullPointer
    | NoSuchElement
    | IndexOutOfBounds
    | ClassCast
    // InjectException
    | HookHasArguments
    | MoreThanOneHook
    | MoreThanOneInjectConstructor
    | NoUsableConstructor
    | MoreThanOneQualifier
    // InstantiationException raised by a reflective constructor call on an abstract class or interface
    | InstantiationFailed
    // a fuel or depth bound of the model ran out, where Java would not terminate or would
    // overflow its stack; nothing is said about which
    | BoundExhausted
  {
    predicate IsIllegalArgument() {
      || PrimitiveNotAllowed? || NoOwnerForEnclosed? || OwnerForUnenclosed? || TooManyLowerBounds?
      || NotOneUpperBound? || BoundedBothWays? || UnsupportedTypeKind? || NotASupertype?
      || NotDefinedBySupertype? || NotConstructingSupertype?
    }

    predicate IsInjectException() {
      HookHasArguments? || MoreThanOneHook? || MoreThanOneInjectConstructor? || NoUsableConstructor?
      || MoreThanOneQualifier?
    }
  }

  datatype Result<T> = Success(value: T) | Failure(error: Error) {
    predicate IsFailure() { Failure? }

    function PropagateFailure<U>(): Result<U>
      requires Failure?
    {
      Failure(error)
    }

    function Extract(): T
      requires Success?
    {
      value
    }
  }

  /** A Java argument check: fails with `error` unless `condition` holds. */
  function Need(condition: bool, error: Error): (r: Result<()>)
    ensures r.Success? <==> condition
    ensures r.Failure? ==> r.error == error
  {
    if condition then Success(()) else Failure(error)
  }
}
