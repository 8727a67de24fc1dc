/** Java's reference world, as far as the Optional class touches it.

    A Java reference of type T is either null or points at a T. Inside an
    Optional the reference is never null, so the model keeps null out of the
    element type and meets it only at the boundaries: `Nullable<T>` is a
    possibly-null reference, and the exceptions the class raises for its own
    precondition violations become an `Outcome`.
 */
module JavaNull {

  /** A Java reference that may be null. */
  datatype Nullable<T> = Null | NonNull(ref: T)

  /** The two exceptions the class raises on its own account:
      `NullPointerException` from `checkNotNull` / `Objects.requireNonNull`
      (or from invoking a method on a null reference), and
      `IllegalStateException` from `get()` on an absent value. */
  datatype Failure = NullPointer | IllegalState

  /** A call that either returns a value or completes abruptly. */
  datatype Outcome<R> = Ok(value: R) | Fail(failure: Failure)

  /** Java's sequential evaluation: once a call has thrown, nothing after it
      runs and the exception propagates unchanged. */
  function Then<R, S>(r: Outcome<R>, k: R -> Outcome<S>): (s: Outcome<S>)
    ensures r.Fail? ==> s == Fail(r.failure)
    ensures r.Ok? ==> s == k(r.value)
  {
    match r
    case Ok(v) => k(v)
    case Fail(e) => Fail(e)
  }

  /** `checkNotNull(x)` / `Objects.requireNonNull(x)`: hands back the
      reference when it is non-null and throws `NullPointerException`
      otherwise. */
  function CheckNotNull<T>(x: Nullable<T>): (r: Outcome<T>)
    ensures r.Ok? <==> x.NonNull?
    ensures r.Ok? ==> x == NonNull(r.value)
    ensures r.Fail? ==> r.failure == NullPointer
  {
    match x
    case NonNull(v) => Ok(v)
    case Null => Fail(NullPointer)
  }
}
