/** The `Optional<T>` holder of wanderingnet-common: an immutable value that
    either holds a non-null reference (`Present`) or holds nothing (`Absent`),
    with its constructors, queries, combinators and fallbacks.

    Every operation is a pure function of the receiver and its arguments.
    Java's null appears only in the argument and result positions where the
    Java signature admits it (`Nullable`); an operation that can throw returns
    an `Outcome`. Callbacks (predicates, mappers, suppliers, consumers) are
    Dafny functions, wrapped in `Nullable` where the source's behaviour on a
    null callback is stated.
 */
module Optionals {
  import opened JavaNull

  /** The two variants. The contained reference is never null: null is not a
      value of `T` here. Dafny's datatype equality is structural, so every
      `Absent` is the same canonical instance. */
  datatype Optional<T> = Present(reference: T) | Absent

  /** `java.util.Optional<T>`, seen through its `isPresent()` / `get()`
      capability; its contained value is never null either. */
  datatype JavaOptional<T> = JavaEmpty | JavaOf(contents: T)

  /** An argument of static type `Object`, as `equals` receives it: null, an
      `Optional`, or an instance of some unrelated class. */
  datatype JavaObject<T> = NullObject | OptionalObject(optional: Optional<T>) | OtherObject

  /** Whether a consumer was invoked, and with what. */
  datatype Call<A> = NotCalled | CalledWith(arg: A)

  /** What `ifPresent` / `ifNotPresent` hand back: the receiver itself, for
      chaining, and the call they made on the consumer. */
  datatype Visit<T, A> = Visit(receiver: Optional<T>, call: Call<A>)

  /** `isPresent()`: the holder contains a (non-null) instance. */
  predicate IsPresent<T>(o: Optional<T>)
  {
    o.Present?
  }

  /** `isNotPresent()`: the negation of `isPresent()`. */
  predicate IsNotPresent<T>(o: Optional<T>)
  {
    !IsPresent(o)
  }

  // ---------------------------------------------------------------------
  // Construction
  // ---------------------------------------------------------------------

  /** `absent()` and `empty()`: the holder with no contained reference. */
  function Empty<T>(): (r: Optional<T>)
    ensures IsNotPresent(r)
  {
    Absent
  }

  /** `of(T reference)`: wraps a non-null reference and throws
      `NullPointerException` (from `checkNotNull`) on null. */
  function Of<T>(reference: Nullable<T>): (r: Outcome<Optional<T>>)
    ensures r.Fail? <==> reference.Null?
    ensures r.Fail? ==> r.failure == NullPointer
    ensures r.Ok? ==> IsPresent(r.value) && NonNull(r.value.reference) == reference
  {
    Then(CheckNotNull(reference), (v: T) => Ok(Present(v)))
  }

  /** `fromNullable(T)`: null becomes `Absent`, anything else is wrapped.
      It never throws, and it is undone by `orNull()`. */
  function FromNullable<T>(nullableReference: Nullable<T>): (r: Optional<T>)
    ensures IsPresent(r) <==> nullableReference.NonNull?
    ensures OrNull(r) == nullableReference
  {
    match nullableReference
    case Null => Empty()
    case NonNull(v) => Present(v)
  }

  /** `ofNullable(T)`: `empty()` on null, `of(value)` otherwise. The call to
      `of` cannot throw on that branch, so `ofNullable` never throws and
      coincides with `fromNullable`. */
  function OfNullable<T>(value: Nullable<T>): (r: Optional<T>)
    ensures r == FromNullable(value)
  {
    if value.Null? then Empty() else Of(value).value
  }

  /** `of(java.util.Optional)`: a null or empty Java optional gives `Absent`;
      a present one gives `of(javaOptional.get())`, which cannot throw because
      a Java optional never holds null. */
  function OfJava<T>(javaOptional: Nullable<JavaOptional<T>>): (r: Optional<T>)
    ensures IsPresent(r) <==> javaOptional.NonNull? && javaOptional.ref.JavaOf?
    ensures IsPresent(r) ==> r.reference == javaOptional.ref.contents
  {
    if javaOptional.NonNull? && javaOptional.ref.JavaOf? then
      Of(NonNull(javaOptional.ref.contents)).value
    else
      Empty()
  }

  // ---------------------------------------------------------------------
  // Queries
  // ---------------------------------------------------------------------

  /** `get()`: the contained reference; `IllegalStateException` when absent. */
  function Get<T>(o: Optional<T>): (r: Outcome<T>)
    ensures r.Ok? <==> IsPresent(o)
    ensures r.Ok? ==> o == Present(r.value)
    ensures r.Fail? ==> r.failure == IllegalState
  {
    match o
    case Present(v) => Ok(v)
    case Absent => Fail(IllegalState)
  }

  /** `ifPresent(consumer)`: `consumer.accept(get())` when present, nothing
      otherwise; returns the receiver. The consumer is not null-checked up
      front: a null consumer throws only when it is about to be invoked. */
  function IfPresent<T>(o: Optional<T>, consumer: Nullable<T -> ()>): (r: Outcome<Visit<T, T>>)
    ensures r.Fail? <==> IsPresent(o) && consumer.Null?
    ensures r.Fail? ==> r.failure == NullPointer
    ensures r.Ok? ==> r.value.receiver == o
    ensures r.Ok? ==> (r.value.call.CalledWith? <==> IsPresent(o))
    ensures r.Ok? && r.value.call.CalledWith? ==> r.value.call.arg == o.reference
  {
    if IsPresent(o) then
      // Java evaluates the argument `get()` before the null check on the
      // target `consumer`.
      Then(Get(o), (v: T) =>
        if consumer.Null? then Fail(NullPointer) else Ok(Visit(o, CalledWith(v))))
    else
      Ok(Visit(o, NotCalled))
  }

  /** `ifNotPresent(consumer)` AS WRITTEN: on the absent branch it evaluates
      `consumer.accept(get())`, and `get()` throws `IllegalStateException`
      before the consumer is reached. The consumer is therefore never
      invoked, and calling it on an absent value always fails. */
  function IfNotPresent<T>(o: Optional<T>, consumer: Nullable<T -> ()>): (r: Outcome<Visit<T, T>>)
    ensures r.Ok? <==> IsPresent(o)
    ensures r.Fail? ==> r.failure == IllegalState
    ensures r.Ok? ==> r.value == Visit(o, NotCalled)
  {
    if !IsPresent(o) then
      Then(Get(o), (v: T) =>
        if consumer.Null? then Fail(NullPointer) else Ok(Visit(o, CalledWith(v))))
    else
      Ok(Visit(o, NotCalled))
  }

  /** The evidently intended `ifNotPresent`: on an absent value run an action
      that takes no argument (absence carries no value); on a present value do
      nothing. Like `ifPresent`, a null action throws only when it is about to
      be invoked. Returns the receiver. */
  function IfAbsent<T>(o: Optional<T>, action: Nullable<() -> ()>): (r: Outcome<Visit<T, ()>>)
    ensures r.Fail? <==> IsNotPresent(o) && action.Null?
    ensures r.Fail? ==> r.failure == NullPointer
    ensures r.Ok? ==> r.value.receiver == o
    ensures r.Ok? ==> (r.value.call.CalledWith? <==> IsNotPresent(o))
  {
    if IsNotPresent(o) then
      if action.Null? then Fail(NullPointer) else Ok(Visit(o, CalledWith(())))
    else
      Ok(Visit(o, NotCalled))
  }

  // ---------------------------------------------------------------------
  // Transformations
  // ---------------------------------------------------------------------

  /** `filter(predicate)`: a null predicate is rejected before presence is
      examined; an absent receiver is returned as is; a present one is kept
      when the predicate accepts its reference and dropped otherwise. */
  function Filter<T>(o: Optional<T>, test: Nullable<T -> bool>): (r: Outcome<Optional<T>>)
    ensures r.Fail? <==> test.Null?
    ensures r.Fail? ==> r.failure == NullPointer
    ensures r.Ok? ==> r.value == o || r.value == Absent
    ensures r.Ok? && IsPresent(r.value) ==> test.ref(r.value.reference)
    ensures r.Ok? && IsPresent(o) && test.ref(o.reference) ==> r.value == o
  {
    Then(CheckNotNull(test), (p: T -> bool) =>
      if !IsPresent(o) then Ok(o)
      else Then(Get(o), (v: T) => Ok(if p(v) then o else Empty())))
  }

  /** `map(mapper)`: a null mapper is rejected first; an absent receiver maps
      to `Absent` without applying the mapper; a present one maps to
      `ofNullable(mapper(reference))`, so a null result collapses to
      `Absent`. */
  function Map<T, U>(o: Optional<T>, mapper: Nullable<T -> Nullable<U>>): (r: Outcome<Optional<U>>)
    ensures r.Fail? <==> mapper.Null?
    ensures r.Fail? ==> r.failure == NullPointer
    ensures r.Ok? ==> (IsPresent(r.value) <==> IsPresent(o) && mapper.ref(o.reference).NonNull?)
    ensures r.Ok? && IsPresent(r.value) ==> NonNull(r.value.reference) == mapper.ref(o.reference)
  {
    Then(CheckNotNull(mapper), (f: T -> Nullable<U>) =>
      if !IsPresent(o) then Ok(Empty())
      else Then(Get(o), (v: T) => Ok(OfNullable(f(v)))))
  }

  /** `flatMap(mapper)`: a null mapper is rejected first; an absent receiver
      gives `Absent` without applying the mapper; a present one gives the
      mapper's own result, unchanged, and a null result is rejected with
      `NullPointerException` rather than collapsed. */
  function FlatMap<T, U>(o: Optional<T>, mapper: Nullable<T -> Nullable<Optional<U>>>): (r: Outcome<Optional<U>>)
    ensures r.Fail? <==> mapper.Null? || (IsPresent(o) && mapper.ref(o.reference).Null?)
    ensures r.Fail? ==> r.failure == NullPointer
    ensures r.Ok? && IsNotPresent(o) ==> r.value == Absent
    ensures r.Ok? && IsPresent(o) ==> NonNull(r.value) == mapper.ref(o.reference)
  {
    Then(CheckNotNull(mapper), (f: T -> Nullable<Optional<U>>) =>
      if !IsPresent(o) then Ok(Empty())
      else Then(Get(o), (v: T) => CheckNotNull(f(v))))
  }

  /** `transform(function)`, from its documentation: a present reference is
      transformed with the function, an absent one gives `Absent`; unlike
      `map`, a null result throws `NullPointerException`. */
  function Transform<T, V>(o: Optional<T>, fn: T -> Nullable<V>): (r: Outcome<Optional<V>>)
    ensures r.Fail? <==> IsPresent(o) && fn(o.reference).Null?
    ensures r.Fail? ==> r.failure == NullPointer
    ensures r.Ok? ==> (IsPresent(r.value) <==> IsPresent(o))
    ensures r.Ok? && IsPresent(r.value) ==> NonNull(r.value.reference) == fn(o.reference)
  {
    match o
    case Absent => Ok(Absent)
    case Present(v) => Then(CheckNotNull(fn(v)), (w: V) => Ok(Present(w)))
  }

  // ---------------------------------------------------------------------
  // Fallbacks
  // ---------------------------------------------------------------------

  /** `orElse(other)`: the contained reference, or `other` (which may itself
      be null) when absent. */
  function OrElse<T>(o: Optional<T>, other: Nullable<T>): (r: Nullable<T>)
    ensures IsPresent(o) ==> r == NonNull(o.reference)
    ensures IsNotPresent(o) ==> r == other
  {
    if IsPresent(o) then NonNull(Get(o).value) else other
  }

  /** `orElseGet(other)`: the contained reference when present, without
      touching the supplier (a null supplier is harmless then); otherwise
      `other.get()`, which throws `NullPointerException` on a null supplier
      and may return null. */
  function OrElseGet<T>(o: Optional<T>, other: Nullable<() -> Nullable<T>>): (r: Outcome<Nullable<T>>)
    ensures IsPresent(o) ==> r == Ok(NonNull(o.reference))
    ensures IsNotPresent(o) ==> (r.Fail? <==> other.Null?)
    ensures IsNotPresent(o) && r.Ok? ==> r.value == other.ref()
    ensures r.Fail? ==> r.failure == NullPointer
  {
    if IsPresent(o) then Ok(NonNull(Get(o).value))
    else Then(CheckNotNull(other), (s: () -> Nullable<T>) => Ok(s()))
  }

  /** How `orElseThrow` completes: it returns, it throws the caller's
      exception, or it throws `NullPointerException` (null supplier, or
      `throw null` when the supplier produced null). */
  datatype Throws<R, X> = Returns(value: R) | Raises(exception: X) | RaisesNullPointer

  /** `orElseThrow(exceptionSupplier)`: the contained reference when present,
      never consulting the supplier; otherwise throws what the supplier
      builds. */
  function OrElseThrow<T, X>(o: Optional<T>, exceptionSupplier: Nullable<() -> Nullable<X>>): (r: Throws<T, X>)
    ensures r.Returns? <==> IsPresent(o)
    ensures r.Returns? ==> o == Present(r.value)
    ensures r.Raises? ==> exceptionSupplier.NonNull? && exceptionSupplier.ref() == NonNull(r.exception)
    ensures r.RaisesNullPointer? ==> exceptionSupplier.Null? || exceptionSupplier.ref().Null?
  {
    if IsPresent(o) then Returns(Get(o).value)
    else if exceptionSupplier.Null? then RaisesNullPointer
    else
      match exceptionSupplier.ref()
      case Null => RaisesNullPointer
      case NonNull(x) => Raises(x)
  }

  /** `or(T defaultValue)`, from its documentation: the contained reference,
      or `defaultValue` when absent; a null `defaultValue` is not accepted
      (`NullPointerException`), so a returned value is never null. */
  function Or<T>(o: Optional<T>, defaultValue: Nullable<T>): (r: Outcome<T>)
    ensures r.Fail? <==> defaultValue.Null?
    ensures r.Fail? ==> r.failure == NullPointer
    ensures r.Ok? && IsPresent(o) ==> r.value == o.reference
    ensures r.Ok? && IsNotPresent(o) ==> NonNull(r.value) == defaultValue
  {
    Then(CheckNotNull(defaultValue), (d: T) =>
      Ok(match o case Present(v) => v case Absent => d))
  }

  /** `or(Optional secondChoice)`, from its documentation: the receiver when
      it has a value, `secondChoice` otherwise. */
  function OrOptional<T>(o: Optional<T>, secondChoice: Optional<T>): (r: Optional<T>)
    ensures IsPresent(o) ==> r == o
    ensures IsNotPresent(o) ==> r == secondChoice
  {
    match o
    case Present(_) => o
    case Absent => secondChoice
  }

  /** `or(Supplier supplier)`, from its documentation: the contained
      reference when present, `supplier.get()` otherwise; throws
      `NullPointerException` when absent and the supplier returns null. */
  function OrSupplier<T>(o: Optional<T>, supplier: () -> Nullable<T>): (r: Outcome<T>)
    ensures r.Fail? <==> IsNotPresent(o) && supplier().Null?
    ensures r.Fail? ==> r.failure == NullPointer
    ensures r.Ok? && IsPresent(o) ==> r.value == o.reference
    ensures r.Ok? && IsNotPresent(o) ==> NonNull(r.value) == supplier()
  {
    match o
    case Present(v) => Ok(v)
    case Absent => CheckNotNull(supplier())
  }

  /** `orNull()`, from its documentation: the contained reference, or null
      when absent. */
  function OrNull<T>(o: Optional<T>): (r: Nullable<T>)
    ensures r.NonNull? <==> IsPresent(o)
    ensures r.NonNull? ==> o == Present(r.ref)
  {
    match o
    case Present(v) => NonNull(v)
    case Absent => Null
  }

  // ---------------------------------------------------------------------
  // Projection and equality
  // ---------------------------------------------------------------------

  /** `asSet()`, from its documentation: the singleton set of the contained
      reference, or the empty set. */
  function AsSet<T(==)>(o: Optional<T>): (r: set<T>)
    ensures |r| <= 1
    ensures |r| == 1 <==> IsPresent(o)
    ensures IsPresent(o) ==> o.reference in r
  {
    match o
    case Present(v) => {v}
    case Absent => {}
  }

  /** `equals(Object)`, from its documentation: true exactly when the
      argument is an `Optional` and either both are absent or both hold
      references equal by `equals`. The element's `equals` is taken to be
      value equality on `T`, that is, a lawful `equals`. */
  function Equals<T(==)>(o: Optional<T>, obj: JavaObject<T>): (r: bool)
    ensures r <==> obj.OptionalObject? && obj.optional == o
  {
    match obj
    case OptionalObject(other) =>
      (match (o, other)
       case (Absent, Absent) => true
       case (Present(a), Present(b)) => a == b
       case _ => false)
    case _ => false
  }
}
