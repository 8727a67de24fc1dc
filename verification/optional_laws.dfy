/** Laws relating the operations of `Optionals` to one another: the
    null-boundary round trips, the functor and monad laws of `map` and
    `flatMap`, idempotence of `filter`, the fallbacks as special cases of one
    another, structural equality, and the defect of `ifNotPresent`.
 */
module OptionalLaws {
  import opened JavaNull
  import opened Optionals

  // ---------------------------------------------------------------------
  // Construction at the null boundary
  // ---------------------------------------------------------------------

  /** `of` and `ofNullable` agree on every non-null reference, and only
      `of` rejects null. */
  lemma OfAgreesWithOfNullable<T>(x: Nullable<T>)
    ensures x.NonNull? ==> Of(x) == Ok(OfNullable(x))
    ensures x.Null? ==> Of(x) == Fail(NullPointer) && OfNullable(x) == Absent
  {
  }

  /** `fromNullable` and `orNull` are mutually inverse: Java's nullable
      references and `Optional` carry the same information. */
  lemma NullableRoundTrip<T>(x: Nullable<T>, o: Optional<T>)
    ensures OrNull(FromNullable(x)) == x
    ensures FromNullable(OrNull(o)) == o
  {
  }

  /** A value wrapped by `of` is present and `get` hands it back. */
  lemma GetAfterOf<T>(v: T)
    ensures Of(NonNull(v)).Ok?
    ensures IsPresent(Of(NonNull(v)).value)
    ensures Get(Of(NonNull(v)).value) == Ok(v)
  {
  }

  /** Converting a `java.util.Optional` mirrors its presence and contents,
      whichever way it is built: it is `fromNullable` applied to the Java
      optional's `orElse(null)`, and a null Java optional counts as an empty
      one. */
  lemma OfJavaMirrors<T>(v: T, j: JavaOptional<T>)
    ensures OfJava(NonNull(JavaOf(v))) == Present(v)
    ensures OfJava<T>(NonNull(JavaEmpty)) == Absent
    ensures OfJava<T>(Null) == OfJava<T>(NonNull(JavaEmpty))
    ensures OfJava(NonNull(j)) == FromNullable(match j case JavaEmpty => Null case JavaOf(w) => NonNull(w))
  {
  }

  // ---------------------------------------------------------------------
  // Queries against the set projection
  // ---------------------------------------------------------------------

  /** `isPresent`, `isNotPresent` and `get` read the same information as
      `asSet`: present means a one-element set, absent the empty set, and
      `get` succeeds exactly with the set's element. */
  lemma QueriesAgreeWithAsSet<T>(o: Optional<T>, x: T)
    ensures IsPresent(o) <==> |AsSet(o)| == 1
    ensures IsNotPresent(o) <==> AsSet(o) == {}
    ensures x in AsSet(o) <==> Get(o) == Ok(x)
  {
  }

  // ---------------------------------------------------------------------
  // filter
  // ---------------------------------------------------------------------

  /** Filtering twice by the same predicate is filtering once. */
  lemma FilterIdempotent<T>(o: Optional<T>, p: T -> bool)
    ensures Filter(o, NonNull(p)).Ok?
    ensures Filter(Filter(o, NonNull(p)).value, NonNull(p)) == Filter(o, NonNull(p))
  {
  }

  /** `filter` is set comprehension on the projection: the result holds
      exactly the elements of the receiver that pass the predicate. */
  lemma FilterIsComprehension<T>(o: Optional<T>, p: T -> bool)
    ensures Filter(o, NonNull(p)).Ok?
    ensures AsSet(Filter(o, NonNull(p)).value) == set x | x in AsSet(o) && p(x)
  {
  }

  /** A null predicate fails the same way on both variants: the check comes
      before presence is examined. */
  lemma FilterRejectsNullEagerly<T>(o: Optional<T>)
    ensures Filter(o, Null) == Filter(Absent, Null) == Fail(NullPointer)
  {
  }

  // ---------------------------------------------------------------------
  // map and transform
  // ---------------------------------------------------------------------

  /** The identity law: mapping the identity changes nothing. */
  lemma MapIdentity<T>(o: Optional<T>)
    ensures Map(o, NonNull((x: T) => NonNull(x))) == Ok(o)
  {
  }

  /** `map` on an absent value never looks at the mapper. */
  lemma MapAbsentIgnoresMapper<T, U>(f: T -> Nullable<U>, g: T -> Nullable<U>)
    ensures Map(Absent, NonNull(f)) == Map(Absent, NonNull(g)) == Ok(Absent)
  {
  }

  /** Null-aware composition: run `g` on the result of `f` unless `f`
      produced null, which then stays null. */
  function AndThen<T, U, V>(f: T -> Nullable<U>, g: U -> Nullable<V>): T -> Nullable<V>
  {
    (x: T) => match f(x) case Null => Null case NonNull(y) => g(y)
  }

  /** The composition law, for every pair of mappers: two `map`s are one
      `map` by the null-aware composition, because a null from the first
      mapper collapses to `Absent` and the second never runs. */
  lemma MapComposition<T, U, V>(o: Optional<T>, f: T -> Nullable<U>, g: U -> Nullable<V>)
    ensures Then(Map(o, NonNull(f)), (q: Optional<U>) => Map(q, NonNull(g)))
         == Map(o, NonNull(AndThen(f, g)))
  {
  }

  /** The composition law in its plain form, for a first mapper that never
      returns null: `o.map(f).map(g) == o.map(x -> g(f(x)))`. */
  lemma MapCompositionNonNull<T, U, V>(o: Optional<T>, f: T -> U, g: U -> Nullable<V>)
    ensures Then(Map(o, NonNull((x: T) => NonNull(f(x)))), (q: Optional<U>) => Map(q, NonNull(g)))
         == Map(o, NonNull((x: T) => g(f(x))))
  {
  }

  /** `transform` and `map` differ only when the function returns null for a
      present value: `map` collapses that to `Absent`, `transform` throws. */
  lemma TransformVersusMap<T, V>(o: Optional<T>, f: T -> Nullable<V>)
    ensures IsPresent(o) && f(o.reference).Null? ==>
              Transform(o, f) == Fail(NullPointer) && Map(o, NonNull(f)) == Ok(Absent)
    ensures !(IsPresent(o) && f(o.reference).Null?) ==> Transform(o, f) == Map(o, NonNull(f))
  {
  }

  // ---------------------------------------------------------------------
  // flatMap
  // ---------------------------------------------------------------------

  /** Left identity: wrapping a value and flat-mapping it is applying the
      mapper, whose null result is rejected. */
  lemma FlatMapLeftIdentity<T, U>(v: T, f: T -> Nullable<Optional<U>>)
    ensures Then(Of(NonNull(v)), (o: Optional<T>) => FlatMap(o, NonNull(f))) == CheckNotNull(f(v))
  {
  }

  /** Right identity: flat-mapping with `of` changes nothing. */
  lemma FlatMapRightIdentity<T>(o: Optional<T>)
    ensures FlatMap(o, NonNull((x: T) => NonNull(Present(x)))) == Ok(o)
  {
  }

  /** Kleisli composition of two flat-mappers, failing on a null result as
      `flatMap` does. */
  function KleisliThen<T, U, V>(f: T -> Nullable<Optional<U>>, g: U -> Nullable<Optional<V>>): T -> Nullable<Optional<V>>
  {
    (x: T) =>
      match f(x)
      case Null => Null
      case NonNull(Absent) => NonNull(Absent)
      case NonNull(Present(y)) => g(y)
  }

  /** Associativity: flat-mapping twice is flat-mapping once by the Kleisli
      composition, null results included. */
  lemma FlatMapAssociative<T, U, V>(o: Optional<T>, f: T -> Nullable<Optional<U>>, g: U -> Nullable<Optional<V>>)
    ensures Then(FlatMap(o, NonNull(f)), (q: Optional<U>) => FlatMap(q, NonNull(g)))
         == FlatMap(o, NonNull(KleisliThen(f, g)))
  {
  }

  /** `map` is `flatMap` with the result re-wrapped by `fromNullable`, which
      is why it never fails on a null mapper result. */
  lemma MapIsFlatMapOfNullable<T, U>(o: Optional<T>, f: T -> Nullable<U>)
    ensures Map(o, NonNull(f)) == FlatMap(o, NonNull((x: T) => NonNull(FromNullable(f(x)))))
  {
  }

  // ---------------------------------------------------------------------
  // Fallbacks
  // ---------------------------------------------------------------------

  /** `ofNullable(x).orElse(d)` is `x` when `x` is non-null and `d`
      otherwise. */
  lemma OrElseOfNullable<T>(x: Nullable<T>, d: Nullable<T>)
    ensures OrElse(OfNullable(x), d) == if x.NonNull? then x else d
  {
  }

  /** `orNull()` is `orElse(null)`. */
  lemma OrNullIsOrElseNull<T>(o: Optional<T>)
    ensures OrNull(o) == OrElse(o, Null)
  {
  }

  /** `or(T)` is `orElse` restricted to non-null defaults, and then never
      returns null. */
  lemma OrIsNonNullOrElse<T>(o: Optional<T>, d: Nullable<T>)
    ensures d.NonNull? ==> Or(o, d).Ok? && OrElse(o, d) == NonNull(Or(o, d).value)
    ensures d.Null? ==> Or(o, d) == Fail(NullPointer)
  {
  }

  /** `orElseGet` consults its supplier only when absent: on a present value
      any two suppliers, null or not, give the same result. */
  lemma OrElseGetIsLazy<T>(v: T, s1: Nullable<() -> Nullable<T>>, s2: Nullable<() -> Nullable<T>>)
    ensures OrElseGet(Present(v), s1) == OrElseGet(Present(v), s2) == Ok(NonNull(v))
  {
  }

  /** `or(Supplier)` agrees with `orElseGet` except where the supplier
      produces null for an absent value: `orElseGet` returns the null, `or`
      throws. */
  lemma OrSupplierVersusOrElseGet<T>(o: Optional<T>, s: () -> Nullable<T>)
    ensures IsNotPresent(o) && s().Null? ==>
              OrSupplier(o, s) == Fail(NullPointer) && OrElseGet(o, NonNull(s)) == Ok(Null)
    ensures !(IsNotPresent(o) && s().Null?) ==>
              OrElseGet(o, NonNull(s)) == Ok(NonNull(OrSupplier(o, s).value))
  {
  }

  /** `orElseThrow` returns exactly what `get` returns, and where `get`
      throws `IllegalStateException` it throws the supplier's exception
      instead (or `NullPointerException` for a null supplier or a null
      exception). The supplier is not consulted when present. */
  lemma OrElseThrowVersusGet<T, X>(o: Optional<T>, e: Nullable<() -> Nullable<X>>)
    ensures OrElseThrow(o, e).Returns? <==> Get(o).Ok?
    ensures Get(o).Ok? ==> OrElseThrow(o, e).value == Get(o).value
    ensures IsPresent(o) ==> OrElseThrow(o, e) == OrElseThrow(o, Null)
    ensures IsNotPresent(o) && e.NonNull? && e.ref().NonNull? ==> OrElseThrow(o, e) == Raises(e.ref().ref)
  {
  }

  /** `or(Optional)` is associative with `Absent` as identity on both sides,
      and its result is present when either operand is. */
  lemma OrOptionalMonoid<T>(a: Optional<T>, b: Optional<T>, c: Optional<T>)
    ensures OrOptional(OrOptional(a, b), c) == OrOptional(a, OrOptional(b, c))
    ensures OrOptional(Absent, a) == a && OrOptional(a, Absent) == a
    ensures IsPresent(OrOptional(a, b)) <==> IsPresent(a) || IsPresent(b)
  {
  }

  // ---------------------------------------------------------------------
  // Equality
  // ---------------------------------------------------------------------

  /** `equals` is an equivalence on optionals, present never equals absent,
      and null or a non-`Optional` object is never equal. */
  lemma EqualsIsStructural<T>(a: Optional<T>, b: Optional<T>, c: Optional<T>, v: T)
    ensures Equals(a, OptionalObject(a))
    ensures Equals(a, OptionalObject(b)) <==> Equals(b, OptionalObject(a))
    ensures Equals(a, OptionalObject(b)) && Equals(b, OptionalObject(c)) ==> Equals(a, OptionalObject(c))
    ensures !Equals(Present(v), OptionalObject(Absent))
    ensures !Equals(a, NullObject) && !Equals(a, OtherObject)
  {
  }

  /** Two present values are equal exactly when their references are, and
      any two absent values are equal. */
  lemma EqualsByContents<T>(v: T, w: T)
    ensures Equals(Present(v), OptionalObject(Present(w))) <==> v == w
    ensures Equals<T>(Absent, OptionalObject(Absent))
  {
  }

  // ---------------------------------------------------------------------
  // ifPresent / ifNotPresent
  // ---------------------------------------------------------------------

  /** The defect of `ifNotPresent` as written: on an absent value it throws
      `IllegalStateException` from `get()` even with a perfectly good
      consumer, so its consumer is never run on any input. */
  lemma IfNotPresentNeverRunsConsumer<T>(o: Optional<T>, c: T -> ())
    ensures IfNotPresent(Absent, NonNull(c)) == Fail(IllegalState)
    ensures IfNotPresent(o, NonNull(c)).Ok? ==> IfNotPresent(o, NonNull(c)).value.call == NotCalled
  {
  }

  /** The corrected `ifNotPresent` (`IfAbsent`) complements `ifPresent`: with
      non-null callbacks exactly one of the two runs its callback, and both
      return the receiver. */
  lemma IfAbsentComplementsIfPresent<T>(o: Optional<T>, c: T -> (), a: () -> ())
    ensures IfPresent(o, NonNull(c)).Ok? && IfAbsent(o, NonNull(a)).Ok?
    ensures IfPresent(o, NonNull(c)).value.call.CalledWith?
        <==> !IfAbsent(o, NonNull(a)).value.call.CalledWith?
    ensures IfPresent(o, NonNull(c)).value.receiver == IfAbsent(o, NonNull(a)).value.receiver == o
  {
  }
}
