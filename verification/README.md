# Optional<T> of wanderingnet-common, modelled in Dafny

`org.wanderingnet.common.Optional<T>` is an immutable holder. It either
contains a non-null reference (*present*) or contains nothing (*absent*). It
comes with static constructors, presence queries, the `filter` / `map` /
`flatMap` / `transform` combinators, a family of fallbacks (`orElse`,
`orElseGet`, `orElseThrow`, three `or` overloads, `orNull`), the `asSet`
projection and structural equality.

The model is split into four modules:

- `JavaNull` (`java_null.dfy`) is Java's side of the boundary.
  `Nullable<T>` is a reference that may be null. `Outcome<R>` is a call that
  returns or throws one of the class's own exceptions: `NullPointerException`
  or `IllegalStateException`. `Then` is Java's "an exception stops
  evaluation".
- `Optionals` (`optional.dfy`) is the type `Optional<T> = Present(reference)
  | Absent` with every operation as a pure function. Null is not a value of
  `T`, so a present holder can never hold null. Callbacks are Dafny
  functions. They are wrapped in `Nullable` wherever the source's behaviour on
  a null callback is visible in the code (`filter`, `map`, `flatMap`,
  `orElseGet`, `orElseThrow`, `ifPresent`, `ifNotPresent`). Consumers are
  modelled only by whether, and with what, they are invoked.
- `OptionalLaws` (`optional_laws.dfy`) relates the operations to each other:
  - the null round trips;
  - the functor laws of `map` and the monad laws of `flatMap`;
  - `filter` idempotence and `filter` as set comprehension;
  - each fallback as a special case of another;
  - structural equality;
  - the `ifNotPresent` defect.
- `Pipelines` (`pipelines.dfy`) models fluent chains
  `o.filter(p).map(f).flatMap(g)…`. Its proofs are by induction:
  - absence propagates through any chain whose callbacks are non-null, and a
    null callback fails even on an absent value;
  - chains split at any point;
  - a chain of filters is one filter by the conjunction of its predicates;
  - a chain of maps is one map by the null-aware composition of its mappers.
  The module also carries two worked examples.

The concrete `Present` / `Absent` subclasses are not part of this model. The
abstract members `or(T)`, `or(Optional)`, `or(Supplier)`, `orNull`, `asSet`,
`transform` and `equals` are modelled from their documentation comments.
`get` (Optional.java:155) has no documentation comment here. The model
follows Guava's `Absent.get()`: on an absent value it throws
`IllegalStateException`.

The documentation says `or(T)` "will not accept" a null default. The model
therefore rejects a null default with `NullPointerException` on both
variants, not only when absent.

Every null check in the class throws `NullPointerException`, through
`checkNotNull` or `Objects.requireNonNull` (Optional.java:118, 172, 179, 188,
192). This covers `of(null)`, a null predicate or mapper, and a null
`flatMap` result.

`ifNotPresent` (Optional.java:164-169) passes `get()` to its consumer on an
absent value, so it always throws there (see Findings). `Optionals.IfAbsent`
is the corrected `ifNotPresent`. Its action takes no argument, because an
absent value has nothing to pass.

## Model

| member | source | states |
|---|---|---|
| Optionals.Empty | wanderingnet-common/src/main/java/org/wanderingnet/common/Optional.java:91-99 | `absent()` gives a holder with no contained reference |
| OptionalLaws.OfAgreesWithOfNullable | wanderingnet-common/src/main/java/org/wanderingnet/common/Optional.java:121-140 | `of` and `ofNullable` agree on every non-null reference; on null, `of` throws NPE and `ofNullable` gives the same `Absent` as `empty()` |
| Optionals.Of | wanderingnet-common/src/main/java/org/wanderingnet/common/Optional.java:109-119 | `of(x)` throws NullPointerException exactly when `x` is null; otherwise it is present and holds `x` |
| Optionals.FromNullable | wanderingnet-common/src/main/java/org/wanderingnet/common/Optional.java:125-136 | `fromNullable(x)` is present exactly when `x` is non-null, and `orNull()` recovers `x` from it |
| Optionals.OfNullable | wanderingnet-common/src/main/java/org/wanderingnet/common/Optional.java:138-140 | `ofNullable` never throws (its inner `of` call gets only non-null values) and always equals `fromNullable` |
| Optionals.OfJava | wanderingnet-common/src/main/java/org/wanderingnet/common/Optional.java:101-107 | converting a `java.util.Optional` is present exactly when the argument is non-null and present, and then holds its contents; it never throws |
| OptionalLaws.OfJavaMirrors | wanderingnet-common/src/main/java/org/wanderingnet/common/Optional.java:101-107 | converting a non-null Java optional equals `fromNullable` of its `orElse(null)`; a null Java optional converts like an empty one |
| OptionalLaws.NullableRoundTrip | wanderingnet-common/src/main/java/org/wanderingnet/common/Optional.java:125-136 | `fromNullable` and `orNull` are mutual inverses between nullable references and optionals |
| Optionals.Get | wanderingnet-common/src/main/java/org/wanderingnet/common/Optional.java:155 | `get()` succeeds exactly on a present value and returns its reference; on an absent value it throws IllegalStateException |
| OptionalLaws.GetAfterOf | wanderingnet-common/src/main/java/org/wanderingnet/common/Optional.java:117-119 | a value wrapped by `of` is present and `get()` returns it |
| OptionalLaws.QueriesAgreeWithAsSet | wanderingnet-common/src/main/java/org/wanderingnet/common/Optional.java:144-155 | for the predicates `Optionals.IsPresent` (`isPresent()`) and `Optionals.IsNotPresent` (`isNotPresent()`): `isPresent` means a one-element `asSet()`; `isNotPresent` means an empty one; `get()` succeeds exactly with the set's element |
| Optionals.IfPresent | wanderingnet-common/src/main/java/org/wanderingnet/common/Optional.java:157-162 | `ifPresent` returns the receiver and calls the consumer with the reference exactly when present; a null consumer throws NPE only on a present value |
| Optionals.IfNotPresent | wanderingnet-common/src/main/java/org/wanderingnet/common/Optional.java:164-169 | as written, `ifNotPresent` returns the receiver without calling the consumer when present, and throws IllegalStateException from `get()` whenever absent |
| OptionalLaws.IfNotPresentNeverRunsConsumer | wanderingnet-common/src/main/java/org/wanderingnet/common/Optional.java:164-169 | on an absent value `ifNotPresent` fails even with a non-null consumer, and on no input does it invoke the consumer |
| Optionals.IfAbsent | wanderingnet-common/src/main/java/org/wanderingnet/common/Optional.java:164-169 | corrected `ifNotPresent`: returns the receiver and runs a no-argument action exactly when absent; a null action throws NPE only then |
| OptionalLaws.IfAbsentComplementsIfPresent | wanderingnet-common/src/main/java/org/wanderingnet/common/Optional.java:157-169 | with non-null callbacks, exactly one of `ifPresent` and the corrected `ifNotPresent` runs its callback, and both return the receiver |
| Optionals.Filter | wanderingnet-common/src/main/java/org/wanderingnet/common/Optional.java:171-177 | `filter` throws NPE exactly for a null predicate; otherwise the result is the receiver or `Absent`, a present result passes the predicate, and a present receiver that passes is kept |
| OptionalLaws.FilterIdempotent | wanderingnet-common/src/main/java/org/wanderingnet/common/Optional.java:171-177 | `o.filter(p).filter(p) == o.filter(p)` |
| OptionalLaws.FilterIsComprehension | wanderingnet-common/src/main/java/org/wanderingnet/common/Optional.java:171-177 | `filter(p).asSet()` is the set of elements of `asSet()` that satisfy `p` |
| OptionalLaws.FilterRejectsNullEagerly | wanderingnet-common/src/main/java/org/wanderingnet/common/Optional.java:171-173 | a null predicate throws NPE on both variants, since the null check precedes the presence test |
| Optionals.Map | wanderingnet-common/src/main/java/org/wanderingnet/common/Optional.java:178-185 | `map` throws NPE exactly for a null mapper; otherwise the result is present exactly when the receiver is present and the mapper's result is non-null, and then holds that result |
| OptionalLaws.MapIdentity | wanderingnet-common/src/main/java/org/wanderingnet/common/Optional.java:178-185 | functor identity: `o.map(x -> x) == o` on both variants |
| OptionalLaws.MapAbsentIgnoresMapper | wanderingnet-common/src/main/java/org/wanderingnet/common/Optional.java:180-181 | on an absent value every non-null mapper gives the same `Absent`, so the mapper is not applied |
| OptionalLaws.MapComposition | wanderingnet-common/src/main/java/org/wanderingnet/common/Optional.java:178-185 | functor composition for every pair of mappers, using the null-aware composition (a null from the first mapper skips the second) |
| OptionalLaws.MapCompositionNonNull | wanderingnet-common/src/main/java/org/wanderingnet/common/Optional.java:178-185 | `o.map(f).map(g) == o.map(x -> g(f(x)))` when `f` never returns null |
| OptionalLaws.MapIsFlatMapOfNullable | wanderingnet-common/src/main/java/org/wanderingnet/common/Optional.java:178-194 | `map(f)` equals `flatMap(x -> fromNullable(f(x)))`, which is why `map` never fails on a null mapper result |
| Optionals.FlatMap | wanderingnet-common/src/main/java/org/wanderingnet/common/Optional.java:187-194 | `flatMap` throws NPE exactly for a null mapper or a null mapper result on a present value; otherwise it gives `Absent` for `Absent` and the mapper's own result for a present value |
| OptionalLaws.FlatMapLeftIdentity | wanderingnet-common/src/main/java/org/wanderingnet/common/Optional.java:187-194 | monad left identity: `of(v).flatMap(f)` is `f(v)`, or NPE when `f(v)` is null |
| OptionalLaws.FlatMapRightIdentity | wanderingnet-common/src/main/java/org/wanderingnet/common/Optional.java:187-194 | monad right identity: `o.flatMap(x -> of(x)) == o` |
| OptionalLaws.FlatMapAssociative | wanderingnet-common/src/main/java/org/wanderingnet/common/Optional.java:187-194 | monad associativity: two `flatMap`s are one `flatMap` by the Kleisli composition, including the null-result failures |
| Optionals.Transform | wanderingnet-common/src/main/java/org/wanderingnet/common/Optional.java:302-313 | `transform` keeps presence, holds the function's result, and throws NPE exactly when the function returns null for a present value |
| OptionalLaws.TransformVersusMap | wanderingnet-common/src/main/java/org/wanderingnet/common/Optional.java:302-313 | `transform` and `map` agree, except that for a null result `map` collapses to `Absent` and `transform` throws |
| Optionals.OrElse | wanderingnet-common/src/main/java/org/wanderingnet/common/Optional.java:196-198 | `orElse(d)` returns the contained reference when present and `d` (possibly null) when absent |
| OptionalLaws.OrElseOfNullable | wanderingnet-common/src/main/java/org/wanderingnet/common/Optional.java:196-198 | `ofNullable(x).orElse(d)` is `x` when `x` is non-null and `d` otherwise |
| Optionals.OrElseGet | wanderingnet-common/src/main/java/org/wanderingnet/common/Optional.java:200-202 | `orElseGet` returns the reference when present; when absent it returns the supplier's (possibly null) result, or throws NPE for a null supplier |
| OptionalLaws.OrElseGetIsLazy | wanderingnet-common/src/main/java/org/wanderingnet/common/Optional.java:200-202 | on a present value the supplier is not consulted: any two suppliers, even null ones, give the same result |
| Optionals.OrElseThrow | wanderingnet-common/src/main/java/org/wanderingnet/common/Optional.java:205-211 | `orElseThrow` returns exactly when present. When absent it throws the supplier's exception, or NPE for a null supplier or a null exception (`throw null`) |
| OptionalLaws.OrElseThrowVersusGet | wanderingnet-common/src/main/java/org/wanderingnet/common/Optional.java:205-211 | `orElseThrow` returns exactly what `get()` returns and ignores the supplier when present; when absent it throws the supplier's non-null exception |
| Optionals.Or | wanderingnet-common/src/main/java/org/wanderingnet/common/Optional.java:214-248 | `or(T)` throws NPE exactly for a null default; otherwise it returns the contained reference, or the default when absent |
| OptionalLaws.OrIsNonNullOrElse | wanderingnet-common/src/main/java/org/wanderingnet/common/Optional.java:196-248 | `or(d)` is `orElse(d)` for non-null `d`, and its result is never null |
| Optionals.OrOptional | wanderingnet-common/src/main/java/org/wanderingnet/common/Optional.java:250-258 | `or(secondChoice)` returns the receiver when present and `secondChoice` otherwise |
| OptionalLaws.OrOptionalMonoid | wanderingnet-common/src/main/java/org/wanderingnet/common/Optional.java:250-258 | `or(Optional)` is associative, has `Absent` as identity on both sides, and its result is present when either operand is |
| Optionals.OrSupplier | wanderingnet-common/src/main/java/org/wanderingnet/common/Optional.java:260-272 | `or(Supplier)` returns the reference when present and the supplier's result when absent; it throws NPE exactly when absent and the supplier returns null |
| OptionalLaws.OrSupplierVersusOrElseGet | wanderingnet-common/src/main/java/org/wanderingnet/common/Optional.java:260-272 | `or(Supplier)` agrees with `orElseGet`, except when absent with a null-producing supplier: `orElseGet` returns the null and `or` throws |
| Optionals.OrNull | wanderingnet-common/src/main/java/org/wanderingnet/common/Optional.java:274-281 | `orNull()` is non-null exactly when present, and then it is the contained reference |
| OptionalLaws.OrNullIsOrElseNull | wanderingnet-common/src/main/java/org/wanderingnet/common/Optional.java:274-281 | `orNull()` equals `orElse(null)` |
| Optionals.AsSet | wanderingnet-common/src/main/java/org/wanderingnet/common/Optional.java:283-300 | `asSet()` has at most one element; it has exactly one exactly when present, and then it contains the reference |
| Optionals.Equals | wanderingnet-common/src/main/java/org/wanderingnet/common/Optional.java:315-324 | `equals(obj)` holds exactly when `obj` is an `Optional` equal to the receiver: both absent, or both present with references equal by `equals` |
| OptionalLaws.EqualsIsStructural | wanderingnet-common/src/main/java/org/wanderingnet/common/Optional.java:315-324 | `equals` is reflexive, symmetric and transitive; a present value never equals an absent one; null and non-`Optional` objects are never equal |
| OptionalLaws.EqualsByContents | wanderingnet-common/src/main/java/org/wanderingnet/common/Optional.java:315-324 | two present values are equal exactly when their references are equal by `equals`; any two absent values are equal |
| Pipelines.Run | wanderingnet-common/src/main/java/org/wanderingnet/common/Optional.java:171-194 | in a chain of `filter`/`map`/`flatMap` calls, an absent value stays absent when every callback is non-null and throws NPE otherwise; a chain throws nothing but NPE |
| Pipelines.RunConcat | wanderingnet-common/src/main/java/org/wanderingnet/common/Optional.java:171-194 | running two chains in turn is running their concatenation; an exception in the first skips the second |
| Pipelines.Filters | wanderingnet-common/src/main/java/org/wanderingnet/common/Optional.java:171-177 | the chain `.filter(ps[0])…filter(ps[n-1])`: step i is `filter(ps[i])` with a non-null predicate, one step per predicate |
| Pipelines.FilterChainIsConjunction | wanderingnet-common/src/main/java/org/wanderingnet/common/Optional.java:171-177 | `.filter(p1)…filter(pn)` equals one `filter` by the conjunction `p1 && … && pn` |
| Pipelines.FilterChainIdempotent | wanderingnet-common/src/main/java/org/wanderingnet/common/Optional.java:171-177 | repeating a chain of filters does not change its result |
| Pipelines.Maps | wanderingnet-common/src/main/java/org/wanderingnet/common/Optional.java:178-185 | the chain `.map(fs[0])…map(fs[n-1])`: step i is `map(fs[i])` with a non-null mapper, one step per mapper |
| Pipelines.MapChainIsComposition | wanderingnet-common/src/main/java/org/wanderingnet/common/Optional.java:178-185 | `.map(f1)…map(fn)` equals one `map` by the null-aware composition of the mappers, so a null result anywhere gives `Absent` |
| Pipelines.DoubleThenFilterExample | wanderingnet-common/src/main/java/org/wanderingnet/common/Optional.java:171-198 | `of(5).map(x -> x * 2).filter(x -> x > 5).orElse(-1)` is 10; on `absent()` the same chain gives -1 |
| Pipelines.FlatMapThresholdExample | wanderingnet-common/src/main/java/org/wanderingnet/common/Optional.java:187-194 | `of(5).flatMap(x -> x > 3 ? of(x) : absent())` is present; with threshold 7 it is absent |
| JavaNull.CheckNotNull | wanderingnet-common/src/main/java/org/wanderingnet/common/Optional.java:118 | `checkNotNull(x)` returns `x` exactly when it is non-null and otherwise throws NullPointerException |

## Left out

- `hashCode` (Optional.java:326-333) is left out. The class leaves the hash function unspecified, and an "equal implies equal hash" rule could only be stated here as an unproved axiom.
- `toString` (Optional.java:335-342) is left out: its format is unspecified.
- Java serialization (`Serializable`, `serialVersionUID`) is left out: it is a platform mechanism with no logic of its own.
- Covariance and unchecked casts (Optional.java:83-85, 219-241) are left out: they are type-level only and have no runtime behaviour.
- Side effects and exceptions of user callbacks (consumers, predicates, mappers, suppliers) are left out. The model records only whether, and with what, a consumer is invoked. Callbacks are total pure functions.
- The `@Beta` annotation and Guava's `checkNotNull` internals are left out. `checkNotNull` is modelled as "throws NullPointerException on null".
- Optionals.Equals: compares against optionals of the same element type only. The documented equality across different type parameters is not modelled: a Dafny value has one static type.
- Optionals.Equals: the element's `Object#equals` is modelled as Dafny value equality on `T`. This assumes the element class keeps the `equals` contract: reflexive, symmetric and transitive. `EqualsIsStructural` and `EqualsByContents` hold in Java only under that assumption.
- Optionals.OrOptional: takes a non-null `secondChoice`. The documentation does not say what a null argument does.
- Optionals.OrSupplier: takes a non-null supplier. The documentation describes only a null result of the supplier.
- Optionals.Transform: takes a non-null function. The documentation describes only a null result of the function.
- Pipelines.Run: chains keep one element type throughout. A `map` that changes the element type in the middle of a chain is covered by the single-step laws (`MapComposition`, `FlatMapAssociative`), not by chains.

## Findings

| source | as written | input that shows it | evidently intended | confidence | as-written member | corrected member |
|---|---|---|---|---|---|---|
| wanderingnet-common/src/main/java/org/wanderingnet/common/Optional.java:164-169 | when absent, `ifNotPresent` calls `consumer.accept(get())`, and `get()` on an absent value throws IllegalStateException before the consumer runs | `Optional.absent().ifNotPresent(c)` for any consumer `c` | when absent, run an action that takes no argument, then return the receiver | high; not executed | OptionalLaws.IfNotPresentNeverRunsConsumer | Optionals.IfAbsent |
