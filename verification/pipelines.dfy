/** Fluent chains of combinators, `o.filter(p).map(f).flatMap(g)...`, the way
    the class is meant to be used: absence flows through a chain without any
    null checks, and a null callback anywhere in the chain is reported with
    `NullPointerException` whatever the receiver holds.

    A chain is a sequence of steps over one element type; running it applies
    the steps left to right, stopping at the first exception as Java does.
 */
module Pipelines {
  import opened JavaNull
  import opened Optionals
  import opened OptionalLaws

  /** One link of a chain: a `filter`, `map` or `flatMap` call with its
      (possibly null) callback. */
  datatype Step<!T> =
    | FilterStep(test: Nullable<T -> bool>)
    | MapStep(mapper: Nullable<T -> Nullable<T>>)
    | FlatMapStep(flatMapper: Nullable<T -> Nullable<Optional<T>>>)

  /** The step's callback is a non-null reference. */
  predicate HasCallback<T>(s: Step<T>)
  {
    match s
    case FilterStep(p) => p.NonNull?
    case MapStep(f) => f.NonNull?
    case FlatMapStep(g) => g.NonNull?
  }

  /** Every step of the chain has a non-null callback. */
  predicate AllHaveCallbacks<T>(steps: seq<Step<T>>)
  {
    forall i :: 0 <= i < |steps| ==> HasCallback(steps[i])
  }

  /** One call of the chain. */
  function Apply<T>(o: Optional<T>, s: Step<T>): Outcome<Optional<T>>
  {
    match s
    case FilterStep(p) => Filter(o, p)
    case MapStep(f) => Map(o, f)
    case FlatMapStep(g) => FlatMap(o, g)
  }

  /** Runs the chain left to right. An absent receiver stays absent through
      every step, unless some step's callback is null, which fails with
      `NullPointerException` even though there is nothing to apply it to;
      the only exception a chain raises is `NullPointerException`. */
  function Run<T>(o: Optional<T>, steps: seq<Step<T>>): (r: Outcome<Optional<T>>)
    ensures IsNotPresent(o) && AllHaveCallbacks(steps) ==> r == Ok(Absent)
    ensures IsNotPresent(o) && !AllHaveCallbacks(steps) ==> r == Fail(NullPointer)
    ensures r.Fail? ==> r.failure == NullPointer
    decreases |steps|
  {
    if |steps| == 0 then Ok(o)
    else Then(Apply(o, steps[0]), (q: Optional<T>) => Run(q, steps[1..]))
  }

  /** Running two chains one after the other is running their
      concatenation. */
  lemma {:induction false} RunConcat<T>(o: Optional<T>, s1: seq<Step<T>>, s2: seq<Step<T>>)
    ensures Run(o, s1 + s2) == Then(Run(o, s1), (q: Optional<T>) => Run(q, s2))
    decreases |s1|
  {
    if |s1| == 0 {
      assert s1 + s2 == s2;
    } else {
      assert (s1 + s2)[1..] == s1[1..] + s2;
      match Apply(o, s1[0])
      case Fail(_) =>
      case Ok(q) =>
        RunConcat(q, s1[1..], s2);
    }
  }

  // ---------------------------------------------------------------------
  // Chains of filters
  // ---------------------------------------------------------------------

  /** The chain `.filter(ps[0]).filter(ps[1])...`. */
  function Filters<T>(ps: seq<T -> bool>): (steps: seq<Step<T>>)
    ensures |steps| == |ps|
    ensures forall i | 0 <= i < |ps| :: steps[i] == FilterStep(NonNull(ps[i]))
    ensures AllHaveCallbacks(steps)
  {
    if |ps| == 0 then [] else [FilterStep(NonNull(ps[0]))] + Filters(ps[1..])
  }

  /** The conjunction of a sequence of predicates. */
  function AllOf<T>(ps: seq<T -> bool>): T -> bool
  {
    (x: T) => forall i | 0 <= i < |ps| :: ps[i](x)
  }

  /** A chain of filters is one filter by the conjunction of its
      predicates. */
  lemma {:induction false} FilterChainIsConjunction<T>(o: Optional<T>, ps: seq<T -> bool>)
    ensures Run(o, Filters(ps)) == Filter(o, NonNull(AllOf(ps)))
    decreases |ps|
  {
    if |ps| == 0 {
    } else if o.Present? {
      var v := o.reference;
      assert AllOf(ps)(v) <==> ps[0](v) && AllOf(ps[1..])(v) by {
        if ps[0](v) && AllOf(ps[1..])(v) {
          forall i | 0 <= i < |ps| ensures ps[i](v) {
            if i > 0 { assert ps[1..][i - 1] == ps[i]; }
          }
        }
      }
      if ps[0](v) {
        FilterChainIsConjunction(o, ps[1..]);
      }
    }
  }

  /** Repeating a chain of filters adds nothing: the chain is
      idempotent. */
  lemma FilterChainIdempotent<T>(o: Optional<T>, ps: seq<T -> bool>)
    ensures Run(o, Filters(ps) + Filters(ps)) == Run(o, Filters(ps))
  {
    RunConcat(o, Filters(ps), Filters(ps));
    FilterChainIsConjunction(o, ps);
    FilterIdempotent(o, AllOf(ps));
    FilterChainIsConjunction(Filter(o, NonNull(AllOf(ps))).value, ps);
  }

  // ---------------------------------------------------------------------
  // Chains of maps
  // ---------------------------------------------------------------------

  /** The chain `.map(fs[0]).map(fs[1])...`. */
  function Maps<T>(fs: seq<T -> Nullable<T>>): (steps: seq<Step<T>>)
    ensures |steps| == |fs|
    ensures forall i | 0 <= i < |fs| :: steps[i] == MapStep(NonNull(fs[i]))
    ensures AllHaveCallbacks(steps)
  {
    if |fs| == 0 then [] else [MapStep(NonNull(fs[0]))] + Maps(fs[1..])
  }

  /** Null-aware composition of a sequence of mappers, first to last. */
  function ComposeAll<T>(fs: seq<T -> Nullable<T>>): T -> Nullable<T>
  {
    if |fs| == 0 then (x: T) => NonNull(x) else AndThen(fs[0], ComposeAll(fs[1..]))
  }

  /** A chain of maps is one map by the composed mapper: a null anywhere
      along the way collapses the rest of the chain to `Absent`. */
  lemma {:induction false} MapChainIsComposition<T>(o: Optional<T>, fs: seq<T -> Nullable<T>>)
    ensures Run(o, Maps(fs)) == Map(o, NonNull(ComposeAll(fs)))
    decreases |fs|
  {
    if |fs| == 0 {
    } else if o.Present? {
      match fs[0](o.reference)
      case Null =>
      case NonNull(w) =>
        MapChainIsComposition(Present(w), fs[1..]);
    }
  }

  // ---------------------------------------------------------------------
  // Worked examples
  // ---------------------------------------------------------------------

  /** `of(5).map(x -> x * 2).filter(x -> x > 5).orElse(-1)` is 10, and the
      same chain on `absent()` falls back to -1. */
  lemma DoubleThenFilterExample()
    ensures var chain := [MapStep(NonNull((x: int) => NonNull(x * 2))), FilterStep(NonNull((x: int) => x > 5))];
            && Run(Of(NonNull(5)).value, chain) == Ok(Present(10))
            && OrElse(Run(Of(NonNull(5)).value, chain).value, NonNull(-1)) == NonNull(10)
            && OrElse(Run(Absent, chain).value, NonNull(-1)) == NonNull(-1)
  {
    var chain := [MapStep(NonNull((x: int) => NonNull(x * 2))), FilterStep(NonNull((x: int) => x > 5))];
    assert Apply(Present(5), chain[0]) == Ok(Present(10));
    assert Run(Present(10), chain[1..][1..]) == Ok(Present(10));
    assert Run(Present(10), chain[1..]) == Ok(Present(10));
  }

  /** `of(5).flatMap(x -> x > 3 ? of(x) : absent())` is present, and with a
      threshold the value does not pass it is absent. */
  lemma FlatMapThresholdExample()
    ensures IsPresent(FlatMap(Present(5), NonNull((x: int) => NonNull(if x > 3 then Present(x) else Absent))).value)
    ensures IsNotPresent(FlatMap(Present(5), NonNull((x: int) => NonNull(if x > 7 then Present(x) else Absent))).value)
  {
  }
}
