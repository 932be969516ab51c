/**
 Observable effects of callbacks. A callback handed to a combinator (a `Func`,
 an `Action`, or a function returning a `Task`) is modelled as a pure function
 returning a `Traced` value: the effects it performed, in order, and its
 outcome. A combinator's own log is then exactly the effects of the callbacks
 it invoked, so "the callback is never invoked" reads "nothing of it is logged".
 */
module Effects {

  /** One observable side effect, e.g. a probe counter bump or a timestamp. */
  datatype Event = Event(tag: int)

  type Log = seq<Event>

  /** A computation that has run to completion. */
  datatype Traced<+R> = Traced(log: Log, result: R)

  /** A computation without effects. */
  function Pure<R>(x: R): Traced<R> {
    Traced([], x)
  }

  /** A side-effect-free callback. */
  function Lift<A, B>(f: A -> B): A -> Traced<B> {
    x => Pure(f(x))
  }

  /** Applying a lifted function performs no effect. */
  lemma LiftApplies<A, B>(f: A -> B, x: A)
    ensures Lift(f)(x) == Pure(f(x))
  {
  }

  /** `LiftApplies` at every argument. */
  lemma LiftIsPure<A, B>(f: A -> B)
    ensures forall x :: Lift(f)(x) == Pure(f(x))
  {
  }

  /** Runs `first`, then `next` on its outcome: the effects of `first` come first. */
  function Then<A, B>(first: Traced<A>, next: A -> Traced<B>): Traced<B> {
    var second := next(first.result);
    Traced(first.log + second.log, second.result)
  }

  /** Sequential composition of two callbacks. */
  function Compose<A, B, C>(f: A -> Traced<B>, g: B -> Traced<C>): A -> Traced<C> {
    x => Then(f(x), g)
  }

}
