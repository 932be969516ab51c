/**
 The synchronous combinators (Railway.Core/Result.Extensions.Sync.cs) and the
 laws they obey. Each combinator looks at `IsSuccess` once and either runs its
 callback or passes the failure through with the original Error.
 */
module ResultExtensions {

  import opened Errors
  import opened Results
  import opened Effects
  import UnitResults

  /** `result.Map(map)`, with `map` called `mapping` here. */
  function Map<T, U>(r: Result<T>, mapping: T -> Traced<U>): (o: Traced<Result<U>>)
    ensures o.result.IsSuccess() == r.IsSuccess()
    ensures r.IsSuccess() ==> o.result.value == mapping(r.value).result && o.log == mapping(r.value).log
    ensures !r.IsSuccess() ==> o.log == [] && o.result.Err() == r.Err()
  {
    if r.IsSuccess() then
      var y := mapping(r.value);
      Traced(y.log, Success(y.result))
    else
      Pure(Failure(r.Err()))
  }

  /** `result.Bind(bind)`: on success the outcome is the callback's, flattened. */
  function Bind<T, U>(r: Result<T>, bind: T -> Traced<Result<U>>): (o: Traced<Result<U>>)
    ensures r.IsSuccess() ==> o == bind(r.value)
    ensures !r.IsSuccess() ==> o.log == [] && !o.result.IsSuccess() && o.result.Err() == r.Err()
  {
    if r.IsSuccess() then bind(r.value) else Pure(Failure(r.Err()))
  }

  /** `result.Tap(action)`: returns the receiver; the action runs only on success. */
  function Tap<T>(r: Result<T>, action: T -> Traced<()>): (o: Traced<Result<T>>)
    ensures o.result == r
    ensures r.IsSuccess() ==> o.log == action(r.value).log
    ensures !r.IsSuccess() ==> o.log == []
  {
    if r.IsSuccess() then Traced(action(r.value).log, r) else Pure(r)
  }

  /** `result.OnFailure(action)` on a `Result<T>`: returns the receiver; the action
      runs only on failure, and sees the Error. */
  function OnFailure<T>(r: Result<T>, action: Error -> Traced<()>): (o: Traced<Result<T>>)
    ensures o.result == r
    ensures !r.IsSuccess() ==> o.log == action(r.Err()).log
    ensures r.IsSuccess() ==> o.log == []
  {
    if !r.IsSuccess() then Traced(action(r.Err()).log, r) else Pure(r)
  }

  /** `result.OnFailure(action)` on the unit `Result`. */
  function UnitOnFailure(r: UnitResults.UnitResult, action: Error -> Traced<()>): (o: Traced<UnitResults.UnitResult>)
    ensures o.result == r
    ensures !r.IsSuccess() ==> o.log == action(r.Err()).log
    ensures r.IsSuccess() ==> o.log == []
  {
    if !r.IsSuccess() then Traced(action(r.Err()).log, r) else Pure(r)
  }

  /** `result.Ensure(predicate, error)`: a success whose value fails the predicate (`condition` here)
      becomes `Failure(error)`; a failure passes through with its own Error and the
      condition is not evaluated. */
  function Ensure<T>(r: Result<T>, condition: T -> Traced<bool>, error: Error): (o: Traced<Result<T>>)
    ensures o.result.IsSuccess() <==> r.IsSuccess() && condition(r.value).result
    ensures o.result.IsSuccess() ==> o.result == r
    ensures r.IsSuccess() && !o.result.IsSuccess() ==> o.result.Err() == error
    ensures !r.IsSuccess() ==> o == Pure(r)
    ensures r.IsSuccess() ==> o.log == condition(r.value).log
  {
    if r.IsSuccess() then
      var holds := condition(r.value);
      Traced(holds.log, if !holds.result then Failure(error) else r)
    else
      Pure(r)
  }

  /** `result.Match(onSuccess, onFailure)`: exactly one branch runs. */
  function Match<T, R>(r: Result<T>, onSuccess: T -> Traced<R>, onFailure: Error -> Traced<R>): (o: Traced<R>)
    ensures r.IsSuccess() ==> o == onSuccess(r.value)
    ensures !r.IsSuccess() ==> o == onFailure(r.Err())
  {
    if r.IsSuccess() then onSuccess(r.value) else onFailure(r.Err())
  }

  /** `result.ToUnit()`: drops the payload, keeps success and the exact Error. */
  function ToUnit<T>(r: Result<T>): (u: UnitResults.UnitResult)
    ensures u.IsSuccess() == r.IsSuccess()
    ensures u.Err() == r.Err()
  {
    if r.IsSuccess() then UnitResults.Success() else UnitResults.Failure(r.Err())
  }

  // ---------------------------------------------------------------------------
  // Laws

  /** Mapping the identity changes nothing and has no effect. */
  lemma MapIdentity<T>(r: Result<T>)
    ensures Map(r, Lift(x => x)) == Pure(r)
  {
    if r.IsSuccess() {
      LiftApplies(x => x, r.value);
    } else {
      assert Failure(r.Err()) == r;
    }
  }

  /** Mapping `f` then `g` is mapping their composition, effects included. */
  lemma MapComposition<T, U, V>(r: Result<T>, f: T -> Traced<U>, g: U -> Traced<V>)
    ensures Then(Map(r, f), m => Map(m, g)) == Map(r, Compose(f, g))
  {
  }

  /** The composition law for side-effect-free functions: `r.Map(f).Map(g) == r.Map(x => g(f(x)))`. */
  lemma MapCompositionPure<T, U, V>(r: Result<T>, f: T -> U, g: U -> V)
    ensures Map(Map(r, Lift(f)).result, Lift(g)) == Map(r, Lift(x => g(f(x))))
  {
  }

  /** `Success(v).Bind(f) == f(v)`. */
  lemma BindLeftIdentity<T, U>(v: T, f: T -> Traced<Result<U>>)
    ensures Bind(Success(v), f) == f(v)
  {
  }

  /** Binding the success factory changes nothing. */
  lemma BindRightIdentity<T>(r: Result<T>)
    ensures Bind(r, x => Pure(Success(x))) == Pure(r)
  {
  }

  /** `Failure(e).Bind(f) == Failure(e)`, and nothing of `f` runs. */
  lemma BindShortCircuit<T, U>(e: Error, f: T -> Traced<Result<U>>)
    ensures Bind(Failure<T>(e), f) == Pure(Failure(e))
  {
  }

  /** Bind chains regroup freely. */
  lemma BindAssociative<T, U, V>(r: Result<T>, f: T -> Traced<Result<U>>, g: U -> Traced<Result<V>>)
    ensures Then(Bind(r, f), m => Bind(m, g)) == Bind(r, x => Then(f(x), m => Bind(m, g)))
  {
  }

  /** Bind is the special case of Match whose failure branch re-raises the Error. */
  lemma BindIsMatch<T, U>(r: Result<T>, f: T -> Traced<Result<U>>)
    ensures Bind(r, f) == Match(r, f, e => Pure(Failure(e)))
  {
  }

  /** Matching with the two factories rebuilds the receiver. */
  lemma MatchRebuilds<T>(r: Result<T>)
    ensures Match(r, x => Pure(Success(x)), e => Pure(Failure(e))) == Pure(r)
  {
  }

  /** Map is Bind followed by the success factory. */
  lemma MapIsBind<T, U>(r: Result<T>, f: T -> Traced<U>)
    ensures Map(r, f) == Bind(r, x => Then(f(x), y => Pure(Success(y))))
  {
  }

  /** Neither Map nor Ensure can change what `ToUnit` reports for a failure,
      and Map never changes it at all. */
  lemma ToUnitThroughMap<T, U>(r: Result<T>, f: T -> Traced<U>, condition: T -> Traced<bool>, error: Error)
    ensures ToUnit(Map(r, f).result) == ToUnit(r)
    ensures !r.IsSuccess() ==> ToUnit(Ensure(r, condition, error).result) == ToUnit(r)
  {
  }

  // ---------------------------------------------------------------------------
  // Chains of Binds

  /** `start.Bind(steps[0]).Bind(steps[1])...`, with the effects of every step that ran. */
  function BindChain<T>(start: Traced<Result<T>>, steps: seq<T -> Traced<Result<T>>>): (o: Traced<Result<T>>)
    ensures start.log <= o.log
    decreases |steps|
  {
    if steps == [] then start
    else
      var step := steps[0];
      BindChain(Then(start, r => Bind(r, step)), steps[1..])
  }

  /** A chain that starts from a failure is that failure: no step runs. */
  lemma {:induction false} ChainFromFailure<T>(start: Traced<Result<T>>, steps: seq<T -> Traced<Result<T>>>)
    requires !start.result.IsSuccess()
    ensures BindChain(start, steps) == start
    decreases |steps|
  {
    if steps != [] {
      var step := steps[0];
      var next := Then(start, r => Bind(r, step));
      assert next.log == start.log + [];
      assert next == start;
      ChainFromFailure(next, steps[1..]);
    }
  }

  /** Running `a` and then `b` is running `a + b`. */
  lemma {:induction false} ChainAppend<T>(start: Traced<Result<T>>, a: seq<T -> Traced<Result<T>>>, b: seq<T -> Traced<Result<T>>>)
    ensures BindChain(start, a + b) == BindChain(BindChain(start, a), b)
    decreases |a|
  {
    if a == [] {
      assert a + b == b;
    } else {
      var step := a[0];
      assert (a + b)[0] == step;
      assert (a + b)[1..] == a[1..] + b;
      ChainAppend(Then(start, r => Bind(r, step)), a[1..], b);
    }
  }

  /** The first failing step decides the outcome: its Error reaches the end of
      the chain unchanged and no later step runs. */
  lemma StopsAtFirstFailure<T>(start: Traced<Result<T>>, steps: seq<T -> Traced<Result<T>>>, k: nat)
    requires k <= |steps|
    requires !BindChain(start, steps[..k]).result.IsSuccess()
    ensures BindChain(start, steps) == BindChain(start, steps[..k])
  {
    assert steps == steps[..k] + steps[k..];
    ChainAppend(start, steps[..k], steps[k..]);
    ChainFromFailure(BindChain(start, steps[..k]), steps[k..]);
  }

  /** Stage order: the effects of the first k steps are a prefix of the whole chain's. */
  lemma ChainOrdered<T>(start: Traced<Result<T>>, steps: seq<T -> Traced<Result<T>>>, k: nat)
    requires k <= |steps|
    ensures BindChain(start, steps[..k]).log <= BindChain(start, steps).log
  {
    assert steps == steps[..k] + steps[k..];
    ChainAppend(start, steps[..k], steps[k..]);
  }

  // ---------------------------------------------------------------------------
  // Worked scenarios

  /** `Success(10).Ensure(x => x >= 0, NEG).Map(x => x * 2)` is `Success(20)`. */
  lemma ScenarioEnsureThenMap()
    ensures Map(Ensure(Success(10), Lift(x => x >= 0), Error("NEG", "negative")).result, Lift(x => x * 2)).result
         == Success(20)
  {
    var nonNegative := (x: int) => x >= 0;
    var double := (x: int) => x * 2;
    LiftApplies(nonNegative, 10);
    LiftApplies(double, 10);
  }

  /** With -5 the Ensure fails, its Error is the outcome, and the probe inside
      the mapping function never fires. */
  lemma ScenarioEnsureStopsMap()
    ensures var probe := (x: int) => Traced([Event(1)], x * 2);
            var o := Then(Ensure(Success(-5), Lift(x => x >= 0), Error("NEG", "negative")), r => Map(r, probe));
            o == Pure(Failure(Error("NEG", "negative")))
  {
    var probe := (x: int) => Traced([Event(1)], x * 2);
    var nonNegative := (x: int) => x >= 0;
    LiftApplies(nonNegative, -5);
  }

  /** When the first Bind fails with E1, the chain ends in that failure whatever the second step is. */
  lemma ScenarioFirstBindFails(v: int, second: int -> Traced<Result<int>>)
    ensures var first := (x: int) => Pure(Failure<int>(Error("E1", "m1")));
            BindChain(Pure(Success(v)), [first, second]).result == Failure(Error("E1", "m1"))
  {
    var first := (x: int) => Pure(Failure<int>(Error("E1", "m1")));
    var steps := [first, second];
    assert steps[..1] == [first];
    assert BindChain(Pure(Success(v)), [first]).result == Failure(Error("E1", "m1"));
    StopsAtFirstFailure(Pure(Success(v)), steps, 1);
  }

}
