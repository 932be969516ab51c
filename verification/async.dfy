/**
 The asynchronous combinators (Railway.Core/Result.Extensions.Async.cs).
 A `Task` is modelled once it has resolved: the effects performed while it ran
 and its outcome. Awaiting it contributes its effects first; only then does the
 combinator look at the outcome and possibly invoke its callback.
 */
module ResultAsyncExtensions {

  import opened Errors
  import opened Results
  import opened Effects
  import opened ResultExtensions

  /** A resolved `Task<R>`. */
  type Task<R> = Traced<R>

  /** `task.MapAsync(map)`: await, then map on success. */
  function MapAsync<T, U>(task: Task<Result<T>>, mapping: T -> Traced<U>): (o: Task<Result<U>>)
    ensures o == Then(task, r => Map(r, mapping))
    ensures task.log <= o.log
    ensures !task.result.IsSuccess() ==> o.log == task.log && o.result.Err() == task.result.Err()
  {
    var r := task.result;
    if r.IsSuccess() then
      var y := mapping(r.value);
      Traced(task.log + y.log, Success(y.result))
    else
      Traced(task.log, Failure(r.Err()))
  }

  /** `task.BindAsync(bind)`: await, then on success await the task `bind` returns. */
  function BindAsync<T, U>(task: Task<Result<T>>, bind: T -> Task<Result<U>>): (o: Task<Result<U>>)
    ensures o == Then(task, r => Bind(r, bind))
    ensures task.log <= o.log
    ensures !task.result.IsSuccess() ==> o.log == task.log && !o.result.IsSuccess() && o.result.Err() == task.result.Err()
  {
    var r := task.result;
    if r.IsSuccess() then
      var next := bind(r.value);
      Traced(task.log + next.log, next.result)
    else
      Traced(task.log, Failure(r.Err()))
  }

  /** `task.TapAsync(onSuccess)`: await, run and await `onSuccess` on success, return the outcome. */
  function TapAsync<T>(task: Task<Result<T>>, onSuccess: T -> Task<()>): (o: Task<Result<T>>)
    ensures o == Then(task, r => Tap(r, onSuccess))
    ensures o.result == task.result
    ensures !task.result.IsSuccess() ==> o.log == task.log
  {
    var r := task.result;
    if r.IsSuccess() then Traced(task.log + onSuccess(r.value).log, r) else Traced(task.log, r)
  }

  /** `task.EnsureAsync(predicate, error)`: await; a failure is returned as it is,
      a success is kept only if the awaited predicate holds. */
  function EnsureAsync<T>(task: Task<Result<T>>, condition: T -> Task<bool>, error: Error): (o: Task<Result<T>>)
    ensures o == Then(task, r => Ensure(r, condition, error))
    ensures task.log <= o.log
    ensures !task.result.IsSuccess() ==> o == task
  {
    var r := task.result;
    if !r.IsSuccess() then task
    else
      var holds := condition(r.value);
      Traced(task.log + holds.log, if holds.result then r else Failure(error))
  }

  /** A pipeline of `BindAsync` stages. */
  function Pipeline<T>(task: Task<Result<T>>, stages: seq<T -> Task<Result<T>>>): Task<Result<T>>
    decreases |stages|
  {
    if stages == [] then task else Pipeline(BindAsync(task, stages[0]), stages[1..])
  }

  /** An async pipeline is the synchronous Bind chain with every input awaited first. */
  lemma {:induction false} PipelineIsBindChain<T>(task: Task<Result<T>>, stages: seq<T -> Task<Result<T>>>)
    ensures Pipeline(task, stages) == BindChain(task, stages)
    decreases |stages|
  {
    if stages != [] {
      var step := stages[0];
      assert BindAsync(task, step) == Then(task, r => Bind(r, step));
      PipelineIsBindChain(BindAsync(task, step), stages[1..]);
    }
  }

  /** Strict left-to-right order: everything stages 0..k-1 did happened before
      anything a later stage does. */
  lemma PipelineOrdered<T>(task: Task<Result<T>>, stages: seq<T -> Task<Result<T>>>, k: nat)
    requires k <= |stages|
    ensures Pipeline(task, stages[..k]).log <= Pipeline(task, stages).log
  {
    PipelineIsBindChain(task, stages[..k]);
    PipelineIsBindChain(task, stages);
    ChainOrdered(task, stages, k);
  }

  /** Short-circuit across suspensions: once a stage fails, no later stage is
      invoked or awaited and the failure reaches the end unchanged. */
  lemma PipelineShortCircuits<T>(task: Task<Result<T>>, stages: seq<T -> Task<Result<T>>>, k: nat)
    requires k <= |stages|
    requires !Pipeline(task, stages[..k]).result.IsSuccess()
    ensures Pipeline(task, stages) == Pipeline(task, stages[..k])
  {
    PipelineIsBindChain(task, stages[..k]);
    PipelineIsBindChain(task, stages);
    StopsAtFirstFailure(task, stages, k);
  }

  /** A pipeline whose input failed evaluates none of its stages. */
  lemma PipelineFromFailure<T>(task: Task<Result<T>>, stages: seq<T -> Task<Result<T>>>)
    requires !task.result.IsSuccess()
    ensures Pipeline(task, stages) == task
  {
    PipelineIsBindChain(task, stages);
    ChainFromFailure(task, stages);
  }

  /** Two MapAsync stages over a successful input: input effects, then the first
      mapping's, then the second's. */
  lemma MapAsyncStagesInOrder<T, U, V>(task: Task<Result<T>>, f: T -> Traced<U>, g: U -> Traced<V>)
    requires task.result.IsSuccess()
    ensures var first := f(task.result.value);
            MapAsync(MapAsync(task, f), g).log == task.log + first.log + g(first.result).log
  {
  }

}
