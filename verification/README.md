# Railway result algebra — a Dafny model

This project models the railway-oriented result algebra of `Railway.Core` and the
sample product domain built on it.

- **`Error`** is a code and a message. It has the empty sentinel `Error.None` and a
  text rendering.
- **`Result<T>`** is modelled as the tagged union `Ok(value) | Fail(error)`.
- **The unit `Result`** is modelled as `Done | Failed(error)`.
- Both containers are built only through their factories. `Err()` models the
  `Error` property, which is the sentinel on success, as the private constructors
  make it.
- **The combinators** `Map`, `Bind`, `Tap`, `OnFailure`, `Ensure`, `Match` and
  `ToUnit` are pure functions. `MapAsync`, `BindAsync`, `TapAsync` and
  `EnsureAsync` are their asynchronous mirrors.
- **Callbacks and effects.** Every callback is a pure function returning a
  `Traced` value: the effects it performed, in order, and its outcome. A
  combinator's own log is exactly the effects of the callbacks it invoked. So
  "f is never invoked" is stated as "nothing of f appears in the log".
- **Tasks.** An awaited `Task` is a `Traced` value that has already resolved.
  Awaiting it puts its effects before anything the continuation does.
- **`Product`** is an immutable record. `Create`, `UpdatePrice`, `UpdateStock` and
  `Rename` are the source's `Ensure`/`Map`/`Bind` validation chains, each
  returning an updated copy. The source mutates `this` inside `Map` and returns
  it. Because `Ensure` runs before `Map`, a failure never reaches the mutation,
  and the returned Result is the same in both. The copy does not reproduce
  aliasing: in the source a successful update is also visible through every
  other reference to the same object, including the one the repository stores
  (see "## Left out").
- **`ProductRepository`** is a `map<Guid, Product>` threaded through the
  operations. A mutation returns a `Step(reply, store)`. The invariant `Inv` says
  that every entry is filed under its own product's id and that every stored
  product is valid.
- **`ProductService`** composes lookup, validation and storage with `Bind`.
  `BindStore` is a `Bind` whose continuation also changes the store.

Modules follow the source files: `Errors`, `Results`, `UnitResults`,
`ResultExtensions` (sync), `ResultAsyncExtensions`, `Products`,
`ProductRepository`, `ProductService`. There are also the support modules
`Options`, `Text`, `Effects` and `Guids`.

Two facts about the code shape the model:

- `Product.Id` is declared `int` and never assigned (`Product.cs:7`). The
  repository keys on `Guid`, and the tests expect a non-empty Guid. Here the id is
  an opaque 128-bit `Guid` that the caller supplies to `Products.Create`.
- `Failure(Error.None)` is a failure whose Error is the sentinel: `Failure`
  stores its argument verbatim. A failed result need not carry a non-empty
  Error; only success implies the sentinel.

## Model

| member | source | states |
|---|---|---|
| Text.BlankIffAllWhiteSpace | Railway/Railway.Sample/Model/Product.cs:52 | a string is blank (IsNullOrWhiteSpace on a non-null string) exactly when every character is white space |
| Text.SearchIgnoresNeedleCase | Railway/Railway.Sample/Repository/ProductRepository.cs:63 | the case-insensitive Contains gives the same answer for two needles that differ only in case |
| Errors.ToString | Railway/Railway.Core/Error.cs:6-7 | a blank code renders the message alone; otherwise the rendering is the code, then ": ", then the message, with exactly that length |
| Errors.NoneRendersEmpty | Railway/Railway.Core/Error.cs:5-7 | Error.None has an empty code and an empty message, and renders as the empty string |
| Errors.EqualityIsFieldwise | Railway/Railway.Core/Error.cs:3 | two Errors are equal exactly when their codes and messages are equal |
| Results.New | Railway/Railway.Core/Result.Generic.cs:9-14 | the constructor keeps isSuccess and the value, and stores Error.None on success whatever error was passed, or the given error on failure |
| Results.Success | Railway/Railway.Core/Result.Generic.cs:17 | Success(v) is a success holding v with Error.None |
| Results.Create | Railway/Railway.Core/Result.Generic.cs:16 | Create(v) behaves as Success(v): success, value v, Error.None |
| Results.Failure | Railway/Railway.Core/Result.Generic.cs:18 | Failure(e) is a failure whose Error is exactly e, even when e is Error.None |
| Results.FailureIgnoresValue | Railway/Railway.Core/Result.Generic.cs:18 | whatever value stands for `default`, the constructor called with isSuccess false gives Failure(e) |
| Results.FromNullable | Railway/Railway.Core/Result.Generic.cs:20-21 | a present value gives a success holding it; an absent one gives a failure with the given error |
| UnitResults.New | Railway/Railway.Core/Result.Unit.cs:8-12 | the unit constructor keeps isSuccess and normalises the Error to None on success |
| UnitResults.Success | Railway/Railway.Core/Result.Unit.cs:15 | Success() is a success with Error.None |
| UnitResults.Create | Railway/Railway.Core/Result.Unit.cs:14 | Create() behaves as Success() |
| UnitResults.Failure | Railway/Railway.Core/Result.Unit.cs:16 | Failure(e) is a failure with Error exactly e |
| ResultExtensions.Map | Railway/Railway.Core/Result.Extensions.Sync.cs:5-8 | success is preserved both ways; on success the value is f's result and the effects are f's; on failure the Error is kept and nothing runs |
| ResultExtensions.Bind | Railway/Railway.Core/Result.Extensions.Sync.cs:10-13 | on success the outcome is f(v), flattened; on failure it is a failure with the same Error and f does not run |
| ResultExtensions.Tap | Railway/Railway.Core/Result.Extensions.Sync.cs:15-20 | returns the receiver unchanged; the action's effects occur only on success |
| ResultExtensions.OnFailure | Railway/Railway.Core/Result.Extensions.Sync.cs:22-27 | returns the receiver unchanged; the action runs only on failure and receives the Error |
| ResultExtensions.UnitOnFailure | Railway/Railway.Core/Result.Extensions.Sync.cs:30-35 | the same for the unit Result |
| ResultExtensions.Ensure | Railway/Railway.Core/Result.Extensions.Sync.cs:37-40 | succeeds exactly when the receiver succeeds and the predicate holds, and is then the receiver; a failed predicate gives the supplied error; a failed receiver is returned as is without evaluating the predicate |
| ResultExtensions.Match | Railway/Railway.Core/Result.Extensions.Sync.cs:42-43 | exactly one branch runs: onSuccess(v) on success, onFailure(e) on failure |
| ResultExtensions.ToUnit | Railway/Railway.Core/Result.Extensions.Sync.cs:45-46 | keeps IsSuccess and the exact Error |
| ResultExtensions.MapIdentity | Railway/Railway.Core/Result.Extensions.Sync.cs:5-8 | mapping the identity returns the receiver with no effect |
| ResultExtensions.MapComposition | Railway/Railway.Core/Result.Extensions.Sync.cs:5-8 | mapping f then g equals mapping their composition, including the order of effects |
| ResultExtensions.MapCompositionPure | Railway/Railway.Core/Result.Extensions.Sync.cs:5-8 | r.Map(f).Map(g) == r.Map(x => g(f(x))) for side-effect-free f and g |
| ResultExtensions.BindLeftIdentity | Railway/Railway.Core/Result.Extensions.Sync.cs:10-13 | Success(v).Bind(f) == f(v) |
| ResultExtensions.BindRightIdentity | Railway/Railway.Core/Result.Extensions.Sync.cs:10-13 | binding the success factory returns the receiver with no effect |
| ResultExtensions.BindShortCircuit | Railway/Railway.Core/Result.Extensions.Sync.cs:10-13 | Failure(e).Bind(f) == Failure(e), with no effect of f |
| ResultExtensions.BindAssociative | Railway/Railway.Core/Result.Extensions.Sync.cs:10-13 | a chain of two Binds can be regrouped, effects included |
| ResultExtensions.BindIsMatch | Railway/Railway.Core/Result.Extensions.Sync.cs:10-13 | Bind is Match whose failure branch re-raises the same Error |
| ResultExtensions.MatchRebuilds | Railway/Railway.Core/Result.Extensions.Sync.cs:42-43 | matching with the two factories rebuilds the receiver |
| ResultExtensions.MapIsBind | Railway/Railway.Core/Result.Extensions.Sync.cs:5-13 | Map is Bind followed by the success factory |
| ResultExtensions.ToUnitThroughMap | Railway/Railway.Core/Result.Extensions.Sync.cs:45-46 | Map never changes what ToUnit reports, and Ensure does not change it for a failed receiver |
| ResultExtensions.BindChain | Railway/Railway.Sample/Model/Product.cs:21-24 | in a chain of Binds, the effects of the start come first |
| ResultExtensions.ChainFromFailure | Railway/Railway.Core/Result.Extensions.Sync.cs:10-13 | a chain that starts from a failure returns it and runs no step |
| ResultExtensions.ChainAppend | Railway/Railway.Core/Result.Extensions.Sync.cs:10-13 | running steps a and then steps b is running a + b |
| ResultExtensions.StopsAtFirstFailure | Railway/Railway.Test/ProductTests.cs:321-333 | the first failing step's Error reaches the end unchanged and no later step runs |
| ResultExtensions.ChainOrdered | Railway/Railway.Core/Result.Extensions.Sync.cs:10-13 | the effects of the first k steps are a prefix of the whole chain's |
| ResultExtensions.ScenarioEnsureThenMap | Railway/Railway.Core/Result.Extensions.Sync.cs:37-40 | Success(10).Ensure(x >= 0, NEG).Map(x * 2) is Success(20) |
| ResultExtensions.ScenarioEnsureStopsMap | Railway/Railway.Core/Result.Extensions.Sync.cs:37-40 | with -5 the result is Failure(NEG) and a probe inside the mapping never fires |
| ResultExtensions.ScenarioFirstBindFails | Railway/Railway.Core/Result.Extensions.Sync.cs:10-13 | when the first Bind fails with E1, the chain ends in Failure(E1) whatever the second step is |
| ResultAsyncExtensions.MapAsync | Railway/Railway.Core/Result.Extensions.Async.cs:5-10 | equals awaiting the input and then Map; the input's effects come first; on failure the mapping is not invoked |
| ResultAsyncExtensions.BindAsync | Railway/Railway.Core/Result.Extensions.Async.cs:12-17 | equals awaiting the input and then Bind; a failure keeps its Error and the bind task is never started or awaited |
| ResultAsyncExtensions.TapAsync | Railway/Railway.Core/Result.Extensions.Async.cs:19-25 | returns the awaited result unchanged; onSuccess runs only on success |
| ResultAsyncExtensions.EnsureAsync | Railway/Railway.Core/Result.Extensions.Async.cs:27-33 | equals awaiting the input and then Ensure; a failure is returned as is without evaluating the predicate |
| ResultAsyncExtensions.PipelineIsBindChain | Railway/Railway.Core/Result.Extensions.Async.cs:12-17 | a pipeline of BindAsync stages is the synchronous Bind chain, with every input awaited first |
| ResultAsyncExtensions.PipelineOrdered | Railway/Railway.Core/Result.Extensions.Async.cs:15-16 | everything stages before k did happens before anything a later stage does |
| ResultAsyncExtensions.PipelineShortCircuits | Railway/Railway.Core/Result.Extensions.Async.cs:12-17 | once a stage fails, no later stage is invoked or awaited and the failure reaches the end unchanged |
| ResultAsyncExtensions.PipelineFromFailure | Railway/Railway.Core/Result.Extensions.Async.cs:15-16 | a pipeline whose input failed evaluates none of its stages |
| ResultAsyncExtensions.MapAsyncStagesInOrder | Railway/Railway.Core/Result.Extensions.Async.cs:8-9 | two MapAsync stages log the input's effects, then the first mapping's, then the second's |
| Guids.HexSpellsValue | Railway/Railway.Sample/Repository/ProductRepository.cs:19 | a number below 16^width rendered in width hex digits reads back as that number |
| Guids.ToTextSpellsGuid | Railway/Railway.Sample/Repository/ProductRepository.cs:19 | dropping the four hyphens of a Guid's text leaves its 32 hex digits, which read back as the Guid |
| Guids.ToTextInjective | Railway/Railway.Sample/Repository/ProductRepository.cs:19 | two Guids have the same text exactly when they are equal, so a not-found message identifies its id |
| Guids.ToText | Railway/Railway.Sample/Repository/ProductRepository.cs:19 | a Guid renders as 36 characters: hex digits with hyphens at positions 8, 13, 18 and 23 |
| Products.Empty | Railway/Railway.Sample/Model/Product.cs:12-17 | the starting product has the given id, an empty name, price 0 and stock 0, and is not yet valid |
| Products.UpdatePrice | Railway/Railway.Sample/Model/Product.cs:27-36 | succeeds exactly when the new price is at least 0, and then only the price changes; otherwise INVALID_PRICE |
| Products.UpdateStock | Railway/Railway.Sample/Model/Product.cs:38-47 | succeeds exactly when stock + quantity is at least 0 (zero allowed), and then only the stock changes, to stock + quantity; otherwise INSUFFICIENT_STOCK |
| Products.Rename | Railway/Railway.Sample/Model/Product.cs:49-58 | succeeds exactly when the new name is not blank, and then only the name changes; otherwise INVALID_NAME |
| Products.Create | Railway/Railway.Sample/Model/Product.cs:19-25 | succeeds exactly when price >= 0, stock >= 0 and the name is not blank, yielding exactly those fields; otherwise the first failing check in the order price, stock, name gives the error (a negative stock gives INSUFFICIENT_STOCK) |
| Products.UpdatesPreserveValidity | Railway/Railway.Sample/Model/Product.cs:27-58 | every successful update of a valid product yields a valid product |
| Products.ChainStopsAtInvalidPrice | Railway/Railway.Test/ProductTests.cs:321-333 | a price-stock-rename chain with a negative price ends in INVALID_PRICE and runs no later step |
| ProductRepository.NotFound | Railway/Railway.Sample/Repository/ProductRepository.cs:19 | the not-found error has code PRODUCT_NOT_FOUND and quotes the id's text in its message |
| ProductRepository.GetById | Railway/Railway.Sample/Repository/ProductRepository.cs:15-20 | succeeds exactly when the id is stored, with the stored product; otherwise PRODUCT_NOT_FOUND for that id |
| ProductRepository.GetAll | Railway/Railway.Sample/Repository/ProductRepository.cs:22-25 | always succeeds and returns exactly the stored products: every stored product, and only products stored under some key; in a well-keyed store each is the one filed under its own id |
| ProductRepository.GetAllCount | Railway/Railway.Sample/Repository/ProductRepository.cs:22-25 | in a well-keyed store GetAll returns as many products as there are entries |
| ProductRepository.Add | Railway/Railway.Sample/Repository/ProductRepository.cs:27-31 | for an absent id, files the product under its id, keeps every other entry, grows the size by one and returns the product |
| ProductRepository.Update | Railway/Railway.Sample/Repository/ProductRepository.cs:33-42 | an absent id gives PRODUCT_NOT_FOUND with the store unchanged; otherwise only that entry is replaced, and the keys and size are kept |
| ProductRepository.Delete | Railway/Railway.Sample/Repository/ProductRepository.cs:44-53 | an absent id gives PRODUCT_NOT_FOUND with the store unchanged; otherwise only that id is removed and the size drops by one |
| ProductRepository.FindByName | Railway/Railway.Sample/Repository/ProductRepository.cs:55-67 | a blank name gives INVALID_SEARCH; otherwise exactly the stored products whose name contains it, ignoring case |
| ProductRepository.BindStore | Railway/Railway.Sample/Service/ProductService.cs:18-19 | a failed result skips the continuation, keeps its Error and leaves the store unchanged; a success is the continuation's step |
| ProductRepository.SampleIsValid | Railway/Railway.Sample/Repository/ProductRepository.cs:74-83 | every seeded sample has a non-negative price and stock and a non-blank name |
| ProductRepository.SeedOne | Railway/Railway.Sample/Repository/ProductRepository.cs:88-89 | creating and adding one sample files it under its id and keeps the invariant |
| ProductRepository.SeedStep | Railway/Railway.Sample/Repository/ProductRepository.cs:86-90 | adding the next sample under the next id extends the seeded prefix by one entry |
| ProductRepository.SeedAll | Railway/Railway.Sample/Repository/ProductRepository.cs:86-90 | seeding acceptable samples under distinct ids gives a store that keeps the invariant, holds exactly those ids, and files each sample as a product |
| ProductRepository.SeedInitialData | Railway/Railway.Sample/Repository/ProductRepository.cs:69-91 | the constructor's store holds the ten listed products, all valid, each under its own id |
| ProductService.Create | Railway/Railway.Sample/Service/ProductService.cs:16-20 | succeeds exactly when validation does, adding exactly that product; a validation failure returns its error with the store unchanged; the invariant is kept |
| ProductService.GetById | Railway/Railway.Sample/Service/ProductService.cs:22-25 | behaves as the repository lookup |
| ProductService.GetAll | Railway/Railway.Sample/Service/ProductService.cs:27-30 | always succeeds with exactly the stored products |
| ProductService.ModifyStored | Railway/Railway.Sample/Service/ProductService.cs:32-51 | lookup, then the change, then Update: a missing id gives PRODUCT_NOT_FOUND before the change is consulted; a failed change returns its Error with the store unchanged; a successful identity-keeping change replaces only the targeted entry and keeps the invariant when it yields valid products |
| ProductService.UpdatePrice | Railway/Railway.Sample/Service/ProductService.cs:32-37 | a missing id gives PRODUCT_NOT_FOUND before any price check; any failure leaves the store unchanged; on success only the price of that entry changes; the invariant is kept |
| ProductService.UpdateStock | Railway/Railway.Sample/Service/ProductService.cs:39-44 | a missing id gives PRODUCT_NOT_FOUND; INSUFFICIENT_STOCK exactly when stored stock + quantity < 0, with the store unchanged; on success only that entry's stock changes |
| ProductService.RenameProduct | Railway/Railway.Sample/Service/ProductService.cs:46-51 | a missing id gives PRODUCT_NOT_FOUND; a blank name gives INVALID_NAME with the store unchanged; on success only that entry's name changes |
| ProductService.DeleteProduct | Railway/Railway.Sample/Service/ProductService.cs:53-56 | succeeds exactly when the id is stored, and removes only it; otherwise PRODUCT_NOT_FOUND with the store unchanged |
| ProductService.SearchByName | Railway/Railway.Sample/Service/ProductService.cs:58-61 | behaves as the repository search: INVALID_SEARCH for a blank name, else exactly the matching stored products |
| ProductService.CreateThenDelete | Railway/Railway.Test/ProductRepositoryTests.cs:436-479 | creating a product and deleting it restores the store and its size, after which the id is PRODUCT_NOT_FOUND |

## Left out

- Null strings. Names, search terms, codes and messages are non-null strings. A
  null name or search term behaves like a blank one in the source
  (`IsNullOrWhiteSpace`), so its outcome is the one the model gives for `""`.
  `default(Error)` with null fields is not modelled.
- `Value` of a failed `Result<T>` (the `default` of `T`). The tagged union has no
  value on failure, and every reader in the source checks `IsSuccess` before
  reading `Value`.
- Task scheduling, `ConfigureAwait(false)` and cancellation. These are
  properties of the .NET runtime. A task is modelled as already resolved, with
  the effects it performed.
- Product reference aliasing. `Product` is a class. A successful `UpdatePrice`,
  `UpdateStock` or `Rename` changes the shared object, and `GetById` hands out
  the stored reference. So in the source an update is visible to every holder,
  including the repository entry, before `Update` runs. The model's products
  are values. Its results agree with the source only when no other reference
  is used after an update.
- Exceptions thrown inside callbacks. The algebra does not catch them, and the
  model's callbacks are total.
- `Dictionary.Add` on a duplicate key throws. `ProductRepository.Add` requires
  the id to be absent. `ProductService.Create` requires it only when validation
  would let the product through.
- Live views. `GetAll` and `FindByName` return lazy views of the dictionary. The
  model returns a snapshot set, since no operation here observes the difference.
  Enumeration order is not modelled.
- Guid generation. Ids are supplied by the caller. The text form reads a Guid as
  the 128-bit number its 32 hex digits spell, without .NET's internal byte order.
- Text.ToUpper: the case-insensitive comparison folds only ASCII letters. The
  source's `OrdinalIgnoreCase` folds all of Unicode.
- Products.UpdateStock: `Stock + quantity` uses mathematical integers. It does
  not model C#'s unchecked 32-bit wrap-around.
- `decimal` precision. Prices are `real`. The source only compares them with 0.
- `ProductUserInterface.cs` and `Program.cs` are not part of this model. They are
  the console menus, the input loops, the partial-Guid lookup and the printing.
