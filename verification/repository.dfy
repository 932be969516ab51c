/**
 The in-memory product store (Railway.Sample/Repository/ProductRepository.cs).
 The dictionary is an immutable map threaded through the operations: a query
 returns a Result, a mutation returns its Result together with the new map.
 */
module ProductRepository {

  import opened Errors
  import opened Results
  import opened Text
  import opened Guids
  import opened Products
  import UnitResults

  type Store = map<Guid, Product>

  /** The reply of a mutation and the store it leaves behind. */
  datatype Step<+R> = Step(reply: R, store: Store)

  /** Every entry is filed under its own product's id, as `Add` and `Update` file it. */
  predicate WellKeyed(s: Store) {
    forall k | k in s :: s[k].id == k
  }

  /** Every stored product is valid. */
  predicate AllValid(s: Store) {
    forall k | k in s :: Valid(s[k])
  }

  /** The invariant the service keeps. */
  predicate Inv(s: Store) {
    WellKeyed(s) && AllValid(s)
  }

  /** The error for an id the store does not hold; its message quotes the id. */
  function NotFound(id: Guid): (e: Error)
    ensures e.code == "PRODUCT_NOT_FOUND"
    ensures |e.message| == 67 && e.message[16..52] == ToText(id)
  {
    Error("PRODUCT_NOT_FOUND", "Product with ID " + ToText(id) + " was not found.")
  }

  const InvalidSearch: Error := Error("INVALID_SEARCH", "Search name cannot be empty.")

  /** `GetById(id)`. */
  function GetById(s: Store, id: Guid): (r: Result<Product>)
    ensures r.IsSuccess() <==> id in s
    ensures r.IsSuccess() ==> r.value == s[id]
    ensures !r.IsSuccess() ==> r.Err() == NotFound(id)
  {
    if id in s then Success(s[id]) else Failure(NotFound(id))
  }

  /** `GetAll()`: always succeeds and returns exactly the stored products; in a
      well-keyed store each returned product is the one filed under its id. */
  function GetAll(s: Store): (r: Result<set<Product>>)
    ensures r.IsSuccess()
    ensures forall k | k in s :: s[k] in r.value
    ensures forall p | p in r.value :: exists k | k in s :: s[k] == p
    ensures WellKeyed(s) ==> forall p | p in r.value :: p.id in s && s[p.id] == p
  {
    Success(s.Values)
  }

  /** In a well-keyed store no two entries hold the same product, so `GetAll`
      returns as many products as there are entries. */
  lemma {:induction false} GetAllCount(s: Store)
    requires WellKeyed(s)
    ensures |GetAll(s).value| == |s|
    decreases |s|
  {
    if s != map[] {
      var k :| k in s;
      var rest := map k' | k' in s && k' != k :: s[k'];
      assert rest.Keys == s.Keys - {k};
      assert |rest| == |s| - 1;
      assert WellKeyed(rest);
      GetAllCount(rest);
      forall v | v in s.Values
        ensures v in rest.Values + {s[k]}
      {
        var k' :| k' in s && s[k'] == v;
        if k' != k {
          assert rest[k'] == v;
        }
      }
      assert s.Values == rest.Values + {s[k]};
      assert s[k] !in rest.Values;
    }
  }

  /** `Add(product)`: the id must be absent, as `Dictionary.Add` throws on a duplicate. */
  function Add(s: Store, p: Product): (o: Step<Result<Product>>)
    requires p.id !in s
    ensures o.reply.IsSuccess() && o.reply.value == p
    ensures o.store.Keys == s.Keys + {p.id} && o.store[p.id] == p
    ensures forall k | k in s :: o.store[k] == s[k]
    ensures |o.store| == |s| + 1
    ensures WellKeyed(s) ==> WellKeyed(o.store)
    ensures AllValid(s) && Valid(p) ==> AllValid(o.store)
  {
    Step(Success(p), s[p.id := p])
  }

  /** `Update(product)`: replaces the entry filed under the product's id. */
  function Update(s: Store, p: Product): (o: Step<Result<Product>>)
    ensures p.id !in s ==> o == Step(Failure(NotFound(p.id)), s)
    ensures p.id in s ==> o.reply.IsSuccess() && o.reply.value == p
    ensures o.store.Keys == s.Keys && |o.store| == |s|
    ensures p.id in s ==> o.store[p.id] == p
    ensures forall k | k in s && k != p.id :: o.store[k] == s[k]
    ensures WellKeyed(s) ==> WellKeyed(o.store)
    ensures AllValid(s) && Valid(p) ==> AllValid(o.store)
  {
    if p.id !in s then Step(Failure(NotFound(p.id)), s)
    else Step(Success(p), s[p.id := p])
  }

  /** `Delete(id)`. */
  function Delete(s: Store, id: Guid): (o: Step<UnitResults.UnitResult>)
    ensures id !in s ==> o == Step(UnitResults.Failure(NotFound(id)), s)
    ensures id in s ==> o.reply.IsSuccess()
    ensures o.store.Keys == s.Keys - {id}
    ensures forall k | k in o.store :: o.store[k] == s[k]
    ensures id in s ==> |o.store| == |s| - 1
    ensures Inv(s) ==> Inv(o.store)
  {
    if id !in s then Step(UnitResults.Failure(NotFound(id)), s)
    else Step(UnitResults.Success(), s - {id})
  }

  /** The products `FindByName(name)` returns for a non-blank name. */
  function Matching(s: Store, name: string): set<Product> {
    set p | p in s.Values && ContainsIgnoreCase(p.name, name)
  }

  /** `FindByName(name)`: a blank name is refused; otherwise every stored product
      whose name contains `name`, ignoring case, and nothing else. */
  method FindByName(s: Store, name: string) returns (r: Result<set<Product>>)
    ensures IsBlank(name) ==> !r.IsSuccess() && r.Err() == InvalidSearch
    ensures !IsBlank(name) ==> r.IsSuccess() && r.value == Matching(s, name)
  {
    if IsBlank(name) {
      return Failure(InvalidSearch);
    }
    var found: set<Product> := {};
    var pending := s.Keys;
    while pending != {}
      invariant pending <= s.Keys
      invariant forall p :: p in found <==>
        exists k :: k in s && k !in pending && s[k] == p && ContainsIgnoreCase(p.name, name)
      decreases pending
    {
      var k :| k in pending;
      if ContainsIgnoreCase(s[k].name, name) {
        found := found + {s[k]};
      }
      pending := pending - {k};
    }
    return Success(found);
  }

  /** `r.Bind(k)` where the continuation also acts on the store: a failed `r`
      skips `k` and leaves the store as it was. */
  function BindStore<T, U>(r: Result<T>, s: Store, k: T --> Step<Result<U>>): (o: Step<Result<U>>)
    requires r.IsSuccess() ==> k.requires(r.value)
    ensures !r.IsSuccess() ==> o.store == s && !o.reply.IsSuccess() && o.reply.Err() == r.Err()
    ensures r.IsSuccess() ==> o == k(r.value)
  {
    if r.IsSuccess() then k(r.value) else Step(Failure(r.Err()), s)
  }

  /** One seeded product: name, price, stock. */
  datatype Sample = Sample(name: string, price: real, stock: int)

  const Samples: seq<Sample> := [
    Sample("Laptop", 999.99, 10),
    Sample("Mouse", 29.99, 50),
    Sample("Keyboard", 79.99, 25),
    Sample("Monitor", 299.99, 15),
    Sample("Headphones", 149.99, 30),
    Sample("Webcam", 89.99, 20),
    Sample("Smartphone", 699.99, 8),
    Sample("Tablet", 399.99, 12),
    Sample("Speaker", 199.99, 18),
    Sample("Charger", 24.99, 40)
  ]

  /** Every sample passes the product validation chain. */
  lemma SampleIsValid(i: nat)
    requires i < |Samples|
    ensures Acceptable(Samples[i])
  {
    assert |Samples[i].name| > 0 && !IsWhiteSpace(Samples[i].name[0]);
  }

  /** One round of the seeding loop: `Product.Create(name, price, stock).Bind(p => Add(p))`. */
  function SeedOne(s: Store, id: Guid, sample: Sample): (o: Step<Result<Product>>)
    requires Acceptable(sample)
    requires id !in s
    ensures o.store == s[id := Product(id, sample.name, sample.price, sample.stock)]
    ensures Inv(s) ==> Inv(o.store)
  {
    var created := Products.Create(id, sample.name, sample.price, sample.stock);
    BindStore(created, s, (p: Product) requires p.id !in s => Add(s, p))
  }

  /** A sample the product validation chain accepts: the product it describes
      is valid (validity does not depend on the id). */
  predicate Acceptable(sample: Sample) {
    Valid(Product(0, sample.name, sample.price, sample.stock))
  }

  /** The store after the first `n` samples were added under the first `n` ids. */
  ghost predicate SeededUpTo(samples: seq<Sample>, ids: seq<Guid>, n: nat, s: Store)
    requires n <= |ids| == |samples|
  {
    && |s| == n
    && (forall k :: k in s <==> k in ids[..n])
    && (forall j | 0 <= j < n :: s[ids[j]] == Product(ids[j], samples[j].name, samples[j].price, samples[j].stock))
  }

  /** Adding the next sample under the next id extends the seeded prefix by one. */
  lemma SeedStep(samples: seq<Sample>, ids: seq<Guid>, n: nat, s: Store, s': Store)
    requires n < |ids| == |samples|
    requires forall i, j | 0 <= i < j < |ids| :: ids[i] != ids[j]
    requires SeededUpTo(samples, ids, n, s)
    requires s' == s[ids[n] := Product(ids[n], samples[n].name, samples[n].price, samples[n].stock)]
    ensures ids[n] !in s
    ensures SeededUpTo(samples, ids, n + 1, s')
  {
    assert ids[n] !in ids[..n];
    assert ids[..n + 1] == ids[..n] + [ids[n]];
  }

  /** The seeding loop over any list of acceptable samples, each added under the
      next of the supplied distinct ids. */
  method SeedAll(samples: seq<Sample>, ids: seq<Guid>) returns (s: Store)
    requires |ids| == |samples|
    requires forall i | 0 <= i < |samples| :: Acceptable(samples[i])
    requires forall i, j | 0 <= i < j < |ids| :: ids[i] != ids[j]
    ensures Inv(s)
    ensures |s| == |samples|
    ensures forall k :: k in s <==> k in ids
    ensures forall i | 0 <= i < |ids| :: s[ids[i]] == Product(ids[i], samples[i].name, samples[i].price, samples[i].stock)
  {
    s := map[];
    for i := 0 to |ids|
      invariant Inv(s)
      invariant SeededUpTo(samples, ids, i, s)
    {
      var next := s[ids[i] := Product(ids[i], samples[i].name, samples[i].price, samples[i].stock)];
      SeedStep(samples, ids, i, s, next);
      var step := SeedOne(s, ids[i], samples[i]);
      s := step.store;
    }
    assert ids[..|ids|] == ids;
  }

  /** `SeedInitialData()` as the constructor runs it on the empty store. */
  method SeedInitialData(ids: seq<Guid>) returns (s: Store)
    requires |ids| == |Samples|
    requires forall i, j | 0 <= i < j < |ids| :: ids[i] != ids[j]
    ensures Inv(s)
    ensures |s| == 10
    ensures forall i | 0 <= i < |ids| :: ids[i] in s && s[ids[i]] == Product(ids[i], Samples[i].name, Samples[i].price, Samples[i].stock)
  {
    forall i | 0 <= i < |Samples|
      ensures Acceptable(Samples[i])
    {
      SampleIsValid(i);
    }
    s := SeedAll(Samples, ids);
  }

}
