/**
 The orchestration layer (Railway.Sample/Service/ProductService.cs): lookups,
 validation and storage composed only with `Bind`. Each operation takes the
 repository's store and returns its reply with the store it leaves behind.
 */
module ProductService {

  import opened Results
  import opened Effects
  import opened ResultExtensions
  import opened Text
  import opened Guids
  import opened Products
  import opened ProductRepository

  /** `Create(name, price, stock)`: `Product.Create(...).Bind(p => Add(p))`. The id
      must be new whenever validation lets the product through to `Add`. */
  function Create(s: Store, id: Guid, name: string, price: real, stock: int): (o: Step<Result<Product>>)
    requires price >= 0.0 && stock >= 0 && !IsBlank(name) ==> id !in s
    ensures o.reply.IsSuccess() <==> price >= 0.0 && stock >= 0 && !IsBlank(name)
    ensures o.reply.IsSuccess() ==>
      && o.reply.value == Product(id, name, price, stock)
      && o.store == s[id := o.reply.value]
      && |o.store| == |s| + 1
    ensures !o.reply.IsSuccess() ==> o.store == s && o.reply.Err() == Products.Create(id, name, price, stock).Err()
    ensures Inv(s) ==> Inv(o.store)
  {
    BindStore(Products.Create(id, name, price, stock), s, (p: Product) requires p.id !in s => Add(s, p))
  }

  /** `GetById(id)`: the repository lookup. */
  function GetById(s: Store, id: Guid): (r: Result<Product>)
    ensures r.IsSuccess() <==> id in s
    ensures r.IsSuccess() ==> r.value == s[id]
    ensures !r.IsSuccess() ==> r.Err() == NotFound(id)
  {
    ProductRepository.GetById(s, id)
  }

  /** `GetAll()`: the repository listing. */
  function GetAll(s: Store): (r: Result<set<Product>>)
    ensures r.IsSuccess() && r.value == s.Values
  {
    ProductRepository.GetAll(s)
  }

  /** The shape shared by the three update operations:
      `GetById(id).Bind(change).Bind(Update)`. A missing id is reported before
      `change` is consulted; a failed `change` leaves the store untouched; a
      successful one replaces only the targeted entry. Every change the service
      makes keeps the product's identity. */
  function ModifyStored(s: Store, id: Guid, change: Product -> Result<Product>): (o: Step<Result<Product>>)
    requires forall p :: change(p).IsSuccess() ==> change(p).value.id == p.id
    ensures id !in s ==> o == Step(Failure(NotFound(id)), s)
    ensures id in s && !change(s[id]).IsSuccess() ==> o == Step(Failure(change(s[id]).Err()), s)
    ensures WellKeyed(s) && id in s && change(s[id]).IsSuccess() ==>
      && o.reply == change(s[id])
      && o.store == s[id := change(s[id]).value]
    ensures WellKeyed(s) ==> o.store.Keys == s.Keys && forall k | k in s && k != id :: o.store[k] == s[k]
    ensures Inv(s) && (id in s && change(s[id]).IsSuccess() ==> Valid(change(s[id]).value)) ==> Inv(o.store)
  {
    LiftIsPure(change);
    var updated := Bind(GetById(s, id), Lift(change)).result;
    BindStore(updated, s, (u: Product) => Update(s, u))
  }

  /** `UpdatePrice(id, newPrice)`: a missing id is reported before an invalid
      price; on any failure the store is unchanged; on success only the price of
      the targeted entry changes. */
  function UpdatePrice(s: Store, id: Guid, newPrice: real): (o: Step<Result<Product>>)
    ensures id !in s ==> o == Step(Failure(NotFound(id)), s)
    ensures id in s && newPrice < 0.0 ==> o == Step(Failure(InvalidPrice), s)
    ensures WellKeyed(s) && id in s && newPrice >= 0.0 ==>
      && o.reply == Success(s[id].(price := newPrice))
      && o.store == s[id := s[id].(price := newPrice)]
    ensures WellKeyed(s) ==> o.store.Keys == s.Keys && forall k | k in s && k != id :: o.store[k] == s[k]
    ensures Inv(s) ==> Inv(o.store)
  {
    ModifyStored(s, id, (p: Product) => Products.UpdatePrice(p, newPrice))
  }

  /** `UpdateStock(id, quantity)`: fails with INSUFFICIENT_STOCK exactly when the
      stored stock plus `quantity` is negative. */
  function UpdateStock(s: Store, id: Guid, quantity: int): (o: Step<Result<Product>>)
    ensures id !in s ==> o == Step(Failure(NotFound(id)), s)
    ensures id in s && s[id].stock + quantity < 0 ==> o == Step(Failure(InsufficientStock), s)
    ensures WellKeyed(s) && id in s && s[id].stock + quantity >= 0 ==>
      && o.reply == Success(s[id].(stock := s[id].stock + quantity))
      && o.store == s[id := s[id].(stock := s[id].stock + quantity)]
    ensures WellKeyed(s) ==> o.store.Keys == s.Keys && forall k | k in s && k != id :: o.store[k] == s[k]
    ensures Inv(s) ==> Inv(o.store)
  {
    ModifyStored(s, id, (p: Product) => Products.UpdateStock(p, quantity))
  }

  /** `RenameProduct(id, newName)`. */
  function RenameProduct(s: Store, id: Guid, newName: string): (o: Step<Result<Product>>)
    ensures id !in s ==> o == Step(Failure(NotFound(id)), s)
    ensures id in s && IsBlank(newName) ==> o == Step(Failure(InvalidName), s)
    ensures WellKeyed(s) && id in s && !IsBlank(newName) ==>
      && o.reply == Success(s[id].(name := newName))
      && o.store == s[id := s[id].(name := newName)]
    ensures WellKeyed(s) ==> o.store.Keys == s.Keys && forall k | k in s && k != id :: o.store[k] == s[k]
    ensures Inv(s) ==> Inv(o.store)
  {
    ModifyStored(s, id, (p: Product) => Products.Rename(p, newName))
  }

  /** `DeleteProduct(id)`: the repository deletion. */
  function DeleteProduct(s: Store, id: Guid): (o: Step<UnitResults.UnitResult>)
    ensures o.reply.IsSuccess() <==> id in s
    ensures !o.reply.IsSuccess() ==> o.reply.Err() == NotFound(id) && o.store == s
    ensures o.store == s - {id}
    ensures Inv(s) ==> Inv(o.store)
  {
    Delete(s, id)
  }

  /** `SearchByName(name)`: the repository search. */
  method SearchByName(s: Store, name: string) returns (r: Result<set<Product>>)
    ensures IsBlank(name) ==> !r.IsSuccess() && r.Err() == InvalidSearch
    ensures !IsBlank(name) ==> r.IsSuccess() && forall p :: p in r.value <==> p in s.Values && ContainsIgnoreCase(p.name, name)
  {
    r := FindByName(s, name);
  }

  /** Creating a product and deleting it again restores the store, after which
      the id is unknown. */
  lemma CreateThenDelete(s: Store, id: Guid, name: string, price: real, stock: int)
    requires id !in s
    requires price >= 0.0 && stock >= 0 && !IsBlank(name)
    ensures var created := Create(s, id, name, price, stock);
            var deleted := DeleteProduct(created.store, id);
            && deleted.reply.IsSuccess()
            && deleted.store == s
            && |deleted.store| == |s|
            && GetById(deleted.store, id) == Failure(NotFound(id))
  {
    var created := Create(s, id, name, price, stock);
    assert created.store == s[id := created.reply.value];
    RemoveAdded(s, id, created.reply.value);
    var deleted := DeleteProduct(created.store, id);
    assert deleted.store == s;
  }

  /** Removing a key just added to a map gives the map back. */
  lemma RemoveAdded(s: Store, id: Guid, p: Product)
    requires id !in s
    ensures s[id := p] - {id} == s
  {
    var restored := s[id := p] - {id};
    assert restored.Keys == s.Keys;
    assert forall k | k in s :: restored[k] == s[k];
  }

}
