/**
 The sample entity (Railway.Sample/Model/Product.cs). Each update is a
 validation chain `Create(x).Ensure(check, error).Map(apply)`; `Create` chains
 the three updates with `Bind`, starting from `Empty`. The source
 mutates the receiver inside `Map` and returns it; here each operation returns
 an updated copy. Because `Ensure` runs first, a failure never reaches the
 mutation, so the returned Result is the same; what the copy does not capture
 is that a successful update is also seen through every other reference to the
 same object.
 */
module Products {

  import opened Errors
  import opened Results
  import opened Effects
  import opened ResultExtensions
  import opened Text
  import opened Guids

  datatype Product = Product(id: Guid, name: string, price: real, stock: int)

  /** What every stored product satisfies once built through the chains below. */
  predicate Valid(p: Product) {
    p.price >= 0.0 && p.stock >= 0 && !IsBlank(p.name)
  }

  const InvalidPrice: Error := Error("INVALID_PRICE", "Price cannot be negative.")
  const InsufficientStock: Error := Error("INSUFFICIENT_STOCK", "Not enough stock available.")
  const InvalidName: Error := Error("INVALID_NAME", "Name cannot be empty.")

  /** `Product.Empty`, carrying the identifier the product is created under: no
      name, no price, no stock. Its blank name makes it invalid until `Create`
      renames it, and its zero stock is what a negative initial stock is checked
      against. */
  function Empty(id: Guid): (p: Product)
    ensures p.id == id && p.name == "" && p.price == 0.0 && p.stock == 0
    ensures !Valid(p)
  {
    Product(id, "", 0.0, 0)
  }

  /** `product.UpdatePrice(newPrice)`. */
  function UpdatePrice(p: Product, newPrice: real): (r: Result<Product>)
    ensures r.IsSuccess() <==> newPrice >= 0.0
    ensures r.IsSuccess() ==> r.value == p.(price := newPrice)
    ensures !r.IsSuccess() ==> r.Err() == InvalidPrice
  {
    var nonNegative := (x: real) => x >= 0.0;
    var apply := (x: real) => p.(price := x);
    LiftApplies(nonNegative, newPrice);
    LiftApplies(apply, newPrice);
    var checked := Ensure(Results.Create(newPrice), Lift(nonNegative), InvalidPrice).result;
    Map(checked, Lift(apply)).result
  }

  /** `product.UpdateStock(quantity)`: adds `quantity` (possibly negative) to the stock. */
  function UpdateStock(p: Product, quantity: int): (r: Result<Product>)
    ensures r.IsSuccess() <==> p.stock + quantity >= 0
    ensures r.IsSuccess() ==> r.value == p.(stock := p.stock + quantity)
    ensures !r.IsSuccess() ==> r.Err() == InsufficientStock
  {
    var enough := (q: int) => p.stock + q >= 0;
    var apply := (q: int) => p.(stock := p.stock + q);
    LiftApplies(enough, quantity);
    LiftApplies(apply, quantity);
    var checked := Ensure(Results.Create(quantity), Lift(enough), InsufficientStock).result;
    Map(checked, Lift(apply)).result
  }

  /** `product.Rename(newName)`. */
  function Rename(p: Product, newName: string): (r: Result<Product>)
    ensures r.IsSuccess() <==> !IsBlank(newName)
    ensures r.IsSuccess() ==> r.value == p.(name := newName)
    ensures !r.IsSuccess() ==> r.Err() == InvalidName
  {
    var visible := (n: string) => !IsBlank(n);
    var apply := (n: string) => p.(name := n);
    LiftApplies(visible, newName);
    LiftApplies(apply, newName);
    var checked := Ensure(Results.Create(newName), Lift(visible), InvalidName).result;
    Map(checked, Lift(apply)).result
  }

  /** `Product.Create(name, price, stock)`: the empty product, then price, stock and
      name in that order; the first failing step's Error is reported. */
  function Create(id: Guid, name: string, price: real, stock: int): (r: Result<Product>)
    ensures r.IsSuccess() <==> price >= 0.0 && stock >= 0 && !IsBlank(name)
    ensures r.IsSuccess() ==> r.value == Product(id, name, price, stock) && Valid(r.value)
    ensures price < 0.0 ==> r.Err() == InvalidPrice
    ensures price >= 0.0 && stock < 0 ==> r.Err() == InsufficientStock
    ensures price >= 0.0 && stock >= 0 && IsBlank(name) ==> r.Err() == InvalidName
  {
    var setPrice := (p: Product) => UpdatePrice(p, price);
    var setStock := (p: Product) => UpdateStock(p, stock);
    var setName := (p: Product) => Rename(p, name);
    LiftIsPure(setPrice);
    LiftIsPure(setStock);
    LiftIsPure(setName);
    var priced := Bind(Results.Create(Empty(id)), Lift(setPrice)).result;
    var stocked := Bind(priced, Lift(setStock)).result;
    Bind(stocked, Lift(setName)).result
  }

  /** Each update keeps a valid product valid when it succeeds. */
  lemma UpdatesPreserveValidity(p: Product, newPrice: real, quantity: int, newName: string)
    requires Valid(p)
    ensures UpdatePrice(p, newPrice).IsSuccess() ==> Valid(UpdatePrice(p, newPrice).value)
    ensures UpdateStock(p, quantity).IsSuccess() ==> Valid(UpdateStock(p, quantity).value)
    ensures Rename(p, newName).IsSuccess() ==> Valid(Rename(p, newName).value)
  {
  }

  /** A fluent chain price, stock, rename whose price step fails ends in
      INVALID_PRICE, and neither later step runs. */
  lemma ChainStopsAtInvalidPrice(p: Product, badPrice: real, quantity: int, newName: string)
    requires badPrice < 0.0
    ensures var steps := [Lift((q: Product) => UpdatePrice(q, badPrice)),
                          Lift((q: Product) => UpdateStock(q, quantity)),
                          Lift((q: Product) => Rename(q, newName))];
            BindChain(Pure(Success(p)), steps) == Pure(Failure(InvalidPrice))
  {
    var steps := [Lift((q: Product) => UpdatePrice(q, badPrice)),
                  Lift((q: Product) => UpdateStock(q, quantity)),
                  Lift((q: Product) => Rename(q, newName))];
    LiftApplies((q: Product) => UpdatePrice(q, badPrice), p);
    assert steps[..1] == [steps[0]];
    assert BindChain(Pure(Success(p)), steps[..1]) == Pure(Failure(InvalidPrice));
    StopsAtFirstFailure(Pure(Success(p)), steps, 1);
  }

}
