/** `InMemoryProductRepository`: products in a dictionary keyed by their id,
    with a counter that hands out the ids of products added without one. */
module ProductStore {
  import opened Wrappers
  import opened Numerics
  import opened Text

  /** A catalogue product; a null `Id` or `ImageUrl` is `None`, and the
      `decimal` price is a real. */
  datatype Product = Product(
    id: Option<string>,
    name: string,
    description: string,
    price: real,
    imageUrl: Option<string>,
    stockQuantity: int32,
    isActive: bool)

  /** Every entry is stored under its own id. */
  predicate KeyedById(products: map<string, Product>) {
    forall k :: k in products ==> products[k].id == Some(k)
  }

  /** `TryAdd`: insert unless the key is taken. */
  function TryAdd(products: map<string, Product>, key: string, p: Product): (r: map<string, Product>)
    ensures key in r && r.Keys == products.Keys + {key}
    ensures key in products ==> r == products
    ensures key !in products ==> r[key] == p && forall k :: k in products ==> r[k] == products[k]
  {
    if key in products then products else products[key := p]
  }

  const TShirt := Product(Some("1"), "T-shirt", "En bekväm t-shirt i 100% bomull", 199.99, None, 100, true)
  const Hoodie := Product(Some("2"), "Hoodie", "Varm och skön huvtröja", 499.99, None, 50, true)
  const Keps := Product(Some("3"), "Keps", "Stilren keps med broderad logotyp", 249.99, None, 75, true)

  lemma SmallIntStrings()
    ensures IntString(1) == "1" && IntString(2) == "2" && IntString(3) == "3"
  {
    assert NatString(1) == [Digit(1)];
    assert NatString(2) == [Digit(2)];
    assert NatString(3) == [Digit(3)];
  }

  class InMemoryProductRepository {
    var products: map<string, Product>
    var counter: int32

    ghost predicate Valid()
      reads this
    {
      KeyedById(products)
    }

    /** The constructor seeds three active products with ids "1", "2" and "3". */
    constructor()
      ensures Valid()
      ensures products == map["1" := TShirt, "2" := Hoodie, "3" := Keps]
      ensures counter == 4
    {
      products := map[];
      counter := 1;
      new;
      SmallIntStrings();
      var id1 := GetNextId();
      var id2 := GetNextId();
      var id3 := GetNextId();
      var samples := [TShirt.(id := Some(id1)), Hoodie.(id := Some(id2)), Keps.(id := Some(id3))];
      assert samples == [TShirt, Hoodie, Keps];
      for i := 0 to |samples|
        invariant i == 0 ==> products == map[]
        invariant i == 1 ==> products == map["1" := TShirt]
        invariant i == 2 ==> products == map["1" := TShirt, "2" := Hoodie]
        invariant i == 3 ==> products == map["1" := TShirt, "2" := Hoodie, "3" := Keps]
        invariant counter == 4
      {
        products := TryAdd(products, samples[i].id.value, samples[i]);
      }
    }

    /** `GetNextId`: the counter's decimal text; the counter then steps on,
        wrapping at the `int` range. */
    method GetNextId() returns (id: string)
      modifies this
      ensures id == IntString(old(counter))
      ensures counter == Wrap32(old(counter) + 1)
      ensures products == old(products)
    {
      id := IntString(counter);
      counter := Wrap32(counter + 1);
    }

    /** `GetAllAsync`: every stored product that is active, each once, in the
        dictionary's own (unspecified) order. */
    method GetAllAsync() returns (result: seq<Product>)
      requires Valid()
      ensures forall i :: 0 <= i < |result| ==>
        result[i].isActive && result[i].id.Some? && result[i].id.value in products
        && products[result[i].id.value] == result[i]
      ensures forall k :: k in products && products[k].isActive ==> products[k] in result
      ensures forall i, j :: 0 <= i < j < |result| ==> result[i].id != result[j].id
    {
      var keys := products.Keys;
      ghost var seen: set<string> := {};
      result := [];
      while keys != {}
        invariant keys !! seen && keys + seen == products.Keys
        invariant forall i :: 0 <= i < |result| ==>
          result[i].isActive && result[i].id.Some? && result[i].id.value in seen
          && products[result[i].id.value] == result[i]
        invariant forall k :: k in seen && products[k].isActive ==> products[k] in result
        invariant forall i, j :: 0 <= i < j < |result| ==> result[i].id != result[j].id
        decreases keys
      {
        var k :| k in keys;
        if products[k].isActive {
          result := result + [products[k]];
        }
        keys := keys - {k};
        seen := seen + {k};
      }
    }

    /** `GetByIdAsync`: the product stored under `id`, or null. */
    method GetByIdAsync(id: string) returns (r: Option<Product>)
      requires Valid()
      ensures r.Some? <==> id in products
      ensures r.Some? ==> r.value == products[id] && r.value.id == Some(id)
    {
      if id in products {
        r := Some(products[id]);
      } else {
        r := None;
      }
    }

    /** `AddAsync`: a product without an id takes the next counter value
        (consumed even if the insert then fails); the insert fails, changing
        nothing, when the id is taken. `stored` is the product as stored. */
    method AddAsync(product: Product) returns (ok: bool, stored: Product)
      requires Valid()
      modifies this
      ensures Valid()
      ensures product.id.Some? ==> stored == product && counter == old(counter)
      ensures product.id.None? ==>
        stored == product.(id := Some(IntString(old(counter)))) && counter == Wrap32(old(counter) + 1)
      ensures stored.id.Some?
      ensures ok <==> stored.id.value !in old(products)
      ensures products == if ok then old(products)[stored.id.value := stored] else old(products)
    {
      stored := product;
      if product.id.None? {
        var id := GetNextId();
        stored := product.(id := Some(id));
      }
      ok := stored.id.value !in products;
      products := TryAdd(products, stored.id.value, stored);
    }

    /** `UpdateAsync`: replace an existing entry; a null or unknown id fails
        and changes nothing. */
    method UpdateAsync(product: Product) returns (ok: bool)
      requires Valid()
      modifies this
      ensures Valid()
      ensures ok <==> product.id.Some? && product.id.value in old(products)
      ensures products == if ok then old(products)[product.id.value := product] else old(products)
      ensures counter == old(counter)
    {
      if product.id.None? || product.id.value !in products {
        return false;
      }
      products := products[product.id.value := product];
      return true;
    }

    /** `DeleteAsync`: remove the entry, reporting whether there was one. */
    method DeleteAsync(id: string) returns (ok: bool)
      requires Valid()
      modifies this
      ensures Valid()
      ensures ok <==> id in old(products)
      ensures products == old(products) - {id}
      ensures counter == old(counter)
    {
      ok := id in products;
      products := products - {id};
    }
  }
}
