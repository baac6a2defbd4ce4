/**
  The product-list endpoint of the store application: `api_products` reads
  every Product row and returns `{'products': [...]}`, one dictionary per row,
  with the image replaced by a placeholder URL when it is missing.
 */
module Views {
  import opened Wrappers
  import opened Json

  /** The image substituted for a product that has none. */
  const Placeholder: string := "https://via.placeholder.com/300x300"

  /** An exact decimal price: `digits` scaled down by `places` decimal places (29.99 is Decimal(2999, 2)). */
  datatype Decimal = Decimal(digits: int, places: nat)

  /** A row of the `Product` table. */
  datatype Product = Product(
    id: int,
    name: string,
    description: string,
    price: Decimal,
    image: Option<string>)

  function Pow10(n: nat): (r: nat)
    ensures r >= 1
  {
    if n == 0 then 1 else 10 * Pow10(n - 1)
  }

  /** `float(price)`, taken as the exact value of the decimal. */
  function PriceNumber(d: Decimal): (r: real)
    ensures r * Pow10(d.places) as real == d.digits as real
    ensures r >= 0.0 <==> d.digits >= 0
  {
    var scale := Pow10(d.places) as real;
    var r := d.digits as real / scale;
    assert r * scale == d.digits as real;
    r
  }

  /** Python truthiness of an optional string: `None` and `""` are false. */
  predicate IsTruthy(image: Option<string>)
  {
    image.Some? && image.value != ""
  }

  /** `image or 'https://via.placeholder.com/300x300'`. */
  function ImageOrPlaceholder(image: Option<string>): (r: string)
    ensures IsTruthy(image) ==> r == image.value
    ensures !IsTruthy(image) ==> r == Placeholder
    ensures r != ""
  {
    if IsTruthy(image) then image.value else Placeholder
  }

  /** The dictionary built for one product inside the loop. */
  function Serialize(p: Product): (v: Value)
  {
    Object([
      ("id", Integer(p.id)),
      ("name", Str(p.name)),
      ("description", Str(p.description)),
      ("price", Number(PriceNumber(p.price))),
      ("image", Str(ImageOrPlaceholder(p.image)))
    ])
  }

  /** The list `data` holds once every product of `ps` has been appended, in order. */
  function SerializeAll(ps: seq<Product>): (vs: seq<Value>)
  {
    if ps == [] then [] else [Serialize(ps[0])] + SerializeAll(ps[1..])
  }

  /** The dictionary `{'products': data}` passed to `JsonResponse`. */
  function ResponseBody(ps: seq<Product>): (v: Value)
  {
    Object([("products", Array(SerializeAll(ps)))])
  }

  /** `api_products`: walks the products in order, appending one dictionary per product. */
  method ApiProducts(products: seq<Product>) returns (body: Value)
    ensures body == ResponseBody(products)
  {
    var data: seq<Value> := [];
    for i := 0 to |products|
      invariant data == SerializeAll(products[..i])
    {
      SerializeAllAppend(products[..i], products[i]);
      assert products[..i + 1] == products[..i] + [products[i]];
      data := data + [Serialize(products[i])];
    }
    assert products[..|products|] == products;
    body := Object([("products", Array(data))]);
  }

  /** Appending one product to the input appends its dictionary to the list. */
  lemma {:induction false} SerializeAllAppend(ps: seq<Product>, p: Product)
    ensures SerializeAll(ps + [p]) == SerializeAll(ps) + [Serialize(p)]
  {
    if ps == [] {
      assert [p][1..] == [];
    } else {
      assert (ps + [p])[1..] == ps[1..] + [p];
      SerializeAllAppend(ps[1..], p);
    }
  }

  /** One entry per product, and entry i is the dictionary of product i. */
  lemma {:induction false} SerializeAllAt(ps: seq<Product>)
    ensures |SerializeAll(ps)| == |ps|
    ensures forall i :: 0 <= i < |ps| ==> SerializeAll(ps)[i] == Serialize(ps[i])
  {
    if ps != [] {
      SerializeAllAt(ps[1..]);
      forall i | 1 <= i < |ps|
        ensures SerializeAll(ps)[i] == Serialize(ps[i])
      {
        assert ps[1..][i - 1] == ps[i];
      }
    }
  }

  /** Each dictionary has exactly the keys id, name, description, price, image, in that order, with the product's values. */
  lemma SerializeFields(p: Product)
    ensures Serialize(p).Object?
    ensures Keys(Serialize(p).fields) == ["id", "name", "description", "price", "image"]
    ensures Field(Serialize(p), "id") == Some(Integer(p.id))
    ensures Field(Serialize(p), "name") == Some(Str(p.name))
    ensures Field(Serialize(p), "description") == Some(Str(p.description))
    ensures Field(Serialize(p), "price") == Some(Number(PriceNumber(p.price)))
    ensures Field(Serialize(p), "image") == Some(Str(ImageOrPlaceholder(p.image)))
  {
    var fields := Serialize(p).fields;
    assert DistinctKeys(fields);
    GetAt(fields, 0);
    GetAt(fields, 1);
    GetAt(fields, 2);
    GetAt(fields, 3);
    GetAt(fields, 4);
  }

  /** The entry's image: the product's own when it is a non-empty string, the placeholder when it is None or "". */
  predicate ImageEntry(entry: Value, image: Option<string>)
  {
    && (IsTruthy(image) ==> Field(entry, "image") == Some(Str(image.value)))
    && (!IsTruthy(image) ==> Field(entry, "image") == Some(Str(Placeholder)))
  }

  /** Entry i of the list carries product i's id, name, description and price unchanged, and its image or the placeholder. */
  predicate EntryOf(entry: Value, p: Product)
  {
    && Field(entry, "id") == Some(Integer(p.id))
    && Field(entry, "name") == Some(Str(p.name))
    && Field(entry, "description") == Some(Str(p.description))
    && Field(entry, "price") == Some(Number(PriceNumber(p.price)))
    && ImageEntry(entry, p.image)
  }

  /**
    The body is a dictionary whose only key is `products`; its list has one
    entry per product, in the order the products were read, each built from
    the product at the same position.
   */
  lemma ResponseEntries(ps: seq<Product>)
    ensures ResponseBody(ps).Object? && Keys(ResponseBody(ps).fields) == ["products"]
    ensures Field(ResponseBody(ps), "products") == Some(Array(SerializeAll(ps)))
    ensures |SerializeAll(ps)| == |ps|
    ensures forall i :: 0 <= i < |ps| ==> EntryOf(SerializeAll(ps)[i], ps[i])
  {
    SerializeAllAt(ps);
    forall i | 0 <= i < |ps|
      ensures EntryOf(SerializeAll(ps)[i], ps[i])
    {
      SerializeFields(ps[i]);
    }
  }

  /** An empty catalog gives `{'products': []}`, not an error. */
  lemma EmptyCatalog()
    ensures ResponseBody([]) == Object([("products", Array([]))])
  {
  }

  /** When product ids are unique, each product has exactly one entry carrying its id: the one at its own position. */
  lemma UniqueIdsOneEntryEach(ps: seq<Product>, i: nat)
    requires forall j, k :: 0 <= j < k < |ps| ==> ps[j].id != ps[k].id
    requires i < |ps|
    ensures i < |SerializeAll(ps)| && Field(SerializeAll(ps)[i], "id") == Some(Integer(ps[i].id))
    ensures forall j :: 0 <= j < |SerializeAll(ps)| && Field(SerializeAll(ps)[j], "id") == Some(Integer(ps[i].id)) ==> j == i
  {
    ResponseEntries(ps);
  }

  /** A single product with no image is served with the placeholder. */
  lemma MissingImageResponse(description: string)
    ensures
      ResponseBody([Product(1, "Sample Product 1", description, Decimal(2999, 2), None)])
      == Object([("products", Array([Object([
           ("id", Integer(1)),
           ("name", Str("Sample Product 1")),
           ("description", Str(description)),
           ("price", Number(29.99)),
           ("image", Str("https://via.placeholder.com/300x300"))])]))])
  {
    var ps := [Product(1, "Sample Product 1", description, Decimal(2999, 2), None)];
    assert ps[1..] == [];
    assert Pow10(2) == 100;
    assert PriceNumber(Decimal(2999, 2)) == 29.99;
    assert ImageOrPlaceholder(None) == Placeholder;
    assert SerializeAll(ps) == [Serialize(ps[0])];
  }
}
