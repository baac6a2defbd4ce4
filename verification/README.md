# Product-list endpoint of the online store, in Dafny

The store application exposes its catalog of `Product` rows as JSON at
`/api/products/`. The view `api_products` reads every product and walks them
in order. For each one it appends a dictionary to a list: `id`, `name` and
`description` are copied, `price` becomes a number, and `image` becomes the
fixed URL `https://via.placeholder.com/300x300` when the product has no image
(Python's `or` treats both `None` and `""` as missing). The list is returned
as `{'products': data}`.

The model has three modules:

- `Wrappers` (wrappers.dfy): `Option`, for the nullable image field.
- `Json` (json.dfy): the values handed to `JsonResponse`: integers, numbers,
  strings, lists and dictionaries. A dictionary is an ordered sequence of
  (key, value) pairs, because Python's `dict` keeps insertion order. `Get` is
  dictionary lookup, and `GetAt` proves that lookup returns the stored value
  when the keys are distinct.
- `Views` (views.dfy): the `Product` record, the exact `Decimal` price, the
  placeholder default, the per-product dictionary `Serialize`, the list
  `SerializeAll` and the body `ResponseBody` as specification functions. The
  method `ApiProducts` is the view's loop. Its invariant says that the list
  built so far is `SerializeAll` of the products already visited. The lemmas
  then state what the list means: one entry per product, order kept, fields
  copied, placeholder exactly when the image is absent.

The ORM query `Product.objects.all()` is an input `seq<Product>` in whatever
order the database returns. The model keeps that order. `ApiProducts` has no
`modifies` clause and its result is determined by its input
(`body == ResponseBody(products)`). So it only reads, and two calls on the
same catalog give the same body.

## Model

| member | source | states |
|---|---|---|
| `Views.ApiProducts` | store/views.py:10-22 | the body returned is `{'products': data}`, where `data` holds one dictionary per product read, built in the order read (`ResponseBody`); nothing is modified |
| `Views.PriceNumber` | store/views.py:19 | the number served for a price is its exact value: times 10^places it gives back the stored digits; it is non-negative exactly when the stored price is |
| `Views.ImageOrPlaceholder` | store/views.py:20 | a non-empty image string is kept verbatim; `None` or `""` gives the placeholder URL; the result is never empty |
| `Views.SerializeAllAppend` | store/views.py:13-21 | appending one more product to those walked appends exactly its dictionary to `data`, which is what the loop's `data.append` does |
| `Views.SerializeAllAt` | store/views.py:14-21 | the list has exactly as many entries as there are products, and entry i is the dictionary of product i (order preserved) |
| `Views.SerializeFields` | store/views.py:15-21 | each product's dictionary has exactly the keys id, name, description, price, image, in that order; looking each key up gives the product's id, name and description unchanged, its price as a number and its image or the placeholder |
| `Views.ResponseEntries` | store/views.py:12-22 | the body is a dictionary whose only key is `products`; its list has one entry per product; entry i carries product i's fields, with the image kept when non-empty and the placeholder when `None` or `""` |
| `Views.EmptyCatalog` | store/views.py:13-22 | an empty catalog yields `{'products': []}`, not an error |
| `Views.UniqueIdsOneEntryEach` | store/views.py:14-16 | when product ids are distinct, each product's id appears in exactly one entry: the one at the product's own position |
| `Views.MissingImageResponse` | store/views.py:15-22 | a single product priced 29.99 with no image is served as `{'products': [{'id': 1, 'name': ..., 'description': ..., 'price': 29.99, 'image': 'https://via.placeholder.com/300x300'}]}` |

## Left out

- `home` (store/views.py:5-8): it passes the product query unchanged to Django's `render` with a template that is not part of this model, so there is no transformation to state.
- `Views.PriceNumber`: `float(product.price)` rounds to the nearest binary double; the model serves the exact decimal value and does not model that rounding.
- The `Product` model file (store/models.py) is not part of this model. The field types are assumed from their use in the view: an integer id, string name and description, an exact decimal price, and an image that is a string or `None`.
- `Product.objects.all()` and `JsonResponse`: the database query is an input sequence and the JSON text encoding is left to the framework. The model stops at the dictionary handed to `JsonResponse`; the HTTP status and content type are not modelled.
- A database that cannot be reached: the view has no handling for it, so the error goes to the framework. The model has no such input.
- run_local.py, local_store/wsgi.py, store/urls.py and frontend/pages/index.js: process orchestration, framework bootstrap, a static routing table and a React page, with no logic of the view's kind.
