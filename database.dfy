/**
 * The relational tables the server reads and writes (vehicle taxonomy,
 * catalog and fitment links), and the two ways a server handler fails.
 */
module Database {
  import opened Wrappers

  /** A row of `vehicle_makes`. */
  datatype Make = Make(id: int, name: string)

  /** A row of `vehicle_models`; it belongs to one make. */
  datatype Model = Model(id: int, make_id: int, name: string)

  /** A row of `vehicle_variants`: a model over the inclusive year span [year_from, year_to]. */
  datatype Variant = Variant(id: int, model_id: int, year_from: int, year_to: int, submodel: Option<string>)

  /**
   * A row of `products`; the price is in minor currency units. The legacy
   * URL key is the old storefront path, taken as possibly NULL.
   */
  datatype Product = Product(
    id: int,
    title: string,
    slug: string,
    legacy_url_key: Option<string>,
    price: int,
    stock_count: int,
    category_id: Option<int>,
    part_number: string,
    attributes: map<string, string>)

  /** A row of `product_vehicle_fitment`: the product fits that variant. */
  datatype Fitment = Fitment(product_id: int, vehicle_variant_id: int)

  /** The catalog and taxonomy tables, each in its stored order. */
  datatype Catalog = Catalog(
    makes: seq<Make>,
    models: seq<Model>,
    variants: seq<Variant>,
    products: seq<Product>,
    fitments: seq<Fitment>)

  /**
   * How a handler fails: an `AppError` it raises itself (message and HTTP
   * status), or an error raised by PostgreSQL, such as a parameter that does
   * not cast to the column's type, which goes to the framework's error handler.
   */
  datatype ServerError = AppError(message: string, status: int) | QueryError

  /**
   * `SELECT … WHERE id = $1` on a primary key, or a `LEFT JOIN` on one: the
   * first row whose key is `id`, or none.
   */
  function RowById<T>(rows: seq<T>, key: T -> int, id: int): (r: Option<T>)
    ensures r.Some? ==> r.value in rows && key(r.value) == id
    ensures r.None? ==> forall i | 0 <= i < |rows| :: key(rows[i]) != id
  {
    if rows == [] then None
    else if key(rows[0]) == id then Some(rows[0])
    else RowById(rows[1..], key, id)
  }

  function MakeById(makes: seq<Make>, id: int): Option<Make> {
    RowById(makes, (m: Make) => m.id, id)
  }

  function ModelById(models: seq<Model>, id: int): Option<Model> {
    RowById(models, (m: Model) => m.id, id)
  }

  function VariantById(variants: seq<Variant>, id: int): Option<Variant> {
    RowById(variants, (v: Variant) => v.id, id)
  }
}
