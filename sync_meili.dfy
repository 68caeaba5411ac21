/**
 * The catalog-to-search-index job: one aggregation over
 * products LEFT JOIN fitments LEFT JOIN variants LEFT JOIN models LEFT JOIN
 * makes, grouped by product, whose rows are submitted to the index in one
 * batch. The job reads the catalog and writes nothing back to it.
 */
module SyncMeili {
  import opened Wrappers
  import opened Database
  import Sql
  import Seqs

  /** One row of the join chain for a product; NULL (`None`) where a join found nothing. */
  datatype JoinRow = JoinRow(variant: Option<Variant>, model: Option<Model>, make: Option<Make>)

  /**
   * A search document: the product's own columns, the earliest year_from and
   * latest year_to of its variants, and the distinct make and model names
   * (SQL NULL included, as `ARRAY_AGG(DISTINCT ...)` keeps it).
   */
  datatype Document = Document(
    product: Product,
    year_start: Option<int>,
    year_end: Option<int>,
    fits_makes: seq<Option<string>>,
    fits_models: seq<Option<string>>)

  /** The fitment rows of one product, in table order. */
  function FitmentsOf(fitments: seq<Fitment>, productId: int): seq<Fitment> {
    Sql.Where(fitments, (f: Fitment) => f.product_id == productId)
  }

  /** The variant, model and make one fitment row reaches through the left joins. */
  function JoinFitment(c: Catalog, f: Fitment): (row: JoinRow)
    ensures row.variant.Some? ==> row.variant.value in c.variants && row.variant.value.id == f.vehicle_variant_id
    ensures row.model.Some? ==> row.variant.Some? && row.model.value in c.models && row.model.value.id == row.variant.value.model_id
    ensures row.make.Some? ==> row.model.Some? && row.make.value in c.makes && row.make.value.id == row.model.value.make_id
  {
    var v := VariantById(c.variants, f.vehicle_variant_id);
    var m := if v.Some? then ModelById(c.models, v.value.model_id) else None;
    var k := if m.Some? then MakeById(c.makes, m.value.make_id) else None;
    JoinRow(v, m, k)
  }

  /**
   * The joined rows of one product: one per fitment row, or a single all-NULL
   * row when the product has no fitment (a LEFT JOIN keeps the product).
   */
  function JoinRows(c: Catalog, p: Product): (rows: seq<JoinRow>)
    ensures |rows| > 0
  {
    var fs := FitmentsOf(c.fitments, p.id);
    if fs == [] then [JoinRow(None, None, None)]
    else seq(|fs|, i requires 0 <= i < |fs| => JoinFitment(c, fs[i]))
  }

  /** `MIN(vv.year_from)`: NULL rows are ignored; NULL when every row is NULL. */
  function MinYearFrom(rows: seq<JoinRow>): (r: Option<int>)
    ensures r.None? <==> forall i | 0 <= i < |rows| :: rows[i].variant.None?
    ensures r.Some? ==> exists i | 0 <= i < |rows| :: rows[i].variant.Some? && rows[i].variant.value.year_from == r.value
    ensures r.Some? ==> forall i | 0 <= i < |rows| && rows[i].variant.Some? :: r.value <= rows[i].variant.value.year_from
  {
    if rows == [] then None
    else
      var rest := MinYearFrom(rows[1..]);
      assert forall i | 0 < i < |rows| :: rows[i] == rows[1..][i - 1];
      match rows[0].variant
      case None => rest
      case Some(v) =>
        if rest.Some? && rest.value < v.year_from then
          var i :| 0 <= i < |rows[1..]| && rows[1..][i].variant.Some? && rows[1..][i].variant.value.year_from == rest.value;
          assert rows[i + 1] == rows[1..][i];
          rest
        else Some(v.year_from)
  }

  /** `MAX(vv.year_to)`: NULL rows are ignored; NULL when every row is NULL. */
  function MaxYearTo(rows: seq<JoinRow>): (r: Option<int>)
    ensures r.None? <==> forall i | 0 <= i < |rows| :: rows[i].variant.None?
    ensures r.Some? ==> exists i | 0 <= i < |rows| :: rows[i].variant.Some? && rows[i].variant.value.year_to == r.value
    ensures r.Some? ==> forall i | 0 <= i < |rows| && rows[i].variant.Some? :: rows[i].variant.value.year_to <= r.value
  {
    if rows == [] then None
    else
      var rest := MaxYearTo(rows[1..]);
      assert forall i | 0 < i < |rows| :: rows[i] == rows[1..][i - 1];
      match rows[0].variant
      case None => rest
      case Some(v) =>
        if rest.Some? && rest.value > v.year_to then
          var i :| 0 <= i < |rows[1..]| && rows[1..][i].variant.Some? && rows[1..][i].variant.value.year_to == rest.value;
          assert rows[i + 1] == rows[1..][i];
          rest
        else Some(v.year_to)
  }

  function MakeNameOf(row: JoinRow): Option<string> {
    if row.make.Some? then Some(row.make.value.name) else None
  }

  function ModelNameOf(row: JoinRow): Option<string> {
    if row.model.Some? then Some(row.model.value.name) else None
  }

  /** The GROUP BY p.id output row of one product. */
  function DocumentOf(c: Catalog, p: Product): (d: Document)
    ensures d.product == p
    ensures |d.fits_makes| > 0 && |d.fits_models| > 0
  {
    var rows := JoinRows(c, p);
    var makeNames := seq(|rows|, i requires 0 <= i < |rows| => MakeNameOf(rows[i]));
    var modelNames := seq(|rows|, i requires 0 <= i < |rows| => ModelNameOf(rows[i]));
    assert makeNames[0] in Sql.Distinct(makeNames) && modelNames[0] in Sql.Distinct(modelNames);
    Document(p, MinYearFrom(rows), MaxYearTo(rows), Sql.Distinct(makeNames), Sql.Distinct(modelNames))
  }

  /** The aggregation query: exactly one document per product, carrying that product's columns. */
  function BuildDocuments(c: Catalog): (docs: seq<Document>)
    ensures |docs| == |c.products|
    ensures forall i | 0 <= i < |docs| :: docs[i].product == c.products[i]
  {
    seq(|c.products|, i requires 0 <= i < |c.products| => DocumentOf(c, c.products[i]))
  }

  /** A product with no fitment row is kept, with NULL years and `[NULL]` name arrays. */
  lemma UnfitProductDocument(c: Catalog, p: Product)
    requires forall i | 0 <= i < |c.fitments| :: c.fitments[i].product_id != p.id
    ensures DocumentOf(c, p) == Document(p, None, None, [None], [None])
  {
    var fs := FitmentsOf(c.fitments, p.id);
    assert fs == [] by {
      assert forall f :: multiset(fs)[f] == 0;
      assert multiset(fs) == multiset{};
      assert |fs| == |multiset(fs)|;
    }
    var rows := JoinRows(c, p);
    assert rows == [JoinRow(None, None, None)];
    assert seq(|rows|, i requires 0 <= i < |rows| => MakeNameOf(rows[i])) == [None];
    assert seq(|rows|, i requires 0 <= i < |rows| => ModelNameOf(rows[i])) == [None];
  }

  /** Both year bounds are NULL exactly when the product reaches no variant. */
  lemma YearBoundsNullTogether(c: Catalog, p: Product)
    ensures DocumentOf(c, p).year_start.None? <==> DocumentOf(c, p).year_end.None?
  {
  }

  /**
   * When every variant the product reaches has year_from <= year_to, the
   * document's year_start is at most its year_end.
   */
  lemma YearBoundsOrdered(c: Catalog, p: Product)
    requires forall v | v in c.variants :: v.year_from <= v.year_to
    requires DocumentOf(c, p).year_start.Some?
    ensures DocumentOf(c, p).year_end.Some?
    ensures DocumentOf(c, p).year_start.value <= DocumentOf(c, p).year_end.value
  {
    var rows := JoinRows(c, p);
    var lo := MinYearFrom(rows);
    var i :| 0 <= i < |rows| && rows[i].variant.Some? && rows[i].variant.value.year_from == lo.value;
    var hi := MaxYearTo(rows);
    assert rows[i].variant.value in c.variants by {
      var fs := FitmentsOf(c.fitments, p.id);
      assert fs != [];
      assert rows[i] == JoinFitment(c, fs[i]);
    }
  }

  /** Each make name, and each model name, appears at most once in a document. */
  lemma NamesListedOnce(c: Catalog, p: Product)
    ensures Seqs.NoDuplicates(DocumentOf(c, p).fits_makes)
    ensures Seqs.NoDuplicates(DocumentOf(c, p).fits_models)
  {
  }

  /** A make named `name` is reached from product `p` through some fitment row, variant and model. */
  predicate ReachesMake(c: Catalog, p: Product, name: string) {
    exists f | f in c.fitments ::
      f.product_id == p.id
      && var row := JoinFitment(c, f);
      row.make.Some? && row.make.value.name == name
  }

  /** A name is in fits_makes exactly when the product reaches a make of that name. */
  lemma FitsMakesAreReachedMakes(c: Catalog, p: Product, name: string)
    ensures Some(name) in DocumentOf(c, p).fits_makes <==> ReachesMake(c, p, name)
  {
    var fs := FitmentsOf(c.fitments, p.id);
    var rows := JoinRows(c, p);
    var names := seq(|rows|, i requires 0 <= i < |rows| => MakeNameOf(rows[i]));
    assert Some(name) in DocumentOf(c, p).fits_makes <==> Some(name) in names;
    if Some(name) in names {
      var i :| 0 <= i < |names| && names[i] == Some(name);
      assert fs != [];
      assert fs[i] in multiset(fs);
      assert fs[i] in c.fitments;
      assert rows[i] == JoinFitment(c, fs[i]);
    }
    if ReachesMake(c, p, name) {
      var f :| f in c.fitments && f.product_id == p.id
        && JoinFitment(c, f).make.Some? && JoinFitment(c, f).make.value.name == name;
      assert multiset(fs)[f] > 0;
      assert f in fs;
      var i :| 0 <= i < |fs| && fs[i] == f;
      assert names[i] == Some(name);
    }
  }

  /** A model named `name` is reached from product `p` through some fitment row and variant. */
  predicate ReachesModel(c: Catalog, p: Product, name: string) {
    exists f | f in c.fitments ::
      f.product_id == p.id
      && var row := JoinFitment(c, f);
      row.model.Some? && row.model.value.name == name
  }

  /** A name is in fits_models exactly when the product reaches a model of that name. */
  lemma FitsModelsAreReachedModels(c: Catalog, p: Product, name: string)
    ensures Some(name) in DocumentOf(c, p).fits_models <==> ReachesModel(c, p, name)
  {
    var fs := FitmentsOf(c.fitments, p.id);
    var rows := JoinRows(c, p);
    var names := seq(|rows|, i requires 0 <= i < |rows| => ModelNameOf(rows[i]));
    assert Some(name) in DocumentOf(c, p).fits_models <==> Some(name) in names;
    if Some(name) in names {
      var i :| 0 <= i < |names| && names[i] == Some(name);
      assert fs != [];
      assert fs[i] in multiset(fs);
      assert fs[i] in c.fitments;
      assert rows[i] == JoinFitment(c, fs[i]);
    }
    if ReachesModel(c, p, name) {
      var f :| f in c.fitments && f.product_id == p.id
        && JoinFitment(c, f).model.Some? && JoinFitment(c, f).model.value.name == name;
      assert multiset(fs)[f] > 0;
      assert f in fs;
      var i :| 0 <= i < |fs| && fs[i] == f;
      assert names[i] == Some(name);
    }
  }

  // ---------------------------------------------------------------------
  // The job around the query
  // ---------------------------------------------------------------------

  /** What the job writes to the console. */
  datatype LogLine =
    | Sending(count: nat)   // "Sending <n> documents to Meilisearch..."
    | SampleKeys            // "Sample doc keys: ..."
    | MissingId             // console.error: the first row has no (truthy) id
    | NoProducts            // console.warn: nothing to sync
    | Complete              // "Meilisearch Sync Complete"

  /** One run of the job: its console output and the batch handed to `addDocuments`. */
  datatype SyncRun = SyncRun(log: seq<LogLine>, submitted: seq<Document>)

  /**
   * `syncMeili`: build the documents, log about them, and submit all of them
   * in one call. The identifier guard inspects only the first row and only
   * logs (an id of 0 is falsy); an empty batch is submitted as well.
   * `accepted` is whether `addDocuments` resolves: when it rejects, the
   * job ends there and the completion line is not logged.
   */
  function SyncJob(c: Catalog, accepted: bool): (run: SyncRun)
    ensures run.submitted == BuildDocuments(c)
    ensures Complete in run.log <==> accepted
    ensures accepted ==> run.log[|run.log| - 1] == Complete
    ensures MissingId in run.log <==> |c.products| > 0 && c.products[0].id == 0
    ensures NoProducts in run.log <==> |c.products| == 0
  {
    var rows := BuildDocuments(c);
    var before :=
      if |rows| > 0 then
        [Sending(|rows|), SampleKeys] + (if rows[0].product.id == 0 then [MissingId] else [])
      else [NoProducts];
    SyncRun(before + (if accepted then [Complete] else []), rows)
  }
}
