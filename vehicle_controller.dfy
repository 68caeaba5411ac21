/**
 * The taxonomy pickers of the storefront: list the makes, the models of a
 * make, and the model years of a model, each read from the taxonomy tables.
 */
module VehicleController {
  import opened Wrappers
  import opened Database
  import Js
  import Sql
  import Seqs

  function MakeName(m: Make): string {
    m.name
  }

  function ModelName(m: Model): string {
    m.name
  }

  /** `getCompanies`: every make, ordered by name ascending. */
  function GetCompanies(makes: seq<Make>): (r: seq<Make>)
    ensures multiset(r) == multiset(makes)
    ensures Sql.SortedBy(r, MakeName)
  {
    Sql.SortBy(makes, MakeName)
  }

  function ModelsOfMake(models: seq<Model>, makeId: int): seq<Model> {
    Sql.Where(models, (m: Model) => m.make_id == makeId)
  }

  /**
   * `getModels`: the models whose make_id is the path parameter, ordered by
   * name ascending. A missing parameter is a 400; text that is not an integer
   * makes the query itself fail.
   */
  function GetModels(models: seq<Model>, makeIdParam: Option<string>): (r: Result<seq<Model>, ServerError>)
    ensures !Js.Truthy(makeIdParam) ==> r == Err(AppError("Make ID is required", 400))
    ensures Js.Truthy(makeIdParam) && Sql.CastInt4(makeIdParam.value).None? ==> r == Err(QueryError)
    ensures r.Ok? ==> Js.Truthy(makeIdParam) && Sql.CastInt4(makeIdParam.value).Some?
    ensures r.Ok? ==>
              var id := Sql.CastInt4(makeIdParam.value).value;
              && Sql.SortedBy(r.value, ModelName)
              && forall m :: multiset(r.value)[m] == if m.make_id == id then multiset(models)[m] else 0
  {
    if !Js.Truthy(makeIdParam) then Err(AppError("Make ID is required", 400))
    else match Sql.CastInt4(makeIdParam.value)
      case None => Err(QueryError)
      case Some(id) => Ok(Sql.SortBy(ModelsOfMake(models, id), ModelName))
  }

  /** Variant `v` of the model covers year `y`. */
  predicate Covers(v: Variant, modelId: int, y: int) {
    v.model_id == modelId && v.year_from <= y <= v.year_to
  }

  /** The model's variants joined with `generate_series(year_from, year_to)`. */
  function ExpandYears(variants: seq<Variant>, modelId: int): (r: seq<int>)
    ensures forall y :: y in r <==> exists i | 0 <= i < |variants| :: Covers(variants[i], modelId, y)
  {
    if variants == [] then []
    else
      var v := variants[0];
      var rest := ExpandYears(variants[1..], modelId);
      forall y, i | 0 <= i < |variants[1..]| && Covers(variants[1..][i], modelId, y)
        ensures exists j | 0 <= j < |variants| :: Covers(variants[j], modelId, y)
      {
        assert Covers(variants[i + 1], modelId, y);
      }
      forall y, i | 0 <= i < |variants| && Covers(variants[i], modelId, y)
        ensures Covers(v, modelId, y) || exists j | 0 <= j < |variants[1..]| :: Covers(variants[1..][j], modelId, y)
      {
        if i > 0 {
          assert Covers(variants[1..][i - 1], modelId, y);
        }
      }
      (if v.model_id == modelId then Sql.Series(v.year_from, v.year_to) else []) + rest
  }

  /**
   * `getYears`: the distinct years any variant of the model covers, most
   * recent first. A missing parameter is a 400; text that is not an integer
   * makes the query fail; an unknown model is not an error.
   */
  function GetYears(variants: seq<Variant>, modelIdParam: Option<string>): (r: Result<seq<int>, ServerError>)
    ensures !Js.Truthy(modelIdParam) ==> r == Err(AppError("Model ID is required", 400))
    ensures Js.Truthy(modelIdParam) && Sql.CastInt4(modelIdParam.value).None? ==> r == Err(QueryError)
    ensures r.Ok? ==> Js.Truthy(modelIdParam) && Sql.CastInt4(modelIdParam.value).Some?
    ensures r.Ok? ==>
              var id := Sql.CastInt4(modelIdParam.value).value;
              && Sql.StrictlyDescending(r.value)
              && forall y :: y in r.value <==> exists i | 0 <= i < |variants| :: Covers(variants[i], id, y)
  {
    if !Js.Truthy(modelIdParam) then Err(AppError("Model ID is required", 400))
    else match Sql.CastInt4(modelIdParam.value)
      case None => Err(QueryError)
      case Some(id) => Ok(Sql.DistinctDescending(ExpandYears(variants, id)))
  }

  /** The year list never repeats a year. */
  lemma YearsHaveNoDuplicates(variants: seq<Variant>, modelIdParam: Option<string>)
    requires GetYears(variants, modelIdParam).Ok?
    ensures Seqs.NoDuplicates(GetYears(variants, modelIdParam).value)
  {
    Sql.StrictlyDescendingDistinct(GetYears(variants, modelIdParam).value);
  }

  /** A model with no variants, or an id no model has, yields an empty list rather than an error. */
  lemma YearsOfModelWithoutVariants(variants: seq<Variant>, modelIdParam: Option<string>)
    requires Js.Truthy(modelIdParam) && Sql.CastInt4(modelIdParam.value).Some?
    requires forall i | 0 <= i < |variants| :: variants[i].model_id != Sql.CastInt4(modelIdParam.value).value
    ensures GetYears(variants, modelIdParam) == Ok([])
  {
    NoMatchingVariantNoYears(variants, Sql.CastInt4(modelIdParam.value).value);
  }

  lemma {:induction false} NoMatchingVariantNoYears(variants: seq<Variant>, modelId: int)
    requires forall i | 0 <= i < |variants| :: variants[i].model_id != modelId
    ensures ExpandYears(variants, modelId) == []
  {
    if variants != [] {
      NoMatchingVariantNoYears(variants[1..], modelId);
    }
  }

  /**
   * A variant of another model, or one whose year_from exceeds its year_to
   * (for which generate_series yields nothing), leaves the year list as it was.
   */
  lemma {:induction false} NonCoveringVariantAddsNoYears(variants: seq<Variant>, v: Variant, modelIdParam: Option<string>)
    requires Js.Truthy(modelIdParam) && Sql.CastInt4(modelIdParam.value).Some?
    requires v.model_id != Sql.CastInt4(modelIdParam.value).value || v.year_from > v.year_to
    ensures GetYears(variants + [v], modelIdParam) == GetYears(variants, modelIdParam)
  {
    var id := Sql.CastInt4(modelIdParam.value).value;
    var a := GetYears(variants + [v], modelIdParam).value;
    var b := GetYears(variants, modelIdParam).value;
    forall y
      ensures y in a <==> y in b
    {
      if y in a {
        var i :| 0 <= i < |variants + [v]| && Covers((variants + [v])[i], id, y);
        assert i < |variants|;
        assert Covers(variants[i], id, y);
      }
      if y in b {
        var i :| 0 <= i < |variants| && Covers(variants[i], id, y);
        assert Covers((variants + [v])[i], id, y);
      }
    }
    Sql.DescendingDeterminedByValues(a, b);
  }

  /** Two variants spanning 2016-2019 and 2020-2021 give 2021 down to 2016. */
  lemma TwoGenerationsExample(modelIdParam: Option<string>)
    requires Js.Truthy(modelIdParam) && Sql.CastInt4(modelIdParam.value) == Some(7)
    ensures GetYears([Variant(1, 7, 2016, 2019, None), Variant(2, 7, 2020, 2021, None)], modelIdParam)
         == Ok([2021, 2020, 2019, 2018, 2017, 2016])
  {
    var variants := [Variant(1, 7, 2016, 2019, None), Variant(2, 7, 2020, 2021, None)];
    var a := GetYears(variants, modelIdParam).value;
    var b := [2021, 2020, 2019, 2018, 2017, 2016];
    forall y
      ensures y in a <==> y in b
    {
      assert y in a <==> Covers(variants[0], 7, y) || Covers(variants[1], 7, y);
    }
    Sql.DescendingDeterminedByValues(a, b);
  }
}
