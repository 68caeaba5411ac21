/**
 * The make → model → year selector on the home page. Each choice is a
 * string cell ("" for none); effects fetch the next list when a choice
 * changes, and the search builds its query from the non-empty choices.
 * Fetches are recorded as requests; their responses arrive through the
 * `Receive…` methods.
 */
module VehicleSelector {
  import opened Wrappers

  datatype MakeOption = MakeOption(id: int, name: string)
  datatype ModelOption = ModelOption(id: int, name: string)

  /** The requests the component sends. */
  datatype Request =
    | FetchCompanies
    | FetchModels(makeId: string)
    | FetchYears(modelId: string)
    | FetchSearch(query: seq<(string, string)>)

  /** What a finished search did: hand the results to the page, or alert. */
  datatype SearchOutcome = Delivered(productIds: seq<int>) | Alerted

  /** The query of a search: one pair per non-empty choice, in the order make, model, year. */
  function SearchQuery(make: string, model: string, year: string): (q: seq<(string, string)>)
    ensures (make != "" <==> ("make_id", make) in q) && (model != "" <==> ("model_id", model) in q)
            && (year != "" <==> ("year", year) in q)
    ensures |q| == (if make != "" then 1 else 0) + (if model != "" then 1 else 0) + (if year != "" then 1 else 0)
    ensures forall i, j | 0 <= i < j < |q| :: KeyRank(q[i].0) < KeyRank(q[j].0)
  {
    (if make != "" then [("make_id", make)] else [])
    + (if model != "" then [("model_id", model)] else [])
    + (if year != "" then [("year", year)] else [])
  }

  function KeyRank(key: string): nat {
    if key == "make_id" then 0 else if key == "model_id" then 1 else 2
  }

  class Selector {
    var makes: seq<MakeOption>
    var models: seq<ModelOption>
    var years: seq<int>
    var selectedMake: string
    var selectedModel: string
    var selectedYear: string
    var loading: bool
    var requests: seq<Request>
    var outcomes: seq<SearchOutcome>

    /**
     * No model without a make and no year without a model: the selects
     * further down are disabled until the one above is chosen.
     */
    ghost predicate Valid()
      reads this
    {
      (selectedMake == "" ==> selectedModel == "") && (selectedModel == "" ==> selectedYear == "")
    }

    /** The year list is empty while no model is selected. */
    ghost predicate YearsFollowModel()
      reads this
    {
      selectedModel == "" ==> years == []
    }

    function ModelSelectDisabled(): bool
      reads this
    {
      selectedMake == ""
    }

    function YearSelectDisabled(): bool
      reads this
    {
      selectedModel == "" || years == []
    }

    /** Mounting: every effect runs once; only the companies are fetched. */
    constructor ()
      ensures Valid() && YearsFollowModel()
      ensures makes == [] && models == [] && years == []
      ensures selectedMake == "" && selectedModel == "" && selectedYear == "" && !loading
      ensures requests == [FetchCompanies] && outcomes == []
    {
      makes, models, years := [], [], [];
      selectedMake, selectedModel, selectedYear := "", "", "";
      loading := false;
      requests := [FetchCompanies];
      outcomes := [];
    }

    method ReceiveMakes(data: seq<MakeOption>)
      modifies this
      ensures makes == data
      ensures models == old(models) && years == old(years) && selectedMake == old(selectedMake)
      ensures selectedModel == old(selectedModel) && selectedYear == old(selectedYear)
      ensures loading == old(loading) && requests == old(requests) && outcomes == old(outcomes)
    {
      makes := data;
    }

    /** The years effect, run when `selectedModel` has changed. */
    method YearsEffect()
      modifies this
      ensures selectedModel == "" ==> years == [] && selectedYear == "" && requests == old(requests)
      ensures selectedModel != "" ==> years == old(years) && selectedYear == old(selectedYear)
                                      && requests == old(requests) + [FetchYears(selectedModel)]
      ensures makes == old(makes) && models == old(models) && selectedMake == old(selectedMake)
      ensures selectedModel == old(selectedModel) && loading == old(loading) && outcomes == old(outcomes)
    {
      if selectedModel == "" {
        years := [];
        selectedYear := "";
        return;
      }
      requests := requests + [FetchYears(selectedModel)];
    }

    /**
     * Choosing a make clears the model. A new non-empty make fetches its
     * models; the models already loaded stay until the response arrives,
     * also when the make is cleared.
     */
    method SelectMake(value: string)
      requires Valid()
      modifies this
      ensures Valid()
      ensures selectedMake == value && selectedModel == "" && models == old(models)
      ensures requests == old(requests) + (if value != old(selectedMake) && value != "" then [FetchModels(value)] else [])
      ensures old(selectedModel) != "" ==> years == [] && selectedYear == ""
      ensures old(selectedModel) == "" ==> years == old(years) && selectedYear == old(selectedYear)
      ensures old(YearsFollowModel()) ==> YearsFollowModel()
      ensures makes == old(makes) && loading == old(loading) && outcomes == old(outcomes)
    {
      var previousMake, previousModel := selectedMake, selectedModel;
      selectedMake := value;
      selectedModel := "";
      if value != previousMake && value != "" {
        requests := requests + [FetchModels(value)];
      }
      if previousModel != "" {
        YearsEffect();
      }
    }

    method ReceiveModels(data: seq<ModelOption>)
      modifies this
      ensures models == data
      ensures makes == old(makes) && years == old(years) && selectedMake == old(selectedMake)
      ensures selectedModel == old(selectedModel) && selectedYear == old(selectedYear)
      ensures loading == old(loading) && requests == old(requests) && outcomes == old(outcomes)
    {
      models := data;
    }

    /** Choosing a model; a disabled select does not fire. */
    method SelectModel(value: string)
      requires Valid()
      modifies this
      ensures Valid()
      ensures old(ModelSelectDisabled()) ==> selectedModel == old(selectedModel) && requests == old(requests)
      ensures !old(ModelSelectDisabled()) ==> selectedModel == value
      ensures value == "" && old(selectedModel) != "" ==> years == [] && selectedYear == ""
      ensures !(value == "" && old(selectedModel) != "") ==> years == old(years) && selectedYear == old(selectedYear)
      ensures requests == old(requests) + (if !old(ModelSelectDisabled()) && value != old(selectedModel) && value != ""
                                           then [FetchYears(value)] else [])
      ensures old(YearsFollowModel()) ==> YearsFollowModel()
      ensures makes == old(makes) && models == old(models) && selectedMake == old(selectedMake)
      ensures loading == old(loading) && outcomes == old(outcomes)
    {
      if ModelSelectDisabled() {
        return;
      }
      var previous := selectedModel;
      selectedModel := value;
      if value != previous {
        YearsEffect();
      }
    }

    /**
     * The years response, stored as it arrives. It is not checked against
     * the model now selected, so a response that arrives after the model
     * was cleared fills the list again.
     */
    method ReceiveYears(data: seq<int>)
      modifies this
      ensures years == data
      ensures makes == old(makes) && models == old(models) && selectedMake == old(selectedMake)
      ensures selectedModel == old(selectedModel) && selectedYear == old(selectedYear)
      ensures loading == old(loading) && requests == old(requests) && outcomes == old(outcomes)
    {
      years := data;
    }

    /** The years response for `modelId`, kept only while that model is still selected. */
    method ReceiveYearsFor(modelId: string, data: seq<int>)
      requires YearsFollowModel()
      modifies this
      ensures YearsFollowModel()
      ensures years == if modelId == selectedModel && modelId != "" then data else old(years)
      ensures makes == old(makes) && models == old(models) && selectedMake == old(selectedMake)
      ensures selectedModel == old(selectedModel) && selectedYear == old(selectedYear)
      ensures loading == old(loading) && requests == old(requests) && outcomes == old(outcomes)
    {
      if modelId == selectedModel && modelId != "" {
        years := data;
      }
    }

    /** Choosing a year; a disabled select does not fire. */
    method SelectYear(value: string)
      requires Valid()
      modifies this
      ensures Valid()
      ensures selectedYear == if old(YearSelectDisabled()) then old(selectedYear) else value
      ensures makes == old(makes) && models == old(models) && years == old(years)
      ensures selectedMake == old(selectedMake) && selectedModel == old(selectedModel)
      ensures loading == old(loading) && requests == old(requests) && outcomes == old(outcomes)
    {
      if !YearSelectDisabled() {
        selectedYear := value;
      }
    }

    /** The search button: disabled while loading, otherwise it sets `loading` and sends the query. */
    method BeginSearch() returns (started: bool)
      modifies this
      ensures started <==> !old(loading)
      ensures loading
      ensures requests == old(requests) + (if started then [FetchSearch(SearchQuery(selectedMake, selectedModel, selectedYear))] else [])
      ensures makes == old(makes) && models == old(models) && years == old(years)
      ensures selectedMake == old(selectedMake) && selectedModel == old(selectedModel)
      ensures selectedYear == old(selectedYear) && outcomes == old(outcomes)
    {
      if loading {
        return false;
      }
      loading := true;
      requests := requests + [FetchSearch(SearchQuery(selectedMake, selectedModel, selectedYear))];
      started := true;
    }

    /** The search finishes: results or a failure, and `loading` ends false either way. */
    method EndSearch(response: Option<seq<int>>)
      modifies this
      ensures !loading
      ensures outcomes == old(outcomes) + [if response.Some? then Delivered(response.value) else Alerted]
      ensures makes == old(makes) && models == old(models) && years == old(years)
      ensures selectedMake == old(selectedMake) && selectedModel == old(selectedModel)
      ensures selectedYear == old(selectedYear) && requests == old(requests)
    {
      outcomes := outcomes + [if response.Some? then Delivered(response.value) else Alerted];
      loading := false;
    }
  }

  /**
   * A model is chosen and its years requested; then another make is chosen,
   * which clears the model and the years; then the years response arrives.
   * As written, the year list is filled while no model is selected.
   */
  method StaleYearsResponse() returns (s: Selector)
    ensures s.selectedModel == "" && s.years == [2021, 2020]
    ensures !s.YearsFollowModel()
  {
    s := new Selector();
    s.SelectMake("1");
    s.SelectModel("7");
    s.SelectMake("2");
    s.ReceiveYears([2021, 2020]);
  }

  /** With the response matched to its model, the same sequence leaves the list empty. */
  method StaleYearsResponseIgnored() returns (s: Selector)
    ensures s.selectedModel == "" && s.years == []
    ensures s.YearsFollowModel()
  {
    s := new Selector();
    s.SelectMake("1");
    s.SelectModel("7");
    s.SelectMake("2");
    s.ReceiveYearsFor("7", [2021, 2020]);
  }
}
