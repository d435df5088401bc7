/**
 * The cascading vehicle selector: four dependent choices (brand, model, year,
 * engine type) and the option list shown for each.
 *
 * Each change handler is one atomic step. It returns the selection it reports
 * to `onVehicleSelect` and the option fetch it starts, if any. The end of a
 * fetch is a separate event (`OnModelsLoaded` and its siblings) that the
 * environment may deliver at any later time, whatever the selection is by then.
 */
module Selector {
  import opened Wrappers

  /** The selected year: `''` until one is chosen. */
  datatype YearChoice = NoYear | Year(value: int) {
    /** JavaScript truthiness of the selected year: `''` and `0` are both falsy. */
    predicate IsSet() {
      Year? && value != 0
    }
  }

  /** The object handed to `onVehicleSelect`. */
  datatype Selection = Selection(brand: string, model: string, year: YearChoice, engineType: string)

  /** The option fetch a step starts. */
  datatype Fetch =
    | NoFetch
    | FetchBrands
    | FetchModels(brand: string)
    | FetchYears(brand: string, model: string)
    | FetchEngineTypes(brand: string, model: string, year: int)

  /** A fetch is only ever started with every key it filters by set. */
  predicate KeysSet(f: Fetch) {
    match f
    case NoFetch => true
    case FetchBrands => true
    case FetchModels(b) => b != ""
    case FetchYears(b, m) => b != "" && m != ""
    case FetchEngineTypes(b, m, y) => b != "" && m != "" && y != 0
  }

  /** `loadModels`: starts the model fetch only for a non-empty brand. */
  function LoadModels(brand: string): (f: Fetch)
    ensures KeysSet(f)
    ensures f == NoFetch <==> brand == ""
    ensures f != NoFetch ==> f == FetchModels(brand)
  {
    if brand == "" then NoFetch else FetchModels(brand)
  }

  /** `loadYears`: starts the year fetch only when brand and model are both non-empty. */
  function LoadYears(brand: string, model: string): (f: Fetch)
    ensures KeysSet(f)
    ensures f == NoFetch <==> brand == "" || model == ""
    ensures f != NoFetch ==> f == FetchYears(brand, model)
  {
    if brand == "" || model == "" then NoFetch else FetchYears(brand, model)
  }

  /** `loadEngineTypes`: starts the engine-type fetch only when all three keys are truthy. */
  function LoadEngineTypes(brand: string, model: string, year: YearChoice): (f: Fetch)
    ensures KeysSet(f)
    ensures f == NoFetch <==> brand == "" || model == "" || year == NoYear || year == Year(0)
    ensures f != NoFetch ==> year.Year? && f == FetchEngineTypes(brand, model, year.value)
  {
    if brand == "" || model == "" || !year.IsSet() then NoFetch
    else FetchEngineTypes(brand, model, year.value)
  }

  /** How a fetch ends: with data (possibly `null`), or by throwing. */
  datatype LoadResult<T> = Loaded(data: Option<seq<T>>) | Failed

  class VehicleSelector {
    var brands: seq<string>
    var models: seq<string>
    var years: seq<int>
    var engineTypes: seq<string>

    var selectedBrand: string
    var selectedModel: string
    var selectedYear: YearChoice
    var selectedEngineType: string

    /** True while the brand list is being fetched. */
    var loading: bool

    /** The selection as `onVehicleSelect` would receive it. */
    function Current(): Selection
      reads this
    {
      Selection(selectedBrand, selectedModel, selectedYear, selectedEngineType)
    }

    /** The option lists, brand first. */
    function Options(): (seq<string>, seq<string>, seq<int>, seq<string>)
      reads this
    {
      (brands, models, years, engineTypes)
    }

    // The `disabled` expressions of the dropdowns: each level waits for the one above.

    /**
     * The brand dropdown has no `disabled` expression; it is in its loading
     * state, and so not selectable, exactly while the brand list is fetched.
     */
    function BrandDisabled(): (r: bool)
      reads this
      ensures r <==> loading
    {
      loading
    }

    /** The model dropdown is disabled exactly while no brand is chosen. */
    function ModelDisabled(): (r: bool)
      reads this
      ensures r <==> Current().brand == ""
    {
      selectedBrand == ""
    }

    /** The year dropdown is disabled exactly while no model is chosen. */
    function YearDisabled(): (r: bool)
      reads this
      ensures r <==> Current().model == ""
    {
      selectedModel == ""
    }

    /** The engine-type dropdown is disabled exactly while no year (or the falsy year 0) is chosen. */
    function EngineTypeDisabled(): (r: bool)
      reads this
      ensures r <==> Current().year == NoYear || Current().year == Year(0)
    {
      !selectedYear.IsSet()
    }

    /** The chosen levels form a prefix of brand, model, year, engine type. */
    predicate FilledPrefix()
      reads this
    {
      && (selectedModel != "" ==> selectedBrand != "")
      && (selectedYear.IsSet() ==> selectedModel != "")
      && (selectedEngineType != "" ==> selectedYear.IsSet())
    }

    /** A selector mounted without a preselected vehicle. */
    constructor ()
      ensures Current() == Selection("", "", NoYear, "")
      ensures Options() == ([], [], [], [])
      ensures !loading
      ensures FilledPrefix()
    {
      brands, models, years, engineTypes := [], [], [], [];
      selectedBrand, selectedModel, selectedYear, selectedEngineType := "", "", NoYear, "";
      loading := false;
    }

    /** The mount effect: start fetching the brand list. */
    method LoadBrands() returns (fetch: Fetch)
      modifies this
      ensures fetch == FetchBrands && loading
      ensures Current() == old(Current()) && Options() == old(Options())
    {
      loading := true;
      fetch := FetchBrands;
    }

    /** The brand fetch ended: take its data (`null` as empty) or keep the list; loading stops either way. */
    method OnBrandsLoaded(result: LoadResult<string>)
      modifies this
      ensures result.Loaded? ==> brands == result.data.GetOr([])
      ensures result.Failed? ==> brands == old(brands)
      ensures !loading
      ensures Current() == old(Current())
      ensures models == old(models) && years == old(years) && engineTypes == old(engineTypes)
    {
      if result.Loaded? {
        brands := result.data.GetOr([]);
      }
      loading := false;
    }

    /**
     * A brand was picked: every level below is cleared, the model list is
     * fetched when the brand is non-empty, and the new selection is reported.
     */
    method HandleBrandChange(brand: string) returns (reported: Selection, fetch: Fetch)
      modifies this
      ensures Current() == Selection(brand, "", NoYear, "")
      ensures models == [] && years == [] && engineTypes == []
      ensures brands == old(brands) && loading == old(loading)
      ensures reported == Current()
      ensures fetch == (if brand != "" then FetchModels(brand) else NoFetch)
      ensures KeysSet(fetch)
      ensures FilledPrefix()
    {
      selectedBrand := brand;
      selectedModel := "";
      selectedYear := NoYear;
      selectedEngineType := "";
      models := [];
      years := [];
      engineTypes := [];
      fetch := if brand != "" then LoadModels(brand) else NoFetch;
      reported := Selection(brand, "", NoYear, "");
    }

    /**
     * A model was picked: year and engine type are cleared, the year list is
     * fetched when both brand and model are set, and the new selection is reported.
     */
    method HandleModelChange(model: string) returns (reported: Selection, fetch: Fetch)
      modifies this
      ensures Current() == Selection(old(selectedBrand), model, NoYear, "")
      ensures years == [] && engineTypes == []
      ensures brands == old(brands) && models == old(models) && loading == old(loading)
      ensures reported == Current()
      ensures fetch == (if model != "" && selectedBrand != "" then FetchYears(selectedBrand, model) else NoFetch)
      ensures KeysSet(fetch)
      ensures old(!ModelDisabled()) ==> FilledPrefix()
    {
      selectedModel := model;
      selectedYear := NoYear;
      selectedEngineType := "";
      years := [];
      engineTypes := [];
      fetch := if model != "" && selectedBrand != "" then LoadYears(selectedBrand, model) else NoFetch;
      reported := Selection(selectedBrand, model, NoYear, "");
    }

    /**
     * A year was picked: engine type is cleared, the engine-type list is
     * fetched when brand, model and year are all set, and the new selection is reported.
     */
    method HandleYearChange(year: YearChoice) returns (reported: Selection, fetch: Fetch)
      modifies this
      ensures Current() == Selection(old(selectedBrand), old(selectedModel), year, "")
      ensures engineTypes == []
      ensures brands == old(brands) && models == old(models) && years == old(years)
      ensures loading == old(loading)
      ensures reported == Current()
      ensures fetch == (if year.IsSet() && selectedBrand != "" && selectedModel != ""
                        then FetchEngineTypes(selectedBrand, selectedModel, year.value) else NoFetch)
      ensures KeysSet(fetch)
      ensures old(FilledPrefix()) && old(!YearDisabled()) ==> FilledPrefix()
    {
      selectedYear := year;
      selectedEngineType := "";
      engineTypes := [];
      fetch := if year.IsSet() && selectedBrand != "" && selectedModel != ""
               then LoadEngineTypes(selectedBrand, selectedModel, year) else NoFetch;
      reported := Selection(selectedBrand, selectedModel, year, "");
    }

    /** An engine type was picked: only it changes, and the whole selection is reported. */
    method HandleEngineTypeChange(engineType: string) returns (reported: Selection)
      modifies this
      ensures Current() == Selection(old(selectedBrand), old(selectedModel), old(selectedYear), engineType)
      ensures Options() == old(Options()) && loading == old(loading)
      ensures reported == Current()
      ensures old(FilledPrefix()) && old(!EngineTypeDisabled()) ==> FilledPrefix()
    {
      selectedEngineType := engineType;
      reported := Selection(selectedBrand, selectedModel, selectedYear, engineType);
    }

    /** The model fetch ended: its data (`null` as empty) replaces the list; a failure keeps it. */
    method OnModelsLoaded(result: LoadResult<string>)
      modifies this
      ensures models == (if result.Loaded? then result.data.GetOr([]) else old(models))
      ensures brands == old(brands) && years == old(years) && engineTypes == old(engineTypes)
      ensures Current() == old(Current()) && loading == old(loading)
    {
      if result.Loaded? {
        models := result.data.GetOr([]);
      }
    }

    /** The year fetch ended: its data (`null` as empty) replaces the list; a failure keeps it. */
    method OnYearsLoaded(result: LoadResult<int>)
      modifies this
      ensures years == (if result.Loaded? then result.data.GetOr([]) else old(years))
      ensures brands == old(brands) && models == old(models) && engineTypes == old(engineTypes)
      ensures Current() == old(Current()) && loading == old(loading)
    {
      if result.Loaded? {
        years := result.data.GetOr([]);
      }
    }

    /** The engine-type fetch ended: its data (`null` as empty) replaces the list; a failure keeps it. */
    method OnEngineTypesLoaded(result: LoadResult<string>)
      modifies this
      ensures engineTypes == (if result.Loaded? then result.data.GetOr([]) else old(engineTypes))
      ensures brands == old(brands) && models == old(models) && years == old(years)
      ensures Current() == old(Current()) && loading == old(loading)
    {
      if result.Loaded? {
        engineTypes := result.data.GetOr([]);
      }
    }
  }
}
