/**
 * The vehicle service: catalogue queries over an in-memory table of vehicles,
 * and the recent-vehicles list it keeps in the browser's local storage.
 */
module Vehicles {
  import opened Wrappers
  import opened Seqs
  import opened Ordering
  import opened Recent

  /** One row of the vehicle catalogue. */
  datatype Vehicle = Vehicle(id: int, brand: string, model: string, year: int, engineType: string)

  /** The exact-match test of `getBySpecs`: all four fields equal. */
  predicate MatchesSpecs(v: Vehicle, brand: string, model: string, year: int, engineType: string) {
    v.brand == brand && v.model == model && v.year == year && v.engineType == engineType
  }

  class VehicleService {
    /** The catalogue table; the service never changes it. */
    const vehicles: seq<Vehicle>
    /**
     * The local-storage entry `recentVehicles`, already parsed: `None` while the
     * key is absent.
     */
    var storedRecent: Option<seq<Spec>>

    constructor (table: seq<Vehicle>, stored: Option<seq<Spec>>)
      ensures vehicles == table && storedRecent == stored
    {
      vehicles := table;
      storedRecent := stored;
    }

    /** Every brand in the table once, in ascending order. */
    function GetBrands(): (r: seq<string>)
      ensures StrictlyAscending(r)
      ensures forall b :: b in r <==> exists v :: v in vehicles && v.brand == b
    {
      SortedDistinct(Map(vehicles, (v: Vehicle) => v.brand))
    }

    /** The models of brand `brand`, each once, ascending. */
    function GetModels(brand: string): (r: seq<string>)
      ensures StrictlyAscending(r)
      ensures forall m :: m in r <==> exists v :: v in vehicles && v.brand == brand && v.model == m
      ensures r == [] <==> forall v :: v in vehicles ==> v.brand != brand
    {
      var rows := Filter(vehicles, (v: Vehicle) => v.brand == brand);
      var r := SortedDistinct(Map(rows, (v: Vehicle) => v.model));
      assert r == [] <==> forall v :: v in vehicles ==> v.brand != brand by {
        if r != [] { assert r[0] in r; }
      }
      r
    }

    /** The years of `brand` `model`, each once, newest first. */
    function GetYears(brand: string, model: string): (r: seq<int>)
      ensures StrictlyDescending(r)
      ensures forall y :: y in r <==>
                exists v :: v in vehicles && v.brand == brand && v.model == model && v.year == y
    {
      var rows := Filter(vehicles, (v: Vehicle) => v.brand == brand && v.model == model);
      SortedDistinctDescending(Map(rows, (v: Vehicle) => v.year))
    }

    /** The engine types of `brand` `model` of `year`, each once, ascending. */
    function GetEngineTypes(brand: string, model: string, year: int): (r: seq<string>)
      ensures StrictlyAscending(r)
      ensures forall e :: e in r <==>
                exists v :: v in vehicles && v.brand == brand && v.model == model &&
                            v.year == year && v.engineType == e
    {
      var rows := Filter(vehicles, (v: Vehicle) => v.brand == brand && v.model == model && v.year == year);
      SortedDistinct(Map(rows, (v: Vehicle) => v.engineType))
    }

    /** The first vehicle whose four fields all equal the arguments, or `None` for `null`. */
    function GetBySpecs(brand: string, model: string, year: int, engineType: string): (r: Option<Vehicle>)
      ensures r.None? <==> forall v :: v in vehicles ==> !MatchesSpecs(v, brand, model, year, engineType)
      ensures r.Some? ==>
        MatchesSpecs(r.value, brand, model, year, engineType) &&
        (exists i :: 0 <= i < |vehicles| && vehicles[i] == r.value &&
           forall j :: 0 <= j < i ==> !MatchesSpecs(vehicles[j], brand, model, year, engineType))
    {
      Find(vehicles, (v: Vehicle) => MatchesSpecs(v, brand, model, year, engineType))
    }

    /** The first vehicle with Id `id`, or `None` for `null`. */
    function GetById(id: int): (r: Option<Vehicle>)
      ensures r.None? <==> forall v :: v in vehicles ==> v.id != id
      ensures r.Some? ==>
        r.value.id == id &&
        (exists i :: 0 <= i < |vehicles| && vehicles[i] == r.value &&
           forall j :: 0 <= j < i ==> vehicles[j].id != id)
    {
      Find(vehicles, (v: Vehicle) => v.id == id)
    }

    /** The stored list, or the empty list while nothing is stored. */
    function GetRecentVehicles(): (r: seq<Spec>)
      reads this
      ensures storedRecent.None? ==> r == []
      ensures storedRecent.Some? ==> r == storedRecent.value
    {
      storedRecent.GetOr([])
    }

    /**
     * Records `v`: removes the entries equal to it, puts it in front, keeps the
     * first five, stores the list and returns it.
     */
    method AddRecentVehicle(v: Spec) returns (r: seq<Spec>)
      modifies this
      ensures r == AddedRecent(old(GetRecentVehicles()), v)
      ensures storedRecent == Some(r) && GetRecentVehicles() == r
      ensures |r| <= Limit && r[0] == v
      ensures forall i :: 1 <= i < |r| ==> r[i] != v
    {
      var recent := GetRecentVehicles();
      recent := Without(recent, v);
      recent := [v] + recent;
      recent := recent[..if |recent| < Limit then |recent| else Limit];
      storedRecent := Some(recent);
      r := recent;
      AddedRecentFront(old(GetRecentVehicles()), v);
    }

    /** Removes the stored list; reading it afterwards gives the empty list. */
    method ClearRecentVehicles()
      modifies this
      ensures storedRecent == None
      ensures GetRecentVehicles() == []
    {
      storedRecent := None;
    }
  }
}
