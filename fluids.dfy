/**
 * The fluid service: an in-memory table of fluid recommendations with filter
 * queries and in-place create, update and delete.
 */
module Fluids {
  import opened Wrappers
  import opened Seqs

  datatype Product = Product(id: int, name: string, brand: string, imageUrl: string, purchaseUrl: string)

  /** One row of the fluid table. */
  datatype Fluid = Fluid(id: int, vehicleId: int, fluidType: string, specification: string,
                         volume: string, products: seq<Product>)

  /** What `create` is given: every field of a fluid except its Id. */
  datatype FluidData = FluidData(vehicleId: int, fluidType: string, specification: string,
                                 volume: string, products: seq<Product>)

  /** What `update` is given: the fields to overwrite; `None` leaves a field as it was. */
  datatype FluidPatch = FluidPatch(id: Option<int>, vehicleId: Option<int>, fluidType: Option<string>,
                                   specification: Option<string>, volume: Option<string>,
                                   products: Option<seq<Product>>)

  /** `{ ...f, ...patch }`: the patch's fields override, the others are kept. */
  function Merge(f: Fluid, patch: FluidPatch): (r: Fluid)
    ensures r.id == (if patch.id.Some? then patch.id.value else f.id)
    ensures r.vehicleId == (if patch.vehicleId.Some? then patch.vehicleId.value else f.vehicleId)
    ensures r.fluidType == (if patch.fluidType.Some? then patch.fluidType.value else f.fluidType)
    ensures r.specification == (if patch.specification.Some? then patch.specification.value else f.specification)
    ensures r.volume == (if patch.volume.Some? then patch.volume.value else f.volume)
    ensures r.products == (if patch.products.Some? then patch.products.value else f.products)
    ensures patch == FluidPatch(None, None, None, None, None, None) ==> r == f
  {
    Fluid(patch.id.GetOr(f.id), patch.vehicleId.GetOr(f.vehicleId), patch.fluidType.GetOr(f.fluidType),
          patch.specification.GetOr(f.specification), patch.volume.GetOr(f.volume),
          patch.products.GetOr(f.products))
  }

  /** The largest Id in a non-empty table (`Math.max(...ids)`). */
  function MaxId(fluids: seq<Fluid>): (m: int)
    requires |fluids| > 0
    ensures forall f :: f in fluids ==> f.id <= m
    ensures exists f :: f in fluids && f.id == m
  {
    if |fluids| == 1 then fluids[0].id
    else
      var rest := MaxId(fluids[1..]);
      assert forall f :: f in fluids <==> f == fluids[0] || f in fluids[1..];
      if fluids[0].id > rest then fluids[0].id else rest
  }

  class FluidService {
    /** The table, in insertion order. */
    var fluids: seq<Fluid>

    constructor (table: seq<Fluid>)
      ensures fluids == table
    {
      fluids := table;
    }

    /** Every record, in table order; the table is left as it is. */
    method GetAll() returns (r: seq<Fluid>)
      ensures r == fluids
    {
      r := fluids;
    }

    /** The first record with Id `id`, or `None` for `null`. */
    function GetById(id: int): (r: Option<Fluid>)
      reads this
      ensures r.None? <==> forall f :: f in fluids ==> f.id != id
      ensures r.Some? ==>
        r.value.id == id &&
        (exists i :: 0 <= i < |fluids| && fluids[i] == r.value &&
           forall j :: 0 <= j < i ==> fluids[j].id != id)
    {
      Find(fluids, (f: Fluid) => f.id == id)
    }

    /** The records of vehicle `vehicleId`, all of them, in table order. */
    function GetByVehicleId(vehicleId: int): (r: seq<Fluid>)
      reads this
      ensures forall f :: f in r <==> f in fluids && f.vehicleId == vehicleId
      ensures forall f: Fluid :: f.vehicleId == vehicleId ==> multiset(r)[f] == multiset(fluids)[f]
      ensures IsSubsequence(r, fluids)
    {
      Filter(fluids, (f: Fluid) => f.vehicleId == vehicleId)
    }

    /** The records of fluid type `fluidType`, all of them, in table order. */
    function GetByType(fluidType: string): (r: seq<Fluid>)
      reads this
      ensures forall f :: f in r <==> f in fluids && f.fluidType == fluidType
      ensures forall f: Fluid :: f.fluidType == fluidType ==> multiset(r)[f] == multiset(fluids)[f]
      ensures IsSubsequence(r, fluids)
    {
      Filter(fluids, (f: Fluid) => f.fluidType == fluidType)
    }

    /**
     * Appends a record built from `data` with Id one more than the largest Id
     * in the table, and returns it. The table must not be empty: the source
     * computes `Math.max()` of no Ids as `-Infinity` there.
     */
    method Create(data: FluidData) returns (r: Fluid)
      requires |fluids| > 0
      modifies this
      ensures fluids == old(fluids) + [r]
      ensures r.id == MaxId(old(fluids)) + 1
      ensures forall f :: f in old(fluids) ==> f.id < r.id
      ensures r.vehicleId == data.vehicleId && r.fluidType == data.fluidType &&
              r.specification == data.specification && r.volume == data.volume &&
              r.products == data.products
    {
      var newId := MaxId(fluids) + 1;
      r := Fluid(newId, data.vehicleId, data.fluidType, data.specification, data.volume, data.products);
      fluids := fluids + [r];
    }

    /**
     * Merges `patch` into the first record with Id `id` and returns the merged
     * record; returns `None` and leaves the table alone when no record has it.
     */
    method Update(id: int, patch: FluidPatch) returns (r: Option<Fluid>)
      modifies this
      ensures r.None? <==> forall f :: f in old(fluids) ==> f.id != id
      ensures r.None? ==> fluids == old(fluids)
      ensures r.Some? ==>
        exists i :: 0 <= i < |old(fluids)| && old(fluids)[i].id == id &&
          (forall j :: 0 <= j < i ==> old(fluids)[j].id != id) &&
          r.value == Merge(old(fluids)[i], patch) &&
          fluids == old(fluids)[i := r.value]
    {
      var index := FindIndex(fluids, (f: Fluid) => f.id == id);
      match index
      case None =>
        r := None;
      case Some(i) =>
        fluids := fluids[i := Merge(fluids[i], patch)];
        r := Some(fluids[i]);
    }

    /**
     * Removes the first record with Id `id` and returns it; returns `None` and
     * leaves the table alone when no record has it.
     */
    method Delete(id: int) returns (r: Option<Fluid>)
      modifies this
      ensures r.None? <==> forall f :: f in old(fluids) ==> f.id != id
      ensures r.None? ==> fluids == old(fluids)
      ensures r.Some? ==>
        exists i :: 0 <= i < |old(fluids)| && old(fluids)[i].id == id &&
          (forall j :: 0 <= j < i ==> old(fluids)[j].id != id) &&
          r.value == old(fluids)[i] &&
          fluids == old(fluids)[..i] + old(fluids)[i + 1..]
      ensures r.Some? ==> |fluids| == |old(fluids)| - 1
    {
      var index := FindIndex(fluids, (f: Fluid) => f.id == id);
      match index
      case None =>
        r := None;
      case Some(i) =>
        r := Some(fluids[i]);
        fluids := fluids[..i] + fluids[i + 1..];
    }
  }
}
