/** The brewery service: a read-only view of the `breweries` table. Its
    mapper is not part of this model and is a parameter of each operation. */
module BreweryService {
  import opened Wrappers
  import opened Errors
  import Store
  import Entity
  import BreweryDto

  type Mapping = Entity.Brewery -> BreweryDto.BreweryDTO

  /** `getAllBreweries`: every stored brewery mapped to its record, in listing order. */
  function GetAllBreweries(breweries: map<int, Entity.Brewery>, toDTO: Mapping): (r: seq<BreweryDto.BreweryDTO>)
    ensures |r| == |breweries|
    ensures breweries == map[] ==> r == []
    ensures forall i :: 0 <= i < |r| ==> r[i] == toDTO(breweries[Store.SortedIds(breweries.Keys)[i]])
  {
    Store.MapAll(breweries, toDTO)
  }

  /** `getBreweryById`: the mapped brewery, or not-found for an unknown id. */
  function GetBreweryById(breweries: map<int, Entity.Brewery>, toDTO: Mapping, id: int): (r: Result<BreweryDto.BreweryDTO, Error>)
    ensures r.Success? <==> id in breweries
    ensures r.Success? ==> r.value == toDTO(breweries[id])
    ensures r.Failure? ==> r.error == NotFound(BreweryKind, id)
  {
    Store.Lookup(breweries, toDTO, BreweryKind, id)
  }

  /** The listing holds exactly the records that some lookup by id returns. */
  lemma ListingAgreesWithLookup(breweries: map<int, Entity.Brewery>, toDTO: Mapping)
    ensures forall d :: d in GetAllBreweries(breweries, toDTO) <==>
                        exists id :: GetBreweryById(breweries, toDTO, id) == Success(d)
  {
    Store.ListingAgreesWithLookup(breweries, toDTO, BreweryKind);
    forall d | exists id :: Store.Lookup(breweries, toDTO, BreweryKind, id) == Success(d)
      ensures exists id :: GetBreweryById(breweries, toDTO, id) == Success(d)
    {
      var id :| Store.Lookup(breweries, toDTO, BreweryKind, id) == Success(d);
      assert GetBreweryById(breweries, toDTO, id) == Success(d);
    }
  }
}
