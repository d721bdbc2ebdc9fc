/** The style service: a read-only view of the `styles` table. Its
    mapper is not part of this model and is a parameter of each operation. */
module StyleService {
  import opened Wrappers
  import opened Errors
  import Store
  import Entity
  import BeerDto

  type Mapping = Entity.Style -> BeerDto.StyleDTO

  /** `getAllStyles`: every stored style mapped to its record, in listing order. */
  function GetAllStyles(styles: map<int, Entity.Style>, toDTO: Mapping): (r: seq<BeerDto.StyleDTO>)
    ensures |r| == |styles|
    ensures styles == map[] ==> r == []
    ensures forall i :: 0 <= i < |r| ==> r[i] == toDTO(styles[Store.SortedIds(styles.Keys)[i]])
  {
    Store.MapAll(styles, toDTO)
  }

  /** `getStyleById`: the mapped style, or not-found for an unknown id. */
  function GetStyleById(styles: map<int, Entity.Style>, toDTO: Mapping, id: int): (r: Result<BeerDto.StyleDTO, Error>)
    ensures r.Success? <==> id in styles
    ensures r.Success? ==> r.value == toDTO(styles[id])
    ensures r.Failure? ==> r.error == NotFound(StyleKind, id)
  {
    Store.Lookup(styles, toDTO, StyleKind, id)
  }

  /** The listing holds exactly the records that some lookup by id returns. */
  lemma ListingAgreesWithLookup(styles: map<int, Entity.Style>, toDTO: Mapping)
    ensures forall d :: d in GetAllStyles(styles, toDTO) <==>
                        exists id :: GetStyleById(styles, toDTO, id) == Success(d)
  {
    Store.ListingAgreesWithLookup(styles, toDTO, StyleKind);
    forall d | exists id :: Store.Lookup(styles, toDTO, StyleKind, id) == Success(d)
      ensures exists id :: GetStyleById(styles, toDTO, id) == Success(d)
    {
      var id :| Store.Lookup(styles, toDTO, StyleKind, id) == Success(d);
      assert GetStyleById(styles, toDTO, id) == Success(d);
    }
  }
}
