/** The category service: a read-only view of the `categories` table. Its
    mapper is not part of this model and is a parameter of each operation. */
module CategoryService {
  import opened Wrappers
  import opened Errors
  import Store
  import Entity
  import BeerDto

  type Mapping = Entity.Category -> BeerDto.CategoryDTO

  /** `getAllCategories`: every stored category mapped to its record, in listing order. */
  function GetAllCategories(categories: map<int, Entity.Category>, toDTO: Mapping): (r: seq<BeerDto.CategoryDTO>)
    ensures |r| == |categories|
    ensures categories == map[] ==> r == []
    ensures forall i :: 0 <= i < |r| ==> r[i] == toDTO(categories[Store.SortedIds(categories.Keys)[i]])
  {
    Store.MapAll(categories, toDTO)
  }

  /** `getCategoryById`: the mapped category, or not-found for an unknown id. */
  function GetCategoryById(categories: map<int, Entity.Category>, toDTO: Mapping, id: int): (r: Result<BeerDto.CategoryDTO, Error>)
    ensures r.Success? <==> id in categories
    ensures r.Success? ==> r.value == toDTO(categories[id])
    ensures r.Failure? ==> r.error == NotFound(CategoryKind, id)
  {
    Store.Lookup(categories, toDTO, CategoryKind, id)
  }

  /** The listing holds exactly the records that some lookup by id returns. */
  lemma ListingAgreesWithLookup(categories: map<int, Entity.Category>, toDTO: Mapping)
    ensures forall d :: d in GetAllCategories(categories, toDTO) <==>
                        exists id :: GetCategoryById(categories, toDTO, id) == Success(d)
  {
    Store.ListingAgreesWithLookup(categories, toDTO, CategoryKind);
    forall d | exists id :: Store.Lookup(categories, toDTO, CategoryKind, id) == Success(d)
      ensures exists id :: GetCategoryById(categories, toDTO, id) == Success(d)
    {
      var id :| Store.Lookup(categories, toDTO, CategoryKind, id) == Success(d);
      assert GetCategoryById(categories, toDTO, id) == Success(d);
    }
  }
}
