/** The beer service: list, look up, create, fully replace, partially
    update and delete beers, resolving the brewery, style and category a
    request names against their tables. Each operation runs in one
    transaction, so it either completes or leaves the store as it was. */
module BeerService {
  import opened Wrappers
  import opened Entity
  import opened Errors
  import opened BeerDto
  import Store
  import JavaText

  /** The conversions between the wire record and the stored entity. Their
      implementation is not part of this model, so the service is described
      for every choice of the three functions. `updateEntity` returns the
      entity after the mapper has copied the request into it. */
  datatype BeerMapper = BeerMapper(
    toEntity: BeerDTO -> Beer,
    toDTO: Beer -> BeerDTO,
    updateEntity: (BeerDTO, Beer) -> Beer)

  /** An omitted id, or one present in its table. */
  predicate Resolves<T>(id: Option<int>, table: map<int, T>) {
    id.None? || id.value in table
  }

  /** The reference a request leaves on the entity: the looked-up record when
      the request names an id, `otherwise` when it omits it. */
  function Attached<T>(id: Option<int>, table: map<int, T>, otherwise: Option<T>): Option<T>
    requires Resolves(id, table)
  {
    if id.Some? then Some(table[id.value]) else otherwise
  }

  /** A field of a partial update: the supplied value, or the stored one when omitted. */
  function Merge<T>(supplied: Option<T>, stored: Option<T>): Option<T> {
    if supplied.Some? then supplied else stored
  }

  /** The first reference id of a request that fails to resolve, in the
      order the service looks them up: brewery, style, category. */
  ghost function MissingReference(dto: BeerDTO, breweries: map<int, Brewery>,
                                  styles: map<int, Style>, categories: map<int, Category>): Option<Error>
  {
    if !Resolves(dto.breweryId, breweries) then Some(NotFound(BreweryKind, dto.breweryId.value))
    else if !Resolves(dto.styleId, styles) then Some(NotFound(StyleKind, dto.styleId.value))
    else if !Resolves(dto.categoryId, categories) then Some(NotFound(CategoryKind, dto.categoryId.value))
    else None
  }

  /** Every record of a reference table sits under its own id. */
  predicate KeyedById(breweries: map<int, Brewery>, styles: map<int, Style>, categories: map<int, Category>) {
    && (forall k :: k in breweries ==> breweries[k].id == k)
    && (forall k :: k in styles ==> styles[k].id == k)
    && (forall k :: k in categories ==> categories[k].id == k)
  }

  /** Whether the foreign keys of the `beers` table accept a row: each join
      column is null or names, by id, a row of the table it references. */
  predicate Joinable(b: Beer, breweries: map<int, Brewery>, styles: map<int, Style>, categories: map<int, Category>) {
    && (b.brewery.None? || b.brewery.value.id in breweries)
    && (b.style.None? || b.style.value.id in styles)
    && (b.category.None? || b.category.value.id in categories)
  }

  /** Each reference of a row is the record its table holds under the reference's id. */
  predicate Linked(b: Beer, breweries: map<int, Brewery>, styles: map<int, Style>, categories: map<int, Category>) {
    && (b.brewery.Some? ==> b.brewery.value.id in breweries && breweries[b.brewery.value.id] == b.brewery.value)
    && (b.style.Some? ==> b.style.value.id in styles && styles[b.style.value.id] == b.style.value)
    && (b.category.Some? ==> b.category.value.id in categories && categories[b.category.value.id] == b.category.value)
  }

  /** A row as the `beers` table holds it once written: a join column keeps
      only the id of the record it points at, so a later read yields the
      referenced table's record under that id. */
  function Joined(b: Beer, breweries: map<int, Brewery>, styles: map<int, Style>, categories: map<int, Category>): (j: Beer)
    requires Joinable(b, breweries, styles, categories)
    ensures j.(brewery := b.brewery, style := b.style, category := b.category) == b
    ensures j.brewery.Some? == b.brewery.Some? && j.style.Some? == b.style.Some? && j.category.Some? == b.category.Some?
    ensures KeyedById(breweries, styles, categories) ==> Linked(j, breweries, styles, categories)
    ensures Linked(b, breweries, styles, categories) ==> j == b
  {
    b.(brewery := if b.brewery.Some? then Some(breweries[b.brewery.value.id]) else None,
       style := if b.style.Some? then Some(styles[b.style.value.id]) else None,
       category := if b.category.Some? then Some(categories[b.category.value.id]) else None)
  }

  /** A request whose name passed validation gives a row the name column
      accepts, provided the mapper copies that name. */
  lemma ValidNameStorable(dto: BeerDTO, b: Beer)
    requires ValidBeerDTO(dto) && b.name == dto.name
    ensures Storable(b) && ColumnViolation(b).None?
  {
    ValidHasName(dto);
  }

  class BeerService {
    /** The `beers` table, keyed by identity. */
    var beers: map<int, Beer>
    /** The next value of the identity column. */
    var nextBeerId: int
    /** The reference tables: seeded outside this API and only read by it. */
    const breweries: map<int, Brewery>
    const styles: map<int, Style>
    const categories: map<int, Category>
    const mapper: BeerMapper

    /** The reference tables are keyed by their ids, and every beer row sits
        under its own id, below the next identity value, fits the columns of
        the table, and points only at records its reference tables hold. */
    ghost predicate Valid()
      reads this
    {
      && KeyedById(breweries, styles, categories)
      && forall id :: id in beers ==>
           beers[id].id == id && id < nextBeerId && Storable(beers[id])
           && Linked(beers[id], breweries, styles, categories)
    }

    constructor (beers: map<int, Beer>, nextBeerId: int, breweries: map<int, Brewery>,
                 styles: map<int, Style>, categories: map<int, Category>, mapper: BeerMapper)
      requires KeyedById(breweries, styles, categories)
      requires forall id :: id in beers ==>
                 beers[id].id == id && id < nextBeerId && Storable(beers[id])
                 && Linked(beers[id], breweries, styles, categories)
      ensures Valid()
      ensures this.beers == beers && this.nextBeerId == nextBeerId
      ensures this.breweries == breweries && this.styles == styles && this.categories == categories
      ensures this.mapper == mapper
    {
      this.beers := beers;
      this.nextBeerId := nextBeerId;
      this.breweries := breweries;
      this.styles := styles;
      this.categories := categories;
      this.mapper := mapper;
    }

    /** `getAllBeers`: every stored beer mapped to its record, in listing order. */
    function GetAllBeers(): (r: seq<BeerDTO>)
      reads this
      ensures |r| == |beers|
      ensures beers == map[] ==> r == []
      ensures forall i :: 0 <= i < |r| ==> r[i] == mapper.toDTO(beers[Store.SortedIds(beers.Keys)[i]])
    {
      Store.MapAll(beers, mapper.toDTO)
    }

    /** `getBeerById`: the mapped beer, or not-found for an unknown id. */
    function GetBeerById(id: int): (r: Result<BeerDTO, Error>)
      reads this
      ensures r.Success? <==> id in beers
      ensures r.Success? ==> r.value == mapper.toDTO(beers[id])
      ensures r.Failure? ==> r.error == NotFound(BeerKind, id)
    {
      Store.Lookup(beers, mapper.toDTO, BeerKind, id)
    }

    /** The listing holds exactly the records that some lookup by id returns. */
    lemma ListingAgreesWithLookup()
      ensures forall d :: d in GetAllBeers() <==> exists id :: GetBeerById(id) == Success(d)
    {
      Store.ListingAgreesWithLookup(beers, mapper.toDTO, BeerKind);
      forall d | exists id :: Store.Lookup(beers, mapper.toDTO, BeerKind, id) == Success(d)
        ensures exists id :: GetBeerById(id) == Success(d)
      {
        var id :| Store.Lookup(beers, mapper.toDTO, BeerKind, id) == Success(d);
        assert GetBeerById(id) == Success(d);
      }
    }

    /** The entity after the reference lookups of a request that names only
        known ids: each named reference is its table's record; an omitted one
        is cleared when `clearOmitted` holds and kept otherwise. */
    function Attach(b: Beer, dto: BeerDTO, clearOmitted: bool): Beer
      requires MissingReference(dto, breweries, styles, categories).None?
    {
      b.(brewery := Attached(dto.breweryId, breweries, if clearOmitted then None else b.brewery),
         style := Attached(dto.styleId, styles, if clearOmitted then None else b.style),
         category := Attached(dto.categoryId, categories, if clearOmitted then None else b.category))
    }

    /** The lookups leave a row pointing only at records its tables hold. */
    lemma AttachKeepsLinked(b: Beer, dto: BeerDTO, clearOmitted: bool)
      requires KeyedById(breweries, styles, categories)
      requires MissingReference(dto, breweries, styles, categories).None?
      requires clearOmitted || Linked(b, breweries, styles, categories)
      ensures Linked(Attach(b, dto, clearOmitted), breweries, styles, categories)
    {
      var a := Attach(b, dto, clearOmitted);
      if dto.breweryId.Some? {
        var k := dto.breweryId.value;
        assert a.brewery == Some(breweries[k]) && breweries[k].id == k;
      }
      if dto.styleId.Some? {
        var k := dto.styleId.value;
        assert a.style == Some(styles[k]) && styles[k].id == k;
      }
      if dto.categoryId.Some? {
        var k := dto.categoryId.value;
        assert a.category == Some(categories[k]) && categories[k].id == k;
      }
    }

    /** The reference lookups the three write operations share: for brewery,
        style and category in turn, a named id is looked up (the first unknown
        one ends the operation with not-found) and the found record attached;
        an omitted id clears the reference when `clearOmitted` holds (full
        replacement) and leaves it as it is otherwise. Nothing is written. */
    method AttachReferences(beer: Beer, dto: BeerDTO, clearOmitted: bool) returns (r: Result<Beer, Error>)
      ensures r.Success? <==> MissingReference(dto, breweries, styles, categories).None?
      ensures r.Failure? ==> r.error == MissingReference(dto, breweries, styles, categories).value
      ensures r.Success? ==> r.value == Attach(beer, dto, clearOmitted)
    {
      var attached := beer;
      if dto.breweryId.Some? {
        var brewery :- Store.FindById(breweries, BreweryKind, dto.breweryId.value);
        attached := attached.(brewery := Some(brewery));
      } else if clearOmitted {
        attached := attached.(brewery := None);
      }
      if dto.styleId.Some? {
        var style :- Store.FindById(styles, StyleKind, dto.styleId.value);
        attached := attached.(style := Some(style));
      } else if clearOmitted {
        attached := attached.(style := None);
      }
      if dto.categoryId.Some? {
        var category :- Store.FindById(categories, CategoryKind, dto.categoryId.value);
        attached := attached.(category := Some(category));
      } else if clearOmitted {
        attached := attached.(category := None);
      }
      r := Success(attached);
    }

    /** `createBeer`: map the request to an entity, attach each reference whose
        id the request names (brewery, style, category, stopping at the first
        unknown id), and insert the entity under a fresh identity value. A
        reference the mapper set for an omitted id is written as it stands:
        its join column must name a row of its table, and a later read yields
        that row. The saved entity itself is what is mapped back. */
    method CreateBeer(dto: BeerDTO) returns (r: Result<BeerDTO, Error>)
      requires Valid() && ValidBeerDTO(dto)
      modifies this
      ensures Valid()
      ensures MissingReference(dto, breweries, styles, categories).Some? ==>
                r == Failure(MissingReference(dto, breweries, styles, categories).value)
      ensures MissingReference(dto, breweries, styles, categories).None? ==>
                var entity := Attach(mapper.toEntity(dto), dto, false);
                && (r.Success? <==> Storable(entity) && Joinable(entity, breweries, styles, categories))
                && (!Storable(entity) ==> r == Failure(Rejected(ColumnViolation(entity).value)))
                && (Storable(entity) && !Joinable(entity, breweries, styles, categories) ==>
                      r == Failure(Rejected(UnknownReference)))
      ensures r.Failure? ==> beers == old(beers) && nextBeerId == old(nextBeerId)
      ensures r.Success? ==>
                var key := old(nextBeerId);
                var saved := Attach(mapper.toEntity(dto), dto, false).(id := key);
                && key !in old(beers)
                && nextBeerId == key + 1
                && beers == old(beers)[key := Joined(saved, breweries, styles, categories)]
                && r.value == mapper.toDTO(saved)
                && GetBeerById(key) == Success(mapper.toDTO(beers[key]))
                && (Linked(saved, breweries, styles, categories) ==> GetBeerById(key) == r)
    {
      var beer :- AttachReferences(mapper.toEntity(dto), dto, false);
      var violation := ColumnViolation(beer);
      if violation.Some? {
        return Failure(Rejected(violation.value));
      }
      if !Joinable(beer, breweries, styles, categories) {
        return Failure(Rejected(UnknownReference));
      }
      var key := nextBeerId;
      beer := beer.(id := key);
      beers := beers[key := Joined(beer, breweries, styles, categories)];
      nextBeerId := nextBeerId + 1;
      r := Success(mapper.toDTO(beer));
    }

    /** `updateBeer`: full replacement. The mapper copies the request into the
        stored entity; then each reference is the looked-up record when the
        request names its id and is cleared when it omits it. */
    method UpdateBeer(id: int, dto: BeerDTO) returns (r: Result<BeerDTO, Error>)
      requires Valid() && ValidBeerDTO(dto)
      modifies this
      ensures Valid() && nextBeerId == old(nextBeerId)
      ensures id !in old(beers) ==> r == Failure(NotFound(BeerKind, id))
      ensures id in old(beers) && MissingReference(dto, breweries, styles, categories).Some? ==>
                r == Failure(MissingReference(dto, breweries, styles, categories).value)
      ensures r.Success? <==> id in old(beers) && MissingReference(dto, breweries, styles, categories).None?
                              && UpdateViolation(id, mapper.updateEntity(dto, old(beers)[id])).None?
      ensures id in old(beers) && MissingReference(dto, breweries, styles, categories).None?
              && UpdateViolation(id, mapper.updateEntity(dto, old(beers)[id])).Some? ==>
                r == Failure(Rejected(UpdateViolation(id, mapper.updateEntity(dto, old(beers)[id])).value))
      ensures r.Failure? ==> beers == old(beers)
      ensures r.Success? ==>
                var mapped := mapper.updateEntity(dto, old(beers)[id]);
                && id in beers && beers == old(beers)[id := beers[id]]
                && beers[id] == mapped.(brewery := beers[id].brewery, style := beers[id].style,
                                        category := beers[id].category)
                && beers[id].brewery == Attached(dto.breweryId, breweries, None)
                && beers[id].style == Attached(dto.styleId, styles, None)
                && beers[id].category == Attached(dto.categoryId, categories, None)
                && r.value == mapper.toDTO(beers[id])
    {
      var beer :- Store.FindById(beers, BeerKind, id);
      beer :- AttachReferences(mapper.updateEntity(dto, beer), dto, true);
      var violation := UpdateViolation(id, beer);
      if violation.Some? {
        return Failure(Rejected(violation.value));
      }
      beers := beers[id := beer];
      r := Success(mapper.toDTO(beer));
    }

    /** `partialUpdateBeer`: merge. Each of name, description, abv and ibu is
        overwritten only when the request supplies it; each reference is
        replaced only when the request names its id. The request is not
        validated on this path. */
    method PartialUpdateBeer(id: int, dto: BeerDTO) returns (r: Result<BeerDTO, Error>)
      requires Valid()
      modifies this
      ensures Valid() && nextBeerId == old(nextBeerId)
      ensures id !in old(beers) ==> r == Failure(NotFound(BeerKind, id))
      ensures id in old(beers) && MissingReference(dto, breweries, styles, categories).Some? ==>
                r == Failure(MissingReference(dto, breweries, styles, categories).value)
      ensures r.Success? <==> id in old(beers) && MissingReference(dto, breweries, styles, categories).None?
                              && (dto.name.None? || JavaText.Utf16Length(dto.name.value) <= NameColumnLength)
      ensures id in old(beers) && MissingReference(dto, breweries, styles, categories).None?
              && dto.name.Some? && JavaText.Utf16Length(dto.name.value) > NameColumnLength ==>
                r == Failure(Rejected(NameTooLong))
      ensures r.Failure? ==> beers == old(beers)
      ensures r.Success? ==>
                var was := old(beers)[id];
                && id in beers && beers == old(beers)[id := beers[id]]
                && beers[id].id == id
                && beers[id].name == Merge(dto.name, was.name)
                && beers[id].description == Merge(dto.description, was.description)
                && beers[id].abv == Merge(dto.abv, was.abv)
                && beers[id].ibu == Merge(dto.ibu, was.ibu)
                && beers[id].brewery == Attached(dto.breweryId, breweries, was.brewery)
                && beers[id].style == Attached(dto.styleId, styles, was.style)
                && beers[id].category == Attached(dto.categoryId, categories, was.category)
                && r.value == mapper.toDTO(beers[id])
    {
      var beer :- Store.FindById(beers, BeerKind, id);
      if dto.name.Some? {
        beer := beer.(name := dto.name);
      }
      if dto.description.Some? {
        beer := beer.(description := dto.description);
      }
      if dto.abv.Some? {
        beer := beer.(abv := dto.abv);
      }
      if dto.ibu.Some? {
        beer := beer.(ibu := dto.ibu);
      }
      ghost var merged := beer;
      beer :- AttachReferences(beer, dto, false);
      AttachKeepsLinked(merged, dto, false);
      var violation := UpdateViolation(id, beer);
      if violation.Some? {
        return Failure(Rejected(violation.value));
      }
      beers := beers[id := beer];
      r := Success(mapper.toDTO(beer));
    }

    /** `deleteBeer`: remove the row, or not-found for an unknown id. Either
        way a later lookup of the id fails. */
    method DeleteBeer(id: int) returns (r: Result<(), Error>)
      requires Valid()
      modifies this
      ensures Valid() && nextBeerId == old(nextBeerId)
      ensures r.Success? <==> id in old(beers)
      ensures r.Success? ==> beers == old(beers) - {id}
      ensures r.Failure? ==> r == Failure(NotFound(BeerKind, id)) && beers == old(beers)
      ensures GetBeerById(id) == Failure(NotFound(BeerKind, id))
    {
      var beer :- Store.FindById(beers, BeerKind, id);
      beers := beers - {beer.id};
      r := Success(());
    }
  }
}
