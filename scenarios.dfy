/** The service-level cases the repository's unit tests exercise, replayed
    against the model with one concrete mapper. Each outcome below follows
    from the operations' contracts alone. */
module Scenarios {
  import opened Wrappers
  import opened Entity
  import opened Errors
  import opened BeerDto
  import JavaText
  import BeerService
  import Store

  /** A mapper that copies the scalar fields across and reports references by id. */
  function ToEntity(d: BeerDTO): Beer {
    Beer(if d.id.Some? then d.id.value else 0, d.name, d.description, d.abv, d.ibu, None, None, None)
  }

  function ToDTO(b: Beer): BeerDTO {
    BeerDTO(Some(b.id), b.name, b.description, b.abv, b.ibu,
            if b.brewery.Some? then Some(b.brewery.value.id) else None,
            if b.style.Some? then Some(b.style.value.id) else None,
            if b.category.Some? then Some(b.category.value.id) else None,
            None, None, None)
  }

  function CopyInto(d: BeerDTO, b: Beer): Beer {
    b.(name := d.name, description := d.description, abv := d.abv, ibu := d.ibu)
  }

  const TestCategory := Category(1, "Test Category")
  const TestStyle := Style(1, "Test Style", Some(TestCategory))
  const TestBrewery := Brewery(1, "Test Brewery")
  const TestBeer := Beer(1, Some("Test Beer"), Some("A test beer"), Some(5.0), Some(25.0),
                         Some(TestBrewery), Some(TestStyle), Some(TestCategory))
  const TestRequest := BeerDTO(Some(1), Some("Test Beer"), Some("A test beer"), Some(5.0), Some(25.0),
                               Some(1), Some(1), Some(1), None, None, None)

  const Breweries := map[1 := TestBrewery]
  const Styles := map[1 := TestStyle]
  const Categories := map[1 := TestCategory]

  /** A service over the test references, holding `beers`. */
  method NewService(beers: map<int, Beer>, nextBeerId: int) returns (service: BeerService.BeerService)
    requires forall id :: id in beers ==>
               beers[id].id == id && id < nextBeerId && Storable(beers[id])
               && BeerService.Linked(beers[id], Breweries, Styles, Categories)
    ensures fresh(service) && service.Valid() && service.beers == beers && service.nextBeerId == nextBeerId
    ensures service.breweries == Breweries && service.styles == Styles && service.categories == Categories
    ensures service.mapper == BeerService.BeerMapper(ToEntity, ToDTO, CopyInto)
  {
    service := new BeerService.BeerService(beers, nextBeerId, Breweries, Styles, Categories,
                                           BeerService.BeerMapper(ToEntity, ToDTO, CopyInto));
  }

  /** The test beer is a row the table accepts, pointing at the test references. */
  lemma TestBeerStorable()
    ensures Storable(TestBeer) && BeerService.Linked(TestBeer, Breweries, Styles, Categories)
    ensures forall id :: id in map[1 := TestBeer] ==>
              map[1 := TestBeer][id].id == id && id < 2 && Storable(map[1 := TestBeer][id])
              && BeerService.Linked(map[1 := TestBeer][id], Breweries, Styles, Categories)
  {
    JavaText.BmpLength("Test Beer");
  }

  /** The test request passes validation and maps to a storable entity. */
  lemma TestRequestAccepted()
    ensures ValidBeerDTO(TestRequest) && Storable(ToEntity(TestRequest))
  {
    JavaText.BmpLength("Test Beer");
    assert "Test Beer"[0] == 'T';
  }

  /** The test request names only known references, and the mapper's copy
      of it into the test beer, with those references attached, is the test
      beer again: a row the table accepts under id 1. */
  lemma UpdateWritesBack(service: BeerService.BeerService)
    requires service.breweries == Breweries && service.styles == Styles && service.categories == Categories
    requires service.mapper == BeerService.BeerMapper(ToEntity, ToDTO, CopyInto)
    ensures BeerService.MissingReference(TestRequest, Breweries, Styles, Categories).None?
    ensures service.mapper.updateEntity(TestRequest, TestBeer) == TestBeer
    ensures UpdateViolation(1, TestBeer).None?
    ensures BeerService.Attached(TestRequest.breweryId, Breweries, None) == TestBeer.brewery
    ensures BeerService.Attached(TestRequest.styleId, Styles, None) == TestBeer.style
    ensures BeerService.Attached(TestRequest.categoryId, Categories, None) == TestBeer.category
  {
    TestBeerStorable();
  }

  /** Mapping the test request and attaching its references gives the test
      beer, up to the id the store assigns; its references are the table rows. */
  lemma CreateAttachesTestReferences(service: BeerService.BeerService)
    requires service.breweries == Breweries && service.styles == Styles && service.categories == Categories
    requires service.mapper == BeerService.BeerMapper(ToEntity, ToDTO, CopyInto)
    ensures BeerService.MissingReference(TestRequest, Breweries, Styles, Categories).None?
    ensures service.Attach(service.mapper.toEntity(TestRequest), TestRequest, false).(id := 1) == TestBeer
    ensures BeerService.Linked(TestBeer, Breweries, Styles, Categories)
    ensures BeerService.Joinable(TestBeer, Breweries, Styles, Categories)
  {
  }

  /** Creating with known references stores the beer under the first identity value. */
  method CreateCases()
  {
    var service := NewService(map[], 1);
    TestRequestAccepted();
    CreateAttachesTestReferences(service);
    var created := service.CreateBeer(TestRequest);
    assert created.Success?;
    assert service.beers == map[1 := TestBeer];
    assert created == Success(ToDTO(TestBeer)) && service.nextBeerId == 2;
    assert service.GetBeerById(1) == created;
  }

  /** Listing a table of one beer gives its record, carrying its id and name. */
  method GetAllCases()
  {
    TestBeerStorable();
    var service := NewService(map[1 := TestBeer], 2);
    var all := service.GetAllBeers();
    assert Store.SortedIds({1})[0] == 1;
    assert all == [ToDTO(TestBeer)];
    assert all[0].id == Some(1) && all[0].name == Some("Test Beer");
  }

  /** Looking up a stored beer gives its record. */
  method GetByIdCases()
  {
    TestBeerStorable();
    var service := NewService(map[1 := TestBeer], 2);
    var found := service.GetBeerById(1);
    assert found == Success(ToDTO(TestBeer));
    assert found.value.id == Some(1) && found.value.name == Some("Test Beer");
  }

  /** A table of the test beer with its row rewritten field for field, the
      references included, holds the test beer again. */
  lemma SameRowWritten(after: map<int, Beer>)
    requires 1 in after && after == map[1 := TestBeer][1 := after[1]]
    requires after[1] == TestBeer.(brewery := after[1].brewery, style := after[1].style, category := after[1].category)
    requires after[1].brewery == TestBeer.brewery && after[1].style == TestBeer.style
    requires after[1].category == TestBeer.category
    ensures after == map[1 := TestBeer]
  {
  }

  /** A full update with the test request writes the same beer back. */
  method UpdateCases()
  {
    TestBeerStorable();
    TestRequestAccepted();
    var service := NewService(map[1 := TestBeer], 2);
    UpdateWritesBack(service);
    var updated := service.UpdateBeer(1, TestRequest);
    assert updated.Success?;
    SameRowWritten(service.beers);
    assert updated == Success(ToDTO(TestBeer));
  }

  const UnknownBreweryRequest := TestRequest.(breweryId := Some(9999))

  /** The first unresolved reference of the test request naming brewery 9999
      is that brewery. */
  lemma UnknownBreweryRejected()
    ensures BeerService.MissingReference(UnknownBreweryRequest, Breweries, Styles, Categories)
            == Some(NotFound(BreweryKind, 9999))
  {
  }

  /** Creating with an unknown brewery reports it, and nothing is stored. */
  method UnknownBreweryCases()
  {
    TestBeerStorable();
    UnknownBreweryRejected();
    TestRequestAccepted();
    ValidityIgnoresUnannotated(TestRequest, UnknownBreweryRequest);
    var service := NewService(map[1 := TestBeer], 2);
    var request := UnknownBreweryRequest;
    var unknownBrewery := service.CreateBeer(request);
    assert unknownBrewery == Failure(NotFound(BreweryKind, 9999));
    assert service.beers == map[1 := TestBeer];
  }

  /** The not-found messages the tests look for. */
  lemma NotFoundMessages()
    ensures Message(BeerKind, 9999)[..21] == "Cerveza no encontrada"
    ensures Message(BreweryKind, 9999)[..24] == "Cervecer\U{ED}a no encontrada"
  {
    assert Prefix(BeerKind)[..21] == "Cerveza no encontrada";
    assert Prefix(BreweryKind)[..24] == "Cervecer\U{ED}a no encontrada";
  }

  /** Lookups and full updates of an unknown beer fail with not-found. */
  method NotFoundCases()
  {
    TestBeerStorable();
    var service := NewService(map[1 := TestBeer], 2);
    TestRequestAccepted();
    assert service.GetBeerById(9999) == Failure(NotFound(BeerKind, 9999));
    var missing := service.UpdateBeer(9999, TestRequest);
    assert missing == Failure(NotFound(BeerKind, 9999));
  }

  /** A partial update touches only the supplied fields, and is not
      validated: an abv above the declared maximum is stored. */
  method PartialUpdateCases()
  {
    TestBeerStorable();
    var service := NewService(map[1 := TestBeer], 2);
    var patch := BeerDTO(None, None, None, Some(6.0), Some(35.0), None, None, None, None, None, None);
    var patched := service.PartialUpdateBeer(1, patch);
    assert patched.Success?;
    assert service.beers[1] == TestBeer.(abv := Some(6.0), ibu := Some(35.0));

    var unchecked := service.PartialUpdateBeer(1, patch.(abv := Some(150.0)));
    assert unchecked.Success? && service.beers[1].abv == Some(150.0);
    assert !ValidBeerDTO(TestRequest.(abv := Some(150.0)));
  }

  /** Deleting removes the beer; a second delete reports not-found. */
  method DeleteCases()
  {
    TestBeerStorable();
    var service := NewService(map[1 := TestBeer], 2);
    var deleted := service.DeleteBeer(1);
    assert deleted.Success? && service.beers == map[];
    var again := service.DeleteBeer(1);
    assert again == Failure(NotFound(BeerKind, 1));
  }

  /** A mapper that, unlike the test mapper, sets a brewery of its own. */
  function ToEntityWithGhostBrewery(d: BeerDTO): Beer {
    ToEntity(d).(brewery := Some(Brewery(42, "Ghost")))
  }

  const NoBreweryRequest := TestRequest.(breweryId := None)

  /** With no brewery id in the request, the brewery the mapper set is kept
      by the lookups, and no brewery 42 exists to take it. */
  lemma GhostBreweryDangles(service: BeerService.BeerService)
    requires service.breweries == Breweries && service.styles == Styles && service.categories == Categories
    requires service.mapper == BeerService.BeerMapper(ToEntityWithGhostBrewery, ToDTO, CopyInto)
    ensures BeerService.MissingReference(NoBreweryRequest, Breweries, Styles, Categories).None?
    ensures service.Attach(service.mapper.toEntity(NoBreweryRequest), NoBreweryRequest, false).name
            == ToEntity(TestRequest).name
    ensures !BeerService.Joinable(service.Attach(service.mapper.toEntity(NoBreweryRequest), NoBreweryRequest, false),
                                  Breweries, Styles, Categories)
  {
    var entity := service.Attach(service.mapper.toEntity(NoBreweryRequest), NoBreweryRequest, false);
    assert entity.brewery == Some(Brewery(42, "Ghost")) && 42 !in Breweries;
  }

  /** Creating a beer whose mapped entity points at a brewery the table does
      not hold is refused by the foreign key, and nothing is stored. */
  method DanglingReferenceCases()
  {
    assert BeerService.KeyedById(Breweries, Styles, Categories);
    var service := new BeerService.BeerService(map[], 1, Breweries, Styles, Categories,
                                               BeerService.BeerMapper(ToEntityWithGhostBrewery, ToDTO, CopyInto));
    TestRequestAccepted();
    ValidityIgnoresUnannotated(TestRequest, NoBreweryRequest);
    GhostBreweryDangles(service);
    assert Storable(service.Attach(service.mapper.toEntity(NoBreweryRequest), NoBreweryRequest, false));
    var dangling := service.CreateBeer(NoBreweryRequest);
    assert dangling == Failure(Rejected(UnknownReference));
    assert service.beers == map[];
  }
}
