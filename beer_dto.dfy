/** The beer record clients send and receive. Each field is an Option, so
    that an omitted (null) field is explicit: the service branches on
    presence throughout. The Bean Validation constraints of the record become
    `ValidBeerDTO`; only name, description, abv and ibu carry any. */
module BeerDto {
  import opened Wrappers
  import JavaText
  import BreweryDto

  /** The style and category records nested in a response (their classes
      are not part of this model beyond an id and a name). */
  datatype StyleDTO = StyleDTO(id: Option<int>, name: Option<string>)
  datatype CategoryDTO = CategoryDTO(id: Option<int>, name: Option<string>)

  datatype BeerDTO = BeerDTO(
    id: Option<int>,
    name: Option<string>,
    description: Option<string>,
    abv: Option<real>,
    ibu: Option<real>,
    breweryId: Option<int>,
    styleId: Option<int>,
    categoryId: Option<int>,
    brewery: Option<BreweryDto.BreweryDTO>,
    style: Option<StyleDTO>,
    category: Option<CategoryDTO>)

  /** `@NotBlank @Size(min = 3, max = 150)`. */
  predicate ValidName(name: Option<string>) {
    name.Some? && !JavaText.Blank(name.value)
    && 3 <= JavaText.Utf16Length(name.value) <= 150
  }

  /** `@Size(max = 1000)`. */
  predicate ValidDescription(description: Option<string>) {
    description.None? || JavaText.Utf16Length(description.value) <= 1000
  }

  /** `@DecimalMin("0.0") @DecimalMax(max)`, both bounds inclusive. */
  predicate InRange(value: Option<real>, max: real) {
    value.None? || 0.0 <= value.value <= max
  }

  /** What `@Valid` checks before a create or a full update reaches the
      service. The nested brewery, style and category are not annotated
      `@Valid`, so they are not checked, and neither are the ids. */
  predicate ValidBeerDTO(d: BeerDTO) {
    && ValidName(d.name)
    && ValidDescription(d.description)
    && InRange(d.abv, 100.0)
    && InRange(d.ibu, 1000.0)
  }

  /** The name bounds are inclusive: 3 and 150 characters pass, 2 and 151
      fail, and so does the one-letter name "P"; null and blank names fail. */
  lemma NameBoundaries()
    ensures ValidName(Some("abc")) && !ValidName(Some("ab")) && !ValidName(Some("P"))
    ensures ValidName(Some(seq(150, _ => 'x'))) && !ValidName(Some(seq(151, _ => 'x')))
    ensures !ValidName(None) && !ValidName(Some("   "))
  {
    JavaText.BmpLength("abc");
    JavaText.BmpLength("ab");
    JavaText.BmpLength("P");
    JavaText.BmpLength(seq(150, _ => 'x'));
    JavaText.BmpLength(seq(151, _ => 'x'));
  }

  /** abv: 0.0 and 100.0 pass, -0.01 and 100.01 fail, an absent value passes;
      ibu likewise with 1000.0. */
  lemma RangeBoundaries()
    ensures InRange(Some(0.0), 100.0) && InRange(Some(100.0), 100.0) && InRange(None, 100.0)
    ensures !InRange(Some(-0.01), 100.0) && !InRange(Some(100.01), 100.0)
    ensures InRange(Some(1000.0), 1000.0) && !InRange(Some(1000.01), 1000.0)
  {
  }

  /** Validity depends on the four annotated fields only. */
  lemma ValidityIgnoresUnannotated(d: BeerDTO, e: BeerDTO)
    requires d.name == e.name && d.description == e.description
    requires d.abv == e.abv && d.ibu == e.ibu
    ensures ValidBeerDTO(d) == ValidBeerDTO(e)
  {
  }

  /** A valid record always carries a name, of at most 150 characters and
      at least 2: `@Size` counts UTF-16 units, so a character outside the
      Basic Multilingual Plane counts twice. */
  lemma ValidHasName(d: BeerDTO)
    requires ValidBeerDTO(d)
    ensures d.name.Some? && 2 <= |d.name.value| <= 150
  {
  }
}
