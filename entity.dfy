/** The stored records. `Beer` follows the `beers` table entity field for
    field; Brewery, Style and Category are the rows a beer may point at
    (their entity classes are not part of this model: they carry the id and
    name the service relies on, and a style its category). */
module Entity {
  import opened Wrappers
  import JavaText

  datatype Category = Category(id: int, name: string)

  datatype Style = Style(id: int, name: string, category: Option<Category>)

  datatype Brewery = Brewery(id: int, name: string)

  /** A beer as the persistence layer holds it. `id` is the identity column
      (assigned by the store on insert and used as the table key). Every
      other field is nullable in the Java object, so each is an Option; the
      three references are many-to-one links, absent when the join column is
      null. */
  datatype Beer = Beer(
    id: int,
    name: Option<string>,
    description: Option<string>,
    abv: Option<real>,
    ibu: Option<real>,
    brewery: Option<Brewery>,
    style: Option<Style>,
    category: Option<Category>)

  /** Why the persistence layer refuses to write a beer row. */
  datatype Violation =
    | NameNull            // the `name` column is declared NOT NULL
    | NameTooLong         // the `name` column is declared VARCHAR(150)
    | IdentifierAltered   // the identifier of a loaded entity was changed before flush
    | UnknownReference    // a join column names no row of the table it references

  const NameColumnLength: nat := 150

  /** The column definitions of the `beers` table, checked when a row is written. */
  function ColumnViolation(b: Beer): (v: Option<Violation>)
    ensures v.None? <==> b.name.Some? && JavaText.Utf16Length(b.name.value) <= NameColumnLength
    ensures v.Some? ==> v.value == NameNull || v.value == NameTooLong
  {
    if b.name.None? then Some(NameNull)
    else if JavaText.Utf16Length(b.name.value) > NameColumnLength then Some(NameTooLong)
    else None
  }

  /** A row the `beers` table can hold. */
  predicate Storable(b: Beer) {
    ColumnViolation(b).None?
  }

  /** Writing back an entity that was loaded under `key`: the identifier
      must be the one it was loaded with, and the row must fit the columns. */
  function UpdateViolation(key: int, b: Beer): (v: Option<Violation>)
    ensures v.None? <==> b.id == key && Storable(b)
    ensures b.id != key ==> v == Some(IdentifierAltered)
  {
    if b.id != key then Some(IdentifierAltered) else ColumnViolation(b)
  }
}
