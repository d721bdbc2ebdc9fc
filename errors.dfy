/** The domain error of every service: a resource-not-found exception whose
    message names the kind of record and the id that could not be resolved;
    beside it, the persistence layer's refusal to write a row, which is not a
    domain error but ends the transaction all the same. */
module Errors {
  import JavaText
  import Entity

  datatype Kind = BeerKind | BreweryKind | StyleKind | CategoryKind

  datatype Error =
    | NotFound(kind: Kind, id: int)
    | Rejected(violation: Entity.Violation)

  /** The fixed text in front of the id, per kind of record. */
  function Prefix(kind: Kind): string {
    match kind
    case BeerKind => "Cerveza no encontrada con id: "
    case BreweryKind => "Cervecer\U{ED}a no encontrada con id: "
    case StyleKind => "Estilo no encontrado con id: "
    case CategoryKind => "Categor\U{ED}a no encontrada con id: "
  }

  /** The exception message: the prefix followed by the id as Java renders it. */
  function Message(kind: Kind, id: int): (m: string)
    ensures |m| > |Prefix(kind)| && m[..|Prefix(kind)|] == Prefix(kind)
    ensures m[|Prefix(kind)|..] == JavaText.DecimalString(id)
  {
    Prefix(kind) + JavaText.DecimalString(id)
  }

  /** A message says which kind of record was missing and which id was
      asked for: two different not-found errors never share a message. */
  lemma {:induction false} MessageIdentifies(k1: Kind, id1: int, k2: Kind, id2: int)
    requires Message(k1, id1) == Message(k2, id2)
    ensures k1 == k2 && id1 == id2
  {
    var m := Message(k1, id1);
    // the prefixes differ within their first eleven characters
    assert m[..11] == Prefix(k1)[..11];
    assert m[..11] == Prefix(k2)[..11];
    assert k1 == k2;
    JavaText.DecimalInjective(id1, id2);
  }
}
