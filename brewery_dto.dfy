/** The brewery record exchanged with clients and the Bean Validation
    constraints declared on its fields. Every constraint but `@NotBlank`
    accepts a null field. */
module BreweryDto {
  import opened Wrappers
  import JavaText
  import PhonePattern

  datatype BreweryDTO = BreweryDTO(
    id: Option<int>,
    name: Option<string>,
    address: Option<string>,
    city: Option<string>,
    country: Option<string>,
    phone: Option<string>,
    website: Option<string>,
    description: Option<string>)

  /** `@Size(max = limit)` on a nullable string. */
  predicate AtMost(field: Option<string>, limit: nat) {
    field.None? || JavaText.Utf16Length(field.value) <= limit
  }

  /** `@NotBlank @Size(min = 2, max = 100)`. */
  predicate ValidName(name: Option<string>) {
    name.Some? && !JavaText.Blank(name.value)
    && 2 <= JavaText.Utf16Length(name.value) <= 100
  }

  /** `@Pattern(regexp = "...|^$")`: null, the empty string, or a phone number. */
  predicate ValidPhone(phone: Option<string>) {
    phone.None? || phone.value == [] || PhonePattern.Accepts(PhonePattern.Phone, phone.value)
  }

  /** All declared constraints of the record except `@URL` on the website. */
  predicate ValidBreweryDTO(d: BreweryDTO) {
    && ValidName(d.name)
    && AtMost(d.address, 255)
    && AtMost(d.city, 100)
    && AtMost(d.country, 100)
    && ValidPhone(d.phone)
    && AtMost(d.description, 2000)
  }

  /** The name bounds are inclusive: 2 and 100 characters pass, 1 and 101 fail. */
  lemma NameBoundaries()
    ensures ValidName(Some("ab")) && !ValidName(Some("a"))
    ensures ValidName(Some(seq(100, _ => 'x'))) && !ValidName(Some(seq(101, _ => 'x')))
    ensures !ValidName(None) && !ValidName(Some("  "))
  {
    JavaText.BmpLength("ab");
    JavaText.BmpLength("a");
    JavaText.BmpLength(seq(100, _ => 'x'));
    JavaText.BmpLength(seq(101, _ => 'x'));
  }

  /** A phone that passes is absent, empty, or of the shape the pattern
      describes: 4 to 26 characters drawn from digits, `+`, `-`, `.`,
      parentheses and whitespace. */
  lemma PhoneShapeWhenValid(phone: string)
    requires ValidPhone(Some(phone)) && phone != []
    ensures 4 <= |phone| <= 26
    ensures forall i :: 0 <= i < |phone| ==> PhonePattern.PhoneChar(phone[i])
  {
    PhonePattern.PhoneShape(phone);
  }

  /** Validity of a phone is membership in the declarative language of the pattern. */
  lemma ValidPhoneIff(phone: string)
    ensures ValidPhone(Some(phone)) <==> phone == [] || PhonePattern.Matches(PhonePattern.Phone, phone)
  {
    PhonePattern.AcceptsMatches(PhonePattern.Phone, phone);
  }

  /** Examples of the phone constraint: an international number with
      spaces passes, and so do null and the empty string; a number that opens
      with a parenthesised area code is refused, because the pattern wants a
      digit (after an optional `+`) first. */
  lemma PhoneExamples()
    ensures ValidPhone(Some("+34 600 123 456"))
    ensures ValidPhone(None) && ValidPhone(Some(""))
    ensures !ValidPhone(Some("(555) 123-4567"))
  {
    PhonePattern.SpacedInternationalAccepted("+34 600 123 456");
    if PhonePattern.Accepts(PhonePattern.Phone, "(555) 123-4567") {
      PhonePattern.PhoneLeadingDigit("(555) 123-4567");
    }
  }
}
