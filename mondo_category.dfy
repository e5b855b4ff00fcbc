/** The transaction category of MondoKit/MondoCategory.swift: a String-backed
    enumeration decoded strictly, with no fallback case. */
module MondoCategory {
  import opened Wrappers
  import opened SwiftyJSONDecodable

  /** `MondoCategory`. */
  datatype Category =
    | Mondo | General | EatingOut | Expenses | Transport | Cash
    | Bills | Entertainment | Shopping | Holidays | Groceries

  /** `rawValue`. */
  function RawValue(c: Category): string {
    match c
    case Mondo => "mondo"
    case General => "general"
    case EatingOut => "eating_out"
    case Expenses => "expenses"
    case Transport => "transport"
    case Cash => "cash"
    case Bills => "bills"
    case Entertainment => "entertainment"
    case Shopping => "shopping"
    case Holidays => "holidays"
    case Groceries => "groceries"
  }

  /** `init?(rawValue:)`. */
  function FromRawValue(s: string): Option<Category> {
    match s
    case "mondo" => Some(Mondo)
    case "general" => Some(General)
    case "eating_out" => Some(EatingOut)
    case "expenses" => Some(Expenses)
    case "transport" => Some(Transport)
    case "cash" => Some(Cash)
    case "bills" => Some(Bills)
    case "entertainment" => Some(Entertainment)
    case "shopping" => Some(Shopping)
    case "holidays" => Some(Holidays)
    case "groceries" => Some(Groceries)
    case _ => None
  }

  /** The eleven raw values, in declaration order. */
  const RawValues: seq<string> :=
    ["mondo", "general", "eating_out", "expenses", "transport", "cash",
     "bills", "entertainment", "shopping", "holidays", "groceries"]

  /** `init(json:)`, inherited from the RawRepresentable extension. */
  function DecodeCategory(j: JSON): Result<Category> {
    DecodeRawRepresentable(j, AsString, FromRawValue)
  }

  /** Raw values and cases correspond one to one: every case's raw value
      names it, exactly the eleven listed strings name a case, and the case
      a string names has that string as its raw value. */
  lemma RawValueCorrespondence(c: Category, s: string)
    ensures FromRawValue(RawValue(c)) == Some(c)
    ensures FromRawValue(s).Some? <==> s in RawValues
    ensures FromRawValue(s).Some? ==> RawValue(FromRawValue(s).value) == s
  {
  }

  /** Category decoding is strict: a listed string decodes to its own case,
      whose raw value is the input; an unlisted string fails with
      InvalidValue carrying it; null fails with NullValue and any other kind
      with WrongType. */
  lemma DecodeCategoryStrict(j: JSON)
    ensures j.JNull? ==> DecodeCategory(j) == Err(NullValue)
    ensures !j.JNull? && !j.JString? ==> DecodeCategory(j) == Err(WrongType)
    ensures j.JString? && j.s in RawValues ==>
              DecodeCategory(j).Ok? && RawValue(DecodeCategory(j).value) == j.s
    ensures j.JString? && j.s !in RawValues ==> DecodeCategory(j) == Err(InvalidValue(Some(j.s)))
  {
    StringRawRepresentable(j, FromRawValue);
    if j.JString? {
      RawValueCorrespondence(Mondo, j.s);
    }
  }
}
