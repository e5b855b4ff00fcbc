/** The id-or-object union of MondoKit/MondoModel.swift: a reference that
    the server either leaves as a bare id or expands into the full object. */
module MondoModel {
  import opened Wrappers
  import opened SwiftyJSONDecodable

  /** `IdExpandable<Value>`. */
  datatype IdExpandable<V> = Id(idString: string) | Expanded(object: V)

  /** `id`: the bare id, or the id of the expanded object (given by
      `valueId`, the object type's `Idable.id`). */
  function IdOf<V>(e: IdExpandable<V>, valueId: V -> string): string {
    match e
    case Id(s) => s
    case Expanded(v) => valueId(v)
  }

  /** `expandedObject`. */
  function ExpandedObject<V>(e: IdExpandable<V>): Option<V> {
    match e
    case Id(_) => None
    case Expanded(v) => Some(v)
  }

  /** `IdExpandable.init(json:)`: a JSON string is a bare id; anything else
      is decoded as the object, through `decodeAsValue`. */
  function DecodeIdExpandable<V>(j: JSON, dec: JSON -> Result<V>): Result<IdExpandable<V>> {
    if j.JString? then Ok(Id(j.s))
    else
      match AsValue(j, dec)
      case Ok(v) => Ok(Expanded(v))
      case Err(e) => Err(e)
  }

  /** A string always decodes to `Id` of itself. Anything else decodes to
      `Expanded` of what the object decoder gives, and its errors (NullValue
      for null) pass through unchanged. */
  lemma DecodeIdExpandableOutcome<V>(j: JSON, dec: JSON -> Result<V>)
    ensures j.JString? ==> DecodeIdExpandable(j, dec) == Ok(Id(j.s))
    ensures j.JNull? ==> DecodeIdExpandable(j, dec) == Err(NullValue)
    ensures !j.JString? && !j.JNull? ==>
              DecodeIdExpandable(j, dec) ==
              (match dec(j) case Ok(v) => Ok(Expanded(v)) case Err(e) => Err(e))
  {
  }

  /** What a decoded reference reports: for a string, its id is the string
      and there is no expanded object; otherwise the expanded object is the
      decoded one and the id is that object's id. */
  lemma DecodedReferenceAccessors<V>(j: JSON, dec: JSON -> Result<V>, valueId: V -> string)
    requires DecodeIdExpandable(j, dec).Ok?
    ensures var e := DecodeIdExpandable(j, dec).value;
            if j.JString? then IdOf(e, valueId) == j.s && ExpandedObject(e) == None
            else dec(j).Ok? && ExpandedObject(e) == Some(dec(j).value) &&
                 IdOf(e, valueId) == valueId(dec(j).value)
  {
  }
}
