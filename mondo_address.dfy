/** The postal address of a merchant (MondoKit/MondoAddress.swift). */
module MondoAddress {
  import opened Wrappers
  import opened SwiftyJSONDecodable

  /** `MondoAddress`. */
  datatype Address = Address(
    address: string,
    city: string,
    country: string,
    latitude: real,
    longitude: real,
    postcode: string,
    region: string)

  /** The keys of an address, in the order they are decoded. */
  const AddressKeys: seq<string> :=
    ["address", "city", "country", "latitude", "longitude", "postcode", "region"]

  /** `MondoAddress.init(json:)`: seven required keyed decodes, in order. */
  function DecodeAddress(j: JSON): Result<Address> {
    var address :- ValueForKey(j, "address", DecodeString);
    var city :- ValueForKey(j, "city", DecodeString);
    var country :- ValueForKey(j, "country", DecodeString);
    var latitude :- ValueForKey(j, "latitude", DecodeDouble);
    var longitude :- ValueForKey(j, "longitude", DecodeDouble);
    var postcode :- ValueForKey(j, "postcode", DecodeString);
    var region :- ValueForKey(j, "region", DecodeString);
    Ok(Address(address, city, country, latitude, longitude, postcode, region))
  }

  /** What the keyed decode of field `k` reports on its own. */
  function AddressFieldError(j: JSON, k: int): Option<DecodeError> {
    if k == 0 then ValueForKey(j, "address", DecodeString).ErrorOf()
    else if k == 1 then ValueForKey(j, "city", DecodeString).ErrorOf()
    else if k == 2 then ValueForKey(j, "country", DecodeString).ErrorOf()
    else if k == 3 then ValueForKey(j, "latitude", DecodeDouble).ErrorOf()
    else if k == 4 then ValueForKey(j, "longitude", DecodeDouble).ErrorOf()
    else if k == 5 then ValueForKey(j, "postcode", DecodeString).ErrorOf()
    else ValueForKey(j, "region", DecodeString).ErrorOf()
  }

  /** What each of the seven keyed decodes reports on its own, in order. */
  function AddressFieldErrors(j: JSON): seq<Option<DecodeError>> {
    seq(|AddressKeys|, k => AddressFieldError(j, k))
  }

  /** The object that denotes an address. */
  function AddressJson(a: Address): JSON {
    JObject(map[
      "address" := JString(a.address),
      "city" := JString(a.city),
      "country" := JString(a.country),
      "latitude" := JNumber(a.latitude),
      "longitude" := JNumber(a.longitude),
      "postcode" := JString(a.postcode),
      "region" := JString(a.region)])
  }

  /** Fields are decoded in source order: when field `i` is the first to fail, the
      decode fails with its error. */
  lemma DecodeAddressFailsAt(j: JSON, i: nat)
    requires 0 <= i < 7 && FailsFirstAt(AddressFieldErrors(j), i)
    ensures DecodeAddress(j) == Err(AddressFieldErrors(j)[i].value)
  {
    var errs := AddressFieldErrors(j);
    if i == 0 {
    } else if i == 1 {
      assert errs[0].None?;
    } else if i == 2 {
      assert errs[0].None? && errs[1].None?;
    } else if i == 3 {
      assert errs[0].None? && errs[1].None? && errs[2].None?;
    } else if i == 4 {
      assert errs[0].None? && errs[1].None? && errs[2].None? && errs[3].None?;
    } else if i == 5 {
      assert errs[0].None? && errs[1].None? && errs[2].None? && errs[3].None? && errs[4].None?;
    } else {
      assert errs[0].None? && errs[1].None? && errs[2].None? && errs[3].None? && errs[4].None? &&
        errs[5].None?;
    }
  }

  /** The decode succeeds exactly when no field fails. */
  lemma DecodeAddressOk(j: JSON)
    ensures DecodeAddress(j).Ok? <==> NoneFail(AddressFieldErrors(j))
  {
    var errs := AddressFieldErrors(j);
    if NoneFail(errs) {
      assert errs[0].None? && errs[1].None? && errs[2].None? && errs[3].None? && errs[4].None? &&
        errs[5].None? && errs[6].None?;
    } else {
      FirstFailureExists(errs);
      var i: nat :| FailsFirstAt(errs, i);
      DecodeAddressFailsAt(j, i);
    }
  }

  /** Together: the decode reports the first error among the fields, in source
      order, and none when there is none. */
  lemma DecodeAddressReportsFirstError(j: JSON)
    ensures DecodeAddress(j).ErrorOf() == FirstError(AddressFieldErrors(j))
  {
    var errs := AddressFieldErrors(j);
    DecodeAddressOk(j);
    forall i: nat | FailsFirstAt(errs, i)
      ensures DecodeAddress(j).ErrorOf() == errs[i]
    {
      DecodeAddressFailsAt(j, i);
    }
    FirstErrorCharacterized(errs, DecodeAddress(j).ErrorOf());
  }

  /** A successful decode holds each field's own decoded value. */
  lemma DecodeAddressFields(j: JSON)
    requires DecodeAddress(j).Ok?
    ensures var a := DecodeAddress(j).value;
            ValueForKey(j, "address", DecodeString) == Ok(a.address) &&
            ValueForKey(j, "city", DecodeString) == Ok(a.city) &&
            ValueForKey(j, "country", DecodeString) == Ok(a.country) &&
            ValueForKey(j, "latitude", DecodeDouble) == Ok(a.latitude) &&
            ValueForKey(j, "longitude", DecodeDouble) == Ok(a.longitude) &&
            ValueForKey(j, "postcode", DecodeString) == Ok(a.postcode) &&
            ValueForKey(j, "region", DecodeString) == Ok(a.region)
  {
  }

  /** Every key is required. On an object, a field fails exactly when its
      member is not of the field's kind (a number for latitude and
      longitude, a string for the others), and then with
      `ErrorForKey(key, NullValue)` for a missing or null member and
      `ErrorForKey(key, WrongType)` for one of another kind. */
  lemma AddressFieldKinds(j: JSON, i: nat)
    requires j.JObject? && i < |AddressKeys|
    ensures var key := AddressKeys[i];
            var v := Field(j, key);
            var fits := if key == "latitude" || key == "longitude" then v.JNumber? else v.JString?;
            AddressFieldErrors(j)[i] == if fits then None else Some(ErrorForKey(key, KindError(v)))
  {
    PrimitiveDecoders(Field(j, AddressKeys[i]));
  }

  /** Decoding the object an address denotes gives that address back. */
  lemma AddressRoundTrip(a: Address)
    ensures DecodeAddress(AddressJson(a)) == Ok(a)
  {
  }
}
