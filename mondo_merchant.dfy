/** The merchant of a card transaction (MondoKit/MondoMerchant.swift). */
module MondoMerchant {
  import opened Wrappers
  import opened SwiftyJSONDecodable
  import opened MondoAddress
  import opened MondoCategory

  /** `MondoMerchant`. */
  datatype Merchant = Merchant(
    id: string,
    address: Address,
    created: Date,
    groupId: string,
    logoUrl: Url,
    emoji: string,
    name: string,
    category: Category)

  /** `Idable.id`. */
  function MerchantId(m: Merchant): string {
    m.id
  }

  /** The keys of a merchant, in the order they are decoded. */
  const MerchantKeys: seq<string> :=
    ["id", "address", "created", "group_id", "logo", "emoji", "name", "category"]

  /** `MondoMerchant.init(json:)`: eight required keyed decodes, in order,
      the address being a nested record. */
  function DecodeMerchant(p: Platform, j: JSON): Result<Merchant> {
    var id :- ValueForKey(j, "id", DecodeString);
    var address :- ValueForKey(j, "address", DecodeAddress);
    var created :- ValueForKey(j, "created", DateDecoder(p));
    var groupId :- ValueForKey(j, "group_id", DecodeString);
    var logoUrl :- ValueForKey(j, "logo", UrlDecoder(p));
    var emoji :- ValueForKey(j, "emoji", DecodeString);
    var name :- ValueForKey(j, "name", DecodeString);
    var category :- ValueForKey(j, "category", DecodeCategory);
    Ok(Merchant(id, address, created, groupId, logoUrl, emoji, name, category))
  }

  /** `MondoMerchant` as a decoder, for the id-or-object reference. */
  function MerchantDecoder(p: Platform): JSON -> Result<Merchant> {
    j => DecodeMerchant(p, j)
  }

  /** What the keyed decode of field `k` reports on its own. */
  function MerchantFieldError(p: Platform, j: JSON, k: int): Option<DecodeError> {
    if k == 0 then ValueForKey(j, "id", DecodeString).ErrorOf()
    else if k == 1 then ValueForKey(j, "address", DecodeAddress).ErrorOf()
    else if k == 2 then ValueForKey(j, "created", DateDecoder(p)).ErrorOf()
    else if k == 3 then ValueForKey(j, "group_id", DecodeString).ErrorOf()
    else if k == 4 then ValueForKey(j, "logo", UrlDecoder(p)).ErrorOf()
    else if k == 5 then ValueForKey(j, "emoji", DecodeString).ErrorOf()
    else if k == 6 then ValueForKey(j, "name", DecodeString).ErrorOf()
    else ValueForKey(j, "category", DecodeCategory).ErrorOf()
  }

  /** What each of the eight keyed decodes reports on its own, in order. */
  function MerchantFieldErrors(p: Platform, j: JSON): seq<Option<DecodeError>> {
    seq(|MerchantKeys|, k => MerchantFieldError(p, j, k))
  }

  /** Fields are decoded in source order: when field `i` is the first to fail, the
      decode fails with its error. */
  lemma DecodeMerchantFailsAt(p: Platform, j: JSON, i: nat)
    requires 0 <= i < 8 && FailsFirstAt(MerchantFieldErrors(p, j), i)
    ensures DecodeMerchant(p, j) == Err(MerchantFieldErrors(p, j)[i].value)
  {
    var errs := MerchantFieldErrors(p, j);
    if i == 0 {
    } else if i == 1 {
      assert errs[0].None?;
    } else if i == 2 {
      assert errs[0].None? && errs[1].None?;
    } else if i == 3 {
      assert errs[0].None? && errs[1].None? && errs[2].None?;
    } else if i == 4 {
      assert errs[0].None? && errs[1].None? && errs[2].None? && errs[3].None?;
    } else if i == 5 {
      assert errs[0].None? && errs[1].None? && errs[2].None? && errs[3].None? && errs[4].None?;
    } else if i == 6 {
      assert errs[0].None? && errs[1].None? && errs[2].None? && errs[3].None? && errs[4].None? &&
        errs[5].None?;
    } else {
      assert errs[0].None? && errs[1].None? && errs[2].None? && errs[3].None? && errs[4].None? &&
        errs[5].None? && errs[6].None?;
    }
  }

  /** The decode succeeds exactly when no field fails. */
  lemma DecodeMerchantOk(p: Platform, j: JSON)
    ensures DecodeMerchant(p, j).Ok? <==> NoneFail(MerchantFieldErrors(p, j))
  {
    var errs := MerchantFieldErrors(p, j);
    if NoneFail(errs) {
      assert errs[0].None? && errs[1].None? && errs[2].None? && errs[3].None? && errs[4].None? &&
        errs[5].None? && errs[6].None? && errs[7].None?;
    } else {
      FirstFailureExists(errs);
      var i: nat :| FailsFirstAt(errs, i);
      DecodeMerchantFailsAt(p, j, i);
    }
  }

  /** Together: the decode reports the first error among the fields, in source
      order, and none when there is none. */
  lemma DecodeMerchantReportsFirstError(p: Platform, j: JSON)
    ensures DecodeMerchant(p, j).ErrorOf() == FirstError(MerchantFieldErrors(p, j))
  {
    var errs := MerchantFieldErrors(p, j);
    DecodeMerchantOk(p, j);
    forall i: nat | FailsFirstAt(errs, i)
      ensures DecodeMerchant(p, j).ErrorOf() == errs[i]
    {
      DecodeMerchantFailsAt(p, j, i);
    }
    FirstErrorCharacterized(errs, DecodeMerchant(p, j).ErrorOf());
  }

  /** A failure inside the nested address is reported under both keys:
      `ErrorForKey("address", ErrorForKey(field, e))`, where `field` is the
      first address field that fails. */
  lemma NestedAddressErrorPath(p: Platform, j: JSON, i: nat)
    requires j.JObject? && Field(j, "address").JObject?
    requires FailsFirstAt(AddressFieldErrors(Field(j, "address")), i)
    ensures var e := MerchantFieldErrors(p, j)[1];
            e.Some? && e.value.ErrorForKey? && e.value.key == "address" &&
            e.value.error == AddressFieldErrors(Field(j, "address"))[i].value
    ensures i < |AddressKeys| && KeyPath(MerchantFieldErrors(p, j)[1].value)[..2] == ["address", AddressKeys[i]]
  {
    var a := Field(j, "address");
    var errs := AddressFieldErrors(a);
    DecodeAddressReportsFirstError(a);
    FirstErrorIsFirstFailure(errs, i);
    var inner := errs[i].value;
    assert inner.ErrorForKey? && inner.key == AddressKeys[i] by {
      if i == 0 {} else if i == 1 {} else if i == 2 {} else if i == 3 {}
      else if i == 4 {} else if i == 5 {} else {}
    }
  }

  /** On an object, an invalid logo URL string is reported as
      `ErrorForKey("logo", InvalidValue(raw))`, and a category string naming
      no category as `ErrorForKey("category", InvalidValue(raw))`. */
  lemma LogoAndCategoryErrors(p: Platform, j: JSON)
    requires j.JObject?
    ensures var v := Field(j, "logo");
            v.JString? && !p.isUrl(v.s) ==>
              MerchantFieldErrors(p, j)[4] == Some(ErrorForKey("logo", InvalidValue(Some(v.s))))
    ensures var v := Field(j, "category");
            v.JString? && FromRawValue(v.s).None? ==>
              MerchantFieldErrors(p, j)[7] == Some(ErrorForKey("category", InvalidValue(Some(v.s))))
  {
    DecodeUrlOutcome(p, Field(j, "logo"));
    StringRawRepresentable(Field(j, "category"), FromRawValue);
  }

  /** The id of a decoded merchant is the "id" string of the object, and
      its fields come from their own keys. */
  lemma DecodedMerchantFields(p: Platform, j: JSON)
    requires DecodeMerchant(p, j).Ok?
    ensures var m := DecodeMerchant(p, j).value;
            j.JObject? && Field(j, "id") == JString(MerchantId(m)) &&
            DecodeAddress(Field(j, "address")) == Ok(m.address) &&
            DecodeCategory(Field(j, "category")) == Ok(m.category)
  {
  }
}
