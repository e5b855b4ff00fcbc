/** A transaction on an account (MondoKit/MondoTransaction.swift). Its
    metadata goes through the dictionary decoder, which leaves open which
    failing entry is reported, so the decoder is a ghost function. */
module MondoTransaction {
  import opened Wrappers
  import opened SwiftyJSONDecodable
  import opened MondoModel
  import opened MondoCategory
  import opened MondoMerchant
  import opened MondoAttachment

  /** `MondoTransaction`. */
  datatype Transaction = Transaction(
    transactionId: string,
    accountBalance: int,
    currency: string,
    amount: int,
    description: string,
    category: Category,
    created: Date,
    isLoad: bool,
    localCurrency: string,
    localAmount: int,
    merchant: Option<IdExpandable<Merchant>>,
    settled: Option<Date>,
    notes: string,
    attachments: seq<Attachment>,
    metaData: map<string, string>)

  /** The keys a transaction requires, in the order they are decoded. */
  const RequiredKeys: seq<string> :=
    ["id", "account_balance", "currency", "amount", "description", "category", "created",
     "is_load", "local_currency", "local_amount", "notes", "attachments", "metadata"]

  /** `IdExpandable<MondoMerchant>` as a decoder. */
  function MerchantReferenceDecoder(p: Platform): JSON -> Result<IdExpandable<Merchant>> {
    j => DecodeIdExpandable(j, MerchantDecoder(p))
  }

  /** `MondoTransaction.init(json:)`: required keyed decodes in source order,
      with the merchant and the settled date read under `try?`. */
  ghost function DecodeTransaction(p: Platform, j: JSON): Result<Transaction> {
    var transactionId :- ValueForKey(j, "id", DecodeString);
    var accountBalance :- ValueForKey(j, "account_balance", DecodeInt);
    var currency :- ValueForKey(j, "currency", DecodeString);
    var amount :- ValueForKey(j, "amount", DecodeInt);
    var description :- ValueForKey(j, "description", DecodeString);
    var category :- ValueForKey(j, "category", DecodeCategory);
    var created :- ValueForKey(j, "created", DateDecoder(p));
    var isLoad :- ValueForKey(j, "is_load", DecodeBool);
    var localCurrency :- ValueForKey(j, "local_currency", DecodeString);
    var localAmount :- ValueForKey(j, "local_amount", DecodeInt);
    var merchant := ValueForKey(j, "merchant", MerchantReferenceDecoder(p)).ToOption();
    var settled := ValueForKey(j, "settled", DateDecoder(p)).ToOption();
    var notes :- ValueForKey(j, "notes", DecodeString);
    var attachments :- ArrayForKey(j, "attachments", AttachmentDecoder(p));
    var metaData :- DictionaryForKey(j, "metadata", DecodeString);
    Ok(Transaction(transactionId, accountBalance, currency, amount, description, category,
                   created, isLoad, localCurrency, localAmount, merchant, settled, notes,
                   attachments, metaData))
  }

  /** `MondoTransaction` as a decoder, for an array of transactions. */
  ghost function TransactionDecoder(p: Platform): JSON -> Result<Transaction> {
    j => DecodeTransaction(p, j)
  }

  /** What required keyed decode `k` reports on its own. */
  ghost function TransactionFieldError(p: Platform, j: JSON, k: int): Option<DecodeError> {
    if k == 0 then ValueForKey(j, "id", DecodeString).ErrorOf()
    else if k == 1 then ValueForKey(j, "account_balance", DecodeInt).ErrorOf()
    else if k == 2 then ValueForKey(j, "currency", DecodeString).ErrorOf()
    else if k == 3 then ValueForKey(j, "amount", DecodeInt).ErrorOf()
    else if k == 4 then ValueForKey(j, "description", DecodeString).ErrorOf()
    else if k == 5 then ValueForKey(j, "category", DecodeCategory).ErrorOf()
    else if k == 6 then ValueForKey(j, "created", DateDecoder(p)).ErrorOf()
    else if k == 7 then ValueForKey(j, "is_load", DecodeBool).ErrorOf()
    else if k == 8 then ValueForKey(j, "local_currency", DecodeString).ErrorOf()
    else if k == 9 then ValueForKey(j, "local_amount", DecodeInt).ErrorOf()
    else if k == 10 then ValueForKey(j, "notes", DecodeString).ErrorOf()
    else if k == 11 then ArrayForKey(j, "attachments", AttachmentDecoder(p)).ErrorOf()
    else DictionaryForKey(j, "metadata", DecodeString).ErrorOf()
  }

  /** What each required keyed decode reports on its own, in order. */
  ghost function TransactionFieldErrors(p: Platform, j: JSON): seq<Option<DecodeError>> {
    seq(|RequiredKeys|, k => TransactionFieldError(p, j, k))
  }

  /** The required fields are decoded in source order: when required field
      `i` is the first to fail, the decode fails with its error. */
  lemma DecodeTransactionFailsAt(p: Platform, j: JSON, i: nat)
    requires FailsFirstAt(TransactionFieldErrors(p, j), i)
    ensures DecodeTransaction(p, j) == Err(TransactionFieldErrors(p, j)[i].value)
  {
    if i < 7 {
      FailsAmongFirstSeven(p, j, i);
    } else if i < 10 {
      FailsAmongNextThree(p, j, i);
    } else if i < 12 {
      FailsAtNotesOrAttachments(p, j, i);
    } else {
      FailsAtMetadata(p, j, i);
    }
  }

  /** `DecodeTransactionFailsAt` for id to created. */
  lemma FailsAmongFirstSeven(p: Platform, j: JSON, i: nat)
    requires 0 <= i < 7 && FailsFirstAt(TransactionFieldErrors(p, j), i)
    ensures DecodeTransaction(p, j) == Err(TransactionFieldErrors(p, j)[i].value)
  {
    var errs := TransactionFieldErrors(p, j);
    if i == 0 {
    } else if i == 1 {
      assert errs[0].None?;
    } else if i == 2 {
      assert errs[0].None? && errs[1].None?;
    } else if i == 3 {
      assert errs[0].None? && errs[1].None? && errs[2].None?;
    } else if i == 4 {
      assert errs[0].None? && errs[1].None? && errs[2].None? && errs[3].None?;
    } else if i == 5 {
      assert errs[0].None? && errs[1].None? && errs[2].None? && errs[3].None? && errs[4].None?;
    } else {
      assert errs[0].None? && errs[1].None? && errs[2].None? && errs[3].None? && errs[4].None? &&
        errs[5].None?;
    }
  }

  /** `DecodeTransactionFailsAt` for is_load, local_currency and local_amount. */
  lemma FailsAmongNextThree(p: Platform, j: JSON, i: nat)
    requires 7 <= i < 10 && FailsFirstAt(TransactionFieldErrors(p, j), i)
    ensures DecodeTransaction(p, j) == Err(TransactionFieldErrors(p, j)[i].value)
  {
    var errs := TransactionFieldErrors(p, j);
    if i == 7 {
      assert errs[0].None? && errs[1].None? && errs[2].None? && errs[3].None? && errs[4].None? &&
        errs[5].None? && errs[6].None?;
    } else if i == 8 {
      assert errs[0].None? && errs[1].None? && errs[2].None? && errs[3].None? && errs[4].None? &&
        errs[5].None? && errs[6].None? && errs[7].None?;
    } else {
      assert errs[0].None? && errs[1].None? && errs[2].None? && errs[3].None? && errs[4].None? &&
        errs[5].None? && errs[6].None? && errs[7].None? && errs[8].None?;
    }
  }

  /** `DecodeTransactionFailsAt` for notes and attachments. */
  lemma FailsAtNotesOrAttachments(p: Platform, j: JSON, i: nat)
    requires 10 <= i < 12 && FailsFirstAt(TransactionFieldErrors(p, j), i)
    ensures DecodeTransaction(p, j) == Err(TransactionFieldErrors(p, j)[i].value)
  {
    var errs := TransactionFieldErrors(p, j);
    if i == 10 {
      assert errs[0].None? && errs[1].None? && errs[2].None? && errs[3].None? && errs[4].None? &&
        errs[5].None? && errs[6].None? && errs[7].None? && errs[8].None? && errs[9].None?;
    } else {
      assert errs[0].None? && errs[1].None? && errs[2].None? && errs[3].None? && errs[4].None? &&
        errs[5].None? && errs[6].None? && errs[7].None? && errs[8].None? && errs[9].None? &&
        errs[10].None?;
    }
  }

  /** `DecodeTransactionFailsAt` for metadata. */
  lemma FailsAtMetadata(p: Platform, j: JSON, i: nat)
    requires 12 <= i < 13 && FailsFirstAt(TransactionFieldErrors(p, j), i)
    ensures DecodeTransaction(p, j) == Err(TransactionFieldErrors(p, j)[i].value)
  {
    var errs := TransactionFieldErrors(p, j);
    assert errs[0].None? && errs[1].None? && errs[2].None? && errs[3].None? && errs[4].None? &&
      errs[5].None? && errs[6].None? && errs[7].None? && errs[8].None? && errs[9].None? &&
      errs[10].None? && errs[11].None?;
  }

  /** The decode succeeds exactly when no required field fails; the
      merchant and the settled date never make it fail. */
  lemma DecodeTransactionOk(p: Platform, j: JSON)
    ensures DecodeTransaction(p, j).Ok? <==> NoneFail(TransactionFieldErrors(p, j))
  {
    var errs := TransactionFieldErrors(p, j);
    if NoneFail(errs) {
      assert errs[0].None? && errs[1].None? && errs[2].None? && errs[3].None? && errs[4].None?;
      assert errs[5].None? && errs[6].None? && errs[7].None? && errs[8].None? && errs[9].None?;
      assert errs[10].None? && errs[11].None? && errs[12].None?;
    } else {
      FirstFailureExists(errs);
      var i: nat :| FailsFirstAt(errs, i);
      DecodeTransactionFailsAt(p, j, i);
    }
  }

  /** Together: the decode reports the first error among the required fields,
      in source order, and none when there is none. */
  lemma DecodeTransactionReportsFirstError(p: Platform, j: JSON)
    ensures DecodeTransaction(p, j).ErrorOf() == FirstError(TransactionFieldErrors(p, j))
  {
    var errs := TransactionFieldErrors(p, j);
    DecodeTransactionOk(p, j);
    forall i: nat | FailsFirstAt(errs, i)
      ensures DecodeTransaction(p, j).ErrorOf() == errs[i]
    {
      DecodeTransactionFailsAt(p, j, i);
    }
    FirstErrorCharacterized(errs, DecodeTransaction(p, j).ErrorOf());
  }

  /** A successful decode holds each field's own decoded value, and the
      two `try?` fields are the optional forms of their decodes. */
  lemma DecodeTransactionFields(p: Platform, j: JSON)
    requires DecodeTransaction(p, j).Ok?
    ensures var t := DecodeTransaction(p, j).value;
            ValueForKey(j, "id", DecodeString) == Ok(t.transactionId) &&
            ValueForKey(j, "account_balance", DecodeInt) == Ok(t.accountBalance) &&
            ValueForKey(j, "currency", DecodeString) == Ok(t.currency) &&
            ValueForKey(j, "amount", DecodeInt) == Ok(t.amount) &&
            ValueForKey(j, "description", DecodeString) == Ok(t.description) &&
            ValueForKey(j, "category", DecodeCategory) == Ok(t.category) &&
            ValueForKey(j, "created", DateDecoder(p)) == Ok(t.created) &&
            ValueForKey(j, "is_load", DecodeBool) == Ok(t.isLoad) &&
            ValueForKey(j, "local_currency", DecodeString) == Ok(t.localCurrency) &&
            ValueForKey(j, "local_amount", DecodeInt) == Ok(t.localAmount) &&
            t.merchant == ValueForKey(j, "merchant", MerchantReferenceDecoder(p)).ToOption() &&
            t.settled == ValueForKey(j, "settled", DateDecoder(p)).ToOption() &&
            ValueForKey(j, "notes", DecodeString) == Ok(t.notes) &&
            ArrayForKey(j, "attachments", AttachmentDecoder(p)) == Ok(t.attachments) &&
            DictionaryForKey(j, "metadata", DecodeString) == Ok(t.metaData)
  {
  }

  /** Each required field reports its failures under its own key, and a
      missing or null member as `ErrorForKey(key, NullValue)`. */
  lemma RequiredFieldsCarryTheirKey(p: Platform, j: JSON, i: nat)
    requires j.JObject? && i < |RequiredKeys|
    ensures TransactionFieldErrors(p, j)[i].Some? ==>
              var e := TransactionFieldErrors(p, j)[i].value;
              e.ErrorForKey? && e.key == RequiredKeys[i]
    ensures Field(j, RequiredKeys[i]).JNull? ==>
              TransactionFieldErrors(p, j)[i] == Some(ErrorForKey(RequiredKeys[i], NullValue))
  {
    if i == 11 {
      KeyedErrorsCarryTheKey(j, "attachments", AttachmentDecoder(p));
    } else if i == 12 {
      DictionaryForKeyOutcome(j, "metadata", DecodeString);
    }
  }

  /** What a successful decode holds for the two `try?` fields: the merchant
      is `Id(s)` for a string `s`, `Expanded` of the decoded merchant for an
      object that decodes, and nil otherwise (null, missing, another kind,
      or a merchant object that does not decode); the settled date is nil
      for a missing, null or unparsable value, and so for the empty string
      when neither formatter reads it. */
  lemma OptionalFieldsOfTransaction(p: Platform, j: JSON)
    requires DecodeTransaction(p, j).Ok?
    ensures var t := DecodeTransaction(p, j).value;
            var m := Field(j, "merchant");
            (m.JString? ==> t.merchant == Some(Id(m.s))) &&
            (m.JNull? ==> t.merchant == None) &&
            (!m.JString? && !m.JNull? ==>
               t.merchant == if DecodeMerchant(p, m).Ok? then Some(Expanded(DecodeMerchant(p, m).value)) else None)
    ensures var t := DecodeTransaction(p, j).value;
            var s := Field(j, "settled");
            t.settled == DecodeDate(p, s).ToOption()
    ensures var t := DecodeTransaction(p, j).value;
            var s := Field(j, "settled");
            s.JNull? || (s.JString? && p.dateWithMillis(s.s).None? && p.dateNoMillis(s.s).None?)
            ==> t.settled == None
  {
    DecodeTransactionFields(p, j);
    var m := Field(j, "merchant");
    DecodeIdExpandableOutcome(m, MerchantDecoder(p));
  }

  /** A transaction whose required fields other than the attachments
      decode, and whose attachments array first fails at element `i` with
      error `e`, fails with `ErrorForKey("attachments", ErrorForKey("[i]", e))`. */
  lemma BadAttachmentPath(p: Platform, j: JSON, i: nat)
    requires j.JObject? && Field(j, "attachments").JArray?
    requires forall k | 0 <= k < 11 :: TransactionFieldErrors(p, j)[k].None?
    requires var items := Field(j, "attachments").items;
             i < |items| && DecodeAttachment(p, items[i]).Err? &&
             forall k | 0 <= k < i :: DecodeAttachment(p, items[k]).Ok?
    ensures DecodeTransaction(p, j) ==
            Err(ErrorForKey("attachments",
                  ErrorForKey(IndexKey(i), DecodeAttachment(p, Field(j, "attachments").items[i]).error)))
  {
    var items := Field(j, "attachments").items;
    DecodeElementsFirstFailure(items, AttachmentDecoder(p), i);
    var errs := TransactionFieldErrors(p, j);
    DecodeTransactionReportsFirstError(p, j);
    FirstErrorIsFirstFailure(errs, 11);
    assert FailsFirstAt(errs, 11);
  }

  /** A decoded transaction's metadata has exactly the keys of the
      "metadata" object, each holding that member's string; its category is
      the listed one its "category" string names, so an unknown category
      cannot decode. */
  lemma DecodedMetadataAndCategory(p: Platform, j: JSON)
    requires DecodeTransaction(p, j).Ok?
    ensures var t := DecodeTransaction(p, j).value;
            var md := Field(j, "metadata");
            md.JObject? && t.metaData.Keys == md.fields.Keys &&
            forall k | k in md.fields :: md.fields[k] == JString(t.metaData[k])
    ensures var t := DecodeTransaction(p, j).value;
            Field(j, "category") == JString(RawValue(t.category))
  {
    var t := DecodeTransaction(p, j).value;
    DecodeTransactionFields(p, j);
    DictionaryForKeyOutcome(j, "metadata", DecodeString);
    var md := Field(j, "metadata");
    forall k | k in md.fields ensures md.fields[k] == JString(t.metaData[k]) {
      PrimitiveDecoders(md.fields[k]);
    }
    DecodeCategoryStrict(Field(j, "category"));
    RawValueCorrespondence(t.category, Field(j, "category").s);
  }
}
