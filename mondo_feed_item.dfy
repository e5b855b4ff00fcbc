/** An item of an account's feed (MondoKit/MondoFeedItem.swift), with its
    lenient item type. The item may embed a transaction and goes through
    the dictionary decoder, so its decoder is a ghost function. */
module MondoFeedItem {
  import opened Wrappers
  import opened SwiftyJSONDecodable
  import MondoTransaction

  /** `MondoFeedItem.Type`. */
  datatype FeedItemType = Transaction | Basic | OnboardingSearch | OnboardingGraph | Unknown

  /** `rawValue`. */
  function RawValue(t: FeedItemType): string {
    match t
    case Transaction => "transaction"
    case Basic => "basic"
    case OnboardingSearch => "onboarding_search"
    case OnboardingGraph => "onboarding_graph"
    case Unknown => "UNKNOWN"
  }

  /** `init?(rawValue:)`. */
  function FromRawValue(s: string): Option<FeedItemType> {
    match s
    case "transaction" => Some(Transaction)
    case "basic" => Some(Basic)
    case "onboarding_search" => Some(OnboardingSearch)
    case "onboarding_graph" => Some(OnboardingGraph)
    case "UNKNOWN" => Some(Unknown)
    case _ => None
  }

  /** The raw values of the four known item types. */
  const KnownRawValues: seq<string> := ["transaction", "basic", "onboarding_search", "onboarding_graph"]

  /** `Type.init(json:)`: null and non-strings are rejected as in the
      RawRepresentable decoder, but a string naming no case falls back to
      `Unknown` instead of failing. */
  function DecodeFeedItemType(j: JSON): Result<FeedItemType> {
    if j.JNull? then Err(NullValue)
    else if !j.JString? then Err(WrongType)
    else
      match FromRawValue(j.s)
      case Some(t) => Ok(t)
      case None => Ok(Unknown)
  }

  /** The item type decode is lenient: it succeeds exactly on strings, and
      never fails with InvalidValue. A known raw value gives its own case,
      whose raw value is the input; any other string gives `Unknown`. Null
      fails with NullValue, any other kind with WrongType. */
  lemma FeedItemTypeLenient(j: JSON)
    ensures DecodeFeedItemType(j).Ok? <==> j.JString?
    ensures j.JNull? ==> DecodeFeedItemType(j) == Err(NullValue)
    ensures !j.JNull? && !j.JString? ==> DecodeFeedItemType(j) == Err(WrongType)
    ensures j.JString? && j.s in KnownRawValues ==>
              DecodeFeedItemType(j).value != Unknown && RawValue(DecodeFeedItemType(j).value) == j.s
    ensures j.JString? && j.s !in KnownRawValues ==> DecodeFeedItemType(j) == Ok(Unknown)
  {
  }

  /** Against the strict decoder the type would inherit: the two agree
      wherever the strict one succeeds or rejects the JSON kind, and where
      it fails with InvalidValue the lenient one gives `Unknown`. */
  lemma LenientAgainstStrict(j: JSON)
    ensures var strict := DecodeRawRepresentable(j, AsString, FromRawValue);
            if strict.Err? && strict.error.InvalidValue? then DecodeFeedItemType(j) == Ok(Unknown)
            else DecodeFeedItemType(j) == strict
  {
    StringRawRepresentable(j, FromRawValue);
  }

  /** `MondoFeedItem`. */
  datatype FeedItem = FeedItem(
    id: string,
    itemType: FeedItemType,
    accountId: string,
    created: Date,
    updated: Date,
    externalId: string,
    params: Option<map<string, string>>,
    isRead: bool,
    transaction: Option<MondoTransaction.Transaction>)

  /** The keys of a feed item, in the order they are decoded. */
  const FeedItemKeys: seq<string> :=
    ["id", "type", "account_id", "created", "updated", "external_id", "params", "read", "transaction"]

  /** `MondoFeedItem.init(json:)`: keyed decodes in source order; `params`
      goes through the required dictionary decoder although the field is
      optional, and `transaction` through the optional keyed decode. */
  ghost function DecodeFeedItem(p: Platform, j: JSON): Result<FeedItem> {
    var id :- ValueForKey(j, "id", DecodeString);
    var itemType :- ValueForKey(j, "type", DecodeFeedItemType);
    var accountId :- ValueForKey(j, "account_id", DecodeString);
    var created :- ValueForKey(j, "created", DateDecoder(p));
    var updated :- ValueForKey(j, "updated", DateDecoder(p));
    var externalId :- ValueForKey(j, "external_id", DecodeString);
    var params :- DictionaryForKey(j, "params", DecodeString);
    var isRead :- ValueForKey(j, "read", DecodeBool);
    var transaction :- OptionalValueForKey(j, "transaction", MondoTransaction.TransactionDecoder(p));
    Ok(FeedItem(id, itemType, accountId, created, updated, externalId, Some(params), isRead, transaction))
  }

  /** What the keyed decode of field `k` reports on its own. */
  ghost function FeedItemFieldError(p: Platform, j: JSON, k: int): Option<DecodeError> {
    if k == 0 then ValueForKey(j, "id", DecodeString).ErrorOf()
    else if k == 1 then ValueForKey(j, "type", DecodeFeedItemType).ErrorOf()
    else if k == 2 then ValueForKey(j, "account_id", DecodeString).ErrorOf()
    else if k == 3 then ValueForKey(j, "created", DateDecoder(p)).ErrorOf()
    else if k == 4 then ValueForKey(j, "updated", DateDecoder(p)).ErrorOf()
    else if k == 5 then ValueForKey(j, "external_id", DecodeString).ErrorOf()
    else if k == 6 then DictionaryForKey(j, "params", DecodeString).ErrorOf()
    else if k == 7 then ValueForKey(j, "read", DecodeBool).ErrorOf()
    else OptionalValueForKey(j, "transaction", MondoTransaction.TransactionDecoder(p)).ErrorOf()
  }

  /** What each keyed decode reports on its own, in order. */
  ghost function FeedItemFieldErrors(p: Platform, j: JSON): seq<Option<DecodeError>> {
    seq(|FeedItemKeys|, k => FeedItemFieldError(p, j, k))
  }

  /** Fields are decoded in source order: when field `i` is the first to fail, the
      decode fails with its error. */
  lemma DecodeFeedItemFailsAt(p: Platform, j: JSON, i: nat)
    requires 0 <= i < 9 && FailsFirstAt(FeedItemFieldErrors(p, j), i)
    ensures DecodeFeedItem(p, j) == Err(FeedItemFieldErrors(p, j)[i].value)
  {
    var errs := FeedItemFieldErrors(p, j);
    if i == 0 {
    } else if i == 1 {
      assert errs[0].None?;
    } else if i == 2 {
      assert errs[0].None? && errs[1].None?;
    } else if i == 3 {
      assert errs[0].None? && errs[1].None? && errs[2].None?;
    } else if i == 4 {
      assert errs[0].None? && errs[1].None? && errs[2].None? && errs[3].None?;
    } else if i == 5 {
      assert errs[0].None? && errs[1].None? && errs[2].None? && errs[3].None? && errs[4].None?;
    } else if i == 6 {
      assert errs[0].None? && errs[1].None? && errs[2].None? && errs[3].None? && errs[4].None? &&
        errs[5].None?;
    } else if i == 7 {
      assert errs[0].None? && errs[1].None? && errs[2].None? && errs[3].None? && errs[4].None? &&
        errs[5].None? && errs[6].None?;
    } else {
      assert errs[0].None? && errs[1].None? && errs[2].None? && errs[3].None? && errs[4].None? &&
        errs[5].None? && errs[6].None? && errs[7].None?;
    }
  }

  /** The decode succeeds exactly when no field fails. */
  lemma DecodeFeedItemOk(p: Platform, j: JSON)
    ensures DecodeFeedItem(p, j).Ok? <==> NoneFail(FeedItemFieldErrors(p, j))
  {
    var errs := FeedItemFieldErrors(p, j);
    if NoneFail(errs) {
      assert errs[0].None? && errs[1].None? && errs[2].None? && errs[3].None? && errs[4].None? &&
        errs[5].None? && errs[6].None? && errs[7].None? && errs[8].None?;
    } else {
      FirstFailureExists(errs);
      var i: nat :| FailsFirstAt(errs, i);
      DecodeFeedItemFailsAt(p, j, i);
    }
  }

  /** Together: the decode reports the first error among the fields, in source
      order, and none when there is none. */
  lemma DecodeFeedItemReportsFirstError(p: Platform, j: JSON)
    ensures DecodeFeedItem(p, j).ErrorOf() == FirstError(FeedItemFieldErrors(p, j))
  {
    var errs := FeedItemFieldErrors(p, j);
    DecodeFeedItemOk(p, j);
    forall i: nat | FailsFirstAt(errs, i)
      ensures DecodeFeedItem(p, j).ErrorOf() == errs[i]
    {
      DecodeFeedItemFailsAt(p, j, i);
    }
    FirstErrorCharacterized(errs, DecodeFeedItem(p, j).ErrorOf());
  }

  /** On an object: a missing or null `params` fails with
      `ErrorForKey("params", NullValue)`, although the field is optional;
      a missing or null `transaction` is no error, and one that is present
      fails exactly when the transaction decode fails, under the key. */
  lemma ParamsAndTransactionFields(p: Platform, j: JSON)
    requires j.JObject?
    ensures Field(j, "params").JNull? ==>
              FeedItemFieldErrors(p, j)[6] == Some(ErrorForKey("params", NullValue))
    ensures Field(j, "transaction").JNull? ==> FeedItemFieldErrors(p, j)[8] == None
    ensures !Field(j, "transaction").JNull? ==>
              FeedItemFieldErrors(p, j)[8] ==
              (match MondoTransaction.DecodeTransaction(p, Field(j, "transaction"))
               case Ok(_) => None
               case Err(e) => Some(ErrorForKey("transaction", e)))
  {
    DictionaryForKeyOutcome(j, "params", DecodeString);
  }

  /** A decoded feed item always has params, holding exactly the members of
      the "params" object; its transaction is nil exactly when the member is
      missing or null, and otherwise is the decoded transaction. */
  lemma DecodedFeedItemParamsAndTransaction(p: Platform, j: JSON)
    requires DecodeFeedItem(p, j).Ok?
    ensures var f := DecodeFeedItem(p, j).value;
            var ps := Field(j, "params");
            f.params.Some? && ps.JObject? && f.params.value.Keys == ps.fields.Keys &&
            forall k | k in ps.fields :: ps.fields[k] == JString(f.params.value[k])
    ensures var f := DecodeFeedItem(p, j).value;
            var t := Field(j, "transaction");
            (f.transaction.None? <==> t.JNull?) &&
            (f.transaction.Some? ==> MondoTransaction.DecodeTransaction(p, t) == Ok(f.transaction.value))
  {
    var f := DecodeFeedItem(p, j).value;
    assert DictionaryForKey(j, "params", DecodeString) == Ok(f.params.value);
    DictionaryForKeyOutcome(j, "params", DecodeString);
    var ps := Field(j, "params");
    forall k | k in ps.fields ensures ps.fields[k] == JString(f.params.value[k]) {
      PrimitiveDecoders(ps.fields[k]);
    }
  }
}
