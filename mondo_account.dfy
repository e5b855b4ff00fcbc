/** A bank account (MondoKit/MondoAccount.swift). */
module MondoAccount {
  import opened Wrappers
  import opened SwiftyJSONDecodable

  /** `MondoAccount`; `accountId` comes from the key "id". */
  datatype Account = Account(
    accountNumber: string,
    created: Date,
    description: string,
    accountId: string,
    sortCode: string)

  /** The keys of an account, in the order they are decoded. */
  const AccountKeys: seq<string> := ["account_number", "created", "description", "id", "sort_code"]

  /** The decoder force-unwraps `NSDate.dateFromTimestamp` of the created
      string, which traps when the string does not parse. Callers must rule
      that out: once the decode reaches that point, the string parses. */
  predicate CreatedParses(p: Platform, j: JSON) {
    ValueForKey(j, "account_number", DecodeString).Ok? && ValueForKey(j, "created", DecodeString).Ok? ==>
      p.dateFromTimestamp(ValueForKey(j, "created", DecodeString).value).Some?
  }

  /** `MondoAccount.init(json:)`: required keyed decodes in source order,
      the creation date read as a string and converted by the platform. */
  function DecodeAccount(p: Platform, j: JSON): Result<Account>
    requires CreatedParses(p, j)
  {
    var accountNumber :- ValueForKey(j, "account_number", DecodeString);
    var createdString :- ValueForKey(j, "created", DecodeString);
    var created := p.dateFromTimestamp(createdString).value;
    var description :- ValueForKey(j, "description", DecodeString);
    var accountId :- ValueForKey(j, "id", DecodeString);
    var sortCode :- ValueForKey(j, "sort_code", DecodeString);
    Ok(Account(accountNumber, created, description, accountId, sortCode))
  }

  /** What the keyed decode of field `k` reports on its own. */
  function AccountFieldError(p: Platform, j: JSON, k: int): Option<DecodeError> {
    if k == 0 then ValueForKey(j, "account_number", DecodeString).ErrorOf()
    else if k == 1 then ValueForKey(j, "created", DecodeString).ErrorOf()
    else if k == 2 then ValueForKey(j, "description", DecodeString).ErrorOf()
    else if k == 3 then ValueForKey(j, "id", DecodeString).ErrorOf()
    else ValueForKey(j, "sort_code", DecodeString).ErrorOf()
  }

  /** What each keyed decode reports on its own, in order. */
  function AccountFieldErrors(p: Platform, j: JSON): seq<Option<DecodeError>> {
    seq(|AccountKeys|, k => AccountFieldError(p, j, k))
  }

  /** Fields are decoded in source order: when field `i` is the first to fail, the
      decode fails with its error. */
  lemma DecodeAccountFailsAt(p: Platform, j: JSON, i: nat)
    requires CreatedParses(p, j) && 0 <= i < 5 && FailsFirstAt(AccountFieldErrors(p, j), i)
    ensures DecodeAccount(p, j) == Err(AccountFieldErrors(p, j)[i].value)
  {
    var errs := AccountFieldErrors(p, j);
    if i == 0 {
    } else if i == 1 {
      assert errs[0].None?;
    } else if i == 2 {
      assert errs[0].None? && errs[1].None?;
    } else if i == 3 {
      assert errs[0].None? && errs[1].None? && errs[2].None?;
    } else {
      assert errs[0].None? && errs[1].None? && errs[2].None? && errs[3].None?;
    }
  }

  /** The decode succeeds exactly when no field fails. */
  lemma DecodeAccountOk(p: Platform, j: JSON)
    requires CreatedParses(p, j)
    ensures DecodeAccount(p, j).Ok? <==> NoneFail(AccountFieldErrors(p, j))
  {
    var errs := AccountFieldErrors(p, j);
    if NoneFail(errs) {
      assert errs[0].None? && errs[1].None? && errs[2].None? && errs[3].None? && errs[4].None?;
    } else {
      FirstFailureExists(errs);
      var i: nat :| FailsFirstAt(errs, i);
      DecodeAccountFailsAt(p, j, i);
    }
  }

  /** Together: the decode reports the first error among the fields, in source
      order, and none when there is none. */
  lemma DecodeAccountReportsFirstError(p: Platform, j: JSON)
    requires CreatedParses(p, j)
    ensures DecodeAccount(p, j).ErrorOf() == FirstError(AccountFieldErrors(p, j))
  {
    var errs := AccountFieldErrors(p, j);
    DecodeAccountOk(p, j);
    forall i: nat | FailsFirstAt(errs, i)
      ensures DecodeAccount(p, j).ErrorOf() == errs[i]
    {
      DecodeAccountFailsAt(p, j, i);
    }
    FirstErrorCharacterized(errs, DecodeAccount(p, j).ErrorOf());
  }

  /** On an object, every key reports its failures under itself, a
      missing one as `ErrorForKey(key, NullValue)`, and a `created` that is
      not a string as `ErrorForKey("created", WrongType)`. */
  lemma AccountFieldKinds(p: Platform, j: JSON, i: nat)
    requires j.JObject? && i < |AccountKeys|
    ensures var key := AccountKeys[i];
            var v := Field(j, key);
            AccountFieldErrors(p, j)[i] == if v.JString? then None else Some(ErrorForKey(key, KindError(v)))
  {
    PrimitiveDecoders(Field(j, AccountKeys[i]));
  }

  /** A decoded account takes its id from "id" and its date from the
      platform's reading of the "created" string. */
  lemma DecodedAccountFields(p: Platform, j: JSON)
    requires CreatedParses(p, j) && DecodeAccount(p, j).Ok?
    ensures var a := DecodeAccount(p, j).value;
            j.JObject? && Field(j, "id") == JString(a.accountId) &&
            Field(j, "created").JString? && p.dateFromTimestamp(Field(j, "created").s) == Some(a.created)
  {
  }

  /** The object an account is sent as, with its date written as
      `createdText`. */
  function AccountJson(a: Account, createdText: string): JSON {
    JObject(map[
      "account_number" := JString(a.accountNumber),
      "created" := JString(createdText),
      "description" := JString(a.description),
      "id" := JString(a.accountId),
      "sort_code" := JString(a.sortCode)])
  }

  /** An account sent with a date text the platform reads back as its date
      meets the decoder's precondition and decodes to itself. */
  lemma AccountRoundTrip(p: Platform, a: Account, createdText: string)
    requires p.dateFromTimestamp(createdText) == Some(a.created)
    ensures CreatedParses(p, AccountJson(a, createdText))
    ensures DecodeAccount(p, AccountJson(a, createdText)) == Ok(a)
  {
  }
}
