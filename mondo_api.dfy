/** The client object of MondoKit/MondoAPI.swift: its credentials, the
    token it holds, the requests its calls send and what each call hands to
    its completion for a given response. Sending and the main-queue dispatch
    of the completion are reduced to the request value and the completion's
    arguments. */
module MondoAPI {
  import opened Wrappers
  import opened SwiftyJSONDecodable
  import opened MondoAccount
  import opened MondoAPIOperation
  import MondoTransaction

  const APIRoot := "https://api.getmondo.co.uk/"

  /** `AuthData`; `createdAt` is the moment the token was received. */
  datatype AuthData = AuthData(createdAt: Date, userId: string, accessToken: string,
                               expiresIn: int, refreshToken: Option<string>)

  /** `expiresAt`: the token is good for `expiresIn` seconds after it was
      received. */
  function ExpiresAt(a: AuthData): (d: Date)
    ensures d.sinceReference - a.createdAt.sinceReference == a.expiresIn as real
  {
    Date(a.createdAt.sinceReference + a.expiresIn as real)
  }

  /** The arguments a call hands to its completion. */
  datatype Completion<T> = Completion(result: Option<T>, error: Option<DecodeError>)

  /** The header every call sends. */
  function AuthHeader(a: AuthData): map<string, string> {
    map["Authorization" := "Bearer " + a.accessToken]
  }

  // ---------------------------------------------------------------------
  // listAccounts

  /** The accounts in `items` that decode, in their order; the others are
      left out without an error. */
  function DecodableAccounts(p: Platform, items: seq<JSON>): seq<Account>
    requires forall i | 0 <= i < |items| :: CreatedParses(p, items[i])
  {
    if items == [] then []
    else
      var init := DecodableAccounts(p, items[..|items| - 1]);
      match DecodeAccount(p, items[|items| - 1])
      case Ok(a) => init + [a]
      case Err(_) => init
  }

  /** The accounts array of a response body, none when "accounts" is not
      an array. */
  function AccountItems(body: JSON): seq<JSON> {
    AsArray(Field(body, "accounts")).GetOr([])
  }

  /** Elements whose creation time the platform can convert; the decoder
      traps on the others. */
  predicate AccountsConvertible(p: Platform, response: ResponseResult) {
    response.Success? ==>
      forall i | 0 <= i < |AccountItems(response.value)| :: CreatedParses(p, AccountItems(response.value)[i])
  }

  /** The completion of `listAccounts`: for a body, the list of its
      decodable accounts and never an error; for a failure, nothing. */
  function AccountsCompletion(p: Platform, response: ResponseResult): Completion<seq<Account>>
    requires AccountsConvertible(p, response)
  {
    match response
    case Success(body) => Completion(Some(DecodableAccounts(p, AccountItems(body))), None)
    case Failure(_) => Completion(None, None)
  }

  /** Skipping is done element by element: the accounts of two runs of
      elements are those of the first followed by those of the second. */
  lemma {:induction false} DecodableAccountsAppend(p: Platform, a: seq<JSON>, b: seq<JSON>)
    requires forall i | 0 <= i < |a| :: CreatedParses(p, a[i])
    requires forall i | 0 <= i < |b| :: CreatedParses(p, b[i])
    ensures forall i | 0 <= i < |a + b| :: CreatedParses(p, (a + b)[i])
    ensures DecodableAccounts(p, a + b) == DecodableAccounts(p, a) + DecodableAccounts(p, b)
    decreases |b|
  {
    assert forall i | 0 <= i < |a + b| :: CreatedParses(p, (a + b)[i]) by {
      forall i | 0 <= i < |a + b| ensures CreatedParses(p, (a + b)[i]) {
        if i < |a| { assert (a + b)[i] == a[i]; } else { assert (a + b)[i] == b[i - |a|]; }
      }
    }
    if b == [] {
      assert a + b == a;
    } else {
      var b' := b[..|b| - 1];
      assert (a + b)[..|a + b| - 1] == a + b';
      assert (a + b)[|a + b| - 1] == b[|b| - 1];
      DecodableAccountsAppend(p, a, b');
    }
  }

  /** A single element contributes its account when it decodes and nothing
      otherwise. */
  lemma DecodableAccountsSingle(p: Platform, j: JSON)
    requires CreatedParses(p, j)
    ensures DecodableAccounts(p, [j]) == match DecodeAccount(p, j) case Ok(a) => [a] case Err(_) => []
  {
    assert [j][..0] == [];
  }

  /** When every element decodes, the list has one account per element, in
      order. */
  lemma {:induction false} AllDecodableAccountsKept(p: Platform, items: seq<JSON>)
    requires forall i | 0 <= i < |items| :: CreatedParses(p, items[i]) && DecodeAccount(p, items[i]).Ok?
    ensures |DecodableAccounts(p, items)| == |items|
    ensures forall i | 0 <= i < |items| :: DecodableAccounts(p, items)[i] == DecodeAccount(p, items[i]).value
    decreases |items|
  {
    if items != [] {
      var init := items[..|items| - 1];
      assert forall i | 0 <= i < |init| :: init[i] == items[i];
      AllDecodableAccountsKept(p, init);
    }
  }

  /** A body without an "accounts" array gives an empty list, not an
      error. */
  lemma NoAccountsArray(p: Platform, body: JSON)
    requires !Field(body, "accounts").JArray?
    ensures AccountsConvertible(p, Success(body))
    ensures AccountsCompletion(p, Success(body)) == Completion(Some([]), None)
  {
  }

  // ---------------------------------------------------------------------
  // getBalanceForAccount

  /** The completion of `getBalanceForAccount`, for the balance decoder
      (`MondoAccountBalance.init(json:)`, which is not part of this model). */
  function BalanceCompletion<B>(decodeBalance: JSON -> Result<B>, response: ResponseResult): (c: Completion<B>)
    ensures response.Failure? ==> c == Completion(None, None)
    ensures response.Success? ==> c.result == decodeBalance(response.value).ToOption()
    ensures response.Success? ==> c.error == decodeBalance(response.value).ErrorOf()
    ensures c.result.Some? ==> c.error.None?
  {
    match response
    case Success(body) =>
      (match decodeBalance(body)
       case Ok(b) => Completion(Some(b), None)
       case Err(e) => Completion(None, Some(e)))
    case Failure(_) => Completion(None, None)
  }

  // ---------------------------------------------------------------------
  // listTransactionsForAccount

  /** The parameters of `listTransactionsForAccount`: always the account,
      and "expand[]" exactly when an expansion is asked for. */
  function TransactionParameters(accountId: string, expand: Option<string>): (params: map<string, string>)
    ensures params.Keys == {"account_id"} + (if expand.Some? then {"expand[]"} else {})
    ensures params["account_id"] == accountId
    ensures expand.Some? ==> params["expand[]"] == expand.value
  {
    var params := map["account_id" := accountId];
    if expand.Some? then params["expand[]" := expand.value] else params
  }

  /** The completion of `listTransactionsForAccount`: the "transactions"
      array decoded fail-fast, or its error; for a failure, nothing. */
  ghost function TransactionsCompletion(p: Platform, response: ResponseResult): Completion<seq<MondoTransaction.Transaction>> {
    match response
    case Success(body) =>
      (match DecodeArray(Field(body, "transactions"), MondoTransaction.TransactionDecoder(p))
       case Ok(ts) => Completion(Some(ts), None)
       case Err(e) => Completion(None, Some(e)))
    case Failure(_) => Completion(None, None)
  }

  /** The first transaction that does not decode decides the error, under
      its index and with no key for the array itself. */
  lemma TransactionsFirstFailure(p: Platform, items: seq<JSON>, i: nat)
    requires i < |items| && MondoTransaction.TransactionDecoder(p)(items[i]).Err?
    requires forall k | 0 <= k < i :: MondoTransaction.TransactionDecoder(p)(items[k]).Ok?
    ensures TransactionsCompletion(p, Success(JObject(map["transactions" := JArray(items)]))) ==
            Completion(None, Some(ErrorForKey(IndexKey(i), MondoTransaction.TransactionDecoder(p)(items[i]).error)))
  {
    DecodeElementsFirstFailure(items, MondoTransaction.TransactionDecoder(p), i);
  }

  /** A body without "transactions" is a decode error. */
  lemma MissingTransactions(p: Platform, body: JSON)
    requires body.JObject? && "transactions" !in body.fields
    ensures TransactionsCompletion(p, Success(body)) == Completion(None, Some(NullValue))
  {
  }

  // ---------------------------------------------------------------------
  // The client

  /** `MondoAPI`: the credentials set once at start-up and the token. */
  class MondoAPI {
    var clientId: Option<string>
    var clientSecret: Option<string>
    var authData: Option<AuthData>

    /** `initialised`. */
    predicate Initialised()
      reads this
    {
      clientId.Some? && clientSecret.Some?
    }

    constructor ()
      ensures clientId == None && clientSecret == None && authData == None
      ensures !Initialised()
    {
      clientId := None;
      clientSecret := None;
      authData := None;
    }

    /** `initialiseWithClientId`: allowed once (it asserts the client is
        not yet initialised). */
    method InitialiseWithClientId(clientId: string, clientSecret: string)
      requires !Initialised()
      modifies this
      ensures this.clientId == Some(clientId) && this.clientSecret == Some(clientSecret)
      ensures Initialised()
      ensures authData == old(authData)
    {
      this.clientId := Some(clientId);
      this.clientSecret := Some(clientSecret);
    }

    /** `listAccounts`: without a token nothing is sent and the completion
        is never called; otherwise the request goes to "accounts", and for a
        body the elements of "accounts" are decoded one by one, each failure
        skipped. */
    method ListAccounts(p: Platform, response: ResponseResult)
      returns (request: Option<Request>, completion: Option<Completion<seq<Account>>>)
      requires Initialised() && AccountsConvertible(p, response)
      ensures authData.None? ==> request.None? && completion.None?
      ensures authData.Some? ==>
                request == Some(Request(Get, APIRoot + "accounts", None, Some(AuthHeader(authData.value)))) &&
                completion == Some(AccountsCompletion(p, response))
    {
      if authData.None? {
        return None, None;
      }
      request := Some(Request(Get, APIRoot + "accounts", None, Some(AuthHeader(authData.value))));
      var mondoAccounts: Option<seq<Account>> := None;
      match response {
      case Success(value) =>
        var accounts: seq<Account> := [];
        var items := AsArray(Field(value, "accounts"));
        if items.Some? {
          assert items.value == AccountItems(value);
          assert forall k | 0 <= k < |items.value| :: CreatedParses(p, items.value[k]);
          var i := 0;
          while i < |items.value|
            invariant 0 <= i <= |items.value|
            invariant accounts == DecodableAccounts(p, items.value[..i])
          {
            assert items.value[..i + 1][..i] == items.value[..i];
            var account := DecodeAccount(p, items.value[i]);
            if account.Ok? {
              accounts := accounts + [account.value];
            }
            i := i + 1;
          }
          assert items.value[..i] == items.value;
        }
        mondoAccounts := Some(accounts);
      case Failure(_) =>
      }
      completion := Some(Completion(mondoAccounts, None));
    }

    /** `getBalanceForAccount`: the request goes to "balance" with the
        account's id. */
    method GetBalanceForAccount<B>(account: Account, decodeBalance: JSON -> Result<B>, response: ResponseResult)
      returns (request: Option<Request>, completion: Option<Completion<B>>)
      requires Initialised()
      ensures authData.None? ==> request.None? && completion.None?
      ensures authData.Some? ==>
                request == Some(Request(Get, APIRoot + "balance", Some(map["account_id" := account.accountId]),
                                        Some(AuthHeader(authData.value)))) &&
                completion == Some(BalanceCompletion(decodeBalance, response))
    {
      if authData.None? {
        return None, None;
      }
      request := Some(Request(Get, APIRoot + "balance", Some(map["account_id" := account.accountId]),
                              Some(AuthHeader(authData.value))));
      var balance: Option<B> := None;
      var anyError: Option<DecodeError> := None;
      match response {
      case Success(value) =>
        var decoded := decodeBalance(value);
        if decoded.Ok? {
          balance := Some(decoded.value);
        } else {
          anyError := Some(decoded.error);
        }
      case Failure(_) =>
      }
      completion := Some(Completion(balance, anyError));
    }

    /** `listTransactionsForAccount`: the request goes to "transactions"
        with the account's id and the optional expansion; the completion
        decodes the "transactions" array. */
    method ListTransactionsForAccount(p: Platform, account: Account, expand: Option<string>, response: ResponseResult)
      returns (request: Option<Request>, ghost completion: Option<Completion<seq<MondoTransaction.Transaction>>>)
      requires Initialised()
      ensures authData.None? ==> request.None? && completion.None?
      ensures authData.Some? ==>
                request == Some(Request(Get, APIRoot + "transactions", Some(TransactionParameters(account.accountId, expand)),
                                        Some(AuthHeader(authData.value)))) &&
                completion == Some(TransactionsCompletion(p, response))
    {
      if authData.None? {
        return None, None;
      }
      var parameters := map["account_id" := account.accountId];
      if expand.Some? {
        parameters := parameters["expand[]" := expand.value];
      }
      request := Some(Request(Get, APIRoot + "transactions", Some(parameters), Some(AuthHeader(authData.value))));
      completion := Some(TransactionsCompletion(p, response));
    }
  }
}
