# MondoKit in Dafny

A model of the core of MondoKit, a Swift client for the Mondo banking API,
with proofs about it. It covers:

- **the typed JSON decoding layer.** This is the `SwiftyJSONDecodable` protocol: the
  recursive `SwiftyJSONDecodeError`, the primitive, array, dictionary,
  keyed, raw-representable, date and URL decoders.
- **the domain records built on it.** These are address, attachment, merchant, transaction,
  feed item, account, category and the id-or-object `IdExpandable` reference.
- **the classification of API error bodies.**
- **the life cycle of an API operation.** That is start, cancellation, the response
  closure and its single handler call.
- **the OAuth flow.** That is the query-string parser of `NSURL.queryParams` with its
  percent-decoding, the authorize URL and the redirect decision.
- **the client's bookkeeping.** That is token expiry, the initialise-once
  credentials, the request each call sends and how each response becomes a
  completion.
- **the test app's CSV parser and currency minor-unit table.**

The modules follow the source files:

| module | file | form |
|---|---|---|
| `Wrappers` | `wrappers.dfy` | Swift optionals |
| `Strings` | `strings.dfy` | `String(n)`, `Int(s)`, `componentsSeparatedBy…` |
| `PercentEncoding` | `percent_encoding.dfy` | UTF-8 and `stringByRemovingPercentEncoding` |
| `SwiftyJSONDecodable` | `swifty_json_decodable.dfy` | functions; `InitArray` and `InitDictionary` are loops |
| `MondoAPIError` | `mondo_api_error.dfy` | functions |
| `MondoModel`, `MondoCategory`, `MondoAddress`, `MondoAttachment`, `MondoMerchant`, `MondoTransaction`, `MondoFeedItem`, `MondoAccount` | one file each | functions and lemmas |
| `MondoAPIOAuth` | `mondo_api_oauth.dfy` | functions, the `QueryParams` loop, class `OAuthViewController` |
| `MondoAPIOperation` | `mondo_api_operation.dfy` | class `MondoAPIOperation` |
| `MondoAPI` | `mondo_api.dfy` | class `MondoAPI` with the accounts loop |
| `CurrencyFormatter` | `currency_formatter.dfy` | class `CSV` with its loops, the table loop |

JSON is a datatype: null, bool, number (an exact real), string, array or
object. The Swift `throws` of a decoder is a `Result` holding either the value
or the `DecodeError` thrown.

Each record decoder `R` is specified by a list of its keyed decodes in source
order, each taken on its own (`RFieldErrors`). Three lemmas tie the decoder to
that list:

- `…FailsAt`: when field `i` is the first to fail, the decoder reports its error;
- `…Ok`: the decoder succeeds exactly when no field fails;
- `…ReportsFirstError`: the decoder reports the first error of the list,
  through `SwiftyJSONDecodable.FirstError`.

The date formatters, `NSURL(string:)` and `NSDate.dateFromTimestamp` are
Foundation services. They are fields of a `Platform` value given as a
parameter, so every property holds whatever they accept.

Two modelling choices:

- `listTransactionsForAccount` decodes with
  `json["transactions"].requiredAsArray()` (MondoAPI.swift:182). This is the
  plain array decoder applied to the member, so its error has no outer
  `"transactions"` key, and a missing member gives a bare `NullValue`.
- The record files call `requiredValueForKey`, `requiredArrayForKey` and
  `requiredAsDictionaryForKey`. These are modelled as the required forms
  `decodeValueForKey`, `decodeArrayForKey` and `decodeAsDictionaryForKey`
  of the framework file.

## Model

| member | source | states |
|---|---|---|
| Strings.NatToString | MondoKit/SwiftyJSONDecodable.swift:103 | `String(n)`, used for the index key, is at least one decimal digit with no leading zero |
| Strings.DigitsValueOfNatToString | MondoKit/SwiftyJSONDecodable.swift:103 | the digits `String(n)` prints denote `n` |
| Strings.NatToStringInjective | MondoKit/SwiftyJSONDecodable.swift:103 | distinct indices give distinct index keys |
| Strings.ParseInt | MondoKitTestApp/CurrencyFormatter.swift:46 | a parsed `Int(s)` is within the 64-bit range and comes from a non-empty string |
| Strings.ParseIntOfNatToString | MondoKitTestApp/CurrencyFormatter.swift:46 | `Int(s)` reads back a printed number, unsigned, with "+" or with "-" |
| Strings.Split | MondoKit/MondoAPIOAuth.swift:94-95 | `componentsSeparatedBy…` always gives at least one piece |
| Strings.SplitPiecesHaveNoSeparator | MondoKit/MondoAPIOAuth.swift:94-95 | no piece contains a separator |
| Strings.JoinSplit | MondoKit/MondoAPIOAuth.swift:94-95 | joining the pieces with the separator gives the string back |
| Strings.SplitJoin | MondoKit/MondoAPIOAuth.swift:94-95 | splitting a join of separator-free pieces gives the pieces back |
| PercentEncoding.HexValue | MondoKit/MondoAPIOAuth.swift:97 | a hexadecimal digit of either case has a value below 16 |
| PercentEncoding.HexDigit | MondoKit/MondoAPIOAuth.swift:97 | the digit written for `d` is upper-case and reads back as `d` |
| PercentEncoding.Utf8EncodeChar | MondoKit/MondoAPIOAuth.swift:97 | a scalar value encodes to one to four octets |
| PercentEncoding.DecodeScalar | MondoKit/MondoAPIOAuth.swift:97 | a decoded scalar value uses one to four of the available octets |
| PercentEncoding.DecodeScalarOfEncoding | MondoKit/MondoAPIOAuth.swift:97 | the decoder reads an encoded scalar back from the front of any octets, consuming exactly its encoding |
| PercentEncoding.Utf8RoundTrip | MondoKit/MondoAPIOAuth.swift:97 | UTF-8 decoding inverts UTF-8 encoding for every string |
| PercentEncoding.UnescapePlain | MondoKit/MondoAPIOAuth.swift:97 | a string without "%" stands for its own UTF-8 octets |
| PercentEncoding.NoPercentUnchanged | MondoKit/MondoAPIOAuth.swift:97 | removing percent-encoding leaves a string without "%" unchanged |
| PercentEncoding.MalformedExamples | MondoKit/MondoAPIOAuth.swift:97 | a lone "%", a short triplet, non-hex digits and octets that are not UTF-8 all fail to decode |
| PercentEncoding.UnescapeOctets | MondoKit/MondoAPIOAuth.swift:97 | "%HH" triplets followed by text stand for their octets followed by the text's, and fail exactly when the text fails |
| PercentEncoding.UnescapePercentEncode | MondoKit/MondoAPIOAuth.swift:97 | a percent-encoded string stands for the UTF-8 octets of the original |
| PercentEncoding.PercentRoundTrip | MondoKit/MondoAPIOAuth.swift:97 | removing percent-encoding inverts percent-encoding |
| PercentEncoding.PercentEncodeAlphabet | MondoKit/MondoAPIOAuth.swift:97 | percent-encoding yields only unreserved characters and "%" |
| PercentEncoding.EncodeOctetsAlphabet | MondoKit/MondoAPIOAuth.swift:97 | octet triplets hold only unreserved characters and "%" |
| SwiftyJSONDecodable.Truncate | MondoKit/SwiftyJSONDecodable.swift:52 | `json.int` truncates toward zero: it is within one of the number, on the side of zero |
| SwiftyJSONDecodable.Leaf | MondoKit/SwiftyJSONDecodable.swift:27-33 | the leaf of an error is never an `ErrorForKey` |
| SwiftyJSONDecodable.KeyPathAndLeafDetermineError | MondoKit/SwiftyJSONDecodable.swift:27-33 | every error is its leaf nested under its key path |
| SwiftyJSONDecodable.NestHasPathAndLeaf | MondoKit/SwiftyJSONDecodable.swift:27-33 | nesting a leaf under a path gives an error with that path and that leaf |
| SwiftyJSONDecodable.DebugDescriptionJoinsKeyPath | MondoKit/SwiftyJSONDecodable.swift:37-45 | the description is the keys and the leaf's description joined by "." |
| SwiftyJSONDecodable.DebugDescriptionExample | MondoKit/SwiftyJSONDecodable.swift:37-45 | a missing id of the second transaction reads `transactions.[1].id.NullValue` |
| SwiftyJSONDecodable.PrimitiveDecoders | MondoKit/SwiftyJSONDecodable.swift:50-81 | each primitive decoder accepts exactly its own kind; null gives NullValue and any other kind WrongType |
| SwiftyJSONDecodable.PrimitiveRoundTrips | MondoKit/SwiftyJSONDecodable.swift:50-81 | decoding gives back the int, double, string or bool a value was built from |
| SwiftyJSONDecodable.DecodeElementsOk | MondoKit/SwiftyJSONDecodable.swift:93-106 | an array decodes exactly when every element does, and keeps length and order |
| SwiftyJSONDecodable.DecodeElementsFirstFailure | MondoKit/SwiftyJSONDecodable.swift:93-104 | a failed array decode reports `ErrorForKey("[i]", e)` for the first failing element `i` |
| SwiftyJSONDecodable.DecodeElementsPrefixFailure | MondoKit/SwiftyJSONDecodable.swift:95-104 | a failure within a prefix decides the whole decode: fail-fast |
| SwiftyJSONDecodable.InitArray | MondoKit/SwiftyJSONDecodable.swift:87-107 | the loop with a running index computes the array decode, including the null and wrong-type guards |
| SwiftyJSONDecodable.DecodeEntries | MondoKit/SwiftyJSONDecodable.swift:118-122 | member decoding gives a map with exactly the object's keys and each value decoded, or the bare error of a failing member |
| SwiftyJSONDecodable.EntriesOutcomeOk | MondoKit/SwiftyJSONDecodable.swift:118-122 | the dictionary decode succeeds exactly when every member decodes |
| SwiftyJSONDecodable.InitDictionary | MondoKit/SwiftyJSONDecodable.swift:112-129 | the two loops give NullValue for null, WrongType for a non-object, else such an outcome |
| SwiftyJSONDecodable.ValueForKeyOutcome | MondoKit/SwiftyJSONDecodable.swift:168-180 | a null receiver gives bare NullValue and a non-object bare WrongType; a missing key gives `ErrorForKey(key, NullValue)`; a member's error is wrapped once under the key |
| SwiftyJSONDecodable.KeyedErrorsCarryTheKey | MondoKit/SwiftyJSONDecodable.swift:144-180 | on an object every error of the required value and array decodes starts with the key |
| SwiftyJSONDecodable.OptionalForKeyAgreesWithRequired | MondoKit/SwiftyJSONDecodable.swift:134-166 | the optional value and array decodes give nil for a null or missing member and otherwise the required result |
| SwiftyJSONDecodable.AsOptionalValueAgreesWithAsValue | MondoKit/SwiftyJSONDecodable.swift:182-194 | the optional `decodeAsValue` gives nil exactly for null; otherwise it fails exactly when the required form does, with the same error, and else wraps the same value |
| SwiftyJSONDecodable.DictionaryForKeyOutcome | MondoKit/SwiftyJSONDecodable.swift:197-209 | the keyed dictionary decode wraps under the key, and on success has exactly the member object's keys |
| SwiftyJSONDecodable.StringRawRepresentable | MondoKit/SwiftyJSONDecodable.swift:215-224 | null gives NullValue, a non-string WrongType, a string naming a case that case, any other string `InvalidValue(s)` |
| SwiftyJSONDecodable.DecodeDateOutcome | MondoKit/SwiftyJSONDecodable.swift:260-273 | a date decodes exactly from a string one format reads, the fractional one first; otherwise `InvalidValue(raw)` |
| SwiftyJSONDecodable.DecodeUrlOutcome | MondoKit/SwiftyJSONDecodable.swift:288-296 | a URL decodes exactly from a string NSURL accepts; null gives NullValue, a non-string WrongType, a bad string `InvalidValue(s)` |
| SwiftyJSONDecodable.FirstErrorIsFirstFailure | MondoKit/MondoAddress.swift:27-33 | a fail-fast run of decodes reports none exactly when none fails, and otherwise the first failure |
| MondoAPIError.GetLocalizedDescription | MondoKit/MondoAPIError.swift:24-34 | never nil: the carried message, or "Unknown error" for Unknown |
| MondoAPIError.ApiErrorClassification | MondoKit/MondoAPIError.swift:36-57 | both directions for each case: Unknown iff no string message; the three codes pick their case; any other code or none gives Other; the message is carried |
| MondoAPIError.ErrorBodyRoundTrip | MondoKit/MondoAPIError.swift:36-57 | classifying the body of an error gives the error back |
| MondoAPIError.DescriptionOfClassifiedBody | MondoKit/MondoAPIError.swift:24-57 | the description of a classified body is its string message or "Unknown error" |
| MondoAPIError.BadAccessTokenExample | MondoKit/MondoAPIError.swift:44-45 | the bad-access-token body classifies as BadAccessToken with its message |
| MondoModel.DecodeIdExpandableOutcome | MondoKit/MondoModel.swift:40-45 | a string gives `Id(s)`; null gives NullValue; anything else gives `Expanded` of the object decode, its error passed through |
| MondoModel.DecodedReferenceAccessors | MondoKit/MondoModel.swift:23-45 | a decoded string reference has that id and no object; an expanded one has the decoded object and its id |
| MondoCategory.RawValueCorrespondence | MondoKit/MondoCategory.swift:13-25 | raw values and cases correspond one to one, and exactly the eleven strings name a case |
| MondoCategory.DecodeCategoryStrict | MondoKit/MondoCategory.swift:13-27 | a listed string decodes to the case with that raw value; another string gives `InvalidValue(s)`; null NullValue, other kinds WrongType |
| MondoAddress.DecodeAddressFailsAt | MondoKit/MondoAddress.swift:27-33 | when field `i` fails first, the decode fails with its error |
| MondoAddress.DecodeAddressOk | MondoKit/MondoAddress.swift:27-33 | the decode succeeds exactly when no field fails |
| MondoAddress.DecodeAddressReportsFirstError | MondoKit/MondoAddress.swift:27-33 | the decode reports the first failing field's error, or none |
| MondoAddress.DecodeAddressFields | MondoKit/MondoAddress.swift:14-33 | each field of a decoded address is its key's decoded value |
| MondoAddress.AddressFieldKinds | MondoKit/MondoAddress.swift:27-33 | on an object a field fails exactly when its member is not a number (latitude, longitude) or not a string (the others), with `ErrorForKey(key, NullValue or WrongType)` |
| MondoAddress.AddressRoundTrip | MondoKit/MondoAddress.swift:12-33 | decoding the object of an address gives it back |
| MondoAttachment.DecodeAttachmentFailsAt | MondoKit/MondoAttachment.swift:24-27 | when field `i` fails first, the decode fails with its error |
| MondoAttachment.DecodeAttachmentOk | MondoKit/MondoAttachment.swift:24-27 | the decode succeeds exactly when no field fails |
| MondoAttachment.DecodeAttachmentReportsFirstError | MondoKit/MondoAttachment.swift:24-27 | the decode reports the first failing field's error, or none |
| MondoAttachment.AttachmentDateAndUrlErrors | MondoKit/MondoAttachment.swift:25-27 | `created` is accepted iff a format reads it, else `ErrorForKey("created", InvalidValue(raw))`; a bad url gives `ErrorForKey("url", InvalidValue(s))` |
| MondoAttachment.DecodedAttachmentId | MondoKit/MondoAttachment.swift:12-24 | the `Idable.id` of a decoded attachment is the "id" string |
| MondoAttachment.AttachmentRoundTrip | MondoKit/MondoAttachment.swift:12-28 | an attachment with a readable date text and a valid URL decodes to itself |
| MondoMerchant.DecodeMerchantFailsAt | MondoKit/MondoMerchant.swift:28-35 | when field `i` fails first, the decode fails with its error |
| MondoMerchant.DecodeMerchantOk | MondoKit/MondoMerchant.swift:28-35 | the decode succeeds exactly when no field fails |
| MondoMerchant.DecodeMerchantReportsFirstError | MondoKit/MondoMerchant.swift:28-35 | the decode reports the first failing field's error, or none |
| MondoMerchant.NestedAddressErrorPath | MondoKit/MondoMerchant.swift:29 | a nested address failure is `ErrorForKey("address", ErrorForKey(field, e))` for the first failing address field |
| MondoMerchant.LogoAndCategoryErrors | MondoKit/MondoMerchant.swift:32-35 | a bad logo string gives `ErrorForKey("logo", InvalidValue(s))`, an unknown category `ErrorForKey("category", InvalidValue(s))` |
| MondoMerchant.DecodedMerchantFields | MondoKit/MondoMerchant.swift:12-35 | the merchant's id is the "id" string; its address and category are their members decoded |
| MondoTransaction.DecodeTransactionFailsAt | MondoKit/MondoTransaction.swift:37-59 | when required field `i` fails first, the decode fails with its error |
| MondoTransaction.DecodeTransactionOk | MondoKit/MondoTransaction.swift:37-59 | the decode succeeds exactly when no required field fails; merchant and settled never fail it |
| MondoTransaction.DecodeTransactionReportsFirstError | MondoKit/MondoTransaction.swift:37-59 | the decode reports the first failing required field's error, or none |
| MondoTransaction.DecodeTransactionFields | MondoKit/MondoTransaction.swift:14-59 | each field of a decoded transaction is its key's decoded value; merchant and settled are the optional forms |
| MondoTransaction.RequiredFieldsCarryTheirKey | MondoKit/MondoTransaction.swift:37-59 | each of the thirteen required fields fails under its own key, and a missing one with `ErrorForKey(key, NullValue)` |
| MondoTransaction.OptionalFieldsOfTransaction | MondoKit/MondoTransaction.swift:51-53 | a string merchant is `Id(s)`, a decodable object `Expanded`, otherwise nil; settled is nil when missing, null or unreadable |
| MondoTransaction.BadAttachmentPath | MondoKit/MondoTransaction.swift:57 | a bad attachment `i` gives `ErrorForKey("attachments", ErrorForKey("[i]", e))` |
| MondoTransaction.DecodedMetadataAndCategory | MondoKit/MondoTransaction.swift:42-59 | metadata has exactly the object's keys with their strings; the category's raw value is the "category" string |
| MondoFeedItem.FeedItemTypeLenient | MondoKit/MondoFeedItem.swift:15-34 | the type decodes exactly from strings: known ones to their case, any other to Unknown; null NullValue, other kinds WrongType |
| MondoFeedItem.LenientAgainstStrict | MondoKit/MondoFeedItem.swift:23-34 | the lenient decode agrees with the strict one except that InvalidValue becomes Unknown |
| MondoFeedItem.DecodeFeedItemFailsAt | MondoKit/MondoFeedItem.swift:54-65 | when field `i` fails first, the decode fails with its error |
| MondoFeedItem.DecodeFeedItemOk | MondoKit/MondoFeedItem.swift:54-65 | the decode succeeds exactly when no field fails |
| MondoFeedItem.DecodeFeedItemReportsFirstError | MondoKit/MondoFeedItem.swift:54-65 | the decode reports the first failing field's error, or none |
| MondoFeedItem.ParamsAndTransactionFields | MondoKit/MondoFeedItem.swift:44-65 | a missing params fails with `ErrorForKey("params", NullValue)`; a missing transaction is no error, a present one fails under its key exactly when it does not decode |
| MondoFeedItem.DecodedFeedItemParamsAndTransaction | MondoKit/MondoFeedItem.swift:44-65 | a decoded item always has params with the object's keys; its transaction is nil exactly for a null member |
| MondoAccount.DecodeAccountFailsAt | MondoKit/MondoAccount.swift:25-30 | when field `i` fails first, the decode fails with its error |
| MondoAccount.DecodeAccountOk | MondoKit/MondoAccount.swift:25-30 | the decode succeeds exactly when no field fails |
| MondoAccount.DecodeAccountReportsFirstError | MondoKit/MondoAccount.swift:25-30 | the decode reports the first failing field's error, or none |
| MondoAccount.AccountFieldKinds | MondoKit/MondoAccount.swift:25-30 | on an object a field fails exactly when its member is not a string, under its key; a non-string created gives WrongType |
| MondoAccount.DecodedAccountFields | MondoKit/MondoAccount.swift:25-30 | the account id is the "id" string and the date the platform's reading of "created" |
| MondoAccount.AccountRoundTrip | MondoKit/MondoAccount.swift:12-30 | an account with a readable date text decodes to itself |
| MondoAPIOAuth.QueryParams | MondoKit/MondoAPIOAuth.swift:88-105 | the loop over the parts computes the parameter map of the query |
| MondoAPIOAuth.ParamsFromPartsKeys | MondoKit/MondoAPIOAuth.swift:94-99 | a key is present exactly when some part splits into two decodable pieces with that key |
| MondoAPIOAuth.ParamsFromPartsLastWins | MondoKit/MondoAPIOAuth.swift:98 | the last part giving a key decides its value |
| MondoAPIOAuth.PairOfKeyValue | MondoKit/MondoAPIOAuth.swift:95-98 | a part with one "=" gives its decoded key and value, or nothing when either fails to decode |
| MondoAPIOAuth.PartWithoutEqualsSkipped | MondoKit/MondoAPIOAuth.swift:96 | a part without "=" is skipped |
| MondoAPIOAuth.PartWithTwoEqualsSkipped | MondoKit/MondoAPIOAuth.swift:96 | a part with two "=" is skipped |
| MondoAPIOAuth.NoQueryNoParams | MondoKit/MondoAPIOAuth.swift:90-92 | a URL without a query has no parameters |
| MondoAPIOAuth.EncodePairs | MondoKit/MondoAPIOAuth.swift:94-98 | one encoded part per pair, in order |
| MondoAPIOAuth.PairOfEncodePair | MondoKit/MondoAPIOAuth.swift:95-98 | an encoded pair reads back as the pair and holds no "&" |
| MondoAPIOAuth.ParamsOfEncodedPairs | MondoKit/MondoAPIOAuth.swift:94-99 | the parts of encoded pairs give the map of the pairs, the last one winning |
| MondoAPIOAuth.QueryRoundTrip | MondoKit/MondoAPIOAuth.swift:88-105 | parsing a query built from any pairs gives the map of those pairs |
| MondoAPIOAuth.AuthorizeQueryJoin | MondoKit/MondoAPIOAuth.swift:50-53 | the authorize query is the four parameter parts joined by "&" |
| MondoAPIOAuth.ParamsOfFourParts | MondoKit/MondoAPIOAuth.swift:88-105 | four parts with their own pairs and no "&" read back as the map of the four pairs |
| MondoAPIOAuth.QueryOfPlainPairs | MondoKit/MondoAPIOAuth.swift:88-105 | four unencoded plain pairs joined by "&" read back as their map |
| MondoAPIOAuth.AuthorizeUrlReadsBack | MondoKit/MondoAPIOAuth.swift:50-53 | with plain values, the authorize URL's query reads back as exactly client_id, redirect_uri, response_type=code and state |
| MondoAPIOAuth.AuthorizeUrlShape | MondoKit/MondoAPIOAuth.swift:50-53 | the authorize URL is the root, "?" and the query, concatenated without encoding |
| MondoAPIOAuth.DecideRedirect | MondoKit/MondoAPIOAuth.swift:67-81 | a redirect's code is exchanged exactly when the scheme matches and its state equals the stored state; otherwise the load goes ahead |
| MondoAPIOAuth.ExchangeRequiresState | MondoKit/MondoAPIOAuth.swift:67-77 | an exchange needs the redirect scheme, a stored state equal to the URL's state, and a code |
| MondoAPIOAuth.OAuthViewController.constructor | MondoKit/MondoAPIOAuth.swift:22-27 | the controller starts with its client id, no state and nothing loaded or exchanged |
| MondoAPIOAuth.OAuthViewController.ViewWillAppear | MondoKit/MondoAPIOAuth.swift:42-60 | the state becomes the UUID, and the authorize URL is loaded only when NSURL accepts it |
| MondoAPIOAuth.OAuthViewController.ShouldStartLoad | MondoKit/MondoAPIOAuth.swift:65-83 | returns false exactly for an accepted redirect, whose code is then exchanged; nothing else changes |
| MondoAPIOperation.ErrorFromResponse | MondoKit/MondoAPIOperation.swift:119-130 | a parsed body gives the classified API error, a failure its transport error |
| MondoAPIOperation.HandlerArguments | MondoKit/MondoAPIOperation.swift:64-91 | exactly one of json and error; json iff status 200 with a body; otherwise the response's error, or the failure under 200 |
| MondoAPIOperation.ErrorStatusCarriesApiError | MondoKit/MondoAPIOperation.swift:73-78 | an error body under a non-200 status reaches the handler as that API error, with no json |
| MondoAPIOperation.MondoAPIOperation.constructor | MondoKit/MondoAPIOperation.swift:107-117 | a new operation is neither executing, finished nor cancelled, and has sent nothing |
| MondoAPIOperation.MondoAPIOperation.Cancel | MondoKit/MondoAPIOperation.swift:44 | cancelling only sets the flag |
| MondoAPIOperation.MondoAPIOperation.Start | MondoKit/MondoAPIOperation.swift:42-55 | cancelled: finished, not executing, nothing sent; otherwise executing and one request sent |
| MondoAPIOperation.MondoAPIOperation.Respond | MondoKit/MondoAPIOperation.swift:56-93 | finishes and stops executing; the handler is called once with the response's arguments unless cancelled |
| MondoAPIOperation.RunOperation | MondoKit/MondoAPIOperation.swift:42-93 | over a whole run the handler is called at most once: never when cancelled, else exactly once |
| MondoAPI.ExpiresAt | MondoKit/MondoAPI.swift:21-23 | the expiry is `expiresIn` seconds after creation |
| MondoAPI.DecodableAccountsAppend | MondoKit/MondoAPI.swift:90-100 | skipping is element by element: the accounts of a concatenation are the concatenation |
| MondoAPI.DecodableAccountsSingle | MondoKit/MondoAPI.swift:92-98 | one element gives its account when it decodes, and nothing otherwise |
| MondoAPI.AllDecodableAccountsKept | MondoKit/MondoAPI.swift:90-100 | when every element decodes, all accounts are kept in order |
| MondoAPI.NoAccountsArray | MondoKit/MondoAPI.swift:87-100 | a body without an accounts array gives an empty list and no error |
| MondoAPI.BalanceCompletion | MondoKit/MondoAPI.swift:128-144 | a failure gives nil and nil; a body gives the balance or the decode error, never both |
| MondoAPI.TransactionParameters | MondoKit/MondoAPI.swift:159-162 | always account_id, and "expand[]" exactly when an expansion is given |
| MondoAPI.TransactionsFirstFailure | MondoKit/MondoAPI.swift:181-187 | the first transaction that fails decides the error, under its index key |
| MondoAPI.MissingTransactions | MondoKit/MondoAPI.swift:181-187 | a body without "transactions" gives nil and NullValue |
| MondoAPI.MondoAPI.constructor | MondoKit/MondoAPI.swift:32-42 | a new client has no credentials and no token, and is not initialised |
| MondoAPI.MondoAPI.InitialiseWithClientId | MondoKit/MondoAPI.swift:37-50 | allowed only before initialisation; sets both credentials so the client is initialised |
| MondoAPI.MondoAPI.ListAccounts | MondoKit/MondoAPI.swift:64-109 | without a token nothing is sent or completed; otherwise the accounts request, and the loop computes the decodable accounts with no error |
| MondoAPI.MondoAPI.GetBalanceForAccount | MondoKit/MondoAPI.swift:111-149 | without a token nothing happens; otherwise the balance request with the account id, completed as above |
| MondoAPI.MondoAPI.ListTransactionsForAccount | MondoKit/MondoAPI.swift:153-195 | without a token nothing happens; otherwise the transactions request with those parameters, completed by the array decode |
| CurrencyFormatter.TrimLeading | MondoKitTestApp/CurrencyFormatter.swift:79 | a suffix of the input, after only newlines, that does not start with one |
| CurrencyFormatter.TrimTrailing | MondoKitTestApp/CurrencyFormatter.swift:79 | a prefix of the input, followed by only newlines, that does not end with one |
| CurrencyFormatter.TrimNewlines | MondoKitTestApp/CurrencyFormatter.swift:79 | the slice between leading and trailing newlines, with none at its ends |
| CurrencyFormatter.SplitLines | MondoKitTestApp/CurrencyFormatter.swift:79 | line splitting gives at least one line |
| CurrencyFormatter.LinesOf | MondoKitTestApp/CurrencyFormatter.swift:79 | there are no lines exactly when the trimmed contents are empty |
| CurrencyFormatter.SplitLinesHaveNoTerminator | MondoKitTestApp/CurrencyFormatter.swift:79 | no line contains a line terminator |
| CurrencyFormatter.NormalizeLineEnds | MondoKitTestApp/CurrencyFormatter.swift:79 | the text with every terminator, "\r\n" counted once, written as "\n": never longer, and no other terminator left |
| CurrencyFormatter.SplitLinesNormalized | MondoKitTestApp/CurrencyFormatter.swift:79 | the lines are exactly the pieces between the "\n"s of the normalized text, so each terminator ends one line and every other character stays in its line, in order |
| CurrencyFormatter.JoinSplitLines | MondoKitTestApp/CurrencyFormatter.swift:79 | joining the lines with "\n" gives the normalized text back |
| CurrencyFormatter.ParseHeaders | MondoKitTestApp/CurrencyFormatter.swift:101-103 | at least one header, none holding a delimiter character |
| CurrencyFormatter.RowsOf | MondoKitTestApp/CurrencyFormatter.swift:105-126 | one row per line after the first, in order, each the row of that line's fields |
| CurrencyFormatter.RowOfKeys | MondoKitTestApp/CurrencyFormatter.swift:113-121 | each row's keys are exactly the headers |
| CurrencyFormatter.RowOfValue | MondoKitTestApp/CurrencyFormatter.swift:115-121 | a header holds the field at its last index, or "" when the line is short |
| CurrencyFormatter.ColumnsOf | MondoKitTestApp/CurrencyFormatter.swift:128-137 | every column has one entry per row |
| CurrencyFormatter.Column | MondoKitTestApp/CurrencyFormatter.swift:132 | a column holds each row's value for the header, or "" |
| CurrencyFormatter.ColumnsOfKeys | MondoKitTestApp/CurrencyFormatter.swift:128-137 | the columns' keys are exactly the headers, each with its column |
| CurrencyFormatter.CSV.constructor | MondoKitTestApp/CurrencyFormatter.swift:70-89 | headers, rows and columns are those of the trimmed lines |
| CurrencyFormatter.CSV.ParseRows | MondoKitTestApp/CurrencyFormatter.swift:105-126 | the nested loops compute the rows |
| CurrencyFormatter.CSV.ParseColumns | MondoKitTestApp/CurrencyFormatter.swift:128-137 | the loop computes the columns |
| CurrencyFormatter.ParsedShape | MondoKitTestApp/CurrencyFormatter.swift:101-137 | row `r` has exactly the headers, header `i` holds field `i` or "", and column `i` holds it at `r` |
| CurrencyFormatter.CurrencyCodeToMinorUnit | MondoKitTestApp/CurrencyFormatter.swift:42-52 | the loop computes the minor-unit table |
| CurrencyFormatter.MinorUnitTableKeys | MondoKitTestApp/CurrencyFormatter.swift:43-49 | a code is in the table exactly when some row has it and a minor unit that parses |
| CurrencyFormatter.MinorUnitTableLastWins | MondoKitTestApp/CurrencyFormatter.swift:48 | the last such row for a code decides its minor unit |
| CurrencyFormatter.MinorUnitTableRange | MondoKitTestApp/CurrencyFormatter.swift:46 | every minor unit is within the 64-bit range |
| CurrencyFormatter.Scale | MondoKitTestApp/CurrencyFormatter.swift:28 | the code's minor unit, and 2 for a code not in the table |

## Left out

- Networking is not modelled: Alamofire requests, `responseJSON`, the response queue and
  `dispatch_async`. Each call takes the response it would receive as a parameter and
  returns the request it would send and the completion's arguments.
- NSOperation's key-value observing notifications are not modelled. Concurrent
  cancellation is reduced to the flag, read at the two points where the code reads it.
- The view controllers and the UIWebView are not modelled. `OAuthViewController` keeps
  the requests it would load and the codes it would exchange as sequences.
- `NSUUID` is a parameter of `ViewWillAppear`.
- `authorizeFromCode`, `AUTHRoot`, `AUTHRedirectUri` and `AUTHRedirectScheme` are not
  part of this model, so the roots, the redirect URI and the scheme are parameters.
- `NSDateFormatter`, `NSURL(string:)` and `NSDate.dateFromTimestamp` are abstract fields
  of `Platform`. The model does not define what they accept.
- `MondoAccountBalance` is not part of this model. Its decoder is a parameter of
  `GetBalanceForAccount` and `BalanceCompletion`.
- The `NSURL` behind a request is reduced to its scheme and query, so a URL that NSURL
  rejects is not modelled.
- `SwiftyJSONDecodable.RawString`: returns none for numbers, arrays and objects. The model
  gives the raw text only of null, booleans and strings, because SwiftyJSON's number and
  collection printing is not modelled. An `InvalidValue` error for those kinds carries
  none.
- SwiftyJSON's bridging of JSON booleans and numbers (`json.int` of `true`) is not
  modelled. Each accessor accepts only its own kind.
- `SwiftyJSONDecodable.Truncate`: integer conversion truncates toward zero, but 64-bit
  overflow of `json.int` is not modelled.
- `SwiftyJSONDecodable.DecodeEntries`: Swift does not fix the order in which a
  dictionary is visited. Which failing member's error is reported is therefore left
  open, and the dictionary decoders are ghost. As a consequence, the transaction and
  feed-item decoders and `MondoAPI.TransactionsCompletion` are ghost as well.
- `MondoAccount.DecodeAccount` requires that the created string parses, because the source
  force-unwraps the conversion and traps otherwise. The same precondition is carried by
  `MondoAPI.DecodableAccounts`, `MondoAPI.AccountsCompletion` and
  `MondoAPI.MondoAPI.ListAccounts`.
- Swift's `assert` in `initialiseWithClientId` and in the three calls becomes a
  `requires`. An assertion failure is not modelled.
- `MondoAPI.ExpiresAt`: `NSTimeInterval` is a Double, but the model adds the seconds as
  an exact real.
- `CurrencyFormatter.SplitLines`: `enumerateLines` is modelled as breaking at "\n", "\r",
  "\r\n", U+0085, U+2028 and U+2029. Other Unicode line breaks, such as form feed, are
  not modelled.
- `CurrencyFormatter.CSV.constructor` requires non-empty trimmed contents, because an
  empty file has no first line and `parseHeaders` would trap.
- Reading the file (`String(contentsOfFile:)`, the bundle path and the `catch` branch)
  is not modelled. The constructor takes the contents.
- The `CurrencyFormatter` struct is left out: the currency symbol lookup, the
  `NSNumberFormatter` and `stringFromMinorUnitsValue` are locale and floating-point
  formatting. Only `scale` is modelled, as `CurrencyFormatter.Scale`.
- `debugPrint` calls are left out.
- The JSON dump in the comment at the end of `MondoAPI.swift` is left out.
