/** The API's own error taxonomy (MondoKit/MondoAPIError.swift): error bodies
    `{"code": ..., "message": ...}` are classified by their code. */
module MondoAPIError {
  import opened Wrappers
  import opened SwiftyJSONDecodable

  /** `MondoAPIError`. */
  datatype ApiError =
    | RequestFailed(message: string)
    | CouldNotAuthenticate(message: string)
    | BadAccessToken(message: string)
    | Other(message: string)
    | Unknown

  const RequestFailedCode := "internal_service.request_failed"
  const CouldNotAuthenticateCode := "bad_request.could_not_authenticate"
  const BadAccessTokenCode := "unauthorized.bad_access_token"

  /** `getLocalizedDescription`: the message an error carries, or
      "Unknown error"; never nil. */
  function GetLocalizedDescription(e: ApiError): (r: Option<string>)
    ensures r.Some?
    ensures e.Unknown? ==> r == Some("Unknown error")
    ensures !e.Unknown? ==> r == Some(e.message)
  {
    match e
    case RequestFailed(m) => Some(m)
    case CouldNotAuthenticate(m) => Some(m)
    case BadAccessToken(m) => Some(m)
    case Other(m) => Some(m)
    case _ => Some("Unknown error")
  }

  /** `apiErrorfromJson`. */
  function ApiErrorFromJson(j: JSON): ApiError {
    match (AsString(Field(j, "code")), AsString(Field(j, "message")))
    case (Some(code), Some(message)) =>
      (match code
       case "internal_service.request_failed" => RequestFailed(message)
       case "bad_request.could_not_authenticate" => CouldNotAuthenticate(message)
       case "unauthorized.bad_access_token" => BadAccessToken(message)
       case _ => Other(message))
    case (None, Some(message)) => Other(message)
    case (_, None) => Unknown
  }

  /** The classification is total and reads as follows. Without a string
      "message" the error is Unknown, whatever the code; with one, the error
      carries that message, and its case is chosen by the string "code": the
      three known codes have their own cases, and any other code, or no
      string code at all, gives Other. */
  lemma ApiErrorClassification(j: JSON)
    ensures var message := AsString(Field(j, "message"));
            ApiErrorFromJson(j).Unknown? <==> message.None?
    ensures var message := AsString(Field(j, "message"));
            message.Some? ==> ApiErrorFromJson(j).message == message.value
    ensures var message := AsString(Field(j, "message"));
            var code := AsString(Field(j, "code"));
            (ApiErrorFromJson(j).RequestFailed? <==> message.Some? && code == Some(RequestFailedCode)) &&
            (ApiErrorFromJson(j).CouldNotAuthenticate? <==> message.Some? && code == Some(CouldNotAuthenticateCode)) &&
            (ApiErrorFromJson(j).BadAccessToken? <==> message.Some? && code == Some(BadAccessTokenCode)) &&
            (ApiErrorFromJson(j).Other? <==>
               message.Some? && code !in {Some(RequestFailedCode), Some(CouldNotAuthenticateCode), Some(BadAccessTokenCode)})
  {
  }

  /** The body a server sends for each error: the code that selects its
      case (none for Other) and its message (none for Unknown). */
  function ErrorBody(e: ApiError): JSON {
    match e
    case RequestFailed(m) => JObject(map["code" := JString(RequestFailedCode), "message" := JString(m)])
    case CouldNotAuthenticate(m) => JObject(map["code" := JString(CouldNotAuthenticateCode), "message" := JString(m)])
    case BadAccessToken(m) => JObject(map["code" := JString(BadAccessTokenCode), "message" := JString(m)])
    case Other(m) => JObject(map["message" := JString(m)])
    case Unknown => JObject(map[])
  }

  /** Classifying the body of an error gives that error back. */
  lemma ErrorBodyRoundTrip(e: ApiError)
    ensures ApiErrorFromJson(ErrorBody(e)) == e
  {
  }

  /** The description of a classified body is its string message when there
      is one, and "Unknown error" otherwise. */
  lemma DescriptionOfClassifiedBody(j: JSON)
    ensures GetLocalizedDescription(ApiErrorFromJson(j)) ==
            Some(AsString(Field(j, "message")).GetOr("Unknown error"))
  {
  }

  /** A 401 body with the bad-access-token code and message "Expired". */
  lemma BadAccessTokenExample()
    ensures ApiErrorFromJson(JObject(map["code" := JString("unauthorized.bad_access_token"),
                                         "message" := JString("Expired")]))
            == BadAccessToken("Expired")
  {
  }
}
