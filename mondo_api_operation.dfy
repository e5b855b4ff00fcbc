/** `MondoAPIOperation` (MondoKit/MondoAPIOperation.swift): an API call as
    an asynchronous operation whose `executing` and `finished` flags follow
    its request, and whose response handler is called once per response
    that arrives before the operation is cancelled. The network is reduced
    to the request the operation sends and the response it is given. */
module MondoAPIOperation {
  import opened Wrappers
  import opened SwiftyJSONDecodable
  import opened MondoAPIError

  /** The `NSError` of a request that failed, or whose body did not parse. */
  datatype TransportError = TransportError(description: string)

  /** Alamofire's `Result`: the parsed JSON body, or a failure. */
  datatype ResponseResult = Success(value: JSON) | Failure(error: TransportError)

  /** What a response shows: its HTTP status code, if any, and its result. */
  datatype Response = Response(statusCode: Option<int>, result: ResponseResult)

  /** The `ErrorType` values the handler can receive. */
  datatype AnyError = ApiFailure(api: ApiError) | TransportFailure(transport: TransportError)

  datatype HttpMethod = Get | Post | Put | Delete

  /** The request the operation sends. */
  datatype Request = Request(httpMethod: HttpMethod, url: string,
                             parameters: Option<map<string, string>>,
                             headers: Option<map<string, string>>)

  /** The arguments of one call of the response handler. */
  datatype HandlerCall = HandlerCall(json: Option<JSON>, error: Option<AnyError>)

  /** `errorFromResponse`: a parsed body is classified as an API error, and
      a failure is passed on. */
  function ErrorFromResponse(response: Response): (e: AnyError)
    ensures e.ApiFailure? <==> response.result.Success?
    ensures e.ApiFailure? ==> e.api == ApiErrorFromJson(response.result.value)
    ensures e.TransportFailure? ==> e.transport == response.result.error
  {
    match response.result
    case Success(value) => ApiFailure(ApiErrorFromJson(value))
    case Failure(error) => TransportFailure(error)
  }

  /** What the handler is given for a response to an operation that was
      not cancelled. Exactly one of the two is present: the JSON, for a
      parsed body with status 200; otherwise the error, which for a missing
      or other status comes from the body (or the failure), and for status
      200 is the failure. */
  function HandlerArguments(response: Response): (call: HandlerCall)
    ensures call.json.Some? != call.error.Some?
    ensures call.json.Some? <==> response.statusCode == Some(200) && response.result.Success?
    ensures call.json.Some? ==> call.json.value == response.result.value
    ensures response.statusCode != Some(200) ==> call.error == Some(ErrorFromResponse(response))
    ensures response.statusCode == Some(200) && response.result.Failure? ==>
              call.error == Some(TransportFailure(response.result.error))
  {
    if response.statusCode != Some(200) then HandlerCall(None, Some(ErrorFromResponse(response)))
    else
      match response.result
      case Success(value) => HandlerCall(Some(value), None)
      case Failure(error) => HandlerCall(None, Some(TransportFailure(error)))
  }

  /** A body sent with an error status reaches the handler as the API error
      it encodes. */
  lemma ErrorStatusCarriesApiError(status: Option<int>, e: ApiError)
    requires status != Some(200)
    ensures HandlerArguments(Response(status, Success(ErrorBody(e)))) == HandlerCall(None, Some(ApiFailure(e)))
  {
    ErrorBodyRoundTrip(e);
  }

  class MondoAPIOperation {
    const httpMethod: HttpMethod
    const urlString: string
    const parameters: Option<map<string, string>>
    var executing: bool
    var finished: bool
    /** `NSOperation.cancelled`, read at the start and when the response arrives. */
    var cancelled: bool
    /** The requests sent so far, and how many of their responses arrived. */
    var sentRequests: seq<Request>
    var responses: nat
    /** The calls of the response handler so far. */
    var handlerCalls: seq<HandlerCall>

    /** Each response answers a sent request, and each handler call a response. */
    ghost predicate Valid()
      reads this
    {
      |handlerCalls| <= responses <= |sentRequests|
    }

    constructor (httpMethod: HttpMethod, urlString: string, parameters: Option<map<string, string>>)
      ensures Valid()
      ensures this.httpMethod == httpMethod && this.urlString == urlString && this.parameters == parameters
      ensures !executing && !finished && !cancelled
      ensures sentRequests == [] && responses == 0 && handlerCalls == []
    {
      this.httpMethod := httpMethod;
      this.urlString := urlString;
      this.parameters := parameters;
      executing := false;
      finished := false;
      cancelled := false;
      sentRequests := [];
      responses := 0;
      handlerCalls := [];
    }

    /** `cancel()`: only the flag is set; the checks at the start and at
        the response read it. */
    method Cancel()
      requires Valid()
      modifies this
      ensures Valid() && cancelled
      ensures executing == old(executing) && finished == old(finished)
      ensures sentRequests == old(sentRequests) && responses == old(responses) && handlerCalls == old(handlerCalls)
    {
      cancelled := true;
    }

    /** `start()`: a cancelled operation finishes at once and sends nothing;
        otherwise it is executing and sends its request, with the headers
        the auth-header closure gives at this moment. */
    method Start(headers: Option<map<string, string>>)
      requires Valid()
      modifies this
      ensures Valid()
      ensures old(cancelled) ==> !executing && finished && sentRequests == old(sentRequests)
      ensures !old(cancelled) ==> executing && finished == old(finished) &&
                                  sentRequests == old(sentRequests) + [Request(httpMethod, urlString, parameters, headers)]
      ensures cancelled == old(cancelled) && responses == old(responses) && handlerCalls == old(handlerCalls)
    {
      if cancelled {
        executing := false;
        finished := true;
        return;
      }
      executing := true;
      sentRequests := sentRequests + [Request(httpMethod, urlString, parameters, headers)];
    }

    /** The response closure: after a cancellation the operation finishes
        without calling the handler; otherwise the handler is called once
        with the JSON or the error, and then the operation finishes. */
    method Respond(response: Response)
      requires Valid() && responses < |sentRequests|
      modifies this
      ensures Valid()
      ensures !executing && finished
      ensures responses == old(responses) + 1
      ensures handlerCalls == old(handlerCalls) + (if cancelled then [] else [HandlerArguments(response)])
      ensures cancelled == old(cancelled) && sentRequests == old(sentRequests)
    {
      responses := responses + 1;
      if cancelled {
        executing := false;
        finished := true;
        return;
      }
      var json: Option<JSON> := None;
      var anyError: Option<AnyError> := None;
      if response.statusCode.None? || response.statusCode.value != 200 {
        anyError := Some(ErrorFromResponse(response));
      } else {
        match response.result
        case Success(value) =>
          json := Some(value);
        case Failure(error) =>
          anyError := Some(TransportFailure(error));
      }
      // the deferred block
      handlerCalls := handlerCalls + [HandlerCall(json, anyError)];
      executing := false;
      finished := true;
    }
  }

  /** One operation from creation to its end: it may be cancelled before it
      starts or before its response arrives. Cancelled before the start, it
      sends no request, so no response can arrive; in either case the
      handler is never called. Otherwise the handler is called exactly once,
      with the arguments for the response. */
  method RunOperation(httpMethod: HttpMethod, urlString: string, parameters: Option<map<string, string>>,
                      headers: Option<map<string, string>>, cancelBeforeStart: bool,
                      cancelBeforeResponse: bool, response: Response)
    returns (op: MondoAPIOperation)
    ensures fresh(op) && op.Valid() && op.finished && !op.executing
    ensures op.sentRequests == if cancelBeforeStart then [] else [Request(httpMethod, urlString, parameters, headers)]
    ensures op.handlerCalls ==
            if cancelBeforeStart || cancelBeforeResponse then [] else [HandlerArguments(response)]
  {
    op := new MondoAPIOperation(httpMethod, urlString, parameters);
    if cancelBeforeStart {
      op.Cancel();
    }
    op.Start(headers);
    if !cancelBeforeStart {
      if cancelBeforeResponse {
        op.Cancel();
      }
      op.Respond(response);
    }
  }
}
