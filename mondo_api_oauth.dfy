/** The OAuth login flow of MondoKit/MondoAPIOAuth.swift: the query
    parameters of a URL (`NSURL.queryParams`), the authorize URL the login
    page is loaded from, and the decision whether a navigation is the
    redirect that carries the authorization code. */
module MondoAPIOAuth {
  import opened Wrappers
  import opened Strings
  import opened PercentEncoding

  // ---------------------------------------------------------------------
  // Query parameters

  /** The key and value one "&"-separated part of a query contributes: the
      part must split on "=" into exactly two pieces, and both must
      percent-decode; otherwise the part is skipped. */
  function PairOf(part: string): Option<(string, string)> {
    var split := Split(part, {'='});
    if |split| != 2 then None
    else
      match (RemovePercentEncoding(split[0]), RemovePercentEncoding(split[1]))
      case (Some(key), Some(value)) => Some((key, value))
      case _ => None
  }

  /** The parameters a sequence of parts gives, each part overwriting what
      an earlier one gave for the same key. */
  function ParamsFromParts(parts: seq<string>): map<string, string> {
    if parts == [] then map[]
    else
      var params := ParamsFromParts(parts[..|parts| - 1]);
      match PairOf(parts[|parts| - 1])
      case None => params
      case Some((key, value)) => params[key := value]
  }

  /** `queryParams` of a URL whose query is `query`; no query gives no
      parameters. */
  function QueryParamsOf(query: Option<string>): map<string, string> {
    match query
    case None => map[]
    case Some(q) => ParamsFromParts(Split(q, {'&'}))
  }

  /** `NSURL.queryParams`: the parts are visited in order and fill a
      dictionary. */
  method QueryParams(query: Option<string>) returns (params: map<string, string>)
    ensures params == QueryParamsOf(query)
  {
    params := map[];
    if query.Some? {
      var parts := Split(query.value, {'&'});
      var i := 0;
      while i < |parts|
        invariant 0 <= i <= |parts|
        invariant params == ParamsFromParts(parts[..i])
      {
        var split := Split(parts[i], {'='});
        if |split| == 2 {
          var key := RemovePercentEncoding(split[0]);
          var value := RemovePercentEncoding(split[1]);
          if key.Some? && value.Some? {
            params := params[key.value := value.value];
          }
        }
        assert parts[..i + 1][..i] == parts[..i];
        i := i + 1;
      }
      assert parts[..|parts|] == parts;
    }
  }

  /** A key has a parameter exactly when some part gives a pair with that
      key. */
  lemma {:induction false} ParamsFromPartsKeys(parts: seq<string>, key: string)
    ensures key in ParamsFromParts(parts) <==>
            exists i | 0 <= i < |parts| :: PairOf(parts[i]).Some? && PairOf(parts[i]).value.0 == key
    decreases |parts|
  {
    if parts != [] {
      var init := parts[..|parts| - 1];
      ParamsFromPartsKeys(init, key);
      if key in ParamsFromParts(parts) && key !in ParamsFromParts(init) {
        assert PairOf(parts[|parts| - 1]).Some? && PairOf(parts[|parts| - 1]).value.0 == key;
      }
      if exists i | 0 <= i < |parts| :: PairOf(parts[i]).Some? && PairOf(parts[i]).value.0 == key {
        var i :| 0 <= i < |parts| && PairOf(parts[i]).Some? && PairOf(parts[i]).value.0 == key;
        if i < |parts| - 1 {
          assert init[i] == parts[i];
        }
      }
    }
  }

  /** For a key that several parts give, the last of them decides its value. */
  lemma {:induction false} ParamsFromPartsLastWins(parts: seq<string>, i: nat)
    requires i < |parts| && PairOf(parts[i]).Some?
    requires forall j | i < j < |parts| :: PairOf(parts[j]).None? || PairOf(parts[j]).value.0 != PairOf(parts[i]).value.0
    ensures PairOf(parts[i]).value.0 in ParamsFromParts(parts)
    ensures ParamsFromParts(parts)[PairOf(parts[i]).value.0] == PairOf(parts[i]).value.1
    decreases |parts|
  {
    if i < |parts| - 1 {
      var init := parts[..|parts| - 1];
      assert init[i] == parts[i];
      forall j | i < j < |init| ensures PairOf(init[j]).None? || PairOf(init[j]).value.0 != PairOf(init[i]).value.0 {
        assert init[j] == parts[j];
      }
      ParamsFromPartsLastWins(init, i);
    }
  }

  /** A part is split at its one "=" when its key and value hold none;
      the pair is then the decoded key and value, or nothing when either
      fails to decode. */
  lemma PairOfKeyValue(key: string, value: string)
    requires !Contains(key, '=') && !Contains(value, '=')
    ensures PairOf(key + "=" + value) ==
            if RemovePercentEncoding(key).Some? && RemovePercentEncoding(value).Some?
            then Some((RemovePercentEncoding(key).value, RemovePercentEncoding(value).value))
            else None
  {
    assert Join([key, value], '=') == key + "=" + value by {
      assert [key, value][1..] == [value];
    }
    SplitJoin([key, value], '=');
  }

  /** A part without "=" is skipped. */
  lemma PartWithoutEqualsSkipped(part: string)
    requires !Contains(part, '=')
    ensures PairOf(part) == None
  {
    SplitJoin([part], '=');
  }

  /** A part with two "=" is skipped. */
  lemma PartWithTwoEqualsSkipped(a: string, b: string, c: string)
    requires !Contains(a, '=') && !Contains(b, '=') && !Contains(c, '=')
    ensures PairOf(a + "=" + b + "=" + c) == None
  {
    var parts := [a, b, c];
    assert parts[1..] == [b, c] && parts[1..][1..] == [c];
    assert Join([c], '=') == c;
    assert Join([b, c], '=') == b + "=" + c;
    assert Join(parts, '=') == a + "=" + b + "=" + c;
    SplitJoin(parts, '=');
  }

  /** A URL without a query has no parameters. */
  lemma NoQueryNoParams()
    ensures QueryParamsOf(None) == map[]
  {
  }

  // ---------------------------------------------------------------------
  // Building queries that read back

  /** A key and value, percent-encoded and joined by "=". */
  function EncodePair(kv: (string, string)): string {
    PercentEncode(kv.0) + "=" + PercentEncode(kv.1)
  }

  function EncodePairs(pairs: seq<(string, string)>): (parts: seq<string>)
    ensures |parts| == |pairs|
    ensures forall i | 0 <= i < |pairs| :: parts[i] == EncodePair(pairs[i])
  {
    if pairs == [] then [] else EncodePairs(pairs[..|pairs| - 1]) + [EncodePair(pairs[|pairs| - 1])]
  }

  /** A query holding the given pairs in order. */
  function EncodeQuery(pairs: seq<(string, string)>): string {
    if pairs == [] then "" else Join(EncodePairs(pairs), '&')
  }

  /** The dictionary the pairs make when entered in order. */
  function PairsMap(pairs: seq<(string, string)>): map<string, string> {
    if pairs == [] then map[]
    else PairsMap(pairs[..|pairs| - 1])[pairs[|pairs| - 1].0 := pairs[|pairs| - 1].1]
  }

  /** A percent-encoded string contains no character that is neither
      unreserved nor "%", such as "=" or "&". */
  lemma EncodedHasNo(s: string, c: char)
    requires !IsUnreserved(c) && c != '%'
    ensures !Contains(PercentEncode(s), c)
  {
    PercentEncodeAlphabet(s);
  }

  /** Joining two strings by "=" adds no other character. */
  lemma PairHasNo(key: string, value: string, c: char)
    requires !Contains(key, c) && !Contains(value, c) && c != '='
    ensures !Contains(key + "=" + value, c)
  {
    var e := key + "=" + value;
    forall k | 0 <= k < |e| ensures e[k] != c {
      if k < |key| { assert e[k] == key[k]; }
      else if k > |key| { assert e[k] == value[k - |key| - 1]; }
    }
  }

  /** An encoded pair reads back as that pair. */
  lemma PairOfEncodePair(kv: (string, string))
    ensures PairOf(EncodePair(kv)) == Some(kv)
    ensures !Contains(EncodePair(kv), '&')
  {
    EncodedHasNo(kv.0, '=');
    EncodedHasNo(kv.1, '=');
    EncodedHasNo(kv.0, '&');
    EncodedHasNo(kv.1, '&');
    PairOfKeyValue(PercentEncode(kv.0), PercentEncode(kv.1));
    PercentRoundTrip(kv.0);
    PercentRoundTrip(kv.1);
    PairHasNo(PercentEncode(kv.0), PercentEncode(kv.1), '&');
  }

  lemma {:induction false} ParamsOfEncodedPairs(pairs: seq<(string, string)>)
    ensures ParamsFromParts(EncodePairs(pairs)) == PairsMap(pairs)
    decreases |pairs|
  {
    if pairs != [] {
      var parts := EncodePairs(pairs);
      assert parts[..|parts| - 1] == EncodePairs(pairs[..|pairs| - 1]);
      ParamsOfEncodedPairs(pairs[..|pairs| - 1]);
      PairOfEncodePair(pairs[|pairs| - 1]);
    }
  }

  /** Parsing a query built from pairs gives the dictionary of those pairs. */
  lemma QueryRoundTrip(pairs: seq<(string, string)>)
    ensures QueryParamsOf(Some(EncodeQuery(pairs))) == PairsMap(pairs)
  {
    if pairs == [] {
      assert Split("", {'&'}) == [""];
      assert Split("", {'='}) == [""];
      assert [""][..0] == [];
    } else {
      var parts := EncodePairs(pairs);
      forall i | 0 <= i < |parts| ensures !Contains(parts[i], '&') {
        PairOfEncodePair(pairs[i]);
      }
      SplitJoin(parts, '&');
      ParamsOfEncodedPairs(pairs);
    }
  }

  // ---------------------------------------------------------------------
  // The authorize URL

  /** A value that can go into a query unencoded and be read back as is. */
  predicate IsPlain(s: string) {
    !Contains(s, '%') && !Contains(s, '&') && !Contains(s, '=')
  }

  /** The URL of the login page (the URL built in `viewWillAppear`): the
      root, then client_id, redirect_uri, response_type=code and state,
      concatenated without encoding. */
  function AuthorizeUrl(authRoot: string, clientId: string, redirectUri: string, state: string): string {
    authRoot + "?client_id=" + clientId + "&redirect_uri=" + redirectUri + "&response_type=code" + "&state=" + state
  }

  /** The query of the URL that `AuthorizeUrl` builds. */
  function AuthorizeQuery(clientId: string, redirectUri: string, state: string): string {
    "client_id=" + clientId + "&redirect_uri=" + redirectUri + "&response_type=code" + "&state=" + state
  }

  lemma PlainPair(key: string, value: string)
    requires IsPlain(key) && IsPlain(value)
    ensures PairOf(key + "=" + value) == Some((key, value))
    ensures !Contains(key + "=" + value, '&')
  {
    PairOfKeyValue(key, value);
    NoPercentUnchanged(key);
    NoPercentUnchanged(value);
    PairHasNo(key, value, '&');
  }

  lemma JoinFour(a: string, b: string, c: string, d: string, separator: char)
    ensures Join([a, b, c, d], separator) == a + [separator] + b + [separator] + c + [separator] + d
  {
    var parts := [a, b, c, d];
    assert parts[1..] == [b, c, d];
    assert parts[1..][1..] == [c, d];
    assert parts[1..][1..][1..] == [d];
    assert Join([d], separator) == d;
    assert Join([c, d], separator) == c + [separator] + d;
    assert Join([b, c, d], separator) == b + [separator] + (c + [separator] + d);
  }

  /** A query written with the literal pieces "k0=", "&k1=", "&k2=v2" and
      "&k3=" is the join of its four "key=value" parts. */
  lemma QueryShape(l0: string, l1: string, l2: string, l3: string,
                   k0: string, k1: string, k2: string, k3: string,
                   v0: string, v1: string, v2: string, v3: string)
    requires l0 == k0 + "=" && l1 == "&" + k1 + "=" && l2 == "&" + k2 + "=" + v2 && l3 == "&" + k3 + "="
    ensures l0 + v0 + l1 + v1 + l2 + l3 + v3 == Join([k0 + "=" + v0, k1 + "=" + v1, k2 + "=" + v2, k3 + "=" + v3], '&')
  {
    JoinFour(k0 + "=" + v0, k1 + "=" + v1, k2 + "=" + v2, k3 + "=" + v3, '&');
  }

  /** The authorize query is the four parameter parts joined by "&". */
  lemma AuthorizeQueryJoin(clientId: string, redirectUri: string, state: string)
    ensures Join(["client_id" + "=" + clientId, "redirect_uri" + "=" + redirectUri, "response_type" + "=" + "code", "state" + "=" + state], '&') ==
            AuthorizeQuery(clientId, redirectUri, state)
  {
    QueryShape("client_id=", "&redirect_uri=", "&response_type=code", "&state=",
               "client_id", "redirect_uri", "response_type", "state",
               clientId, redirectUri, "code", state);
  }

  lemma PlainKeys()
    ensures IsPlain("client_id") && IsPlain("redirect_uri") && IsPlain("response_type") && IsPlain("code") && IsPlain("state")
  {
  }

  /** A query of four parts with distinct keys gives the dictionary of
      their pairs. */
  lemma ParamsOfFourParts(parts: seq<string>, k0: string, v0: string, k1: string, v1: string,
                          k2: string, v2: string, k3: string, v3: string)
    requires |parts| == 4 && forall i | 0 <= i < 4 :: !Contains(parts[i], '&')
    requires PairOf(parts[0]) == Some((k0, v0)) && PairOf(parts[1]) == Some((k1, v1))
    requires PairOf(parts[2]) == Some((k2, v2)) && PairOf(parts[3]) == Some((k3, v3))
    ensures QueryParamsOf(Some(Join(parts, '&'))) == map[k0 := v0, k1 := v1, k2 := v2, k3 := v3]
  {
    SplitJoin(parts, '&');
    assert parts[..3][..2][..1][..0] == [];
    assert ParamsFromParts(parts[..3][..2][..1]) == map[k0 := v0];
    assert ParamsFromParts(parts[..3][..2]) == map[k0 := v0, k1 := v1];
    assert ParamsFromParts(parts[..3]) == map[k0 := v0, k1 := v1, k2 := v2];
  }

  /** Four plain keys and values, joined without encoding, read back as
      the dictionary of those pairs. */
  lemma QueryOfPlainPairs(k0: string, v0: string, k1: string, v1: string, k2: string, v2: string, k3: string, v3: string)
    requires IsPlain(k0) && IsPlain(v0) && IsPlain(k1) && IsPlain(v1)
    requires IsPlain(k2) && IsPlain(v2) && IsPlain(k3) && IsPlain(v3)
    ensures QueryParamsOf(Some(Join([k0 + "=" + v0, k1 + "=" + v1, k2 + "=" + v2, k3 + "=" + v3], '&'))) ==
            map[k0 := v0, k1 := v1, k2 := v2, k3 := v3]
  {
    PlainPair(k0, v0);
    PlainPair(k1, v1);
    PlainPair(k2, v2);
    PlainPair(k3, v3);
    ParamsOfFourParts([k0 + "=" + v0, k1 + "=" + v1, k2 + "=" + v2, k3 + "=" + v3], k0, v0, k1, v1, k2, v2, k3, v3);
  }

  /** The query of the authorize URL reads back as exactly the four
      parameters, provided the values need no encoding. */
  lemma AuthorizeUrlReadsBack(clientId: string, redirectUri: string, state: string)
    requires IsPlain(clientId) && IsPlain(redirectUri) && IsPlain(state)
    ensures QueryParamsOf(Some(AuthorizeQuery(clientId, redirectUri, state))) ==
            map["client_id" := clientId, "redirect_uri" := redirectUri, "response_type" := "code", "state" := state]
  {
    PlainKeys();
    QueryOfPlainPairs("client_id", clientId, "redirect_uri", redirectUri, "response_type", "code", "state", state);
    AuthorizeQueryJoin(clientId, redirectUri, state);
  }

  /** The authorize URL is the root, "?" and the authorize query. */
  lemma AuthorizeUrlShape(authRoot: string, clientId: string, redirectUri: string, state: string)
    ensures AuthorizeUrl(authRoot, clientId, redirectUri, state) == authRoot + "?" + AuthorizeQuery(clientId, redirectUri, state)
  {
    assert "?client_id=" == "?" + "client_id=";
  }

  // ---------------------------------------------------------------------
  // The redirect decision

  /** The parts of a request URL the decision reads. */
  datatype RequestUrl = RequestUrl(scheme: string, query: Option<string>)

  /** What `shouldStartLoadWithRequest` does: let the web view load, or
      stop it and exchange the code. */
  datatype LoadDecision = StartLoad | ExchangeCode(code: string)

  /** A navigation is the login redirect when its URL has the redirect
      scheme and a "state" and a "code" parameter, and the state equals the
      one stored when the page was shown (never when none is stored). */
  function Decide(url: Option<RequestUrl>, redirectScheme: string, storedState: Option<string>): LoadDecision {
    if url.None? || url.value.scheme != redirectScheme then StartLoad
    else
      var params := QueryParamsOf(url.value.query);
      if "state" in params && "code" in params && Some(params["state"]) == storedState then ExchangeCode(params["code"])
      else StartLoad
  }

  /** A redirect URL carrying a code and a state. */
  function RedirectUrl(scheme: string, code: string, state: string): RequestUrl {
    RequestUrl(scheme, Some(EncodeQuery([("code", code), ("state", state)])))
  }

  /** The code of a redirect is exchanged exactly when its state is the
      stored one; a forged or stale state, no stored state, or another
      scheme lets the page load and exchanges nothing. */
  lemma DecideRedirect(scheme: string, redirectScheme: string, code: string, state: string, storedState: Option<string>)
    ensures Decide(Some(RedirectUrl(scheme, code, state)), redirectScheme, storedState) ==
            if scheme == redirectScheme && storedState == Some(state) then ExchangeCode(code) else StartLoad
  {
    var pairs := [("code", code), ("state", state)];
    QueryRoundTrip(pairs);
    assert pairs[..1] == [("code", code)];
    assert pairs[..1][..0] == [];
  }

  /** An exchanged code always comes from a URL with the redirect scheme
      whose "state" parameter is the stored state. */
  lemma ExchangeRequiresState(url: Option<RequestUrl>, redirectScheme: string, storedState: Option<string>)
    requires Decide(url, redirectScheme, storedState).ExchangeCode?
    ensures url.Some? && url.value.scheme == redirectScheme && storedState.Some?
    ensures var params := QueryParamsOf(url.value.query);
            "state" in params && params["state"] == storedState.value &&
            "code" in params && params["code"] == Decide(url, redirectScheme, storedState).code
  {
  }

  // ---------------------------------------------------------------------
  // The view controller

  /** `OAuthViewController`, with the web view and the token exchange
      reduced to the requests it was asked to load and the codes it handed
      to `authorizeFromCode`. */
  class OAuthViewController {
    const clientId: string
    var state: Option<string>
    var loadedRequests: seq<string>
    var exchangedCodes: seq<string>

    constructor (clientId: string)
      ensures this.clientId == clientId && state == None
      ensures loadedRequests == [] && exchangedCodes == []
    {
      this.clientId := clientId;
      state := None;
      loadedRequests := [];
      exchangedCodes := [];
    }

    /** `viewWillAppear`: store a fresh state (the UUID string) and load
        the authorize URL when it is a valid URL. */
    method ViewWillAppear(uuid: string, authRoot: string, redirectUri: string, isUrl: string -> bool)
      modifies this
      ensures state == Some(uuid)
      ensures var url := AuthorizeUrl(authRoot, clientId, redirectUri, uuid);
              loadedRequests == old(loadedRequests) + (if isUrl(url) then [url] else [])
      ensures exchangedCodes == old(exchangedCodes)
    {
      state := Some(uuid);
      var url := authRoot + "?client_id=" + clientId;
      url := url + "&redirect_uri=" + redirectUri;
      url := url + "&response_type=code";
      url := url + "&state=" + uuid;
      if isUrl(url) {
        loadedRequests := loadedRequests + [url];
      }
    }

    /** `webView(_:shouldStartLoadWithRequest:navigationType:)`: false, and
        the code exchanged, exactly for the login redirect. */
    method ShouldStartLoad(url: Option<RequestUrl>, redirectScheme: string) returns (load: bool)
      modifies this
      ensures load <==> Decide(url, redirectScheme, state) == StartLoad
      ensures exchangedCodes ==
              old(exchangedCodes) + (if load then [] else [Decide(url, redirectScheme, state).code])
      ensures state == old(state) && loadedRequests == old(loadedRequests)
    {
      if url.Some? && url.value.scheme == redirectScheme {
        var params := QueryParams(url.value.query);
        if "state" in params && "code" in params && Some(params["state"]) == state {
          exchangedCodes := exchangedCodes + [params["code"]];
          return false;
        }
      }
      return true;
    }
  }
}
