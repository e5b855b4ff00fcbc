/** The typed decoding layer of MondoKit/SwiftyJSONDecodable.swift: a JSON
    value is turned into a typed value or into a `DecodeError` whose
    `ErrorForKey` wrappers spell out where in the document decoding failed. */
module SwiftyJSONDecodable {
  import opened Wrappers
  import opened Strings

  /** A parsed JSON value as SwiftyJSON holds it. Numbers are exact reals. */
  datatype JSON =
    | JNull
    | JBool(b: bool)
    | JNumber(n: real)
    | JString(s: string)
    | JArray(items: seq<JSON>)
    | JObject(fields: map<string, JSON>)

  /** SwiftyJSON's `json[key]`: the member under `key`, or null when the key
      is missing or the receiver is not an object. */
  function Field(j: JSON, key: string): JSON {
    if j.JObject? && key in j.fields then j.fields[key] else JNull
  }

  /** `json.string`. */
  function AsString(j: JSON): Option<string> {
    if j.JString? then Some(j.s) else None
  }

  /** `json.bool`. */
  function AsBool(j: JSON): Option<bool> {
    if j.JBool? then Some(j.b) else None
  }

  /** `json.double`. */
  function AsDouble(j: JSON): Option<real> {
    if j.JNumber? then Some(j.n) else None
  }

  /** `json.array`. */
  function AsArray(j: JSON): Option<seq<JSON>> {
    if j.JArray? then Some(j.items) else None
  }

  /** NSNumber's conversion to an integer: truncation toward zero. */
  function Truncate(x: real): (i: int)
    ensures -1.0 < x - i as real < 1.0
    ensures x >= 0.0 ==> 0.0 <= x - i as real
    ensures x <= 0.0 ==> x - i as real <= 0.0
  {
    if x >= 0.0 then x.Floor else -((-x).Floor)
  }

  /** `json.int`. */
  function AsInt(j: JSON): Option<int> {
    if j.JNumber? then Some(Truncate(j.n)) else None
  }

  /** `json.rawString()` for the kinds of value whose text the model gives:
      strings, booleans and null. */
  function RawString(j: JSON): Option<string> {
    match j
    case JNull => Some("null")
    case JBool(b) => Some(if b then "true" else "false")
    case JString(s) => Some(s)
    case _ => None
  }

  /** `SwiftyJSONDecodeError`. */
  datatype DecodeError =
    | NullValue
    | WrongType
    | InvalidValue(raw: Option<string>)
    | ErrorForKey(key: string, error: DecodeError)

  /** The outcome of a throwing `init(json:)`: a value or the error thrown. */
  datatype Result<+T> = Ok(value: T) | Err(error: DecodeError) {

    predicate IsFailure() {
      Err?
    }

    function PropagateFailure<U>(): Result<U>
      requires Err?
    {
      Err(error)
    }

    function Extract(): T
      requires Ok?
    {
      value
    }

    /** `try?`: the value, or nil whatever the error. */
    function ToOption(): Option<T> {
      match this
      case Ok(v) => Some(v)
      case Err(_) => None
    }

    /** The error, if there is one. */
    function ErrorOf(): Option<DecodeError> {
      match this
      case Ok(_) => None
      case Err(e) => Some(e)
    }
  }

  // ---------------------------------------------------------------------
  // debugDescription

  /** `debugDescription`: the keys of the nested `ErrorForKey`s, each
      followed by ".", then the innermost error. */
  function DebugDescription(e: DecodeError): string {
    match e
    case NullValue => "NullValue"
    case WrongType => "WrongType"
    case InvalidValue(s) => "InvalidValue(" + s.GetOr("nil") + ")"
    case ErrorForKey(key, inner) => key + "." + DebugDescription(inner)
  }

  /** The path of keys an error sits under, outermost first. */
  function KeyPath(e: DecodeError): seq<string> {
    match e
    case ErrorForKey(key, inner) => [key] + KeyPath(inner)
    case _ => []
  }

  /** The error under all the `ErrorForKey` wrappers. */
  function Leaf(e: DecodeError): (leaf: DecodeError)
    ensures !leaf.ErrorForKey?
  {
    match e
    case ErrorForKey(_, inner) => Leaf(inner)
    case _ => e
  }

  /** The error that `leaf` becomes once wrapped by the keys of `path`. */
  function Nest(path: seq<string>, leaf: DecodeError): DecodeError {
    if path == [] then leaf else ErrorForKey(path[0], Nest(path[1..], leaf))
  }

  /** Every error is its leaf nested under its key path, and nesting a leaf
      under a path gives back that path and that leaf. */
  lemma {:induction false} KeyPathAndLeafDetermineError(e: DecodeError)
    ensures Nest(KeyPath(e), Leaf(e)) == e
  {
    if e.ErrorForKey? {
      KeyPathAndLeafDetermineError(e.error);
      assert ([e.key] + KeyPath(e.error))[1..] == KeyPath(e.error);
    }
  }

  lemma {:induction false} NestHasPathAndLeaf(path: seq<string>, leaf: DecodeError)
    requires !leaf.ErrorForKey?
    ensures KeyPath(Nest(path, leaf)) == path && Leaf(Nest(path, leaf)) == leaf
    decreases |path|
  {
    if path != [] {
      NestHasPathAndLeaf(path[1..], leaf);
      assert [path[0]] + path[1..] == path;
    }
  }

  /** The description is the key path and the leaf's description joined with
      ".". */
  lemma {:induction false} DebugDescriptionJoinsKeyPath(e: DecodeError)
    ensures DebugDescription(e) == Join(KeyPath(e) + [DebugDescription(Leaf(e))], '.')
  {
    if e.ErrorForKey? {
      DebugDescriptionJoinsKeyPath(e.error);
      var rest := KeyPath(e.error) + [DebugDescription(Leaf(e.error))];
      assert KeyPath(e) + [DebugDescription(Leaf(e))] == [e.key] + rest;
      assert ([e.key] + rest)[1..] == rest;
    } else {
      assert KeyPath(e) + [DebugDescription(Leaf(e))] == [DebugDescription(e)];
    }
  }

  /** The description of a missing id in the second element of a
      "transactions" array. */
  lemma DebugDescriptionExample()
    ensures DebugDescription(ErrorForKey("transactions", ErrorForKey(IndexKey(1), ErrorForKey("id", NullValue))))
            == "transactions.[1].id.NullValue"
  {
    assert NatToString(1) == "1";
  }

  // ---------------------------------------------------------------------
  // Primitive decoders

  /** `Int.init(json:)`. */
  function DecodeInt(j: JSON): Result<int> {
    if j.JNull? then Err(NullValue)
    else match AsInt(j) {
      case None => Err(WrongType)
      case Some(i) => Ok(i)
    }
  }

  /** `Double.init(json:)`. */
  function DecodeDouble(j: JSON): Result<real> {
    if j.JNull? then Err(NullValue)
    else match AsDouble(j) {
      case None => Err(WrongType)
      case Some(d) => Ok(d)
    }
  }

  /** `String.init(json:)`. */
  function DecodeString(j: JSON): Result<string> {
    if j.JNull? then Err(NullValue)
    else match AsString(j) {
      case None => Err(WrongType)
      case Some(s) => Ok(s)
    }
  }

  /** `Bool.init(json:)`. */
  function DecodeBool(j: JSON): Result<bool> {
    if j.JNull? then Err(NullValue)
    else match AsBool(j) {
      case None => Err(WrongType)
      case Some(b) => Ok(b)
    }
  }

  /** The error every primitive decoder gives a value of the wrong kind. */
  function KindError(j: JSON): DecodeError {
    if j.JNull? then NullValue else WrongType
  }

  /** Each primitive decoder accepts exactly its own kind of JSON value and
      returns the value it holds; null fails with NullValue and any other
      kind with WrongType. */
  lemma PrimitiveDecoders(j: JSON)
    ensures DecodeInt(j) == if j.JNumber? then Ok(Truncate(j.n)) else Err(KindError(j))
    ensures DecodeDouble(j) == if j.JNumber? then Ok(j.n) else Err(KindError(j))
    ensures DecodeString(j) == if j.JString? then Ok(j.s) else Err(KindError(j))
    ensures DecodeBool(j) == if j.JBool? then Ok(j.b) else Err(KindError(j))
  {
  }

  /** Decoding gives back the value a JSON value was built from; an integral
      number decodes as an Int without loss. */
  lemma PrimitiveRoundTrips(i: int, d: real, s: string, b: bool)
    ensures DecodeInt(JNumber(i as real)) == Ok(i)
    ensures DecodeDouble(JNumber(d)) == Ok(d)
    ensures DecodeString(JString(s)) == Ok(s)
    ensures DecodeBool(JBool(b)) == Ok(b)
  {
    assert Truncate(i as real) == i;
  }

  // ---------------------------------------------------------------------
  // Arrays

  /** The key the array decoder wraps an element's error in: "[" + String(i) + "]". */
  function IndexKey(i: nat): string {
    "[" + NatToString(i) + "]"
  }

  /** Fail-fast decoding of the elements of an array, in order: the error of
      the first element that fails, under its index. */
  function DecodeElements<T>(items: seq<JSON>, dec: JSON -> Result<T>): Result<seq<T>>
    decreases |items|
  {
    if items == [] then Ok([])
    else
      match DecodeElements(items[..|items| - 1], dec)
      case Err(e) => Err(e)
      case Ok(xs) =>
        match dec(items[|items| - 1])
        case Err(e) => Err(ErrorForKey(IndexKey(|items| - 1), e))
        case Ok(x) => Ok(xs + [x])
  }

  /** `Array.init(json:)` as a specification. */
  function DecodeArray<T>(j: JSON, dec: JSON -> Result<T>): Result<seq<T>> {
    if j.JNull? then Err(NullValue)
    else if !j.JArray? then Err(WrongType)
    else DecodeElements(j.items, dec)
  }

  /** A successful array decode keeps the input's length and order: element
      `i` of the result is element `i` of the input, decoded. */
  lemma {:induction false} DecodeElementsOk<T>(items: seq<JSON>, dec: JSON -> Result<T>)
    ensures DecodeElements(items, dec).Ok? <==> forall i | 0 <= i < |items| :: dec(items[i]).Ok?
    ensures DecodeElements(items, dec).Ok? ==>
              |DecodeElements(items, dec).value| == |items| &&
              forall i | 0 <= i < |items| :: dec(items[i]) == Ok(DecodeElements(items, dec).value[i])
    decreases |items|
  {
    if items != [] {
      var init := items[..|items| - 1];
      DecodeElementsOk(init, dec);
      assert forall i | 0 <= i < |init| :: init[i] == items[i];
    }
  }

  /** A failed array decode reports the first failing element: its error,
      wrapped in the key "[i]" for its zero-based index `i`. */
  lemma {:induction false} DecodeElementsFirstFailure<T>(items: seq<JSON>, dec: JSON -> Result<T>, i: nat)
    requires i < |items| && dec(items[i]).Err?
    requires forall k | 0 <= k < i :: dec(items[k]).Ok?
    ensures DecodeElements(items, dec) == Err(ErrorForKey(IndexKey(i), dec(items[i]).error))
    decreases |items|
  {
    var init := items[..|items| - 1];
    if i == |items| - 1 {
      DecodeElementsOk(init, dec);
      assert forall k | 0 <= k < |init| :: init[k] == items[k];
    } else {
      assert init[i] == items[i];
      DecodeElementsFirstFailure(init, dec, i);
    }
  }

  /** Once a prefix of the elements fails, decoding the whole array fails the
      same way. */
  lemma {:induction false} DecodeElementsPrefixFailure<T>(items: seq<JSON>, dec: JSON -> Result<T>, n: nat)
    requires n <= |items| && DecodeElements(items[..n], dec).Err?
    ensures DecodeElements(items, dec) == DecodeElements(items[..n], dec)
    decreases |items|
  {
    if n < |items| {
      var init := items[..|items| - 1];
      assert init[..n] == items[..n];
      DecodeElementsPrefixFailure(init, dec, n);
    } else {
      assert items[..n] == items;
    }
  }

  /** `Array.init(json:)`: walks the elements with a running index, appending
      each decoded element, and on the first failure throws its error under
      the key "[index]". */
  method InitArray<T>(j: JSON, dec: JSON -> Result<T>) returns (r: Result<seq<T>>)
    ensures r == DecodeArray(j, dec)
  {
    if j.JNull? {
      return Err(NullValue);
    }
    if !j.JArray? {
      return Err(WrongType);
    }
    var arrayJSON := j.items;
    var index := 0;
    var elements: seq<T> := [];
    while index < |arrayJSON|
      invariant 0 <= index <= |arrayJSON|
      invariant DecodeElements(arrayJSON[..index], dec) == Ok(elements)
    {
      var element := dec(arrayJSON[index]);
      if element.Err? {
        assert arrayJSON[..index + 1][..index] == arrayJSON[..index];
        DecodeElementsPrefixFailure(arrayJSON, dec, index + 1);
        return Err(ErrorForKey(IndexKey(index), element.error));
      }
      assert arrayJSON[..index + 1][..index] == arrayJSON[..index];
      elements := elements + [element.value];
      index := index + 1;
    }
    assert arrayJSON[..index] == arrayJSON;
    r := Ok(elements);
  }

  // ---------------------------------------------------------------------
  // Dictionaries

  /** What decoding the members of an object may produce. On success: a map
      with exactly the object's keys, each holding its member's decoded
      value. On failure: the error of one of the members that fails, without
      its key. */
  ghost predicate IsEntriesOutcome<V>(fields: map<string, JSON>, dec: JSON -> Result<V>, r: Result<map<string, V>>) {
    match r
    case Ok(m) => m.Keys == fields.Keys && forall k | k in fields :: dec(fields[k]) == Ok(m[k])
    case Err(e) => exists k | k in fields :: dec(fields[k]) == Err(e)
  }

  /** Decoding the members of an object. Swift does not fix the order in
      which a dictionary is walked, so the model leaves open which failing
      member's error is reported. */
  ghost function DecodeEntries<V>(fields: map<string, JSON>, dec: JSON -> Result<V>): (r: Result<map<string, V>>)
    ensures IsEntriesOutcome(fields, dec, r)
  {
    if forall k | k in fields :: dec(fields[k]).Ok? then
      Ok(map k | k in fields :: dec(fields[k]).value)
    else
      var k :| k in fields && dec(fields[k]).Err?;
      Err(dec(fields[k]).error)
  }

  /** `Dictionary.init(json:)` as a specification. */
  ghost function DecodeDictionary<V>(j: JSON, dec: JSON -> Result<V>): Result<map<string, V>> {
    if j.JNull? then Err(NullValue)
    else if !j.JObject? then Err(WrongType)
    else DecodeEntries(j.fields, dec)
  }

  /** The dictionary decode succeeds exactly when every member decodes. */
  lemma EntriesOutcomeOk<V>(fields: map<string, JSON>, dec: JSON -> Result<V>, r: Result<map<string, V>>)
    requires IsEntriesOutcome(fields, dec, r)
    ensures r.Ok? <==> forall k | k in fields :: dec(fields[k]).Ok?
  {
    if r.Err? {
      var k :| k in fields && dec(fields[k]) == Err(r.error);
    }
  }

  /** `Dictionary.init(json:)`: decodes the members one by one into `result`,
      throwing the first error it meets, then copies `result` into the new
      dictionary. */
  method InitDictionary<V>(j: JSON, dec: JSON -> Result<V>) returns (r: Result<map<string, V>>)
    ensures j.JNull? ==> r == Err(NullValue)
    ensures !j.JNull? && !j.JObject? ==> r == Err(WrongType)
    ensures j.JObject? ==> IsEntriesOutcome(j.fields, dec, r)
  {
    if j.JNull? {
      return Err(NullValue);
    }
    if !j.JObject? {
      return Err(WrongType);
    }
    var dictJSON := j.fields;
    var result: map<string, V> := map[];
    var pending := dictJSON.Keys;
    while pending != {}
      invariant pending <= dictJSON.Keys
      invariant result.Keys == dictJSON.Keys - pending
      invariant forall k | k in result :: dec(dictJSON[k]) == Ok(result[k])
      decreases pending
    {
      var k :| k in pending;
      var v := dec(dictJSON[k]);
      if v.Err? {
        return Err(v.error);
      }
      result := result[k := v.value];
      pending := pending - {k};
    }
    var copied: map<string, V> := map[];
    var copying := result.Keys;
    while copying != {}
      invariant copying <= result.Keys
      invariant copied.Keys == result.Keys - copying
      invariant forall k | k in copied :: copied[k] == result[k]
      decreases copying
    {
      var k :| k in copying;
      copied := copied[k := result[k]];
      copying := copying - {k};
    }
    r := Ok(copied);
  }

  // ---------------------------------------------------------------------
  // Keyed access

  /** `decodeAsValue() -> T`: null fails with NullValue, anything else goes
      to the type's decoder. */
  function AsValue<T>(j: JSON, dec: JSON -> Result<T>): Result<T> {
    if j.JNull? then Err(NullValue) else dec(j)
  }

  /** `decodeAsValue() -> T?`: null gives nil, anything else goes to the
      type's decoder. */
  function AsOptionalValue<T>(j: JSON, dec: JSON -> Result<T>): Result<Option<T>> {
    if j.JNull? then Ok(None)
    else
      match dec(j)
      case Ok(v) => Ok(Some(v))
      case Err(e) => Err(e)
  }

  /** The optional `decodeAsValue` gives nil, with no error, exactly for null;
      for anything else it fails exactly when the required `decodeAsValue`
      does, with the same error, and otherwise wraps the same value. */
  lemma AsOptionalValueAgreesWithAsValue<T>(j: JSON, dec: JSON -> Result<T>)
    ensures AsOptionalValue(j, dec) == Ok(None) <==> j.JNull?
    ensures !j.JNull? ==> (AsOptionalValue(j, dec).Err? <==> AsValue(j, dec).Err?)
    ensures !j.JNull? && AsValue(j, dec).Err? ==> AsOptionalValue(j, dec).error == AsValue(j, dec).error
    ensures AsValue(j, dec).Ok? ==> AsOptionalValue(j, dec) == Ok(Some(AsValue(j, dec).value))
  {
  }

  /** The `catch` of the keyed accessors: an error is rethrown under `key`. */
  function WrapKey<T>(key: string, r: Result<T>): Result<T> {
    match r
    case Ok(v) => Ok(v)
    case Err(e) => Err(ErrorForKey(key, e))
  }

  /** The guards every keyed accessor starts with: a null receiver throws
      NullValue, one that is not an object throws WrongType. */
  function ReceiverError(j: JSON): Option<DecodeError> {
    if j.JNull? then Some(NullValue)
    else if !j.JObject? then Some(WrongType)
    else None
  }

  /** `decodeValueForKey(key) -> T`, the required keyed decode (called
      `requiredValueForKey` by the record decoders). */
  function ValueForKey<T>(j: JSON, key: string, dec: JSON -> Result<T>): Result<T> {
    match ReceiverError(j)
    case Some(e) => Err(e)
    case None => WrapKey(key, AsValue(Field(j, key), dec))
  }

  /** `decodeValueForKey(key) -> T?`, the optional keyed decode. */
  function OptionalValueForKey<T>(j: JSON, key: string, dec: JSON -> Result<T>): Result<Option<T>> {
    match ReceiverError(j)
    case Some(e) => Err(e)
    case None =>
      if Field(j, key).JNull? then Ok(None)
      else
        match ValueForKey(j, key, dec)
        case Ok(v) => Ok(Some(v))
        case Err(e) => Err(e)
  }

  /** `decodeArrayForKey(key) -> Array<T>` (`requiredArrayForKey`). */
  function ArrayForKey<T>(j: JSON, key: string, dec: JSON -> Result<T>): Result<seq<T>> {
    match ReceiverError(j)
    case Some(e) => Err(e)
    case None => WrapKey(key, DecodeArray(Field(j, key), dec))
  }

  /** `decodeArrayForKey(key) -> Array<T>?`. */
  function OptionalArrayForKey<T>(j: JSON, key: string, dec: JSON -> Result<T>): Result<Option<seq<T>>> {
    match ReceiverError(j)
    case Some(e) => Err(e)
    case None =>
      if Field(j, key).JNull? then Ok(None)
      else
        match ArrayForKey(j, key, dec)
        case Ok(v) => Ok(Some(v))
        case Err(e) => Err(e)
  }

  /** `decodeAsDictionaryForKey(key)` (`requiredAsDictionaryForKey`). */
  ghost function DictionaryForKey<V>(j: JSON, key: string, dec: JSON -> Result<V>): Result<map<string, V>> {
    match ReceiverError(j)
    case Some(e) => Err(e)
    case None => WrapKey(key, DecodeDictionary(Field(j, key), dec))
  }

  /** The required keyed decode. A null or non-object receiver fails with
      the bare guard error. Otherwise the member is decoded and any failure
      is reported exactly once under the key; a missing key reads as null
      and so fails with `ErrorForKey(key, NullValue)`. */
  lemma ValueForKeyOutcome<T>(j: JSON, key: string, dec: JSON -> Result<T>)
    ensures j.JNull? ==> ValueForKey(j, key, dec) == Err(NullValue)
    ensures !j.JNull? && !j.JObject? ==> ValueForKey(j, key, dec) == Err(WrongType)
    ensures j.JObject? && key !in j.fields ==> ValueForKey(j, key, dec) == Err(ErrorForKey(key, NullValue))
    ensures j.JObject? && key in j.fields ==>
              ValueForKey(j, key, dec) == (if j.fields[key].JNull? then Err(ErrorForKey(key, NullValue))
                                           else WrapKey(key, dec(j.fields[key])))
  {
  }

  /** Every error of a keyed decode on an object carries the key once at the
      top of its path. */
  lemma KeyedErrorsCarryTheKey<T>(j: JSON, key: string, dec: JSON -> Result<T>)
    requires j.JObject?
    ensures ValueForKey(j, key, dec).Err? ==> KeyPath(ValueForKey(j, key, dec).error)[0] == key
    ensures ArrayForKey(j, key, dec).Err? ==> KeyPath(ArrayForKey(j, key, dec).error)[0] == key
  {
  }

  /** The optional keyed decode gives nil, with no error, when the member is
      missing or null, and otherwise gives exactly what the required decode
      gives; the same holds for the array accessors. */
  lemma OptionalForKeyAgreesWithRequired<T>(j: JSON, key: string, dec: JSON -> Result<T>)
    requires j.JObject?
    ensures Field(j, key).JNull? ==> OptionalValueForKey(j, key, dec) == Ok(None)
    ensures Field(j, key).JNull? ==> OptionalArrayForKey(j, key, dec) == Ok(None)
    ensures !Field(j, key).JNull? ==>
              OptionalValueForKey(j, key, dec) ==
              (match ValueForKey(j, key, dec) case Ok(v) => Ok(Some(v)) case Err(e) => Err(e))
    ensures !Field(j, key).JNull? ==>
              OptionalArrayForKey(j, key, dec) ==
              (match ArrayForKey(j, key, dec) case Ok(v) => Ok(Some(v)) case Err(e) => Err(e))
  {
  }

  /** The required dictionary decode gives a map with exactly the member
      object's keys; a failing entry's error comes back under the outer key
      only, without the entry's own key. */
  lemma DictionaryForKeyOutcome<V>(j: JSON, key: string, dec: JSON -> Result<V>)
    requires j.JObject?
    ensures Field(j, key).JNull? ==> DictionaryForKey(j, key, dec) == Err(ErrorForKey(key, NullValue))
    ensures !Field(j, key).JNull? && !Field(j, key).JObject? ==>
              DictionaryForKey(j, key, dec) == Err(ErrorForKey(key, WrongType))
    ensures Field(j, key).JObject? && DictionaryForKey(j, key, dec).Ok? ==>
              var fields := Field(j, key).fields;
              var m := DictionaryForKey(j, key, dec).value;
              m.Keys == fields.Keys && forall k | k in fields :: dec(fields[k]) == Ok(m[k])
    ensures Field(j, key).JObject? && DictionaryForKey(j, key, dec).Err? ==>
              var fields := Field(j, key).fields;
              var e := DictionaryForKey(j, key, dec).error;
              e.ErrorForKey? && e.key == key && exists k | k in fields :: dec(fields[k]) == Err(e.error)
  {
  }

  // ---------------------------------------------------------------------
  // RawRepresentable

  /** The `init(json:)` every RawRepresentable type gets: null fails with
      NullValue, a raw value of the wrong JSON kind with WrongType, a raw
      value naming no case with InvalidValue carrying the raw text. */
  function DecodeRawRepresentable<E, R>(j: JSON, cast: JSON -> Option<R>, fromRaw: R -> Option<E>): Result<E> {
    if j.JNull? then Err(NullValue)
    else
      match cast(j)
      case None => Err(WrongType)
      case Some(raw) =>
        match fromRaw(raw)
        case Some(e) => Ok(e)
        case None => Err(InvalidValue(RawString(j)))
  }

  /** For a String-backed enumeration: the decoded case is the one whose raw
      value is the string, and a string naming no case gives
      `InvalidValue(string)`. */
  lemma StringRawRepresentable<E>(j: JSON, fromRaw: string -> Option<E>)
    ensures DecodeRawRepresentable(j, AsString, fromRaw) ==
            if j.JNull? then Err(NullValue)
            else if !j.JString? then Err(WrongType)
            else if fromRaw(j.s).Some? then Ok(fromRaw(j.s).value)
            else Err(InvalidValue(Some(j.s)))
  {
  }

  // ---------------------------------------------------------------------
  // Dates and URLs

  /** An NSDate: seconds since the reference date. */
  datatype Date = Date(sinceReference: real)

  /** An NSURL, kept as the string it was made from. */
  datatype Url = Url(text: string)

  /** Foundation services the decoders call but whose behaviour the model
      does not fix: the two date formatters of `JSONDate`
      ("yyyy-MM-dd'T'HH:mm:ss.SSSZZZZZ" and "yyyy-MM-dd'T'HH:mm:ssZZZZZ"),
      `NSURL(string:)` validity and `NSDate.dateFromTimestamp`. */
  datatype Platform = Platform(
    dateWithMillis: string -> Option<Date>,
    dateNoMillis: string -> Option<Date>,
    isUrl: string -> bool,
    dateFromTimestamp: string -> Option<Date>)

  /** `JSONDate.init(json:)`: a string read by the fractional-seconds
      formatter, or failing that by the no-fraction formatter; anything else
      fails with InvalidValue and the raw text. */
  function DecodeDate(p: Platform, j: JSON): Result<Date> {
    if j.JString? && p.dateWithMillis(j.s).Some? then Ok(p.dateWithMillis(j.s).value)
    else if j.JString? && p.dateNoMillis(j.s).Some? then Ok(p.dateNoMillis(j.s).value)
    else Err(InvalidValue(RawString(j)))
  }

  /** `JSONURL.init(json:)`: the string decode's errors pass through; a
      string that is not a URL fails with InvalidValue and the raw text. */
  function DecodeUrl(p: Platform, j: JSON): Result<Url> {
    var s :- AsValue(j, DecodeString);
    if p.isUrl(s) then Ok(Url(s)) else Err(InvalidValue(RawString(j)))
  }

  /** `JSONDate` as a decoder, for the keyed accessors. */
  function DateDecoder(p: Platform): JSON -> Result<Date> {
    j => DecodeDate(p, j)
  }

  /** `JSONURL` as a decoder, for the keyed accessors. */
  function UrlDecoder(p: Platform): JSON -> Result<Url> {
    j => DecodeUrl(p, j)
  }

  /** The fractional-seconds format is tried first; the other one only when
      the first does not parse. The only error is InvalidValue. */
  lemma DecodeDateOutcome(p: Platform, j: JSON)
    ensures DecodeDate(p, j).Ok? <==>
              j.JString? && (p.dateWithMillis(j.s).Some? || p.dateNoMillis(j.s).Some?)
    ensures DecodeDate(p, j).Ok? && p.dateWithMillis(j.s).Some? ==>
              DecodeDate(p, j).value == p.dateWithMillis(j.s).value
    ensures DecodeDate(p, j).Ok? && p.dateWithMillis(j.s).None? ==>
              DecodeDate(p, j).value == p.dateNoMillis(j.s).value
    ensures DecodeDate(p, j).Err? ==> DecodeDate(p, j).error == InvalidValue(RawString(j))
    ensures DecodeDate(p, j).Err? && j.JString? ==> DecodeDate(p, j).error == InvalidValue(Some(j.s))
  {
  }

  /** A URL decodes exactly from a string NSURL accepts; null and non-strings
      keep the string decoder's NullValue and WrongType. */
  lemma DecodeUrlOutcome(p: Platform, j: JSON)
    ensures DecodeUrl(p, j).Ok? <==> j.JString? && p.isUrl(j.s)
    ensures DecodeUrl(p, j).Ok? ==> DecodeUrl(p, j).value == Url(j.s)
    ensures j.JNull? ==> DecodeUrl(p, j) == Err(NullValue)
    ensures !j.JNull? && !j.JString? ==> DecodeUrl(p, j) == Err(WrongType)
    ensures j.JString? && !p.isUrl(j.s) ==> DecodeUrl(p, j) == Err(InvalidValue(Some(j.s)))
  {
  }

  // ---------------------------------------------------------------------
  // Helpers for stating record decoders

  /** The fields of a record decode, in order, fail first at `i`. */
  predicate FailsFirstAt(errors: seq<Option<DecodeError>>, i: nat) {
    i < |errors| && errors[i].Some? && forall k | 0 <= k < i :: errors[k].None?
  }

  /** No field of a record decode fails. */
  predicate NoneFail(errors: seq<Option<DecodeError>>) {
    forall k | 0 <= k < |errors| :: errors[k].None?
  }

  /** What a sequence of fail-fast decodes reports: the error of the first
      one that fails, or none. */
  function FirstError(errors: seq<Option<DecodeError>>): Option<DecodeError> {
    if errors == [] then None
    else if errors[0].Some? then errors[0]
    else FirstError(errors[1..])
  }

  /** `FirstError` is the error at the first failing position, and there is
      none exactly when nothing fails. */
  lemma {:induction false} FirstErrorIsFirstFailure(errors: seq<Option<DecodeError>>, i: nat)
    ensures FirstError(errors).None? <==> NoneFail(errors)
    ensures FailsFirstAt(errors, i) ==> FirstError(errors) == errors[i]
    decreases |errors|
  {
    if errors != [] {
      var rest := errors[1..];
      FirstErrorIsFirstFailure(rest, if i == 0 then 0 else i - 1);
      assert forall k | 0 <= k < |rest| :: rest[k] == errors[k + 1];
      if errors[0].None? && !NoneFail(errors) {
        var k :| 0 <= k < |errors| && errors[k].Some?;
        assert rest[k - 1].Some?;
      }
    }
  }

  /** An outcome that is none when no field fails, and the error of the
      first failing field otherwise, is `FirstError`. */
  lemma FirstErrorCharacterized(errors: seq<Option<DecodeError>>, r: Option<DecodeError>)
    requires NoneFail(errors) ==> r.None?
    requires forall i: nat | FailsFirstAt(errors, i) :: r == errors[i]
    ensures r == FirstError(errors)
  {
    FirstErrorIsFirstFailure(errors, 0);
    if !NoneFail(errors) {
      FirstFailureExists(errors);
      var i: nat :| FailsFirstAt(errors, i);
      FirstErrorIsFirstFailure(errors, i);
    }
  }

  /** When some field fails, one of them fails first. */
  lemma {:induction false} FirstFailureExists(errors: seq<Option<DecodeError>>)
    requires !NoneFail(errors)
    ensures exists i: nat :: FailsFirstAt(errors, i)
    decreases |errors|
  {
    if errors[0].Some? {
      assert FailsFirstAt(errors, 0);
    } else {
      var rest := errors[1..];
      var k :| 0 <= k < |errors| && errors[k].Some?;
      assert rest[k - 1].Some?;
      FirstFailureExists(rest);
      var i: nat :| FailsFirstAt(rest, i);
      assert forall m | 0 <= m < i + 1 :: errors[m] == if m == 0 then errors[0] else rest[m - 1];
      assert FailsFirstAt(errors, i + 1);
    }
  }

  /** One step of `FirstError` at position `k`. */
  lemma FirstErrorStep(errors: seq<Option<DecodeError>>, k: nat)
    requires k < |errors|
    ensures FirstError(errors[k..]) == (if errors[k].Some? then errors[k] else FirstError(errors[k + 1..]))
  {
    var suffix := errors[k..];
    assert suffix != [] && suffix[0] == errors[k];
    assert suffix[1..] == errors[k + 1..];
  }
}
