/**
 * Unwrapping the backend's response envelope `{ success, data, statusCode, timestamp }`.
 * Responses are JSON-like values with the language's truthiness; reading a property of
 * `null` or `undefined` is a type error, modelled as `None`.
 */
module ApiHelpers {
  import opened Wrappers

  datatype Json =
    | Undefined
    | Null
    | Bool(b: bool)
    | Num(n: real)
    | Str(s: string)
    | Arr(items: seq<Json>)
    | Obj(fields: map<string, Json>)

  predicate Nullish(v: Json) {
    v.Undefined? || v.Null?
  }

  /** Truthiness: false, 0, "", null and undefined are falsy; arrays and objects are truthy. */
  predicate Truthy(v: Json) {
    match v
    case Undefined => false
    case Null => false
    case Bool(b) => b
    case Num(n) => n != 0.0
    case Str(s) => s != ""
    case Arr(_) => true
    case Obj(_) => true
  }

  /**
   * `v.key`: a type error on null or undefined, the field of an object (undefined when it
   * is not there), undefined on any other value.
   */
  function Get(v: Json, key: string): (r: Option<Json>)
    ensures r.None? <==> Nullish(v)
    ensures r.Some? && !(v.Obj? && key in v.fields) ==> r.value == Undefined
  {
    match v
    case Undefined => None
    case Null => None
    case Obj(fields) => Some(if key in fields then fields[key] else Undefined)
    case _ => Some(Undefined)
  }

  /** `v?.key`: undefined on null or undefined, otherwise `v.key`. */
  function OptionalGet(v: Json, key: string): (r: Json)
    ensures Nullish(v) ==> r == Undefined
    ensures !Nullish(v) ==> Some(r) == Get(v, key)
  {
    match Get(v, key)
    case None => Undefined
    case Some(field) => field
  }

  /** `a || b`: the first operand when it is truthy, else the second. */
  function Or(a: Json, b: Json): (r: Json)
    ensures Truthy(a) ==> r == a
    ensures !Truthy(a) ==> r == b
  {
    if Truthy(a) then a else b
  }

  /** `extractApiData`: the nested payload `response.data.data` when truthy, else `response.data`. */
  function ExtractApiData(response: Json): (r: Option<Json>)
    ensures r.None? <==> Nullish(response)
  {
    match Get(response, "data")
    case None => None
    case Some(data) => Some(Or(OptionalGet(data, "data"), data))
  }

  /** `extractApiArray`: the same payload, with falsy values replaced by `[]`, kept only if it is an array. */
  function ExtractApiArray(response: Json): (r: Option<seq<Json>>)
    ensures r.None? <==> Nullish(response)
  {
    match Get(response, "data")
    case None => None
    case Some(data) =>
      var payload := Or(Or(OptionalGet(data, "data"), data), Arr([]));
      Some(if payload.Arr? then payload.items else [])
  }

  /** `isApiSuccess`: whether `response.data?.success` is anything but `false`. */
  function IsApiSuccess(response: Json): (r: Option<bool>)
    ensures r.None? <==> Nullish(response)
  {
    match Get(response, "data")
    case None => None
    case Some(data) => Some(OptionalGet(data, "success") != Bool(false))
  }

  /** The backend's envelope around a payload. */
  function Envelope(payload: Json): Json {
    Obj(map["success" := Bool(true), "data" := payload])
  }

  /** A response whose `data` field holds `data`. */
  function Response(data: Json): Json {
    Obj(map["data" := data])
  }

  /**
   * The payload of an envelope is extracted when it is truthy; a falsy payload (0, "",
   * false, null, undefined) falls back to the envelope itself.
   */
  lemma ExtractEnvelope(payload: Json)
    ensures Truthy(payload) ==> ExtractApiData(Response(Envelope(payload))) == Some(payload)
    ensures !Truthy(payload) ==> ExtractApiData(Response(Envelope(payload))) == Some(Envelope(payload))
  {
    assert Get(Response(Envelope(payload)), "data") == Some(Envelope(payload));
    assert OptionalGet(Envelope(payload), "data") == payload;
  }

  /** Data that is not wrapped in an envelope (no `data` field of its own) is returned as it is. */
  lemma ExtractUnwrapped(data: Json)
    requires !(data.Obj? && "data" in data.fields)
    ensures ExtractApiData(Response(data)) == Some(data)
  {
    assert Get(Response(data), "data") == Some(data);
  }

  /** The array version is the data version restricted to arrays, with `[]` for everything else. */
  lemma ExtractArrayAgreesWithData(response: Json)
    ensures ExtractApiArray(response) ==
              match ExtractApiData(response)
              case None => None
              case Some(payload) => Some(if payload.Arr? then payload.items else [])
  {
  }

  /** An array payload, wrapped in an envelope or not, comes back unchanged. */
  lemma ArrayPayloadUnchanged(items: seq<Json>)
    ensures ExtractApiArray(Response(Envelope(Arr(items)))) == Some(items)
    ensures ExtractApiArray(Response(Arr(items))) == Some(items)
  {
    ExtractEnvelope(Arr(items));
    ExtractArrayAgreesWithData(Response(Envelope(Arr(items))));
    ExtractUnwrapped(Arr(items));
    ExtractArrayAgreesWithData(Response(Arr(items)));
  }

  /**
   * Success is denied only by an explicit `success: false` in an object; a missing `data`,
   * a missing `success` or any other value counts as success.
   */
  lemma SuccessUnlessExplicitlyFalse(response: Json)
    requires !Nullish(response)
    ensures IsApiSuccess(response) == Some(false) <==>
              var data := Get(response, "data").value;
              data.Obj? && "success" in data.fields && data.fields["success"] == Bool(false)
  {
  }
}
