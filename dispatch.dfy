/**
 * What `_request_api` makes of a response: the client's exceptions and the
 * ordered decision between raising, returning the raw body, returning
 * `None` for 204 and returning the decoded JSON.
 */
module Dispatch {
  import opened Wrappers
  import opened Text

  type byte = b: int | 0 <= b < 256

  /** A decoded JSON document. */
  datatype Json =
    | JNull
    | JBool(b: bool)
    | JNumber(n: int)
    | JString(s: string)
    | JArray(items: seq<Json>)
    | JObject(fields: map<string, Json>)

  /**
   * What the client sees of an HTTP response.  `json` is what
   * `response.json()` gives: `None` when the body is not JSON (the library
   * raises `ValueError` then).
   */
  datatype Response = Response(url: string, status: int, content: seq<byte>, text: string, json: Option<Json>)

  /**
   * The exceptions a call can end with: the client's own `InvalidStatus`
   * (which is a `LathermailError`) and `LathermailError`, plus the
   * `KeyError` and `TypeError` a public method meets when it indexes or
   * measures a value of the wrong shape.
   */
  datatype Error =
    | InvalidStatus(code: int, message: string)
    | LathermailError(message: string)
    | KeyError(key: string)
    | TypeError(reason: string)
  {
    /** `isinstance(e, LathermailError)` */
    predicate IsLathermailError()
    {
      InvalidStatus? || LathermailError?
    }
  }

  /** What `_request_api` returns: the raw body, `None`, or decoded JSON. */
  datatype Payload = Content(bytes: seq<byte>) | NoValue | Data(json: Json)

  datatype Outcome<T> = Returned(value: T) | Raised(error: Error)

  /** The `InvalidStatus` raised for a response: the status is its code. */
  function InvalidStatusFor(resp: Response): (e: Error)
    ensures e.InvalidStatus? && e.code == resp.status && e.IsLathermailError()
    ensures StartsWith(e.message, "Invalid status " + IntToDecimal(resp.status)) && EndsWith(e.message, resp.text)
  {
    InvalidStatus(resp.status, "Invalid status " + IntToDecimal(resp.status) + ".\n" + resp.text)
  }

  /** The message of the `LathermailError` for a body that is not JSON. */
  function NotJsonMessage(resp: Response): (m: string)
    ensures StartsWith(m, "lathermail: url: " + resp.url)
    ensures EndsWith(m, ", status: " + IntToDecimal(resp.status) + ", response: " + resp.text)
  {
    "lathermail: url: " + resp.url + ", status: " + IntToDecimal(resp.status) + ", response: " + resp.text
  }

  /**
   * `_request_api` once the response is in.  Exactly one of five things
   * happens, decided in this order: an error status raises `InvalidStatus`
   * (when `raise_error`), otherwise without `parse_json` the raw body is
   * returned, otherwise 204 gives `None`, otherwise the decoded JSON is
   * returned, or a `LathermailError` carrying url, status and body text is
   * raised.
   */
  function Interpret(resp: Response, parseJson: bool, raiseError: bool): (r: Outcome<Payload>)
    ensures r == Raised(InvalidStatusFor(resp)) <==> raiseError && resp.status >= 400
    ensures r == Returned(Content(resp.content)) <==> !(raiseError && resp.status >= 400) && !parseJson
    ensures r == Returned(NoValue) <==> !(raiseError && resp.status >= 400) && parseJson && resp.status == 204
    ensures r.Returned? && r.value.Data? <==>
      !(raiseError && resp.status >= 400) && parseJson && resp.status != 204 && resp.json.Some?
    ensures r.Returned? && r.value.Data? ==> r.value.json == resp.json.value
    ensures r == Raised(LathermailError(NotJsonMessage(resp))) <==>
      !(raiseError && resp.status >= 400) && parseJson && resp.status != 204 && resp.json.None?
    ensures r.Raised? ==> r.error.IsLathermailError()
  {
    if raiseError && resp.status >= 400 then Raised(InvalidStatusFor(resp))
    else if !parseJson then Returned(Content(resp.content))
    else if resp.status == 204 then Returned(NoValue)
    else match resp.json
      case Some(data) => Returned(Data(data))
      case None => Raised(LathermailError(NotJsonMessage(resp)))
  }

  /** An error status is reported before anything else, even when the raw body was asked for. */
  lemma ErrorStatusFirst(resp: Response, parseJson: bool)
    requires resp.status >= 400
    ensures Interpret(resp, parseJson, true) == Raised(InvalidStatusFor(resp))
    ensures Interpret(resp, parseJson, true).error.code == resp.status
  {
  }

  /** Without `raise_error`, an error response's JSON body is returned like any other. */
  lemma NoRaiseDecodesErrorBody(resp: Response)
    requires resp.status >= 400 && resp.json.Some?
    ensures Interpret(resp, true, false) == Returned(Data(resp.json.value))
  {
  }

  /** The raw body comes back unchanged for every status below 400, 204 included. */
  lemma RawBodyAnyStatus(resp: Response)
    requires resp.status < 400
    ensures Interpret(resp, false, true) == Returned(Content(resp.content))
  {
  }

  /** The error for a body that is not JSON carries the body text (as `repr` of the exception shows it). */
  lemma NotJsonKeepsBody(resp: Response)
    requires resp.status < 400 && resp.status != 204 && resp.json.None?
    ensures Interpret(resp, true, true).Raised?
    ensures Interpret(resp, true, true).error.LathermailError?
    ensures EndsWith(Interpret(resp, true, true).error.message, resp.text)
  {
    var m := NotJsonMessage(resp);
    var tail := ", status: " + IntToDecimal(resp.status) + ", response: " + resp.text;
    assert m[|m| - |resp.text|..] == tail[|tail| - |resp.text|..];
  }
}
