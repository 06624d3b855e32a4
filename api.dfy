/**
 * `LathermailClient`: its construction, its authentication headers, and
 * each public method as the request it sends and what it makes of the
 * answer.  The HTTP exchange itself is outside the model: a call is
 * described by `RequestFor`, and the response the server gives is a
 * parameter of `Perform`.
 */
module Api {
  import opened Wrappers
  import opened Text
  import opened Params
  import opened Urls
  import opened Dispatch

  /** A client; `__init__` sets every field and nothing changes them later. */
  datatype Client = Client(user: Option<string>, password: Option<string>, url: string, urlApi: string)

  const DefaultUrl: string := "http://localhost:5000/"

  /** `LathermailClient(user, password, url, api_version)` */
  function NewClient(user: Option<string>, password: Option<string>, url: string, apiVersion: int): (c: Client)
    ensures c.user == user && c.password == password && c.url == url
    ensures StartsWith(c.urlApi, url) && EndsWith(c.urlApi, "/")
    ensures EndsWith(c.urlApi, ApiSuffix(apiVersion))
    ensures url == "" || EndsWith(url, "/") ==> c.urlApi == url + ApiSuffix(apiVersion)
    ensures url != "" && !EndsWith(url, "/") ==> c.urlApi == url + "/" + ApiSuffix(apiVersion)
  {
    Client(user, password, url, ApiRoot(url, apiVersion))
  }

  /** Header name to value, where `None` is a header the session must not send. */
  type Headers = map<string, Option<string>>

  const InboxHeader: string := "X-Mail-Inbox"
  const PasswordHeader: string := "X-Mail-Password"

  /** Python truthiness of an optional string: neither `None` nor empty. */
  predicate Truthy(s: Option<string>)
  {
    s.Some? && s.value != ""
  }

  /** `_auth_headers(user, password)`: a falsy password falls back to the client's own. */
  function AuthHeaders(c: Client, user: Option<string>, password: Option<string>): (h: Headers)
    ensures h.Keys == {InboxHeader, PasswordHeader} && h[InboxHeader] == user
    ensures Truthy(password) ==> h[PasswordHeader] == password
    ensures !Truthy(password) ==> h[PasswordHeader] == c.password
  {
    map[InboxHeader := user, PasswordHeader := if Truthy(password) then password else c.password]
  }

  /**
   * The headers that go out, as the HTTP session combines its defaults with
   * a request's own: the request's entries win, and entries set to `None`
   * are not sent.  This is the session's behaviour, not the client's.
   */
  function SentHeaders(session: Headers, request: Headers): map<string, string>
  {
    var both := session + request;
    map h | h in both && both[h].Some? :: both[h].value
  }

  datatype Method = Get | Delete

  /** The thirteen keyword arguments of `get_messages`; `Null` is an argument left out. */
  datatype Filter = Filter(
    recipientsAddress: Value, recipientsName: Value, subject: Value, read: Value,
    createdAtLt: Value, createdAtGt: Value, senderAddress: Value, senderName: Value,
    recipientsAddressContains: Value, recipientsNameContains: Value, subjectContains: Value,
    senderAddressContains: Value, senderNameContains: Value)

  const NoFilter: Filter := Filter(Null, Null, Null, Null, Null, Null, Null, Null, Null, Null, Null, Null, Null)

  /** The dictionary `get_messages` builds from its arguments before normalising it. */
  function FilterDict(f: Filter): Params
  {
    map[
      "recipients_address" := f.recipientsAddress, "recipients_name" := f.recipientsName,
      "subject" := f.subject, "subject_contains" := f.subjectContains, "read" := f.read,
      "created_at_gt" := f.createdAtGt, "created_at_lt" := f.createdAtLt,
      "sender_address" := f.senderAddress, "sender_name" := f.senderName,
      "recipients_address_contains" := f.recipientsAddressContains,
      "recipients_name_contains" := f.recipientsNameContains,
      "sender_address_contains" := f.senderAddressContains, "sender_name_contains" := f.senderNameContains
    ]
  }

  /** A call of one of the public methods, with its arguments. */
  datatype Call =
    | GetInboxes(inboxPassword: Option<string>)
    | GetSingleMessage(messageId: string)
    | GetMessages(filter: Filter)
    | GetAttachment(attachmentOf: string, attachmentIndex: int)
    | DeleteSingleMessage(deleteId: string)
    | DeleteMessages(params: Params)

  /** What a call hands to the session: HTTP method, URL, query parameters, headers and whether to decode JSON. */
  datatype Request = Request(verb: Method, url: string, params: Option<Params>, headers: map<string, string>, parseJson: bool)

  /** The resource name each public method asks `_request_api` for. */
  function Resource(call: Call): string
  {
    match call
    case GetInboxes(_) => "inboxes"
    case GetSingleMessage(id) => "messages/" + id
    case GetMessages(_) => "messages/"
    case GetAttachment(id, index) => "messages/" + id + "/attachments/" + IntToDecimal(index)
    case DeleteSingleMessage(id) => "messages/" + id
    case DeleteMessages(_) => "messages/"
  }

  function VerbOf(call: Call): Method
  {
    if call.DeleteSingleMessage? || call.DeleteMessages? then Delete else Get
  }

  /** Only `get_attachment` asks for the raw body. */
  function ParseJsonOf(call: Call): bool
  {
    !call.GetAttachment?
  }

  /** The query parameters: the normalised filter dictionary of `get_messages` and `delete_messages`. */
  function QueryOf(call: Call, dates: Dates): (q: Option<Params>)
    ensures q.Some? <==> call.GetMessages? || call.DeleteMessages?
    ensures q.Some? ==> forall x | x in q.value :: q.value[x] != Null && x !in ParamsRemap
  {
    ParamsRemapValid();
    NormalizeClean(ParamsRemap, if call.GetMessages? then FilterDict(call.filter) else if call.DeleteMessages? then call.params else map[], dates);
    if call.GetMessages? then Some(Normalize(ParamsRemap, FilterDict(call.filter), dates))
    else if call.DeleteMessages? then Some(Normalize(ParamsRemap, call.params, dates))
    else None
  }

  /** The session sends the client's own headers; `get_inboxes` overrides them for its request. */
  function HeadersFor(c: Client, call: Call): map<string, string>
  {
    var session := AuthHeaders(c, c.user, c.password);
    var extra := if call.GetInboxes? then AuthHeaders(c, None, call.inboxPassword) else map[];
    SentHeaders(session, extra)
  }

  /** The request a call sends; only `get_attachment` keeps the raw body. */
  function RequestFor(c: Client, call: Call, dates: Dates): (r: Request)
    ensures r.verb == Delete <==> call.DeleteSingleMessage? || call.DeleteMessages?
    ensures r.parseJson <==> !call.GetAttachment?
    ensures r.params.Some? <==> call.GetMessages? || call.DeleteMessages?
    ensures r.params.Some? ==> forall x | x in r.params.value :: r.params.value[x] != Null && x !in ParamsRemap
    ensures ValidRemap(ParamsRemap)
    ensures call.GetMessages? ==> r.params == Some(Normalize(ParamsRemap, FilterDict(call.filter), dates))
    ensures call.DeleteMessages? ==> r.params == Some(Normalize(ParamsRemap, call.params, dates))
    ensures r.headers.Keys <= {InboxHeader, PasswordHeader}
    ensures call.GetInboxes? ==> InboxHeader !in r.headers
    ensures !call.GetInboxes? ==> (InboxHeader in r.headers <==> c.user.Some?)
  {
    ParamsRemapValid();
    Request(VerbOf(call), ResolveUrl(c.urlApi, Resource(call)), QueryOf(call, dates), HeadersFor(c, call), ParseJsonOf(call))
  }

  /** The field of the JSON answer a call returns. */
  function Field(call: Call): Option<string>
  {
    match call
    case GetInboxes(_) => Some("inbox_list")
    case GetSingleMessage(_) => Some("message_info")
    case GetMessages(_) => Some("message_list")
    case _ => None
  }

  /** `len(x)` is defined: lists, dictionaries and strings. */
  predicate Sized(j: Json)
  {
    j.JArray? || j.JObject? || j.JString?
  }

  /**
   * What a public method makes of `_request_api`'s outcome: errors pass
   * through; `get_attachment` returns the raw body; the deletions return
   * `None`; the other three index the answer by their field (a `KeyError`
   * when it is missing, a `TypeError` when the answer is no dictionary), and
   * `get_messages` also takes the length of the list it found.
   */
  function Finish(call: Call, o: Outcome<Payload>): (r: Outcome<Payload>)
    ensures o.Raised? ==> r == o
    ensures call.GetAttachment? ==> r == o
    ensures (call.DeleteSingleMessage? || call.DeleteMessages?) && o.Returned? ==> r == Returned(NoValue)
    ensures Field(call).Some? ==>
      (r.Returned? <==>
        (o.Returned? && o.value.Data? && o.value.json.JObject? &&
         Field(call).value in o.value.json.fields &&
         (call.GetMessages? ==> Sized(o.value.json.fields[Field(call).value]))))
    ensures Field(call).Some? && r.Returned? ==> r.value == Data(o.value.json.fields[Field(call).value])
    ensures (Field(call).Some? && o.Returned? && o.value.Data? && o.value.json.JObject? &&
             Field(call).value !in o.value.json.fields) ==> r == Raised(KeyError(Field(call).value))
    ensures Field(call).Some? && o.Returned? && !(o.value.Data? && o.value.json.JObject?) ==> r.Raised? && r.error.TypeError?
    ensures (call.GetMessages? && o.Returned? && o.value.Data? && o.value.json.JObject? &&
             "message_list" in o.value.json.fields && !Sized(o.value.json.fields["message_list"])) ==>
      r.Raised? && r.error.TypeError?
  {
    match o
    case Raised(_) => o
    case Returned(payload) =>
      match call
      case GetInboxes(_) => Pick(payload, "inbox_list", false)
      case GetSingleMessage(_) => Pick(payload, "message_info", false)
      case GetMessages(_) => Pick(payload, "message_list", true)
      case GetAttachment(_, _) => o
      case DeleteSingleMessage(_) => Returned(NoValue)
      case DeleteMessages(_) => Returned(NoValue)
  }

  /** `payload[key]`, and with `measured` also `len(payload[key])`. */
  function Pick(payload: Payload, key: string, measured: bool): Outcome<Payload>
  {
    if !(payload.Data? && payload.json.JObject?) then Raised(TypeError("not subscriptable"))
    else if key !in payload.json.fields then Raised(KeyError(key))
    else if measured && !Sized(payload.json.fields[key]) then Raised(TypeError("has no len()"))
    else Returned(Data(payload.json.fields[key]))
  }

  /** A call against a server that answers `resp`. */
  function Perform(c: Client, call: Call, dates: Dates, resp: Response): (r: Outcome<Payload>)
    ensures resp.status >= 400 ==> r == Raised(InvalidStatusFor(resp))
    ensures call.GetAttachment? && resp.status < 400 ==> r == Returned(Content(resp.content))
    ensures (call.DeleteSingleMessage? || call.DeleteMessages?) && resp.status < 400 ==>
      (r == Returned(NoValue) <==> resp.status == 204 || resp.json.Some?)
    ensures r.Raised? && !r.error.IsLathermailError() ==> Field(call).Some?
    ensures Field(call).Some? && r.Returned? ==>
      resp.status != 204 && resp.json.Some? && resp.json.value.JObject? &&
      Field(call).value in resp.json.value.fields && r.value == Data(resp.json.value.fields[Field(call).value])
  {
    Finish(call, Interpret(resp, ParseJsonOf(call), true))
  }

  // ---------------------------------------------------------------------
  // Where requests go

  /** The default client talks to `http://localhost:5000/api/0/`. */
  lemma DefaultClient(user: Option<string>, password: Option<string>)
    ensures NewClient(user, password, DefaultUrl, 0).urlApi == "http://localhost:5000/api/0/"
  {
    DefaultRoot();
  }

  /** No resource name is a full URL or an absolute path. */
  lemma ResourceRelative(call: Call)
    ensures !StartsWith(Resource(call), "http") && !StartsWith(Resource(call), "/")
  {
    var res := Resource(call);
    assert res[0] == 'i' || res[0] == 'm';
  }

  /**
   * Every call of a constructed client goes to `url_api` followed by its
   * resource name; the deletions use DELETE and everything else GET.
   */
  lemma RequestUnderApi(user: Option<string>, password: Option<string>, url: string, version: int, call: Call, dates: Dates)
    ensures var c := NewClient(user, password, url, version);
      && RequestFor(c, call, dates).url == c.urlApi + Resource(call)
      && (RequestFor(c, call, dates).verb == Delete <==> call.DeleteSingleMessage? || call.DeleteMessages?)
      && (RequestFor(c, call, dates).parseJson <==> !call.GetAttachment?)
  {
    var c := NewClient(user, password, url, version);
    var res := Resource(call);
    ResourceRelative(call);
    ResolveSplits(c.urlApi, res);
    var r := ResolveUrl(c.urlApi, res);
    assert r == r[..|c.urlApi|] + r[|c.urlApi|..];
  }

  /** `get_inboxes()` on the default client asks for `/api/0/inboxes`. */
  lemma InboxesUrl(user: Option<string>, password: Option<string>, inboxPassword: Option<string>, dates: Dates)
    ensures RequestFor(NewClient(user, password, DefaultUrl, 0), GetInboxes(inboxPassword), dates).url ==
      "http://localhost:5000/api/0/inboxes"
  {
    DefaultClient(user, password);
    DefaultInboxesUrl();
  }

  // ---------------------------------------------------------------------
  // Authentication headers

  /**
   * `get_inboxes` sends no inbox header at all, and sends the password it was
   * given when that is truthy and the client's own otherwise.
   */
  lemma InboxesHeaders(c: Client, inboxPassword: Option<string>, dates: Dates)
    ensures var h := RequestFor(c, GetInboxes(inboxPassword), dates).headers;
      var pw := if Truthy(inboxPassword) then inboxPassword else c.password;
      && InboxHeader !in h
      && (PasswordHeader in h <==> pw.Some?)
      && (PasswordHeader in h ==> h[PasswordHeader] == pw.value)
      && h.Keys <= {PasswordHeader}
  {
  }

  /** Every other call sends the client's own user and password, each when it is not `None`. */
  lemma SessionHeadersSent(c: Client, call: Call, dates: Dates)
    requires !call.GetInboxes?
    ensures var h := RequestFor(c, call, dates).headers;
      && (InboxHeader in h <==> c.user.Some?)
      && (InboxHeader in h ==> h[InboxHeader] == c.user.value)
      && (PasswordHeader in h <==> c.password.Some?)
      && (PasswordHeader in h ==> h[PasswordHeader] == c.password.value)
      && h.Keys <= {InboxHeader, PasswordHeader}
  {
  }

  lemma OnlyHeader(h: map<string, string>, v: string)
    requires h.Keys <= {PasswordHeader} && PasswordHeader in h && h[PasswordHeader] == v
    ensures h == map[PasswordHeader := v]
  {
  }

  /** The client built with user "u1" and password "p1" lists inboxes with "p1", or with "p2" when asked to. */
  lemma InboxesPasswordFallback(dates: Dates)
    ensures var c := NewClient(Some("u1"), Some("p1"), DefaultUrl, 0);
      && RequestFor(c, GetInboxes(None), dates).headers == map[PasswordHeader := "p1"]
      && RequestFor(c, GetInboxes(Some("")), dates).headers == map[PasswordHeader := "p1"]
      && RequestFor(c, GetInboxes(Some("p2")), dates).headers == map[PasswordHeader := "p2"]
  {
    var c := NewClient(Some("u1"), Some("p1"), DefaultUrl, 0);
    InboxesHeaders(c, None, dates);
    OnlyHeader(RequestFor(c, GetInboxes(None), dates).headers, "p1");
    InboxesHeaders(c, Some(""), dates);
    OnlyHeader(RequestFor(c, GetInboxes(Some("")), dates).headers, "p1");
    InboxesHeaders(c, Some("p2"), dates);
    OnlyHeader(RequestFor(c, GetInboxes(Some("p2")), dates).headers, "p2");
  }

  // ---------------------------------------------------------------------
  // Query parameters

  /** No filter argument: the query is empty. */
  lemma NoFilterNoQuery(c: Client, dates: Dates)
    ensures ValidRemap(ParamsRemap)
    ensures RequestFor(c, GetMessages(NoFilter), dates).params == Some(map[])
  {
    ParamsRemapValid();
    NormalizeAllNull(ParamsRemap, FilterDict(NoFilter), dates);
  }

  /** `get_messages(recipients_address=a)` sends the address under `recipients.address`. */
  lemma RecipientAddressQuery(c: Client, address: string, dates: Dates)
    ensures RequestFor(c, GetMessages(NoFilter.(recipientsAddress := Str(address))), dates).params ==
      Some(map["recipients.address" := Str(address)])
  {
    ParamsRemapValid();
    var p := FilterDict(NoFilter.(recipientsAddress := Str(address)));
    NormalizeSingle(ParamsRemap, p, dates, "recipients_address");
    ConvertAt(p, dates, "recipients_address");
  }

  /** `get_messages(recipients_address_contains=a)` sends it under `recipients.address_contains`. */
  lemma RecipientAddressContainsQuery(c: Client, address: string, dates: Dates)
    ensures RequestFor(c, GetMessages(NoFilter.(recipientsAddressContains := Str(address))), dates).params ==
      Some(map["recipients.address_contains" := Str(address)])
  {
    ParamsRemapValid();
    var p := FilterDict(NoFilter.(recipientsAddressContains := Str(address)));
    NormalizeSingle(ParamsRemap, p, dates, "recipients_address_contains");
    ConvertAt(p, dates, "recipients_address_contains");
  }

  /** `get_messages(created_at_lt=t)` sends the UTC ISO-8601 text of `t`. */
  lemma CreatedBeforeQuery(c: Client, t: DateTime, dates: Dates)
    ensures RequestFor(c, GetMessages(NoFilter.(createdAtLt := Stamp(t))), dates).params ==
      Some(map["created_at_lt" := Str(UtcIso(dates, t))])
  {
    ParamsRemapValid();
    var p := FilterDict(NoFilter.(createdAtLt := Stamp(t)));
    NormalizeSingle(ParamsRemap, p, dates, "created_at_lt");
    ConvertAt(p, dates, "created_at_lt");
  }

  /** `delete_messages(recipients_address=a)` deletes with the query `get_messages(recipients_address=a)` uses. */
  lemma DeleteByAddress(c: Client, address: string, dates: Dates)
    ensures var r := RequestFor(c, DeleteMessages(map["recipients_address" := Str(address)]), dates);
      r.verb == Delete && r.params == Some(map["recipients.address" := Str(address)])
  {
    ParamsRemapValid();
    AddressOnly(address, dates);
  }

  /** The normalised dictionary of a lone `recipients_address` argument. */
  lemma AddressOnly(address: string, dates: Dates)
    ensures ValidRemap(ParamsRemap)
    ensures Normalize(ParamsRemap, map["recipients_address" := Str(address)], dates) == map["recipients.address" := Str(address)]
  {
    ParamsRemapValid();
    var p := map["recipients_address" := Str(address)];
    NormalizeSingle(ParamsRemap, p, dates, "recipients_address");
    ConvertAt(p, dates, "recipients_address");
  }

  /**
   * `get_messages` never passes a wire name, so its dictionary never has a
   * shadowed `None` and the rename loop as written gives the intended query
   * in every iteration order.
   */
  lemma GetMessagesOrderFree(c: Client, f: Filter, dates: Dates, order: seq<string>)
    requires IsListing(order, FilterDict(f))
    ensures ValidRemap(ParamsRemap)
    ensures PrepareAsWritten(ParamsRemap, FilterDict(f), dates, order) == Normalize(ParamsRemap, FilterDict(f), dates)
    ensures RequestFor(c, GetMessages(f), dates).params == Some(PrepareAsWritten(ParamsRemap, FilterDict(f), dates, order))
  {
    ParamsRemapValid();
    var p := FilterDict(f);
    assert !ShadowedNull(ParamsRemap, p) by {
      forall k | k in ParamsRemap ensures ParamsRemap[k] !in p {
      }
    }
    AsWrittenAgrees(ParamsRemap, p, dates, order);
  }

  /**
   * `delete_messages` sends the query of the rename loop as written, in the
   * keyword order `order`, whenever its arguments do not pair a logical name
   * holding a value with its own wire name holding `None`; only that pairing
   * (see `AsWrittenLosesShadowedFilter`) separates the two.
   */
  lemma DeleteQueryAsWritten(c: Client, p: Params, dates: Dates, order: seq<string>)
    requires IsListing(order, p) && !ShadowedNull(ParamsRemap, p)
    ensures RequestFor(c, DeleteMessages(p), dates).params == Some(PrepareAsWritten(ParamsRemap, p, dates, order))
  {
    ParamsRemapValid();
    AsWrittenAgrees(ParamsRemap, p, dates, order);
  }

  // ---------------------------------------------------------------------
  // Answers

  /** Every public method raises `InvalidStatus` carrying the status for a response of 400 or more. */
  lemma ErrorStatusRaises(c: Client, call: Call, dates: Dates, resp: Response)
    requires resp.status >= 400
    ensures Perform(c, call, dates, resp) == Raised(InvalidStatusFor(resp))
    ensures Perform(c, call, dates, resp).error.code == resp.status
  {
  }

  /** A JSON dictionary holding the method's field: the field's value is returned. */
  lemma FieldReturned(c: Client, call: Call, dates: Dates, resp: Response, fields: map<string, Json>)
    requires Field(call).Some? && Field(call).value in fields
    requires call.GetMessages? ==> Sized(fields[Field(call).value])
    requires resp.status < 400 && resp.status != 204 && resp.json == Some(JObject(fields))
    ensures Perform(c, call, dates, resp) == Returned(Data(fields[Field(call).value]))
  {
  }

  /** `get_inboxes` against `{"inbox_list": ["a", "b"]}` returns `["a", "b"]`. */
  lemma InboxListReturned(c: Client, password: Option<string>, dates: Dates, resp: Response)
    requires resp.status == 200
    requires resp.json == Some(JObject(map["inbox_list" := JArray([JString("a"), JString("b")])]))
    ensures Perform(c, GetInboxes(password), dates, resp) == Returned(Data(JArray([JString("a"), JString("b")])))
  {
  }

  /** An answer that is not JSON ends every JSON-reading method with a `LathermailError` showing the body. */
  lemma NotJsonRaises(c: Client, call: Call, dates: Dates, resp: Response)
    requires !call.GetAttachment?
    requires resp.status < 400 && resp.status != 204 && resp.json.None?
    ensures Perform(c, call, dates, resp).Raised?
    ensures Perform(c, call, dates, resp).error.LathermailError?
    ensures EndsWith(Perform(c, call, dates, resp).error.message, resp.text)
  {
    NotJsonKeepsBody(resp);
  }

  /** `get_attachment` returns the body bytes untouched, whatever they are, for any status below 400. */
  lemma AttachmentBytes(c: Client, id: string, index: int, dates: Dates, resp: Response)
    requires resp.status < 400
    ensures Perform(c, GetAttachment(id, index), dates, resp) == Returned(Content(resp.content))
  {
  }

  /** The deletions return `None` on a 204 answer, or on any JSON answer below 400. */
  lemma DeletionsReturnNone(c: Client, call: Call, dates: Dates, resp: Response)
    requires call.DeleteSingleMessage? || call.DeleteMessages?
    requires resp.status < 400 && (resp.status == 204 || resp.json.Some?)
    ensures Perform(c, call, dates, resp) == Returned(NoValue)
  {
  }

  /** An empty 204 answer to a JSON-reading `get_*` method fails: `None` cannot be indexed. */
  lemma GetOnNoContentFails(c: Client, call: Call, dates: Dates, resp: Response)
    requires Field(call).Some? && resp.status == 204
    ensures Perform(c, call, dates, resp) == Raised(TypeError("not subscriptable"))
  {
  }
}
