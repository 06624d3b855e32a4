# lathermail client — a verified model

`lathermail_client` is the Python client of lathermail, a small SMTP server
with a web API. A `LathermailClient` holds a user (the inbox name), a
password and the API base URL. It lists inboxes, fetches messages and
attachments, searches messages with a filter, and deletes them.

This project models the client's logic in Dafny and proves what it does:

- `params.dfy` (module `Params`) covers the filter-parameter normaliser
  `_prepare_params` and its rename table `_params_remap`:
  - `Normalize` is the specification of the normaliser.
  - `PrepareParams` is the normaliser as an imperative method over the
    dictionary. Its first loop is the source's. Its second loop also runs over
    a snapshot of the names, but it decides on each name's current value
    rather than the snapshot value (the correction from "## Findings").
  - `PrepareAsWritten` is the rename loop exactly as written, for any
    dictionary order. `AsWrittenAgrees` proves it equals `Normalize` except on
    the input pattern of the finding.
- `urls.dfy` (module `Urls`) covers `posixpath.join`, the client's `url_api`,
  and how a resource name resolves against it.
- `dispatch.dfy` (module `Dispatch`) covers the exceptions `InvalidStatus`
  and `LathermailError`. It also covers what `_request_api` does with an
  HTTP response, depending on `parse_json` and `raise_error`.
- `api.dfy` (module `Api`) covers the client record and `_auth_headers`. It
  models each public method as the request it sends (`RequestFor`) and as
  what it returns for a given response (`Perform`).
- `text.dfy` (module `Text`) holds Python's `startswith`, `endswith` and
  `str(int)`. `wrappers.dfy` holds `Option`, which stands for `None`.

The client's requests (`Api.RequestFor`) build their query with the
corrected normaliser `Normalize`.

The HTTP exchange is a parameter: a call is described by the request it would
send, and the server's response is an input. `_to_utc` and
`datetime.isoformat` are uninterpreted functions in a `Dates` record.

The normaliser is proved for any rename table of the shape that
`_params_remap` has (`ValidRemap`): wire names are non-empty, distinct,
never themselves logical names, and no name is a date field.
`ParamsRemapValid` proves that the real eight-entry table has this shape.

## Model

| member | source | states |
|---|---|---|
| Params.ParamsRemapValid | lathermail_client.py:139-148 | The rename table maps every logical name to a non-empty, distinct dotted wire name that is not itself a logical name and is not a date field. |
| Params.PrepareParams | lathermail_client.py:112-127 | The two loops turn the dictionary into exactly `Normalize` of it, for every order in which the second loop visits the names. The first loop converts datetimes in the date fields. The second deletes `None` entries and renames logical names (reading each name's current value, see Findings). |
| Params.NormalizeDropsNulls | lathermail_client.py:120-122 | No value of the result is `None`. Falsy values such as `false` or `""` are not `None` and stay. |
| Params.NormalizeRenames | lathermail_client.py:123-126 | Every logical name of the table is gone from the result. When its value is not `None`, its wire name carries exactly that value. |
| Params.NormalizeKeepsOthers | lathermail_client.py:113-126 | A name that is neither logical nor wire is kept exactly when its value is not `None`. Its value is unchanged, except that a datetime in `created_at_gt`/`created_at_lt` becomes its UTC ISO-8601 text. |
| Params.NormalizeInventsNothing | lathermail_client.py:120-126 | Every name in the result is a name of the input or a wire name. |
| Params.NormalizeWireNameInput | lathermail_client.py:124-126 | When the caller also passes a wire name, the logical name's value wins if it is not `None`. Otherwise the wire name's own value is used. The wire name is present exactly when one of the two is not `None`. This is the corrected behaviour: when the logical name has a value and the wire name is `None`, the source as written may lose both (see Findings). |
| Params.NormalizeWireNamePresent | lathermail_client.py:120-126 | A wire name is in the result exactly when its logical name or the wire name itself held a value other than `None`. No other wire name ever appears. |
| Params.NormalizeIdempotent | lathermail_client.py:112-127 | Normalising a normalised dictionary changes nothing. |
| Params.NormalizeAllNull | lathermail_client.py:120-122 | A dictionary of `None`s normalises to the empty dictionary. |
| Params.NormalizeSingle | lathermail_client.py:112-127 | A dictionary with one non-`None` entry normalises to that entry alone. It sits under its wire name, with its value converted if it is a date. This is the corrected normaliser. The source as written differs only when another entry is that name's wire name holding `None` (see Findings). |
| Params.NormalizeClean | lathermail_client.py:120-126 | Nothing that goes on the wire is `None` or a logical name of the table. |
| Params.Normalize | lathermail_client.py:112-127 | The intended result of `_prepare_params`. Its properties are stated by `NormalizeDropsNulls`, `NormalizeRenames`, `NormalizeKeepsOthers`, `NormalizeInventsNothing`, `NormalizeWireNameInput`, `NormalizeWireNamePresent`, `NormalizeClean` and `NormalizeIdempotent`. |
| Params.PrepareAsWritten | lathermail_client.py:112-127 | `_prepare_params` as written, for a given dictionary order. It agrees with `Normalize` on every input without a shadowed `None` (`AsWrittenAgrees`), and loses the filter on the input that has one (`ShadowedOrders`). |
| Params.VisitStep | lathermail_client.py:120-126 | One visit of the rename loop keeps the loop invariant: the dictionary equals `Partial` of the names visited so far. |
| Params.AsWrittenFrom | lathermail_client.py:120-126 | By induction over the remaining order: without a shadowed `None`, the rest of the loop as written ends where the corrected loop ends. |
| Params.AsWrittenAgrees | lathermail_client.py:112-127 | Without a shadowed `None` (a logical name with a value next to its own wire name holding `None`), the source's loop gives `Normalize` in every dictionary order. |
| Params.ShadowedOrders | lathermail_client.py:120-126 | For every table entry `k -> w`, `{k: v, w: None}` gives `{}` when `k` is listed first and `{w: v}` when `w` is. The intended result is `{w: v}`. |
| Params.AsWrittenLosesShadowedFilter | lathermail_client.py:72-74 | The same on the real table: `delete_messages(recipients_address="a@b", **{"recipients.address": None})` normalises to an empty query when the logical name comes first. |
| Text.DecimalRoundTrip | lathermail_client.py:35 | The decimal text of the API version (and of an attachment index) reads back as the same number. |
| Urls.PosixJoin | lathermail_client.py:35 | An absolute second part replaces the first. Otherwise the result starts with the first part and ends with the second, with exactly one `/` between them unless the first part is empty. |
| Urls.ApiRoot | lathermail_client.py:35 | `url_api` starts with the base URL, ends with `api/<version>/`, and always ends in `/`. It is exactly the URL followed by `api/<version>/`: directly when the URL is empty or ends in `/`, and with one `/` inserted otherwise. |
| Urls.ResolveUrl | lathermail_client.py:83-86 | A resource starting with `http` is the URL itself. Otherwise the resource is joined to `url_api`: an absolute path replaces it. A relative resource is exactly `url_api` followed by the resource, with one `/` inserted when `url_api` is non-empty and lacks it. |
| Urls.ResolveSplits | lathermail_client.py:83-86 | A resource starting with `http` is used verbatim, and an absolute path replaces `url_api`. A relative resource splits back into `url_api` and itself. |
| Urls.DefaultInboxesUrl | lathermail_client.py:31-35 | With the default URL and version 0, `inboxes` resolves to `http://localhost:5000/api/0/inboxes`. |
| Dispatch.InvalidStatusFor | lathermail_client.py:23-27 | `InvalidStatus` is a `LathermailError`. Its code is the status, and its message starts with `Invalid status <code>` and ends with the body text. |
| Dispatch.Interpret | lathermail_client.py:89-106 | Exactly one of five outcomes, each with its if-and-only-if condition, in the source's order:<br>- with `raise_error`, a status of 400 or more raises `InvalidStatus`;<br>- otherwise, without `parse_json`, the raw body is returned;<br>- otherwise, a 204 returns `None`;<br>- otherwise, decoded JSON is returned;<br>- otherwise, `LathermailError` with url, status and body is raised. |
| Dispatch.ErrorStatusFirst | lathermail_client.py:89-93 | An error status raises `InvalidStatus` with that code even when the raw body was asked for. |
| Dispatch.RawBodyAnyStatus | lathermail_client.py:92-95 | Without `parse_json`, the body comes back unchanged for every status below 400, 204 included. |
| Dispatch.NotJsonMessage | lathermail_client.py:101-103 | The message for a body that is not JSON starts with `lathermail: url: <url>` and ends with the status and the body text. |
| Dispatch.NoRaiseDecodesErrorBody | lathermail_client.py:89-106 | With `raise_error` off, an error response whose body is JSON returns the decoded body like any other answer. |
| Dispatch.NotJsonKeepsBody | lathermail_client.py:96-105 | A body that is not JSON raises a `LathermailError` whose message ends with the body text. |
| Api.NewClient | lathermail_client.py:31-35 | The client keeps user, password and URL. Its `url_api` starts with the URL and ends with `api/<version>/`. It is exactly the URL followed by `api/<version>/`: directly when the URL is empty or ends in `/`, and with one `/` inserted otherwise. |
| Api.AuthHeaders | lathermail_client.py:108-109 | Two headers: the inbox header is the given user. The password header is the given password when it is truthy, and the client's stored password otherwise. |
| Api.RequestFor | lathermail_client.py:40-86 | Exactly the deletions use DELETE, and only `get_attachment` skips JSON decoding. Only `get_messages` and `delete_messages` send a query. It is exactly `Normalize` of the thirteen-entry filter dictionary (for `get_messages`) or of the keyword arguments (for `delete_messages`), so it holds no `None` and no logical name. At most the two auth headers are sent: `get_inboxes` never sends the inbox header, and the other calls send it exactly when the client has a user. |
| Api.DeleteQueryAsWritten | lathermail_client.py:72-74 | For any keyword order, `delete_messages` sends the same query as the source's loop as written, unless the arguments pair a logical name holding a value with its own wire name holding `None`. |
| Api.Perform | lathermail_client.py:40-106 | A status of 400 or more raises `InvalidStatus` for every call. `get_attachment` otherwise returns the raw bytes. A deletion returns `None` exactly when the answer is a 204 or JSON. `KeyError`/`TypeError` arise only in the three field-reading methods. A returned field comes from a JSON dictionary holding it. |
| Api.Resource | lathermail_client.py:41-74 | The resource names: `inboxes`, `messages/<id>`, `messages/`, `messages/<id>/attachments/<index>`, `messages/<id>` and `messages/` for the six public methods. Their properties are stated by `ResourceRelative` and `RequestUnderApi`. |
| Api.ResourceRelative | lathermail_client.py:41-74 | No resource name starts with `http` or `/`, so every one is joined to `url_api` rather than replacing it. |
| Api.QueryOf | lathermail_client.py:52-74 | Exactly `get_messages` and `delete_messages` send query parameters, and no query holds a `None` value or a logical name of the rename table. |
| Api.RequestUnderApi | lathermail_client.py:40-86 | Every public method's URL is `url_api` followed by its resource name. Exactly the two deletions use DELETE, and only `get_attachment` skips JSON decoding. |
| Api.InboxesUrl | lathermail_client.py:40-41 | `get_inboxes` on a default client asks for `http://localhost:5000/api/0/inboxes`. |
| Api.InboxesHeaders | lathermail_client.py:40-41 | `get_inboxes` sends no inbox header. It sends its password argument when truthy, and the client's password otherwise. |
| Api.SessionHeadersSent | lathermail_client.py:37-38 | Every other call sends the client's own user and password, each when it is not `None`. |
| Api.InboxesPasswordFallback | lathermail_client.py:108-109 | For the client `("u1", "p1")`, `get_inboxes()` and `get_inboxes("")` send only password `p1`, and `get_inboxes("p2")` sends only `p2`. |
| Api.NoFilterNoQuery | lathermail_client.py:46-61 | `get_messages()` sends an empty query. |
| Api.RecipientAddressQuery | lathermail_client.py:46-62 | `get_messages(recipients_address=a)` sends exactly `{"recipients.address": a}`. |
| Api.RecipientAddressContainsQuery | lathermail_client.py:46-62 | `get_messages(recipients_address_contains=a)` sends exactly `{"recipients.address_contains": a}`. |
| Api.CreatedBeforeQuery | lathermail_client.py:46-62 | `get_messages(created_at_lt=t)` sends exactly `{"created_at_lt": <UTC ISO text of t>}`. |
| Api.DeleteByAddress | lathermail_client.py:72-74 | `delete_messages(recipients_address=a)` uses DELETE with the query `{"recipients.address": a}`. |
| Api.GetMessagesOrderFree | lathermail_client.py:52-62 | `get_messages` never passes a wire name, so the loop as written gives the intended query in every order, and the query `get_messages` sends is exactly that of the loop as written. |
| Api.Finish | lathermail_client.py:40-74 | Errors pass through. `get_attachment` returns the raw body and the deletions return `None`. The three `get_*` methods return their field exactly when the answer is a dictionary holding it (for `get_messages`, also a value with a length), and raise `KeyError` when it is missing. An answer that is no dictionary, or a `message_list` without a length, raises `TypeError`. The indexing and `len()` are done by the helper `Api.Pick`. |
| Api.ErrorStatusRaises | lathermail_client.py:82-90 | Every public method raises `InvalidStatus` with the status as its code for a response of 400 or more. |
| Api.FieldReturned | lathermail_client.py:40-64 | For a successful JSON dictionary holding the method's field, the method returns that field's value. |
| Api.InboxListReturned | lathermail_client.py:40-41 | `get_inboxes` against `{"inbox_list": ["a", "b"]}` returns `["a", "b"]`. |
| Api.NotJsonRaises | lathermail_client.py:96-105 | Every JSON-reading method answered with a body that is not JSON raises a `LathermailError` showing the body. |
| Api.AttachmentBytes | lathermail_client.py:66-67 | `get_attachment` returns the body bytes unchanged for any status below 400. |
| Api.DeletionsReturnNone | lathermail_client.py:69-74 | The deletions return `None` on a 204, or on any JSON answer below 400. |
| Api.GetOnNoContentFails | lathermail_client.py:94-95 | A 204 answer to a `get_*` method that reads a field ends in `TypeError`, because `None` cannot be indexed. |

## Left out

- The HTTP transport (`requests.Session`, `session.request`, redirects, timeouts, `data` and extra keyword arguments passed through to the request) is not modelled. A call is the request it would send, and the response is an input.
- How the session merges its default headers with a request's headers, and that it does not send `None`-valued ones, is stated in `Api.SentHeaders` as the HTTP library behaves. It is not derived from any code in the model.
- `_to_utc` and `datetime.isoformat` are uninterpreted functions (`Params.Dates`). This leaves out timezone probing (`pytz`/`dateutil` availability, local timezone), which depends on the environment.
- `response.json()` is abstracted to an optional decoded value. `str(data)[:500]` and all logging calls only feed the log, so they are left out. The `len(messages)` evaluated for the log line is kept, because it can raise.
- Dictionary order is not recorded by the model's maps. Where order matters (the rename loop as written), it is an explicit parameter `order`.
- The `TypeError`/`KeyError` messages are simplified: `Error.TypeError` carries a short reason rather than Python's exact text.
- `message_id` is modelled as a string (its `format` text). An attachment index is an integer and is formatted in decimal.
- `Params.PrepareParams`: the map is a value the method reassigns, so the in-place mutation of the caller's dictionary (aliasing) is not modelled.
- Api.RequestFor: the query of `get_messages` and `delete_messages` is built with the corrected normaliser `Normalize` (see "## Findings"), not with the loop as written. For `delete_messages` called with a logical name holding a value next to its own wire name holding `None`, the source as written can send an empty query where the model sends the filter. `Api.DeleteQueryAsWritten` proves the two agree on every other input, and `Api.GetMessagesOrderFree` proves `get_messages` never hits the difference.
- JSON numbers are integers in the model (`Dispatch.JNumber`). Floats are not represented. The client's behaviour does not depend on this: it only indexes and measures the decoded value, and `len()` fails on every number.
- `Urls.ApiSuffix` takes an integer version. Python's `format` would also accept any other value, such as the string `"v1"`, but the model does not.
- Packaging metadata (`setup.py`) is outside the client's behaviour.

## Findings

| source | as written | input that shows it | evidently intended | confidence | as-written member | corrected member |
|---|---|---|---|---|---|---|
| lathermail_client.py:120-126 | The rename loop decides whether to delete from the snapshot value. A logical name visited first moves its value onto its wire name, and if the snapshot holds `None` for that wire name, the later visit deletes the moved value. | `delete_messages(recipients_address="a@b", **{"recipients.address": None})`: the keyword dictionary lists the logical name first, and the query comes out empty. The client sends a DELETE of `messages/` with no filter at all. | The filter survives, as it does when the two names come in the other order: `{"recipients.address": "a@b"}`. Deciding on the current value `params[name]` gives this in every order. | low, not executed | Params.AsWrittenLosesShadowedFilter | Params.PrepareParams |
