# Temp-mail client and handlers, modelled in Dafny

This project models the decision logic of a small disposable-email front
end. The front end has two parts:

- a static browser client (`app.js`) that keeps one 1secmail mailbox, polls
  its inbox on a timer, and shows the messages with their one-time codes;
- serverless handlers. `api/create.js` composes a random 1secmail address
  without any provider request. `api/debug-create.js` creates a mail.tm
  account and requests its token, with retries. `api/read.js` reads one
  mail.tm message (`GET /messages/{id}`). `api/delete.js` deletes a mail.tm
  account (`DELETE /accounts/{id}`).

The network is not modelled. In the handlers every upstream answer is an
input: an `Http.Outcome` that is either a response (status and body text)
or a transport failure. In the client, each provider answer is an input
already reduced to what `app.js` distinguishes: an `InboxReply`, a
`MessageReply` or a `DeleteReply`. `JSON.parse` is a supplied partial function
`string -> Option<Json>`. Each use of `Math.random` is a supplied draw:
the name loops take a sequence of alphabet indices, Generate takes an
index into its three domains, and debug-create takes each attempt's
password as a string. Each handler is then a deterministic function or method from the
request and those inputs to the reply and the requests made.

Modules, one per file:

- `Wrappers`: `Option`, for JavaScript's null/undefined; a map read that
  gives undefined for an absent key; and the truthiness of such a string.
- `Http`: the outcome of one `fetch`, and `Response.ok`.
- `JsValue`: parsed JSON values, plus the JavaScript operations the
  handlers apply to them: truthiness, property reads, `v?.key || null`
  and `String(v)`.
- `Names`: the 36-character alphabet, the `randStr`/`randLocal` loop, and
  address composition `local + "@" + domain` with its inverse.
- `Otp`: `extractOtp`. It holds the regular expression `/\b(\d{4,8})\b/` as
  the engine runs it at each position, a declarative statement of "the
  leftmost maximal run of 4 to 8 digits not touching a word character",
  and a proof that the two agree. `\b` has the meaning given in section
  22.2 of ECMA-262.
- `HtmlEscape`: `escapeHtml`, and a decoder of the five entities that
  inverts it.
- `InboxOrder`: message summaries and the newest-first sort of
  `fetchInbox`.
- `Client`: the browser client as a class. Its fields are `login`,
  `domain`, `pollTimer`, `lastIds`, the localStorage map, the browser's
  live intervals, and what the page shows (listing, status line, viewer).
  It has one method per event handler. A ghost counter records provider
  requests.
- `DebugCreate`: `safeFetch`, the domain catalog with its fallback, and
  the bounded create/token retry loop. The loop (`AttemptLoop`) is proved
  against a function `Decided`, and the handler against `Expected`. These
  functions say which reply and which request sequence any combination
  of answers produces.
- `Create`, `Read`, `Delete`: the three small handlers.

## Notes on the code

- OTP boundaries are `\b` word boundaries. A digit run glued to a letter,
  a digit or `_` is not a code.
- HTML is not stripped before OTP extraction. The text body, a space and
  the raw HTML body are scanned together (app.js:194).
- In the debug create loop only a 400, 409 or 422 answer to account
  creation is retried. A 5xx or transport failure on creation ends the
  run, and so does any token failure.
- The loop makes at most 4 attempts.

## Model

| member | source | states |
|---|---|---|
| Names.RandomString | app.js:27-31 | exactly `len` characters, all from `a-z0-9`, the i-th being the alphabet letter of the i-th draw; the same loop serves `randLocal` and the login loop of api/create.js |
| Names.SplitAddressInvertsAddress | app.js:61 | an address composed from a local part without '@' splits back into that local part and the domain |
| Names.GeneratedNameSplits | api/create.js:13 | every generated name composes into an address that splits back into the name and the domain |
| Otp.TryCountFindsRun | app.js:248 | the greedy `\d{4,8}\b` at a start position yields the whole digit run when it has 4 to 8 digits and no word character follows it, and nothing otherwise |
| Otp.MatchAtIsOtpAt | app.js:248 | the regular expression matches at p exactly when a code starts at p (maximal 4–8 digit run, no word character on either side), and its match is that whole run |
| Otp.ExtractOtp | app.js:244-259 | null for absent or empty text; a result is 4–8 digits and is the leftmost code of the text; null otherwise means the text has no code |
| Otp.LongRunHasNoCode | app.js:248 | no position inside a run of 9 or more digits starts a code |
| Otp.GluedDigitsAreNoCode | app.js:248 | no position inside a digit run with a letter, digit or `_` right before or right after it starts a code |
| Otp.NoDigitsNoCode | app.js:258 | a text without digits yields no code |
| Otp.CodeAfterPlainText | app.js:252-255 | 4–8 digits after digit-free text that ends in a non-word character, and followed by a non-word character or the end, are the first code |
| Otp.RunLengthOfDigits | app.js:248 | k digits followed by a non-digit or the end form a run of length exactly k |
| Otp.ShortRunsNoCode | app.js:248-258 | a text with no four consecutive digits yields no code |
| Otp.CodeInSentence | app.js:244-259 | "Your code is 48213, expires in 5 minutes" yields "48213" |
| Otp.NoCodeInGreeting | app.js:258 | "hello world" yields no code |
| Otp.NoCodeInPrice | app.js:248-258 | "order #12 total $3.50" yields no code |
| HtmlEscape.EscapeText | app.js:264 | the output contains no `<`, `>`, `"` or `'` and is at least as long as the input |
| HtmlEscape.EscapeHtml | app.js:262-265 | "" for null, undefined or empty input; the replaced text otherwise |
| HtmlEscape.UnescapeEntity | app.js:264 | decoding an escaped character followed by any text gives back the character |
| HtmlEscape.UnescapeEscapeText | app.js:264 | decoding the five entities recovers the input exactly |
| HtmlEscape.EscapeTextAppend | app.js:264 | escaping a concatenation is the concatenation of the escapes |
| HtmlEscape.EscapeTextPlain | app.js:264 | text without the five special characters is unchanged |
| HtmlEscape.AmpersandsBeginEntities | app.js:264 | every `&` in the output begins one of the five entity references |
| InboxOrder.DateLeqTotal | app.js:122 | any two dates are comparable under the date order |
| InboxOrder.DateLeqTransitive | app.js:122 | the date order is transitive |
| InboxOrder.SortNewestFirst | app.js:122 | the result is ordered newest first and is a permutation of the listed messages; the sort is stable: for every date, the messages of that date keep their listed order |
| InboxOrder.InsertKeepsDateOrder | app.js:122 | inserting a message before the first older entry puts it after every message of its own date seen so far and keeps each date's order |
| InboxOrder.InsertKeepsOrder | app.js:122 | inserting a message after everything at least as new as it, and before an older one, keeps the list newest first |
| Client.SaveThenLoad | app.js:35-53 | after saving a set login and domain, loading restores the same pair; other storage items are unchanged |
| Client.ForgetThenLoad | app.js:76 | after both items are removed, loading restores nothing; other items are unchanged |
| Client.Client.constructor | app.js:22-54 | the page starts with no mailbox and no timer; when both storage items are truthy it restores them, starts one interval and polls once |
| Client.Client.SaveState | app.js:35-40 | writes both items only when both login and domain are set |
| Client.Client.LoadState | app.js:41-53 | restores only when both items are truthy, then restarts polling; otherwise nothing changes |
| Client.Client.Generate | app.js:57-70 | a 10-character alphabet login, one of the three domains, `lastIds` reset, the pair saved so a later load restores it, one interval live, one poll applied |
| Client.Client.Forget | app.js:73-83 | no live interval, no mailbox, both items removed so nothing can be loaded, listing empty, status blank |
| Client.Client.StartPolling | app.js:97-102 | without a mailbox nothing changes; otherwise the live interval is replaced by a new one and one poll is applied |
| Client.RowOf | app.js:133-134 | a row keeps the message id; its sender and subject hold no `<`, `>`, `"` or `'`, and decoding them gives back the sender and subject (absent ones as "") |
| Client.Client.Tick | app.js:100 | only a live interval fetches the inbox |
| Client.Client.FetchInbox | app.js:105-163 | without a mailbox nothing changes; failures keep the listing and report; a non-list or empty list empties it; a list is shown newest first as a permutation |
| Client.Client.OpenMessage | app.js:166-201 | without a mailbox nothing changes; on success the viewer shows sender, subject and the first code of text + " " + html, or "-" when there is none; failures report |
| Client.Client.DeleteMessage | app.js:204-219 | without a mailbox nothing changes; a 2xx delete is followed by a refetch; other answers report and keep the listing |
| Client.AtMostOneTimer | app.js:97-101 | at most one poll interval is ever live |
| Client.ForgetStopsRequests | app.js:73-76 | after New, starting polling, a timer tick, fetching, opening and deleting make no provider request, and no interval is live |
| JsValue.Truthy | api/debug-create.js:34-35 | the falsy values are exactly null, false, 0, NaN and the empty string; every array and object is truthy |
| JsValue.Get | api/debug-create.js:34 | a property read yields a value exactly when the value is an object that has the key, and that value is the key's field |
| JsValue.TruthyOrNull | api/debug-create.js:78 | the optional property read with a null default is null, or the property's value when that is truthy |
| JsValue.ToText | api/debug-create.js:46 | a string renders as itself, a number as its printed text, a boolean as "true" or "false", null as "null", an object as "[object Object]", an empty array and `[null]` as "", and any other one-element array as its element |
| JsValue.ToTextArray | api/debug-create.js:46 | an array of two or more elements renders as its first element (null as ""), a comma, and the rendering of the rest |
| DebugCreate.SafeFetch | api/debug-create.js:7-16 | never throws: the record carries a fetch error exactly when the transport failed |
| DebugCreate.SafeFetchShape | api/debug-create.js:7-16 | a transport failure gives `ok` false and the error; otherwise status and raw text are kept, and the body is null for empty text, the parsed value, or the text when it does not parse |
| DebugCreate.TruthyDomains | api/debug-create.js:35 | the truthy `domain` fields of the members, and only those; a null member makes the map throw |
| DebugCreate.TruthyDomainsInOrder | api/debug-create.js:35 | for a member array without null, the list is each member's truthy `domain` field, in member order, with the others skipped |
| DebugCreate.TruthyDomainsAppend | api/debug-create.js:35 | member order is kept: for two null-free member arrays in a row, the list is the first array's list followed by the second's |
| DebugCreate.TruthyDomainsOne | api/debug-create.js:35 | one non-null member contributes its `domain` field when that is truthy, and nothing otherwise |
| DebugCreate.Catalog | api/debug-create.js:34-38 | the member domains when the answer is ok and has the array shape, `["mail.tm"]` otherwise |
| DebugCreate.DomainFor | api/debug-create.js:44 | always truthy; `domains[i % len]` when that entry is truthy; "mail.tm" for an empty list or a falsy entry |
| DebugCreate.Detail | api/debug-create.js:57 | the failed step and attempt; the status is absent exactly after a transport failure; the body is the parsed body when truthy and the raw text otherwise; the fetch error is present exactly when the transport error text is non-empty |
| DebugCreate.FirstDecisive | api/debug-create.js:56-59 | the first attempt whose creation is not retried: every earlier one answered 400, 409 or 422 |
| DebugCreate.DecisiveAt | api/debug-create.js:56-59 | an attempt preceded only by retryable failures and not itself retryable is the deciding one |
| DebugCreate.CreateCallsInOrder | api/debug-create.js:43-54 | the creation requests of n attempts are n requests, the j-th for attempt j's address and password |
| DebugCreate.LoopRequests | api/debug-create.js:43-79 | the loop requests the creations of every attempt up to the deciding one, in order, then at most one token, for the deciding attempt and only after its creation succeeded |
| DebugCreate.CreatesAfterCatalog | api/debug-create.js:32-54 | after the catalog request, attempt j's creation request sits at position j+1 |
| DebugCreate.CreatesInAttemptOrder | api/debug-create.js:40-59 | a run starts with the catalog request; every creation request is attempt j's at position j+1, so there are at most 4 of them, in attempt order |
| DebugCreate.TokenRequestedLast | api/debug-create.js:64-75 | a token is requested at most once, as the last request, for the credentials of the creation just before it, and only after that creation succeeded |
| DebugCreate.AllRetryableExhausts | api/debug-create.js:57-82 | four retryable refusals give 502 all_attempts_failed with the create failure of attempt 3, and no token request |
| DebugCreate.ImmediateFailureStops | api/debug-create.js:56-61 | a non-retryable creation failure, transport failures included, gives 502 create_failed_immediate at once, with no token request |
| DebugCreate.TokenFailureStops | api/debug-create.js:71-75 | a token failure gives 502 token_failed with no further attempt |
| DebugCreate.SucceedsAfterRetries | api/debug-create.js:43-78 | retryable refusals on attempts before n, then creation and token success on n, give 200 with attempt n's address |
| DebugCreate.SuccessfulAddress | api/debug-create.js:44-78 | a 200 reply's address is 12 alphabet characters, '@' and the attempt's domain; token and id are null when the token body lacks them |
| DebugCreate.AttemptAddress | api/debug-create.js:44-46 | the address of attempt i: `randLocal(12)` from that attempt's draws, '@', and the domain the attempt selects |
| DebugCreate.AttemptLoop | api/debug-create.js:40-82 | the loop's reply and requests are those of the first attempt whose creation is not retried (`Decided`), or of exhaustion after 4 |
| DebugCreate.Handle | api/debug-create.js:26-87 | non-GET gives 405 before any request; a GET makes the catalog request, then the loop, and produces exactly the reply and request sequence `Expected` gives; a null catalog member gives 500 |
| Create.Handle | api/create.js:2-21 | non-POST gives 405 method_not_allowed; otherwise a 10-character alphabet login on "1secmail.com", provider "1secmail", and an address that splits into the echoed login and domain |
| Wrappers.Lookup | api/read.js:5 | a query value, header or storage item is present exactly when its key is, and is then the stored value |
| Read.TokenOf | api/read.js:6 | the query token when it is non-empty, otherwise the `x-mail-tm-token` header |
| Read.Handle | api/read.js:3-22 | non-GET gives 405 with no request; 200 exactly when the request was made, the upstream answered 2xx and the body parsed |
| Read.FetchesOnlyWithParams | api/read.js:4-7 | the provider is asked exactly for a GET with a non-empty id and token; otherwise a GET gets 400 missing_params |
| Read.QueryTokenWins | api/read.js:6 | a non-empty query token is used whatever the header says |
| Read.UpstreamMapping | api/read.js:13-21 | non-2xx gives 502 provider_error with the upstream status, and the upstream text as body, null exactly when the text is empty; 2xx with a parsable body gives 200 with the message; 500 read_exception exactly on transport or parse failure |
| Delete.BodyOrNull | api/delete.js:14 | the parsed body when the text parses, null otherwise |
| Delete.Handle | api/delete.js:2-19 | non-POST gives 405 with no request; a POST with a null body throws; the request carries the body's id and token |
| Delete.DeletesOnlyWithParams | api/delete.js:3-6 | the DELETE is sent exactly for a POST whose body has a truthy token and id; otherwise a POST gets 400 |
| Delete.UpstreamMapping | api/delete.js:13-17 | ok true exactly for 204; 200 exactly for a 2xx answer; a non-2xx status passes through with the parsed body or null; a transport failure gives 500 server_error |

## Left out

- DOM work is not modelled: element visibility, `innerHTML` building, the copy button and clipboard, the download as a `.txt` Blob, and the close button. The model keeps what the page shows: the listing, the status line and the viewer.
- The `DOMParser` script/iframe stripping of the HTML body (app.js:182-188) is browser library behaviour. It only affects display, not the OTP input.
- `Client`: each handler runs to completion in one step. The interleaving of overlapping asynchronous fetches is not modelled, so neither is a late inbox answer that arrives after New.
- `Client.Client.FetchInbox`: three throws that a `Summary` cannot express are not modelled. The comparator throws when a message whose `date` is missing or not a string is passed to it as `b`. After app.js:125 has cleared the list, the render loop throws on a null list element (`msg.id`, app.js:127) and on a truthy `from` or `subject` that is not a string (`s.replace` in `escapeHtml`, app.js:264, called from :133-134). In the two render cases the list stays blank rather than showing "No messages.", and the status becomes 'Network error while fetching inbox'. The model's summaries are non-null and carry string fields and a string date.
- `InboxOrder.DateLeq`: `localeCompare` collation is replaced by lexicographic order on character codes. The proofs use only that it is a total preorder.
- `new Date(...).toLocaleString()` in the inbox rows is not modelled. Rows carry the escaped sender and subject only.
- `DebugCreate`: the password `Math.random().toString(36).slice(2, 12)` is float formatting. It is a supplied string per attempt.
- `JsValue.Json`: numbers are carried as the text JavaScript would print for them. Number formatting is not modelled.
- Error message texts (`String(err)`, `e.message`) of transport failures are supplied strings. Two texts thrown by the JavaScript engine itself are dropped: the SyntaxError's wording for a body that does not parse in api/read.js, and the `detail` of api/debug-create.js's 500 `unexpected` reply (:85), which is the TypeError text that reading `m.domain` of a null catalog member throws.
- `console.error` logging (app.js:160, :198, :216; api/read.js:20) is not modelled. It changes nothing the page shows or the handler replies.
- `Read`: Vercel query values that are arrays (a repeated parameter) are not modelled. Query values and headers are single strings.
- `encodeURIComponent`, URL building and the `Authorization` header format are not modelled. Requests record the id and token they carry.
- `setInterval` timing is not modelled. An interval is a handle, and its firing is the `Tick` event.
- `lastIds` is reset by Generate, but app.js never reads it. It is kept as a field with no further role.
- src/App.jsx is not part of this model. It is a React component that displays one fetch result.
- api/message.js and api/messages.js are not part of this model. They are pass-through proxies with a parameter check.
