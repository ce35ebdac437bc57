# "Move your car" notification relay: a Dafny model

This project models `worker.js`, an edge worker. A visitor who finds a parked
car can ask the worker to push a "please move your car" message to the owner
through a push-notification provider (WxPusher). The model covers:

- the router: `/sendNotification` goes to the relay, and every other path gets the informational page;
- the relay `handleNotificationRequest`, whose guards run in a fixed order:
  1. HTTP method;
  2. `Origin` header;
  3. per-client rate limit;
  4. configuration;

  after the guards, the relay maps the provider's answer to a `{success, message}` JSON body;
- the fixed-window rate limiter `allowRequest`. It is a process-wide map from client identifier to `{count, resetAt}`: at most 3 requests per 60 000 ms window;
- the helpers `getClientIp` (picks the limiter key from `CF-Connecting-IP` or `X-Forwarded-For`) and `parseUids` (reads the comma-separated recipient list);
- the two JavaScript built-ins those helpers use: `String.prototype.trim` and `split(",")`.

Modules:

- `Wrappers`: `Option`.
- `Text`: `Trim`, `Split` and `Join`, with their characterisations:
  - `Trim` returns the unique trimmed piece of a string that has only whitespace around it;
  - `Split` and `Join` undo each other;
  - splitting at a comma concatenates the fields of the two sides.
- `Parsing`: `GetClientIp` and `ParseUids`.
- `RateLimit`:
  - `Consult` is the limiter step on the store as a value;
  - `Run` applies that step to a sequence of call instants;
  - the class `RateLimiter` holds the mutable store, and its `Allow` method is proved equal to `Consult`.
- `Relay`:
  - `Respond` is the handler on values;
  - `HandleNotificationRequest` is the imperative handler, with early returns and the in-place limiter call, proved equal to `Respond`;
  - `Fetch` is the router.

Inputs that the original code reads from its environment become parameters:

- the clock reading `now` (from `Date.now()`);
- the request path and the worker's own origin (from `new URL(request.url)`);
- the header values, as `Option<string>`;
- the environment bindings, as `Option<string>`;
- the provider's answer, as `ProviderOutcome`, which is one of:
  - `NetworkError`: the call threw;
  - `ParseFailed`: the body was not JSON;
  - `Parsed(code, message)`.

The JSON payload the worker would post to the provider is an output (`sent`). So the model also states when the provider is called, and with which token, text, content type and recipients.

Four behaviours of the code are worth spelling out, because they are easy to misread:

- **Guard order for "not configured".** The configuration check runs only after the method, origin and rate-limit checks. A misconfigured worker still answers 403 to a foreign origin and 429 to a client over its limit. Each 500 answer to a client with a non-empty identifier also uses up a limiter slot (`Relay.MisconfiguredRequestsStillCount`).
- **Empty `Origin` header.** The origin check tests JavaScript truthiness. An `Origin` header that is present but empty is therefore accepted, like a missing one (`Relay.ForeignOrigin`).
- **Clients without an identifier.** A request with no usable `CF-Connecting-IP` or `X-Forwarded-For` is never rate limited. The handler skips the limiter when the identifier is the empty string.
- **The window includes its end instant.** Expiry is tested with `now > resetAt`, so four calls at 0, 1, 2 and 60000 ms get the fourth denied (`RateLimit.WindowEndInclusive`). What the limiter does guarantee is proved as `RateLimit.RollingWindowAllowed`. A client whose calls come in time order is never denied, as long as no four of them lie within one closed 60000 ms span and it starts with no open window.

## Model

| member | source | states |
|---|---|---|
| `Text.TrimStart` | worker.js:108 | The result is a suffix of the input; everything removed is whitespace; the result does not start with whitespace |
| `Text.TrimEnd` | worker.js:108 | The result is a prefix of the input; everything removed is whitespace; the result does not end with whitespace |
| `Text.Trim` | worker.js:108 | The result of `trim()` has no whitespace at either end, and it occurs in the input surrounded only by whitespace |
| `Text.TrimUnique` | worker.js:130 | Any trimmed piece of `s` that has only whitespace around it is exactly `Trim(s)`, so `Trim` is fully determined by its contract |
| `Text.TrimIdempotent` | worker.js:130 | Trimming an already trimmed string changes nothing |
| `Text.FirstComma` | worker.js:108 | Gives the index of the first comma, or the length when there is none; no comma occurs before it |
| `Text.Split` | worker.js:129 | `split(",")` always yields at least one field, and no field contains a comma |
| `Text.JoinSplit` | worker.js:129 | Joining the fields of `s` with commas gives back `s` |
| `Text.SplitJoin` | worker.js:129 | Splitting a comma-join of one or more comma-free fields gives back exactly those fields |
| `Text.SplitConcat` | worker.js:129 | `Split(a + "," + b)` is the fields of `a` followed by the fields of `b` |
| `Text.SplitNoComma` | worker.js:129 | A string without commas is a single field |
| `Parsing.FirstField` | worker.js:108 | `split(",")[0]` is a comma-free prefix of its input, followed by a comma or by the end of the input |
| `Parsing.GetClientIp` | worker.js:103-109 | A truthy `CF-Connecting-IP` is returned as is. Otherwise: an absent or empty `X-Forwarded-For` gives `""`; a non-empty one gives its first entry, trimmed and comma-free |
| `Parsing.ForwardedForFirstEntry` | worker.js:106-108 | For `X-Forwarded-For` = whitespace + `ip` + whitespace + `,` + anything, the client identifier is exactly `ip`. This includes an empty first entry (`",rest"` gives `""`, which skips the limiter). The same holds for a single entry when `CF-Connecting-IP` is empty |
| `Parsing.OrEmpty` | worker.js:8 | JavaScript's "or empty string" default on a string-or-null: the value when present, `""` for null |
| `Parsing.Truthy` | worker.js:105 | A string-or-null is truthy exactly when its "or empty string" default is non-empty, and then it is present |
| `Parsing.NonEmpty` | worker.js:131 | `filter(Boolean)` keeps exactly the non-empty strings: every element kept is non-empty and taken from the input, and every non-empty input element is kept |
| `Parsing.NonEmptyOne` | worker.js:131 | One element is kept exactly when it is non-empty. Together with `NonEmptyConcat` this fixes the result and its order |
| `Parsing.NonEmptyConcat` | worker.js:131 | Filtering a concatenation gives the filtered parts, concatenated in order |
| `Parsing.MapAll` | worker.js:130 | `map(f)` keeps the length and puts `f(parts[k])` at position `k` |
| `Parsing.ParseUids` | worker.js:125-132 | An empty configuration gives no recipients; every recipient returned is non-empty, trimmed and comma-free |
| `Parsing.FieldsWellFormed` | worker.js:128-131 | Every element of the split-trim-filter pipeline is non-empty, trimmed and comma-free |
| `Parsing.TrimmedFields` | worker.js:130 | Trimming each of a list of comma-free fields gives fields that are trimmed and comma-free |
| `Parsing.NonEmptyKeeps` | worker.js:131 | Every element `filter(Boolean)` keeps is non-empty and has every property all input elements share |
| `Parsing.ParseUidsGuardRedundant` | worker.js:126 | The early `if (!raw) return []` agrees with the general pipeline on every input |
| `Parsing.ParseUidsConcat` | worker.js:128-131 | The recipients of `a,b` are those of `a` followed by those of `b`, in order |
| `Parsing.ParseUidsSingleField` | worker.js:128-131 | A comma-free field yields its trimmed text, or nothing when that is empty |
| `Parsing.ParseUidsOne` | worker.js:128-131 | A well-formed identifier parses to the one-element list of itself |
| `Parsing.ParseUidsJoin` | worker.js:128-131 | Comma-joining a list of non-empty, trimmed, comma-free identifiers and parsing it back gives the same list, in the same order |
| `RateLimit.Consult` | worker.js:111-123 | Keeps every count in `1..3`; only the caller's entry can change. The call is denied exactly when the caller's window is open (`now <= resetAt`) with count at least 3, and then the store is unchanged. Otherwise it is allowed: a missing or expired entry becomes `{1, now + 60000}`, and an open one gains exactly 1 with `resetAt` kept |
| `RateLimit.RunInWindow` | worker.js:113-122 | Calls at instants up to the end of an open window are allowed until the count reaches 3 and denied afterwards. The window end never moves, and the count stops at 3 |
| `RateLimit.FreshWindow` | worker.js:111-123 | For a client with no entry or an expired one, among the calls up to the end of the window its first call opens, exactly the first three are allowed |
| `RateLimit.FourthCallDenied` | worker.js:111-123 | With the limit of 3 and the 60000 ms window (worker.js:1-2), four calls inside one window answer allowed, allowed, allowed, denied |
| `RateLimit.SpacedAllowed` | worker.js:113-122 | Take a valid store and non-decreasing call instants. Suppose every call that would exceed the current window's allowance comes after that window ends, and no four calls fall within one closed 60000 ms span. Then every call is allowed |
| `RateLimit.RollingWindowAllowed` | worker.js:111-123 | Take a client with no open window and non-decreasing call instants, where no four instants lie within one closed span of 60000 ms. None of its calls is denied |
| `RateLimit.WindowEndInclusive` | worker.js:114 | A call exactly 60000 ms after the call that opened the window is still inside it: calls at 0, 1, 2 and 60000 give allowed, allowed, allowed, denied |
| `RateLimit.RateLimiter.constructor` | worker.js:3 | The shared store starts empty and valid |
| `RateLimit.RateLimiter.Allow` | worker.js:111-123 | The in-place update keeps every count in `1..3`. Its verdict and new store equal `Consult` on the old store: a reset window, an unchanged store on denial, or an increment by one |
| `Relay.ProviderResponse` | worker.js:74-99 | Always 200 with a JSON body. Success exactly when the provider's parsed answer has code 1000, and then no message. Otherwise failure carrying the provider's message if it is truthy, else the fallback text. A parse failure gives the fallback text; a network error gives the network-error text |
| `Relay.ForeignOrigin` | worker.js:36 | The origin guard fires exactly when the `Origin` value differs from both `""` and the worker's own origin. An absent, empty or matching `Origin` never fires it |
| `Relay.Limit` | worker.js:44 | An empty client identifier skips the limiter and leaves the store alone; any other identifier consults it |
| `Relay.Respond` | worker.js:25-101 | The full response is given in every guard case. A non-POST request gets 405 with `Allow: POST` and the body "Method Not Allowed". A truthy foreign `Origin` gets the JSON 403. Neither of these touches the limiter or calls the provider. Otherwise the limiter is consulted (for a non-empty identifier), and a denial gives the JSON 429 with its message. Past the limiter, an empty token or recipient list gives the JSON 500 with its message. Each of 405 and 403 is answered exactly when its guard fires. The provider is called exactly when every guard passes (POST, no foreign origin, allowed by the limiter, token and recipients set), and only then, with the configured token, the fixed text, content type 1 and the parsed recipients, and the answer is `ProviderResponse` of its outcome |
| `Relay.MisconfiguredRequestsStillCount` | worker.js:43-60 | With the worker unconfigured, three requests from one client inside a window get 500, yet each uses up a slot, so the fourth gets 429 |
| `Relay.HandleNotificationRequest` | worker.js:25-101 | The imperative handler, with early returns and the in-place limiter call, keeps the limiter valid. Its response, new store and provider payload are those of `Respond` on the old store |
| `Relay.Fetch` | worker.js:5-23 | `/sendNotification` (exact match) is handled by the relay. Any other path gets the page with status 200, content type `text/html;charset=UTF-8` and the configured phone number (empty when unset), without touching the limiter |

## Left out

- The informational page and its client-side script (`handleHtmlPage`, worker.js:134-386). These are presentation, DOM code and timers. The page is represented only by the phone number it embeds (`Body.Page`).
- The outbound `fetch` to the provider and `response.json()` (worker.js:63-79). These are network I/O and a foreign JSON parser. The body they would send is the `sent` output; what comes back is the `ProviderOutcome` input. A JSON answer whose `code` or `message` is missing, or that is `null`, is represented by `Parsed` with `None` fields.
- Relay.ProviderResponse: a truthy `message` that is not a string (for example `{"code":1001,"message":5}`) is passed through by the code (worker.js:89). The model's `message` is a string or nothing, so such an answer is not represented. A non-numeric `code` differs from 1000 in the code too, so `Parsed(None, …)` covers it.
- `Date.now()` (worker.js:112) is the `now` parameter. `new URL(...)` (worker.js:11, 35) is replaced by the given `path` and `expectedOrigin` strings.
- `console.error` logging.
- The router's `try/catch` that answers 500 (worker.js:18-21): the model has no exceptions. The handler's own `catch` (worker.js:94-100) is modelled only for its real source, the provider call failing (`NetworkError`).
- The `Array.isArray` branch of `parseUids` (worker.js:127): environment bindings are strings in this model.
- Header lookup is case-insensitive in the platform. The model receives the values already looked up.
- Platform-default response headers (such as the content type the runtime adds to the plain-text 405 body) are not modelled.
- The limiter entry is a JavaScript object mutated in place (`current.count += 1`). It is reachable only through the map, so the model stores it as a value and replaces the map entry. There is no aliasing to model.
- Concurrency across isolates: the code assumes single-threaded access to the store, and the model is sequential.
- Numbers: JavaScript timestamps are doubles. `now + 60000` is exact for real clock readings, so the model uses unbounded integers.
- Strings: JavaScript strings are UTF-16. The model's strings are sequences of Unicode scalar values, so a lone surrogate cannot be represented. `trim` strips the ECMAScript WhiteSpace and LineTerminator code points, listed in `Text.IsWhitespace`.
