# Alert relay endpoint: cooldown gate

A model of the `POST /api/alert` handler of a speed-alert relay. The handler
takes a speed-violation report (street, coordinates, speed), turns it into a
fixed-template alert text and hands it to a messaging provider. A single
process-wide timestamp, `lastMessageTimestamp`, gates the provider call: a
request that arrives less than the cooldown (the literal `10 * 1000` ms,
named `ONE_MINUTE` in the code) after the last successful send is rejected
with status 429. The timestamp is set to the request's own arrival time when
the provider call returns, and left alone when it throws (status 500).

The model lives in module `AlertServer` (`alert_server.dfy`), with the
`Option` type in module `Wrappers` (`wrappers.dfy`):

- `ModeAt` is the gate as a two-state machine (Idle, Cooling). It keeps the
  handler's JavaScript truthiness test: a stored timestamp of `0` counts as
  unset. It also keeps the signed comparison, so a clock that went backwards
  reads as Cooling.
- `AlertText` is the outbound message template, and `AlertTextLayout` states
  where each part sits in it. The fields are not escaped.
- `Handle` is one request against the stored timestamp. It yields the new
  timestamp, the response (`RateLimited`, `Sent(reply)`, `Failed`) and the
  text handed to the provider, if the provider was called.
- `LastAfter` and `ResponseAt` run a sequence of requests one after another.
  The lemmas about them state what holds over a whole run.
- `AlertEndpoint` is the handler with its mutable field. Its `Submit` method
  follows the source step by step. Ghost fields record the requests handled so
  far and the texts dispatched. `Valid()` ties the field to `LastAfter` over
  that history.

The current time and the provider's outcome are parameters. `now` is an
integer number of milliseconds. The outcome is `Returned(reply)` or `Threw`.
`fetch` resolves for every HTTP status, so any reply counts as sent.

## Model

| member | source | states |
|---|---|---|
| `AlertServer.ModeAt` | src/routes/api/alert/+server.ts:11-20 | An unset timestamp or a stored `0` leaves the gate Idle. A stored non-zero `t` makes it Idle exactly when `t + 10000 <= now`. So the boundary passes, and a `now` before `t` is Cooling. |
| `AlertServer.IdleIsMonotone` | src/routes/api/alert/+server.ts:20 | With the stored timestamp unchanged, a gate that is open at `now` is open at every later time. |
| `AlertServer.AlertTextLayout` | src/routes/api/alert/+server.ts:32 | The alert text is the fixed lead, then the street verbatim, then `", coordinates: `, the coordinates verbatim, then ` at `, the speed verbatim, and `km/h.`. Each part is stated at its own offsets, and the length is the sum of the parts. |
| `AlertServer.AlertTextIsAmbiguous` | src/routes/api/alert/+server.ts:32 | No escaping: two different reports can produce the same alert text. |
| `AlertServer.Response.Status` | src/routes/api/alert/+server.ts:21-42 | A rate-limited response has status 429, a sent one 200 and a failed one 500, and no other pairing occurs. |
| `AlertServer.Response.Body` | src/routes/api/alert/+server.ts:21-42 | Only a sent response has a success body: the message `SMS sent successfully` with the provider's reply. A rate-limited response carries the error `You must wait 1 minute between SMS messages`, and a failed one `Failed to send SMS`. |
| `AlertServer.Handle` | src/routes/api/alert/+server.ts:17-43 | A request is rate-limited exactly when the gate is Cooling. It then leaves the timestamp unchanged and calls no provider. Otherwise it dispatches exactly the alert text. It is `Sent` with the provider's reply exactly when the call returned, and it then stores the request's arrival time. It is `Failed` exactly when the call threw, and the timestamp is then unchanged. |
| `AlertServer.RetryAfterFailure` | src/routes/api/alert/+server.ts:20-42 | After a failed send, a request at any time not before it passes the gate and calls the provider. |
| `AlertServer.RejectWithinCooldown` | src/routes/api/alert/+server.ts:17-37 | After a send stored as a non-zero time `t`, a request arriving before `t + 10000` is rate-limited. It makes no provider call and `t` stays stored. |
| `AlertServer.NeverUnset` | src/routes/api/alert/+server.ts:11-37 | Once a timestamp is stored, no sequence of requests unsets it again. |
| `AlertServer.OnlySendsWrite` | src/routes/api/alert/+server.ts:36-37 | After any sequence of requests, the stored timestamp is either its initial value or the arrival time of a request that was sent. |
| `AlertServer.LatestSend` | src/routes/api/alert/+server.ts:20-37 | After a sent request `i`, the timestamp seen by any later request `j` is the arrival time of the latest sent request `k` with `i <= k < j`: no request between `k` and `j` was sent. |
| `AlertServer.SendsAreSpaced` | src/routes/api/alert/+server.ts:12-37 | Take any two sent requests in a run. Suppose no sent request from the first up to the second arrived at time 0. Then their arrival times differ by at least 10000 ms. This holds even if the clock goes backwards. |
| `AlertServer.AlertEndpoint.constructor` | src/routes/api/alert/+server.ts:10-11 | At process start no timestamp is stored. |
| `AlertServer.AlertEndpoint.Submit` | src/routes/api/alert/+server.ts:14-43 | One request updates the field and the response exactly as `Handle` does on the recorded history. A rejected request dispatches nothing. A request that passes dispatches exactly its alert text once. The field becomes `now` only on a returned call. |

## Left out

- The provider call itself: the Telegram Bot API `fetch`, its URL, headers and JSON body. It is network I/O. The `outcome` parameter stands in for it.
- Parsing the request body. It is JSON and I/O, and a parse error escapes the handler. The three fields are taken as strings.
- `Date.now()`. It is a clock, so `now` is an integer parameter. The model has no fractional or NaN times.
- Reading the bot token and chat id from the environment. This is configuration and does not affect the gate.
- The framework's `json` response helper and the error logging. Responses are the `Response` datatype, with `Status` and `Body`.
- Concurrent requests. The unsynchronised read-check-write on the timestamp is not modelled. Requests are sequential calls on one `AlertEndpoint`.
- JavaScript's conversion of `speed` and `coordinates` to text inside the template. The fields are treated as already-formatted strings.
- `AlertServer.Response.Body`: the success body carries the provider's reply as a value. The handler serialises the `fetch` Response object, which has no own enumerable fields, so the `response` field actually sent back is `{}`.
- The 429 error text says "1 minute" while the cooldown is 10000 ms. Both are kept as the code has them.
