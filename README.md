# Servirtium Undertow server: the manipulation pipeline

Servirtium is a record-and-replay test double for HTTP integration tests. This
project models the part of its Undertow front end that handles one exchange,
`UndertowServirtiumServer`. Each exchange runs the caller's
`InteractionManipulations` hooks around the interactor's answer, in the same
order whether the interactor is recording or replaying.

- **Outbound** (`prepareHeadersAndBodyForReal`). Every value of every request
  header becomes the line `name: headerReplacement(name, value)`, with the name
  lower-cased when the server lower-cases headers. The line is appended to the
  growing list, and the single-header hook may then change that list. The
  all-headers hook runs after the walk. A text body is pretty-printed, if
  enabled, and then goes through the body hook. A missing body becomes `""`.
  The URL goes through the URL hook.
- **Inbound** (`processHeadersAndBodyBackFromReal`). The response headers are
  walked by index. A `null` from the single-header hook (`None` here) drops a
  header. The all-headers hook runs next, then the body hook on a text body. If
  pretty-printing changes a text body, every header starting with
  `Content-Length` becomes `Content-Length: <new length>`. The revised response
  is noted on the interaction and returned.
- **The exchange** (`handleExchange`). The proxy fix to the request URI, the
  absolute request URL, the CONNECT short-circuit, the split of each response
  header line at its first `": "`, and the two catch blocks. Both catch blocks
  set the session-wide `failed` flag, and `stop` / `finishedScript` report it.

The hooks and the pretty-printer (`prettifyDocOrNot`) are not part of this
model. They are function-valued parameters with no assumed behaviour. A hook
that changes a Java list in place is a function from the list to its new
contents. The interactor is not part of this model either. The `Interactor`
class stands in for it. It answers through a `respond` function of everything
`getServiceResponseForRequest` is handed: the method, the URL, the header lines,
the lower-case setting, and what the interaction holds by then (number, method,
path, URL and the noted request with its body and content type). It keeps
the interactions and end-of-script reports the server hands it, in order.

Files: `strings.dfy` (the Java string operations used), `http.dfy` (values,
hooks, header-line split), `inbound.dfy`, `outbound.dfy`, `exchange.dfy` (one
exchange as a function, `Handled`), `server.dfy` (the classes, with the
imperative methods proved against those functions).

Three behaviours of the code worth noting:
- The Content-Length rewrite matches `startsWith("Content-Length")`, which is
  case-sensitive. A header lower-cased to `content-length` is not rewritten.
- The new length is `String.length()` of the body, a character count, not a
  byte count.
- CONNECT requests are answered by this server itself (status 500) and never
  reach the interactor.

## Model

| member | source | states |
|---|---|---|
| Http.SplitHeader | undertow/src/main/java/com/paulhammant/servirtium/undertow/UndertowServirtiumServer.java:103-106 | The line has no ": " exactly when the split fails (Java throws). Otherwise name + ": " + value rebuilds the line, and the cut is at the first ": ". |
| Http.SplitJoin | undertow/src/main/java/com/paulhammant/servirtium/undertow/UndertowServirtiumServer.java:104-106 | For a name without ": ", splitting name + ": " + value gives back exactly that name and value. |
| Http.SplitAll | undertow/src/main/java/com/paulhammant/servirtium/undertow/UndertowServirtiumServer.java:103-108 | A successful split of the response header lines yields one pair per line. |
| Http.SplitAllMeaning | undertow/src/main/java/com/paulhammant/servirtium/undertow/UndertowServirtiumServer.java:103-108 | Splitting all header lines succeeds iff every line splits. It then yields one pair per line, at the same position. |
| Exchange.SplitResponseHeaders | undertow/src/main/java/com/paulhammant/servirtium/undertow/UndertowServirtiumServer.java:103-108 | The header-writing loop produces the split of every line in order, or fails at the first line without ": ". |
| Strings.IndexOf | undertow/src/main/java/com/paulhammant/servirtium/undertow/UndertowServirtiumServer.java:51 | `indexOf(pat, from)`: -1 iff the pattern occurs nowhere at or after `from`. Otherwise the first such position. |
| Strings.Decimal | undertow/src/main/java/com/paulhammant/servirtium/undertow/UndertowServirtiumServer.java:161 | The rendering of the new length is non-empty, all digits, and has a leading zero only for 0. |
| Strings.DecimalRoundTrip | undertow/src/main/java/com/paulhammant/servirtium/undertow/UndertowServirtiumServer.java:161 | Reading back the rendered digits gives the length itself. |
| Strings.ToLowerKeepsOccurrences | undertow/src/main/java/com/paulhammant/servirtium/undertow/UndertowServirtiumServer.java:211 | Lower-casing a header name neither creates nor removes a ": " (or any non-letter pattern). |
| Inbound.KeepHeaders | undertow/src/main/java/com/paulhammant/servirtium/undertow/UndertowServirtiumServer.java:139-146 | The indexed loop builds exactly `Kept`, the in-order list of non-null hook results. |
| Inbound.Kept | undertow/src/main/java/com/paulhammant/servirtium/undertow/UndertowServirtiumServer.java:139-146 | The surviving headers are never more than the headers that came back. |
| Inbound.KeptIsOrderedSurvivors | undertow/src/main/java/com/paulhammant/servirtium/undertow/UndertowServirtiumServer.java:139-146 | A header whose hook result is null is absent. Every other header contributes its hook result exactly once, in original relative order. |
| Inbound.KeptAll | undertow/src/main/java/com/paulhammant/servirtium/undertow/UndertowServirtiumServer.java:140-146 | A hook that returns every header unchanged keeps the list as it is: same length, same order, duplicates kept. |
| Inbound.Rewritten | undertow/src/main/java/com/paulhammant/servirtium/undertow/UndertowServirtiumServer.java:158-166 | The Content-Length rewrite keeps the number of header lines. |
| Inbound.RewriteContentLengths | undertow/src/main/java/com/paulhammant/servirtium/undertow/UndertowServirtiumServer.java:158-166 | The loop that builds `tmp` produces exactly the rewritten header list. |
| Inbound.RewrittenPointwise | undertow/src/main/java/com/paulhammant/servirtium/undertow/UndertowServirtiumServer.java:158-166 | The rewrite keeps count and order. Each header starting with "Content-Length" becomes "Content-Length: " + length; every other header is untouched. |
| Inbound.ContentLengthLineReadsBack | undertow/src/main/java/com/paulhammant/servirtium/undertow/UndertowServirtiumServer.java:161 | The rewritten line still starts with "Content-Length", splits into that name and the decimal length, and the value reads back as the length. |
| Inbound.RewriteIdempotent | undertow/src/main/java/com/paulhammant/servirtium/undertow/UndertowServirtiumServer.java:158-166 | Rewriting again with the same length changes nothing. |
| Inbound.Revised | undertow/src/main/java/com/paulhammant/servirtium/undertow/UndertowServirtiumServer.java:138-171 | Only headers and body are revised: status and content type are kept, a binary body is untouched, and a text body becomes the body hook's result, pretty-printed when pretty-printing is on (whether or not that changes it). |
| Inbound.RevisedContentLength | undertow/src/main/java/com/paulhammant/servirtium/undertow/UndertowServirtiumServer.java:149-171 | The rewrite happens only for a text body that the pretty-printer changed. Then each Content-Length header states the new body's length, other headers are untouched, and count and order are kept. Otherwise the headers are those the all-headers hook returned. |
| Inbound.NoOpRevisionIsIdentity | undertow/src/main/java/com/paulhammant/servirtium/undertow/UndertowServirtiumServer.java:140-171 | With identity hooks and no pretty-print change, the revised response equals the one that came back. |
| Outbound.OutboundHeadersAreLines | undertow/src/main/java/com/paulhammant/servirtium/undertow/UndertowServirtiumServer.java:207-217 | With a single-header hook that leaves the list alone, the all-headers hook is given exactly one line per header value, header by header, in order. |
| Outbound.AssembleHeaders | undertow/src/main/java/com/paulhammant/servirtium/undertow/UndertowServirtiumServer.java:207-217 | The nested walk over header names and values, with both hooks, produces exactly `OutboundHeaders`. |
| Outbound.AddValuesAppends | undertow/src/main/java/com/paulhammant/servirtium/undertow/UndertowServirtiumServer.java:209-214 | With a single-header hook that leaves the list alone, each value of a header appends its own line `name': replaced value`, in order. |
| Outbound.AddHeadersAppends | undertow/src/main/java/com/paulhammant/servirtium/undertow/UndertowServirtiumServer.java:207-215 | With that hook, the list grows by one line per header value, header by header, in order. |
| Outbound.HeaderLineSplits | undertow/src/main/java/com/paulhammant/servirtium/undertow/UndertowServirtiumServer.java:210-211 | A built line splits back into the name (lower-cased iff the flag is set) and the value after `headerReplacement`. |
| Outbound.RequestBody | undertow/src/main/java/com/paulhammant/servirtium/undertow/UndertowServirtiumServer.java:183-225 | No body is noted as "" without going through the body hook. A binary body is untouched. A text body becomes the body hook's result on the text, pretty-printed first when pretty-printing is on. The result is text exactly when the input was text or absent. |
| Exchange.ProxyUri | undertow/src/main/java/com/paulhammant/servirtium/undertow/UndertowServirtiumServer.java:49-52 | As written: a relative URI is kept. An absolute one is cut where `url.indexOf("/", 7)` points: the result is exactly `uri` from that index on, and the cut fails iff that index is -1 or past the end of the URI. |
| Exchange.ProxyUriKeepsHttpsHost | undertow/src/main/java/com/paulhammant/servirtium/undertow/UndertowServirtiumServer.java:50-51 | For "https://h/p" the as-written cut gives "/h/p"; the corrected one gives "/p". |
| Exchange.PathOfProxyUri | undertow/src/main/java/com/paulhammant/servirtium/undertow/UndertowServirtiumServer.java:49-52 | Corrected cut: the "/" is searched for past the whole scheme (8 for https, 7 for http), and the result is exactly `uri` from that index on; fails iff that index is -1 or past the end of the URI. |
| Exchange.PathOfProxyUriIsPath | undertow/src/main/java/com/paulhammant/servirtium/undertow/UndertowServirtiumServer.java:49-52 | For an absolute URI equal to the URL, the corrected cut leaves exactly the path. It starts with "/"; what was cut off is the scheme plus an authority with no "/". |
| Exchange.PathOfProxyUriAgreesOnHttp | undertow/src/main/java/com/paulhammant/servirtium/undertow/UndertowServirtiumServer.java:51 | On http URLs the corrected and as-written cuts agree. |
| Exchange.RequestUrl | undertow/src/main/java/com/paulhammant/servirtium/undertow/UndertowServirtiumServer.java:49-54 | The URL is missing exactly when the URI cut at :51 throws. Otherwise it is absolute: the request URL if already absolute, else "http://" + host and port + the cut URI. |
| Exchange.NormaliseUrl | undertow/src/main/java/com/paulhammant/servirtium/undertow/UndertowServirtiumServer.java:54 | The URL afterwards starts with http:// or https://. It is the URL unchanged when already absolute, else "http://" + host and port + URI. |
| Exchange.Handled | undertow/src/main/java/com/paulhammant/servirtium/undertow/UndertowServirtiumServer.java:41-136 | The exchange is rejected exactly when the URI cut at :51 throws, refused exactly for a CONNECT request past it, and it fails or is served only when it got past both. |
| Exchange.AfterUpstream | undertow/src/main/java/com/paulhammant/servirtium/undertow/UndertowServirtiumServer.java:95-133 | An AssertionError and any other Throwable end the exchange with their message. An answer is revised, and it is served exactly when every revised header line splits at ": " (otherwise it stops at the malformed line); a served exchange's pairs are the split of its header lines. Every outcome but a served answer fails. |
| Exchange.ConnectShortCircuit | undertow/src/main/java/com/paulhammant/servirtium/undertow/UndertowServirtiumServer.java:61-66 | A CONNECT request is refused without failing, and the outcome is the same whatever the interactor would answer: it is never asked. |
| Exchange.HandledAsksInteractor | undertow/src/main/java/com/paulhammant/servirtium/undertow/UndertowServirtiumServer.java:68-99 | Past the URI cut and the CONNECT test, the outcome is the one the interactor's answer leads to. The interactor is asked with the hooked URL and the request header lines, and is handed an interaction holding the number, the method, the path as :51 cuts it, the URL and the noted request. |
| Exchange.ServedWireMatchesHeaders | undertow/src/main/java/com/paulhammant/servirtium/undertow/UndertowServirtiumServer.java:97-108 | A served exchange writes one name/value pair per revised header line, in order, each joining back into its line. |
| Exchange.NoOpExchangeServesUpstream | undertow/src/main/java/com/paulhammant/servirtium/undertow/UndertowServirtiumServer.java:92-108 | With no-op hooks and a pretty-printer that leaves the response body as it is, the interactor gets one plain line per header value. The client is served the interactor's response unchanged. |
| Server.Interaction.NoteClientRequestHeadersAndBody | undertow/src/main/java/com/paulhammant/servirtium/undertow/UndertowServirtiumServer.java:227 | The interaction holds exactly the noted request headers, body and content type; its response is unchanged. |
| Server.Interaction.NoteResponseHeadersAndBody | undertow/src/main/java/com/paulhammant/servirtium/undertow/UndertowServirtiumServer.java:173 | The interaction holds exactly the noted response; its request is unchanged. |
| Server.Interactor.NewInteraction | undertow/src/main/java/com/paulhammant/servirtium/undertow/UndertowServirtiumServer.java:68 | A fresh interaction holding the given method, path, number and URL, with nothing noted yet. |
| Server.Interactor.GetServiceResponseForRequest | undertow/src/main/java/com/paulhammant/servirtium/undertow/UndertowServirtiumServer.java:95 | The interaction must have its request noted. The answer is the responder's for the method, the URL, the request header lines, the lower-case setting, and the interaction's number, method, path, URL and noted request. |
| Server.Interactor.AddInteraction | undertow/src/main/java/com/paulhammant/servirtium/undertow/UndertowServirtiumServer.java:99 | The interaction is appended to those handed over so far. |
| Server.Interactor.FinishedScript | undertow/src/main/java/com/paulhammant/servirtium/undertow/UndertowServirtiumServer.java:239 | The (count, failed) report is appended to those received so far. |
| Server.UndertowServer.constructor | undertow/src/main/java/com/paulhammant/servirtium/undertow/UndertowServirtiumServer.java:27-32 | `failed` starts false. |
| Server.UndertowServer.ProcessHeadersAndBodyBackFromReal | undertow/src/main/java/com/paulhammant/servirtium/undertow/UndertowServirtiumServer.java:138-176 | Returns `Revised` of the real response. The headers, body, status and content type noted on the interaction are exactly those returned. |
| Server.UndertowServer.PrepareHeadersAndBodyForReal | undertow/src/main/java/com/paulhammant/servirtium/undertow/UndertowServirtiumServer.java:178-230 | Returns the assembled header lines and the URL through the URL hook. The interaction notes those lines, `RequestBody` and the content type. |
| Server.UndertowServer.HandleExchange | undertow/src/main/java/com/paulhammant/servirtium/undertow/UndertowServirtiumServer.java:41-136 | Bumps the interaction number and ends in `Handled`'s outcome. `failed` is old `failed` or an error path, never reset. An interaction is added iff a response came back; it holds the number, the method, the path as :51 cuts it, the absolute URL, the sent request and the revised response. |
| Server.UndertowServer.Interact | undertow/src/main/java/com/paulhammant/servirtium/undertow/UndertowServirtiumServer.java:68-99 | The outcome is the one the interactor's answer leads to: the answer to the hooked URL and header lines, for an interaction holding the number, method, path, URL and noted request. `failed` is set exactly on the error paths. An interaction is added iff a response came back, with the given path and URL, the sent request and the revised response noted on it. |
| Server.UndertowServer.AskInteractor | undertow/src/main/java/com/paulhammant/servirtium/undertow/UndertowServirtiumServer.java:68-93 | A fresh interaction holds the number, method, path and URL, and the request as the pipeline sent it on. The answer is the interactor's to the hooked URL and the request header lines, for an interaction holding all of that. |
| Server.UndertowServer.HandleUpstream | undertow/src/main/java/com/paulhammant/servirtium/undertow/UndertowServirtiumServer.java:95-133 | An answer is revised, noted, added and split. An AssertionError, another Throwable or an unsplittable header line sets `failed`. |
| Server.UndertowServer.Stop | undertow/src/main/java/com/paulhammant/servirtium/undertow/UndertowServirtiumServer.java:237-243 | The interactor receives the current interaction number and the current `failed`. |
| Server.UndertowServer.FinishedScript | undertow/src/main/java/com/paulhammant/servirtium/undertow/UndertowServirtiumServer.java:245-247 | The interactor receives the current interaction number and the current `failed`. |

## Findings

| source | as written | input that shows it | evidently intended | confidence | as-written member | corrected member |
|---|---|---|---|---|---|---|
| undertow/src/main/java/com/paulhammant/servirtium/undertow/UndertowServirtiumServer.java:51 | `uri.substring(url.indexOf("/", 7))`. Position 7 is past "http://" but is the second "/" of "https://". | a proxy request whose URI and URL are both "https://h/p": the path becomes "/h/p" | cut past the whole scheme, giving the path "/p" | medium, not executed | Exchange.ProxyUriKeepsHttpsHost | Exchange.PathOfProxyUriIsPath |

`Exchange.ProxyUri` models line 51 as written, and `Handled` and
`HandleExchange` use it, so the model of the exchange keeps the host in the
path of an https proxy request as the code does. `Exchange.PathOfProxyUri` is
the corrected cut, with its own properties proved. Both versions take the index
from `url` and cut `uri`, as line 51 does. On http URLs the two agree
(`Exchange.PathOfProxyUriAgreesOnHttp`).

## Left out

- Undertow server construction, `start`, the listener and the `BlockingHandler`
  thread model: network plumbing and concurrency.
- Reading the request input stream (availability, charset, `Scanner`). The body
  arrives already read as `Request.body`, with `None` when nothing was
  available.
- Writing to the exchange: status code, response headers, Content-Type and the
  body bytes, plus the fixed 500 texts of the CONNECT and catch paths. `Outcome`
  records which path was taken.
- `ServerMonitor` callbacks: logging side effects.
- The hooks and `prettifyDocOrNot`: uninterpreted, no assumed behaviour. A hook
  or the pretty-printer throwing is not modelled. Only the URI cut, the
  interactor's answer and the split of a response header line can throw.
- The interactor, its `Interaction`, the Markdown recorder/replayer and the
  script codec are not part of this model. The stand-in classes record the
  calls the server makes. `getContext` is left out.
- `MarkdownReplayerTest` checks the replayer, which is not part of this model.
- `bumpInteractionNum` / `getInteractionNum` belong to the superclass, which is
  not part of this model. The counter is a field bumped by one per exchange,
  with its start value a constructor argument.
- Undertow's case-insensitive lookup of the request Content-Type and
  `getFirst` are left out. The front end passes that value as
  `Request.contentType`.
- Strings.ToLower: covers ASCII letters only, not Java's locale-aware,
  full-Unicode `toLowerCase`.
- Inbound.ContentLengthLine: uses the body's length in Dafny characters. Java's
  `length()` counts UTF-16 code units, so it differs for characters outside the
  Basic Multilingual Plane.
- Exchange.PathOfProxyUri: the corrected cut is not wired into the exchange;
  `Handled` and `HandleExchange` follow line 51 as written.
- A `null` response body (which Java would fail to write) is not modelled.
  Bodies are text or bytes.
