# dp-maps-api proxy core, modelled in Dafny

This project models the request and response rewriting of the dp-maps-api gateway, which
forwards map requests to the Ordnance Survey API (`api/os_proxy.go`):

- the **director** (`OsProxy.Direct`, on the class `OsProxy.Request`) retargets an inbound
  request at the upstream host. It sets scheme, host and `Host`, merges the fixed upstream
  query with the inbound one (`OsProxy.MergeQuery`), forces a `User-Agent`, injects the `key`
  credential (stored under its canonical name `Key`) and drops `Accept-Encoding` when a response modifier is configured;
- the **response modifiers** are the datatype `OsProxy.Modifier`. `Custom` is any
  caller-supplied modifier, `StringReplace` is `StringReplaceResponseModifier` and `Cache`
  is `CacheModifier`. `OsProxy.Run` is their meaning as a function of the response state.
  `OsProxy.Modify` applies one in place to the class `OsProxy.Response` and is proved equal
  to `Run`. The lemmas cover parent-first ordering, short-circuit on a parent's failure,
  the `Cache-Control: max-age=<seconds>` directive and the body rewrite;
- the **body rewrite** is `Replace.ReplaceAll`, Go's `bytes.Replace(body, from, to, -1)`
  over bytes. It scans from a start offset, as Go's loop does (`Replace.ReplaceFrom`). It is
  characterised through `Replace.IndexOf`, which is Go's `bytes.Index`: keep what precedes
  the first occurrence, emit the replacement, then continue after the occurrence;
- the **max-age rendering** is `Decimal.DecimalString`, proved to round-trip through
  `Decimal.DecimalValue`.

Files: `wrappers.dfy` (Option), `header.dfy` (module `HttpHeader`: header map `Set`/`Del`), `decimal.dfy`,
`replace.dfy`, `os_proxy.dfy`.

## Model

| member | source | states |
|---|---|---|
| `HttpHeader.Set` | api/os_proxy.go:38-42 | after `Header.Set(k, v)` the key holds exactly `[v]`, and every other key keeps its values |
| `HttpHeader.Del` | api/os_proxy.go:43-45 | after `Header.Del(k)` the key is absent, and every other key keeps its values |
| `OsProxy.MergeQuery` | api/os_proxy.go:33-37 | the merged query starts with the target query and ends with the inbound query. Its length is their sum plus one exactly when both are non-empty, and then the extra character between them is `&` |
| `OsProxy.Direct` | api/os_proxy.go:25-46 | scheme and host become the target's, `Host` equals the target host, path is untouched and the query is the merge. An absent `User-Agent` becomes `[""]` and a present one is unchanged. `key` is exactly `[apiKey]`. `Accept-Encoding` is removed iff a response modifier was supplied, otherwise unchanged. Every other header is unchanged |
| `OsProxy.Modify` | api/os_proxy.go:67-107 | running a modifier in place leaves the response and the returned error exactly as `Run` specifies |
| `OsProxy.CacheParentFails` | api/os_proxy.go:70-74 | when the parent fails, the cache modifier returns the parent's identical error and the parent's response, with no `Cache-Control` of its own |
| `OsProxy.CacheAfterSuccess` | api/os_proxy.go:76-80 | with no parent or a succeeding one: success, a non-nil header map with `Cache-Control` = `["max-age=" + maxAge]`, the parent's body, and every other header as the parent left it (none if the map was nil) |
| `OsProxy.ReplaceReadError` | api/os_proxy.go:96-99 | a body read error is returned as is, and the response (body included) is left unchanged |
| `OsProxy.ReplaceRewritesBody` | api/os_proxy.go:102-105 | on a readable body: success, headers untouched, and the body replaced by `Replace.ReplaceAll(body, from, to)` |
| `OsProxy.TwoMinutesIsMaxAge120` | api/os_proxy_test.go:32-55 | a cache lifetime of 120 seconds renders as `max-age=120` |
| `OsProxy.ProxyAlwaysSetsMaxAge` | api/os_proxy.go:48-50 | the cache modifier is the outermost step of every proxy. Whenever the supplied modifier succeeds (or there is none), the response carries the configured max-age |
| `OsProxy.ProxyPassesOnFailure` | api/os_proxy_test.go:97-114 | when the supplied modifier fails, the proxy's response step returns that modifier's identical error and the response as it left it, with no `Cache-Control` added |
| `OsProxy.RewriteThenCache` | api/api.go:33-34 | for the modifying proxy (rewrite wrapped by cache), a readable body is rewritten and the directive is set. An unreadable body yields its read error and an untouched response |
| `OsProxy.Run` | api/os_proxy.go:69-105 | what each modifier does to a response (the cache closure at lines 69-81, the body rewrite at lines 94-105); `OsProxy.Modify` is proved against it. The body rewrite fails exactly when the body cannot be read, and never touches the headers. The cache modifier either fails with its parent's outcome and nothing of its own applied, or succeeds with `Cache-Control` set to `max-age=` and the rendered lifetime. The lemmas `OsProxy.CacheParentFails`, `OsProxy.CacheAfterSuccess`, `OsProxy.ReplaceReadError` and `OsProxy.ReplaceRewritesBody` state the rest |
| `OsProxy.CacheModifier` | api/os_proxy.go:67-68 | the modifier built wraps exactly the given parent (or none), and its max-age, rendered once at construction, is non-empty decimal digits with no leading zero (a zero lifetime gives exactly `0`) that read back as the configured number of seconds: the one canonical rendering |
| `OsProxy.CreateOSMapsProxy` | api/os_proxy.go:22-24 | the director keeps the target, the key and whether a response modifier was supplied. `ModifyResponse` is always the cache modifier wrapping exactly the supplied modifier (or none), with the canonical rendering of the configured lifetime. `OsProxy.ProxyAlwaysSetsMaxAge` and `OsProxy.ProxyPassesOnFailure` state its effect |
| `Replace.IndexOf` | api/os_proxy.go:102 | `bytes.Index`: a returned position is an occurrence with none before it, and `None` means there is no occurrence anywhere (`Replace.IndexFromFindsFirst` proves it for any start) |
| `Replace.ReplaceFrom` | api/os_proxy.go:102 | the scan of `bytes.Replace` from a start offset: a replacement no longer than the pattern never lengthens the text, and one no shorter never shortens it. `Replace.ReplaceFromNoMatch` and `Replace.ReplaceFromAtMatch` give its result |
| `Replace.ReplaceAll` | api/os_proxy.go:102 | `bytes.Replace(body, from, to, -1)`: a body without an occurrence comes back as it is, and the length bounds above hold for the whole body. `Replace.ReplaceAllAtFirstMatch`, `Replace.NoMatchUnchanged` and `Replace.SameLengthPreserved` characterise it fully |
| `Replace.IndexFrom` | api/os_proxy.go:102 | the search for the next occurrence never reports a position before where it started, nor one from which the pattern would run past the end |
| `Replace.IndexFromFindsFirst` | api/os_proxy.go:102 | `bytes.Index`: a reported position is an occurrence and none lies before it (from where the search started). Reporting none means there is none |
| `Replace.ReplaceFromNoMatch` | api/os_proxy.go:102 | where no occurrence remains, the rest of the body is copied unchanged |
| `Replace.ReplaceFromAtMatch` | api/os_proxy.go:102 | where the next occurrence is at `i`, the bytes before `i` are copied, then the replacement, then the rewrite resumes after the occurrence (non-overlapping, left to right) |
| `Replace.ReplaceAllAtFirstMatch` | api/os_proxy.go:102 | `bytes.Replace` with n = -1 over the whole body. No occurrence gives the input back. Otherwise the result is the prefix before the first occurrence, then the replacement, then the rewrite of what follows the occurrence |
| `Replace.NoMatchUnchanged` | api/os_proxy.go:102 | a body in which the non-empty pattern never occurs comes back unchanged |
| `Replace.ReplaceBySelf` | api/os_proxy.go:102 | replacing a pattern with itself changes nothing |
| `Replace.SameLengthPreserved` | api/os_proxy.go:102-104 | a replacement as long as the pattern keeps the body length. The modifier never adjusts a `Content-Length` header, so that header stays accurate when `|to| == |from|` or when the body has no occurrence (`Replace.NoMatchUnchanged`) |
| `Replace.FromSomething` | api/os_proxy_test.go:124-132 | replacing `from` with `to` in `fromsomething` gives `tosomething` |
| `Decimal.DecimalString` | api/os_proxy.go:68 | the max-age text is non-empty, all decimal digits, and has no leading zero; 0 renders as exactly `0` |
| `Decimal.DecimalRoundTrip` | api/os_proxy.go:68 | reading the rendered digits back gives the number of seconds |
| `Decimal.DecimalInjective` | api/os_proxy.go:68 | different lifetimes never render as the same max-age text |

## Left out

- The transport settings: proxy from environment, dial and keep-alive timeouts, idle pool size and lifetime, TLS and expect-continue timeouts (api/os_proxy.go:51-61). They are network I/O and connection pooling.
- `httputil.ReverseProxy`'s own dispatch. Only the `Director` and `ModifyResponse` values it is given are modelled.
- Logging (api/os_proxy.go:26-28, 88-93).
- Stream mechanics: `io.ReadAll`, `Close`, `NopCloser`. A body is either its full bytes or a read error. After a failed read the body keeps the same read error (the original, consumed stream is left in place).
- `Decimal.DecimalString`: the source formats a floating-point number of seconds with `%.f`. That rounds a fractional duration and prints a minus sign for a negative one. The model takes the lifetime as a natural number of whole seconds.
- `HttpHeader.Set`, `HttpHeader.Del`: Go canonicalises header keys. The model takes every key as already canonical and uses it as given, so the credential header `key` is written as `Key`, the name Go stores it (and a caller's copy of it) under.
- `Replace.ReplaceAll`: `bytes.Replace` with an empty pattern inserts the replacement at every UTF-8 boundary. The model requires a non-empty pattern (`Replace.Pattern`).
- `OsProxy.Direct`: the request's header map is taken to be non-nil. Go's `Header.Set` would panic on a nil one, and the HTTP server always supplies one.
- Aliasing: `req.URL` is a pointer in Go and `http.Header` a reference type. Here both are values owned by their request or response, and the fields are reassigned.
- Caller-supplied modifiers (`Custom`) are arbitrary functions of the response state. Changes they make before failing stay in effect, since `Run` returns the changed state along with the error.
- The route registration in api/api.go and its nil-URL guard, and `URL.String()` for the replacement pattern. `OsProxy.RewriteThenCache` states the wiring for any pattern.
- config/config.go: loading settings from the environment into a lazily created singleton.
