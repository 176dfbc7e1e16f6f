# cloudflare-worker-error-page, modelled in Dafny

This project models a Cloudflare Worker that sits in front of a home-hosted
origin, together with the small sidecar process that feeds it. It covers:

- **the tiered state cache**: `getCachedKvValue`, `getMaintenanceState` and
  `invalidateCacheApi` in `worker.js`. Each worker instance has a per-instance
  entry `{value, ts}` per key. Behind it sit the shared Cache API (keyed by
  `https://kv-cache.internal/<key>`) and the KV namespace `MAINTENANCE_KV`.
  The KV namespace holds the JSON maintenance/banner blob and the `wan-is-4g`
  and `ups-on-battery` flags.
- **the failure classifier**: `c_redirect`, `getErrorDetails`,
  `generateErrorPage`, `makeResponse` and the "always online" stale copy, in
  `custom-redirect.js`. Together they decide between the maintenance page, a
  504 page, the stale copy, an error page and letting the origin's response
  through.
- **the banner rule** (`getBannerMessage`), the wildcard host matcher
  (`hostMatchesAny`, which appears twice) and the service-name extraction of
  the error report.
- **the admin API** (`handle-api.js`): the host gate, the route table and the
  eleven handlers. Each handler is modelled as the KV write it makes.
- **the sidecar** (`docker/check_ip_and_store.py`). It watches the WAN
  address, whether the uplink is mobile, and the UPS status read from a NUT
  server. It writes a KV key only when the value changes.

JavaScript values are the datatype `Js.JsValue`. `JSON.parse` and
`JSON.stringify` are an abstract `Js.Codec`, whose only assumed property is
that parsing what was serialised gives the value back (`Js.RoundTrips`).
Several things are inputs to the model rather than modelled:

- the clock (`now`);
- whether a shared-cache call throws (`TieredCache.SharedFaults`);
- the origin probe result;
- the stale copy found in the edge cache;
- the HTML template;
- the sidecar's observations.

Places where the code differs from the documented design, and where the
model follows the code:

- Admin writes do not invalidate any cache. `invalidateCache`
  (handle-api.js:15-21) resets `globalThis.cache`. The worker keeps its cache
  in a module-level `const` and never sets that global. `invalidateCacheApi`
  (worker.js:198-208) is never called. So a write is seen only when the
  per-instance entry expires and, with the shared tier, that tier's entry is
  gone as well (`Resolver.FreshEntryHidesNewState`).
- `isSubdomainMaintenance` is exact membership (`includes`), not the
  wildcard matcher (`Resolver.SubdomainMaintenanceIsExact`).
- The 4G and UPS flags are plain booleans, `false` when the feature is
  disabled. They are not optional.
- The admin 4G/UPS endpoints are gated by truthiness, so the string
  `"false"` enables them (`AdminApi.FlagGateIsTruthiness`). The worker's own
  reads use `envIsTrue`.

## Model

| member | source | states |
|---|---|---|
| Text.ReplaceFirst | custom-redirect.js:11-24 | `String.prototype.replace` with a string pattern: the result replaces the first occurrence of the pattern, or is the text unchanged when there is none |
| Text.Split | worker.js:146-149 | `split(sep)` gives at least one part, no part holds the separator, and joining the parts with it gives back the text |
| Text.SplitOfJoin | worker.js:146-149 | splitting separator-free parts joined by the separator gives those parts back |
| Text.SplitFirst | worker.js:148-149 | the first part of a split is the text before the first separator |
| Text.SplitLast | worker.js:146-147 | the last part of a split (`pop()`) is the text after the last separator |
| Text.ParseIntOfIntToString | custom-redirect.js:33-35 | `parseInt(String(n), 10)` gives `n` back for every integer the model's numbers hold (integers written out in full), so an error code survives the round trip into the response status |
| Text.ParseIntIgnoresTrailer | worker.js:88 | `parseInt` reads an integer's text followed by anything that does not start with a digit as that integer, so "1500.5" and "1500ms" give 1500 |
| Text.ParseInt | worker.js:88 | no contract; characterised by `Text.ParseIntIgnoresTrailer` and `Text.ParseIntOfIntToString` |
| Js.EnvIsTrueNarrowerThanTruthy | worker.js:193-195 | `envIsTrue` accepts only `true` and `"true"`: everything it accepts is truthy, but `"false"` and `1` are truthy and are not accepted |
| Js.EnvIsTrue | worker.js:193-195 | no contract; characterised by `Js.EnvIsTrueNarrowerThanTruthy` |
| Js.SafeJsonParseSpec | worker.js:18-20 | `safeJsonParse` returns the serialised value, and returns the fallback for a null, empty or unparsable text |
| Js.SafeJsonParse | worker.js:18-20 | no contract; characterised by `Js.SafeJsonParseSpec` |
| Hosts.WildcardMeaning | worker.js:9-12 | `*.d` matches exactly the hosts that end in `.d` and differ from `d` |
| Hosts.BareParentNeverMatches | worker.js:11 | `*.d` never matches `d` itself |
| Hosts.SubdomainMatchesWildcard | worker.js:9-12 | every `x.d` matches `*.d` |
| Hosts.LiteralMeaning | worker.js:13 | a pattern without `*.` matches only the identical host |
| Hosts.HostMatchesAny | worker.js:6-15 | true iff the host is a non-empty string, the patterns are an array, and some string entry matches it; non-string entries match nothing |
| Hosts.HostMatchesAnyAsWritten | worker.js:6-15 | no contract; characterised by `Hosts.SomeMatchThrowsIff` and `Hosts.AsWrittenAgreesOnStrings` |
| Hosts.SomeMatchThrowsIff | worker.js:8-14 | as written, `some` throws exactly when a non-string entry comes before the first matching one, and otherwise returns whether some entry matches |
| Hosts.AsWrittenAgreesOnStrings | custom-redirect.js:117-126 | on lists that hold only strings, the code as written never throws and agrees with `HostMatchesAny` |
| Hosts.NonStringPatternThrows | worker.js:9 | the pattern list `[1]` makes the code as written throw, where the corrected matcher answers false |
| TieredCache.SharedUrlInjective | worker.js:39 | distinct keys are cached under distinct shared URLs |
| TieredCache.Lookup | worker.js:30-83 | the local entry answers iff caching is on and it holds a non-null value younger than the TTL. Otherwise a shared hit answers unless `match` threw. Otherwise the store answers, and its body is written back to this key's shared URL unless `put` threw. A miss refreshes the entry to the value read at `now`. Caching off touches neither tier. The shared tier changes only at this key's URL, and only to the store's body |
| TieredCache.PutFailureIsHarmless | worker.js:66-79 | a shared `put` that throws changes neither the value returned, nor its tier, nor the refreshed entry |
| TieredCache.LookupCoherent | worker.js:30-83 | while the tiers agree with the store, a read returns the store's value (null and "" alike) and leaves them agreeing, whatever the shared tier's faults |
| TieredCache.ReadTwiceAgrees | worker.js:30-83 | with no shared-tier fault, two reads at the same instant with no write between return the same value, up to null and "" |
| TieredCache.LookupReadsOnlyItsUrl | worker.js:37-41 | a read depends on the shared tier only through its own key's URL |
| TieredCache.LookupReadsOnlyItsKey | worker.js:30-83 | a read depends on the store only through its own key |
| TieredCache.FreshEntryHidesStoreWrites | worker.js:32-34 | a fresh entry hides any store write until it expires |
| TieredCache.InvalidatedReadSeesStore | worker.js:30-83 | after a reset entry and a deleted shared URL, the next read returns the store's value |
| TieredCache.LocalCache.Put | worker.js:46-47 | overwrites one entry and leaves the other two as they were |
| TieredCache.LocalCache.Reset | handle-api.js:16-20 | all three entries become `{value: null, ts: 0}` |
| TieredCache.GetCachedKvValue | worker.js:30-83 | the value returned, the new shared tier and the new entry are those of `Lookup`; the store and the other entries are unchanged |
| TieredCache.InvalidateCacheApi | worker.js:198-208 | the shared tier loses exactly the URLs of the given keys, and the store is unchanged |
| Resolver.CacheEnabled | worker.js:87 | no contract; characterised by `Resolver.CacheSettings` |
| Resolver.CacheTtl | worker.js:88 | no contract; characterised by `Resolver.CacheSettings` and `Text.ParseIntIgnoresTrailer` |
| Resolver.CacheSettings | worker.js:87-88 | caching is on when `ENABLE_CACHE` is unset and off for `"false"`; the TTL is 60000 when `CACHE_TTL_MS` is falsy, and a non-zero numeric setting is the TTL itself |
| Resolver.Normalize | worker.js:110-118 | global maintenance holds iff the blob is an object whose `isGlobalMaintenance` is `true` or `"true"`; each list is the stored array, or empty when the property is missing or not an array; the message is the stored string, or empty; the subdomain flag holds iff the host is in the maintenance list; each of the 4G and UPS flags holds iff its raw value is `"true"` |
| Resolver.NullBlobThrows | worker.js:91-111 | as written, a stored `null` makes the state read throw; the corrected normaliser gives the default snapshot |
| Resolver.NormalizeAsWritten | worker.js:110-118 | no contract; characterised by `Resolver.NullBlobThrows` |
| Resolver.MalformedBlobGivesDefaults | worker.js:91-94 | a missing, empty or unparsable blob gives the all-false, all-empty snapshot |
| Resolver.FieldsAreIndependent | worker.js:110-118 | each snapshot field depends only on its own property of the blob |
| Resolver.SubdomainMaintenanceIsExact | worker.js:113 | the stored entry `*.example.com` does not put `a.example.com` in maintenance, and the literal entry does |
| Resolver.ResolveOfEncoded | worker.js:91-118 | a snapshot serialised as a blob reads back as itself |
| Resolver.Resolve | worker.js:86-119 | a disabled feature leaves its entry untouched and its flag false; with caching off the result is the store's snapshot and nothing is cached |
| Resolver.CoherentTiersServeStoreSnapshot | worker.js:86-119 | while the three keys' tiers agree with the store, the snapshot is the store's snapshot |
| Resolver.FreshEntryHidesNewState | worker.js:90-94 | with caching on and the state entry fresh, whatever the banner settings, a new blob in the store changes nothing in the result and the state entry stays as it was; with both banners off the snapshot is the cached blob's |
| Resolver.ResolveTwiceAgrees | worker.js:86-119 | with no shared-tier fault, resolving again at the same instant from the entries and shared tier the first resolution left gives the same snapshot |
| Resolver.GetMaintenanceState | worker.js:86-119 | the snapshot, the three entries and the shared tier are those of `Resolve`; the store is unchanged |
| Banner.StatusMessages | worker.js:212-218 | the UPS text comes first and the 4G text last, each only when its feature is on and its flag is set |
| Banner.GetBannerMessage | worker.js:211-226 | both status texts joined by a spaced bar when both apply, else the one that applies; without status texts, the free message iff it is non-empty and the host matches the banner list |
| Banner.NoBannerIff | worker.js:211-226 | no banner iff no status applies and the free message is empty or the host does not match |
| Banner.DisabledFeaturesFallBackToFreeText | worker.js:219-225 | with both features off and the list `*.d`, every subdomain of `d` gets the message and `d` itself gets none |
| ReportError.ServiceName | worker.js:145-152 | with a '/', the slash-free segment after the last '/'; else with a '.', the dot-free segment before the first '.'; else the whole name |
| ReportError.ServiceNameUnique | worker.js:145-152 | that segment is the only one with those properties |
| ErrorPage.CategoryPrecedence | custom-redirect.js:90-106 | a code gets the container copy when listed there, else the box copy, else the tunnel copy, else the generic copy |
| ErrorPage.CategoryOf | custom-redirect.js:90-106 | no contract; characterised by `ErrorPage.CategoryPrecedence` |
| ErrorPage.GetErrorDetails | custom-redirect.js:49-109 | maintenance gives the code text "503", the maintenance copy and no report button; a status gives the text of its own number (500 for 0), the report texts iff `ENABLE_REPORT_ERROR` is `true` or `"true"` (blank otherwise), and the copy of its category |
| ErrorPage.FieldValues | custom-redirect.js:11-23 | one value per field placeholder: the code first and the report flag rendered as text fifth |
| ErrorPage.NoPlaceholderPageUnchanged | custom-redirect.js:9-25 | a template without placeholders is served as it is |
| ErrorPage.GenerateErrorPage | custom-redirect.js:9-25 | no contract; characterised by `ErrorPage.FieldValues`, `ErrorPage.NoPlaceholderPageUnchanged` and `ErrorPage.ReportCodeWrittenLast` |
| ErrorPage.ReportCodeWrittenLast | custom-redirect.js:24 | the last step writes the code over the first `REPORT_ERROR_CODE` left by the thirteen field steps |
| ErrorPage.ErrorCodeStepHitsReportPlaceholder | custom-redirect.js:11 | in any template where `REPORT_ERROR_CODE` comes before every standalone `ERROR_CODE`, the first step writes the code inside it and leaves the rest unchanged |
| ErrorPage.MakeResponse | custom-redirect.js:33-41 | a response exists iff the status parses to 200..599 and is not a null-body status (204, 205, 304), which cannot carry the page; then it has that status, the two headers and the content |
| ErrorPage.ErrorResponse | custom-redirect.js:177-179 | the error page carries the code's status (503 for maintenance), the page headers and the generated page |
| Redirect.AlwaysOnline | custom-redirect.js:143-154 | the stale copy is reissued with status 200, its body, `X-Served-From-Cache` and `X-Worker-Handled` set, and its other headers kept |
| Redirect.CRedirect | custom-redirect.js:172-221 | in precedence order: maintenance gives the 503 maintenance page; a failed probe gives the 504 page; an upstream 5xx gives the stale copy (enrolled host with a hit) or the page for its status; a failed fetch gives the stale copy or the 502 page; the origin passes through iff none applies; every answer is marked as handled. Enrolment uses the corrected matcher |
| Redirect.Enrolled | custom-redirect.js:174-175 | no contract; `Hosts.HostMatchesAny` on `ALWAYS_ONLINE_DOMAINS`, or `[]` when it is falsy |
| Redirect.StaleOrPage | custom-redirect.js:193-217 | no contract; characterised by `Redirect.CRedirect` and `Redirect.StaleServedIff` |
| Redirect.CRedirectAsWritten | custom-redirect.js:172-221 | no contract; characterised by `Redirect.AsWrittenAgreesOnStringDomains` and `Redirect.NonStringAlwaysOnlineThrows` |
| Redirect.AsWrittenAgreesOnStringDomains | custom-redirect.js:174-175 | with an always-online list of strings only, the code as written does not throw and answers what `CRedirect` answers |
| Redirect.NonStringAlwaysOnlineThrows | custom-redirect.js:174-177 | the always-online list `[1]` makes the code as written throw even in maintenance, where `CRedirect` gives the maintenance page |
| Redirect.UnknownProbeIsIgnored | custom-redirect.js:182-190 | a probe that is not configured or rejected decides nothing |
| Redirect.AlwaysOnlineDomains | custom-redirect.js:174 | no contract; `ALWAYS_ONLINE_DOMAINS`, or `[]` when it is falsy; characterised by `Redirect.CRedirect` |
| Redirect.Respond | custom-redirect.js:177-220 | no contract; the branches shared by `Redirect.CRedirect` and `Redirect.CRedirectAsWritten`, characterised by `Redirect.CRedirect` |
| Redirect.StaleServedIff | custom-redirect.js:193-214 | the stale copy is served iff the host is enrolled, a copy exists, and the failure is an upstream 5xx or a failed fetch |
| Redirect.FailedFetchNeverPassesThrough | custom-redirect.js:206-218 | a failed fetch is always answered, with 503, 504, 200 or 502 |
| Redirect.UpstreamErrorPage | custom-redirect.js:202-203 | an unserved upstream 5xx gets the page for its own status with its category's copy |
| AdminApi.GetStateObj | handle-api.js:1-8 | a missing, empty or unparsable stored value, or one that parses to a falsy value, gives `{}`; otherwise the parsed value; so the state object is never falsy |
| AdminApi.GetStateObjReadsBack | handle-api.js:1-11 | what `setStateObj` stores, `getStateObj` reads back |
| AdminApi.Rebuild | handle-api.js:23-26 | after assigning a property, an object is stored with the new fields, an array is stored unchanged (`JSON.stringify` drops named properties), and a primitive fails (strict mode) |
| AdminApi.WithAdded | handle-api.js:34-35 | the list is unchanged when it includes the value, and otherwise gains the value at its end |
| AdminApi.AddKeepsDistinct | handle-api.js:34-35 | adding a primitive keeps a duplicate-free list duplicate-free, and the list then includes it |
| AdminApi.AddUndefinedAppendsNull | handle-api.js:31-35 | a body without `subdomain` appends `null` on every call |
| AdminApi.Without | handle-api.js:45 | `filter` keeps exactly the elements not strictly equal to the value |
| AdminApi.WithoutAppend | handle-api.js:45 | filtering works piece by piece, so the order of what is kept is preserved |
| AdminApi.WithoutKeepsOthers | handle-api.js:45 | every other element keeps all its copies |
| AdminApi.FindRouteFrom | handle-api.js:158 | `find` returns the first route whose path and method both match, or none |
| AdminApi.RunHandler | handle-api.js:23-136 | no contract; characterised by `AdminApi.HandlerWritesStateKeys`, `AdminApi.InvalidInputIsRejected`, `AdminApi.FlagWrites` and the two banner lemmas |
| AdminApi.ToggleGlobal | handle-api.js:23-28 | no contract; characterised by `AdminApi.ToggleNegatesAndKeepsRest` |
| AdminApi.AddTo | handle-api.js:30-39 | no contract; characterised by `AdminApi.AddWritesOnlyOnChange` |
| AdminApi.RemoveFrom | handle-api.js:41-48 | no contract; characterised by `AdminApi.RemoveAlwaysWrites` |
| AdminApi.HandlerWritesStateKeys | handle-api.js:23-136 | every handler that writes answers 200, and writes only `MAINTENANCE_STATE`, `wan-is-4g` or `ups-on-battery` |
| AdminApi.Decide | handle-api.js:153-164 | 403 with no write off the admin host or for an unknown route; any write goes to one of the three state keys with status 200 |
| AdminApi.HandleApi | handle-api.js:153-164 | the status and the store afterwards are those of `Decide`; a write resets the global cache's three entries when it is set, and without a write they are unchanged; the shared tier is unchanged |
| AdminApi.InvalidateCache | handle-api.js:15-21 | when the global cache is set, its three entries are reset |
| AdminApi.GateBeforeRoutes | handle-api.js:154-156 | without an admin host configured, even a valid route is refused |
| AdminApi.ToggleNegatesAndKeepsRest | handle-api.js:23-28 | the toggle stores the negation of the stored flag and keeps every other field |
| AdminApi.AddWritesOnlyOnChange | handle-api.js:30-39 | an add writes only when the value is absent, and what it writes reads back as the list with the value appended |
| AdminApi.RemoveAlwaysWrites | handle-api.js:41-48 | a remove always writes, and what it writes reads back as the list without the value |
| AdminApi.SetBannerSubdomainsReplacesOnlyList | handle-api.js:50-59 | a valid list request answers 200 and stores the old object with only `bannerSubdomains` replaced by the given array, as read back |
| AdminApi.SetBannerMessageReplacesOnlyMessage | handle-api.js:83-92 | a valid message request answers 200 and stores the old object with only `bannerMessage` replaced by the given text, as read back |
| AdminApi.InvalidInputIsRejected | handle-api.js:50-136 | for any body other than `null`, a non-array list, a non-string subdomain or message, or a non-boolean `enabled` gets 400 and no write; a `null` body makes each handler that destructures it throw |
| AdminApi.FlagGateIsTruthiness | handle-api.js:94-101 | with `ENABLE_4G_BANNER = "false"` the toggle still writes, though the worker treats the feature as off |
| AdminApi.FlagWrites | handle-api.js:94-136 | for any body: with the feature off nothing is written and the status is 403; with it on, each toggle writes the negation of the worker's snapshot, and each set whose body's `enabled` is a boolean writes that value, with 200 |
| AdminApi.Arg | handle-api.js:51 | no contract; destructuring `null` throws and any other value reads the field (undefined when absent); characterised by `AdminApi.InvalidInputIsRejected` |
| AdminApi.Store | handle-api.js:9-11 | a store that succeeds answers 200 and writes `MAINTENANCE_STATE` |
| AdminApi.PrimitiveStateThrows | handle-api.js:1-92 | a stored value that parses to any truthy primitive makes the toggle, add, remove, banner-list and banner-message handlers throw without writing |
| Sidecar.UpsCheckRequestedMeaning | docker/check_ip_and_store.py:15 | the UPS check is requested iff the setting has four characters, each the letter of "true" at that place in lower or upper case; unset means off |
| Sidecar.UpsEnabled | docker/check_ip_and_store.py:109 | no contract; the check is requested and both the NUT host and the UPS name are set |
| Sidecar.ParseUpsReply | docker/check_ip_and_store.py:53-58 | a status exists iff the stripped reply starts with `VAR` and holds a `"`; it is the quote-free text after the first `"` |
| Sidecar.OnBattery | docker/check_ip_and_store.py:66-71 | no reading stays no reading; otherwise on battery iff the status contains `OB` |
| Sidecar.OnBatteryExamples | docker/check_ip_and_store.py:45 | `OB LB` is on battery and `OL` is not |
| Sidecar.LastWriteAppend | docker/check_ip_and_store.py:27-34 | a write changes the last value of its own key and of no other |
| Sidecar.Watcher.Put | docker/check_ip_and_store.py:27-34 | a successful PUT is appended to the write log, and a failed one records nothing |
| Sidecar.Watcher.CheckIp | docker/check_ip_and_store.py:77-92 | the address key is written iff the address changed and the flag key iff the flag changed; a failed write ends the check with that value unremembered, so it is retried; the state keeps mirroring the last writes |
| Sidecar.Watcher.CheckUps | docker/check_ip_and_store.py:94-105 | without a reading nothing happens; otherwise the key is written iff the reading changed, and then remembered |
| Sidecar.UpsReading | docker/check_ip_and_store.py:116-128 | no reading when the check is off or the socket raised; otherwise a reading iff the reply parses to a status |
| Sidecar.Watcher.Round | docker/check_ip_and_store.py:116-128 | the address and flag are remembered unless their PUT (or the address PUT before the flag's) raised, and kept when nothing was observed; the UPS reading is remembered unless there is none (check off, socket error or no status) or its PUT raised; the log gains check_ip's writes, then check_ups's; the state keeps mirroring the last writes |
| Sidecar.IpWrites | docker/check_ip_and_store.py:77-92 | no contract; the writes `Sidecar.Watcher.CheckIp` is proved to make |
| Sidecar.IpAfter | docker/check_ip_and_store.py:84-87 | no contract; the address `Sidecar.Watcher.CheckIp` is proved to leave remembered |
| Sidecar.Is4gAfter | docker/check_ip_and_store.py:77-92 | no contract; the flag `Sidecar.Watcher.CheckIp` is proved to leave remembered |
| Sidecar.UpsWrites | docker/check_ip_and_store.py:94-105 | no contract; the write `Sidecar.Watcher.CheckUps` is proved to make |
| Sidecar.UpsAfter | docker/check_ip_and_store.py:94-105 | no contract; the reading `Sidecar.Watcher.CheckUps` is proved to leave remembered |

## Left out

- The `fetch` handler's orchestration (worker.js:228-282) is left out. It routes requests, fetches the origin, calls `c_redirect`, calls `injectBanner` and forwards `/report-error`. It is glue between the modelled operations and I/O.
- `injectBanner` is not modelled. It rewrites the page with a case-insensitive regular expression and HTML text; only the banner choice is modelled.
- `handleReportError` is modelled only for its service-name extraction. The webhook call, the date formatting and the JSON body parsing are I/O.
- The HTML templates and `HELPER.isOriginReachable` are not part of this model. The template is a parameter and the probe's result is an input.
- `replace` patterns such as `$&` inside replacement values are not modelled; a value is inserted as written.
- An undefined text setting is not modelled; here every text setting is a string. On the error page (`replace`, custom-redirect.js:9-25) JavaScript would insert the text "undefined"; in the banner (`join`, worker.js:220) an undefined status text would become the empty string.
- Error-code lists that are not arrays are not modelled. A string setting would make `includes` a substring test; here the lists are arrays or unset.
- A `CACHE_TTL_MS` that is not a number or a string is not modelled.
- JavaScript numbers are doubles; here every number is an integer written out in full. Fractions and exponent notation are not modelled: `String(1e21)` is "1e+21", which `parseInt` reads as 1. `Js.RoundTrips` asks `JSON.stringify` and `JSON.parse` to round-trip every integer exactly, which doubles do only up to 2^53.
- Shared-tier expiry (`max-age`) is not modelled. The shared tier keeps a body until it is deleted.
- Concurrency between requests and between worker instances is not modelled. Every operation runs to completion in one step.
- `request.json()` failing on an invalid body is not modelled. The body is given as a parsed value.
- The sidecar's network calls (ipify, ip-api.com, the NUT socket, the KV PUT) are inputs: the observed address and flag, the reply text, and the set of keys whose PUT raises. Logging and sleeping are left out.
- Text.LowerAscii: lowers ASCII capitals only. Python's `lower()` also lowers other letters, but the only comparison is against "true".
- Redirect.CRedirect: requires an upstream status of at most 599. A larger status would make `makeResponse` throw a RangeError; that case shows in `ErrorPage.MakeResponse` returning `None`.
- TieredCache.InvalidateCacheApi: does not model a `delete` that throws part-way and stops the loop, since nothing calls it.

## Findings

| source | as written | input that shows it | evidently intended | confidence | as-written member | corrected member |
|---|---|---|---|---|---|---|
| worker.js:91-111 | `safeJsonParse` returns `null` for the stored text "null". Reading `stateObj.isGlobalMaintenance` on it then throws a TypeError, and the request fails | `MAINTENANCE_STATE` holding `null` (written outside the admin API, which maps a falsy parse to `{}`) | fall back to the default snapshot, as a missing or malformed blob does | not executed | Resolver.NullBlobThrows | Resolver.Normalize |
| worker.js:8-9 | `pattern.startsWith` is called on every list entry, so a non-string entry throws a TypeError. The banner lookup then fails for every host, as long as a banner message is set | `bannerSubdomains` set to `[1]`, which POST `/worker/api/banner/subdomains` with `{"subdomains":[1]}` accepts (handle-api.js:50-58) | a non-string entry matches no host | not executed | Hosts.NonStringPatternThrows | Hosts.HostMatchesAny |
| custom-redirect.js:174-177 | `hostMatchesAny` runs on `ALWAYS_ONLINE_DOMAINS` before the maintenance check, and throws on a non-string entry. `c_redirect` then throws for every request it does not match earlier, maintenance included | `ALWAYS_ONLINE_DOMAINS` set to `[1]` and any request with a host | a non-string entry matches no host, and maintenance still gets its page | not executed | Redirect.NonStringAlwaysOnlineThrows | Redirect.CRedirect |
