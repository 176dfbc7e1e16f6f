/** `c_redirect` (custom-redirect.js:172-221) and the response
    `tryFetchAlwaysOnlineCache` builds (custom-redirect.js:133-161): what the
    worker answers instead of, or in place of, the origin's response. */
module Redirect {
  import opened Wrappers
  import opened Js
  import opened Config
  import opened Hosts
  import opened ErrorPage

  const StaleMarker := "cloudflare-always-online"

  /** The copy of a page found in the edge cache, re-issued with status 200
      and marked as stale and as handled by the worker. */
  function AlwaysOnline(cached: Response): (r: Response)
    ensures r.status == 200 && r.body == cached.body
    ensures "x-served-from-cache" in r.headers && r.headers["x-served-from-cache"] == StaleMarker
    ensures "x-worker-handled" in r.headers && r.headers["x-worker-handled"] == "true"
    ensures forall h :: h in cached.headers && h != "x-served-from-cache" && h != "x-worker-handled" ==>
              h in r.headers && r.headers[h] == cached.headers[h]
  {
    Response(200, cached.headers["x-served-from-cache" := StaleMarker]["x-worker-handled" := "true"], cached.body)
  }

  /** The stale copy, when the host is enrolled in ALWAYS_ONLINE_DOMAINS and
      the edge cache has one, else the error page for `code`. */
  function StaleOrPage(env: Env, template: string, enrolled: bool, stale: Option<Response>, code: Code): (r: Response)
    requires ValidCode(code)
  {
    if enrolled && stale.Some? then AlwaysOnline(stale.value) else ErrorResponse(env, template, code)
  }

  /** `env.ALWAYS_ONLINE_DOMAINS || []`. */
  function AlwaysOnlineDomains(env: Env): JsValue {
    if Truthy(env.alwaysOnlineDomains) then env.alwaysOnlineDomains.value else JArr([])
  }

  /** Whether the host is enrolled in ALWAYS_ONLINE_DOMAINS, by the corrected
      matcher `Hosts.HostMatchesAny`, which treats a non-string entry as
      matching nothing where the code as written throws. */
  predicate Enrolled(env: Env, host: Option<string>) {
    HostMatchesAny(host, AlwaysOnlineDomains(env))
  }

  /** The branches of c_redirect once `useAlwaysOnline` is known. */
  function Respond(env: Env, template: string, useAlwaysOnline: bool, response: Option<Response>, thrown: bool,
                   isMaintenance: bool, probe: Option<bool>, stale: Option<Response>): Option<Response>
    requires response.Some? ==> response.value.status <= 599
  {
    if isMaintenance then Some(ErrorResponse(env, template, MaintenanceCode))
    else if probe == Some(false) then Some(ErrorResponse(env, template, StatusCode(504)))
    else if response.Some? && response.value.status >= 500 then
      Some(StaleOrPage(env, template, useAlwaysOnline, stale, StatusCode(response.value.status)))
    else if thrown && response.None? then
      Some(StaleOrPage(env, template, useAlwaysOnline, stale, StatusCode(502)))
    else None
  }

  /** c_redirect(request, response, thrownError, isMaintenance, env).
      `response` is the origin's response (`None` for `null`), `thrown`
      whether a truthy error was passed, `probe` the result of
      `isOriginReachable` with a rejection mapped to `None`, and `stale` what
      the edge cache holds for the request (`None` on a miss or an error).
      `None` is the `null` that lets the origin's response through. */
  function CRedirect(env: Env, template: string, host: Option<string>, response: Option<Response>, thrown: bool,
                     isMaintenance: bool, probe: Option<bool>, stale: Option<Response>): (r: Option<Response>)
    requires response.Some? ==> response.value.status <= 599
    // maintenance comes first, whatever happened upstream
    ensures isMaintenance ==> r == Some(ErrorResponse(env, template, MaintenanceCode)) && r.value.status == 503
    // then a probe that ran and failed
    ensures !isMaintenance && probe == Some(false) ==> r == Some(ErrorResponse(env, template, StatusCode(504))) &&
                                                       r.value.status == 504
    // an upstream 5xx gets the stale copy or a page with the upstream status
    ensures !isMaintenance && probe != Some(false) && response.Some? && response.value.status >= 500 ==>
              r == Some(if Enrolled(env, host) && stale.Some? then AlwaysOnline(stale.value)
                        else ErrorResponse(env, template, StatusCode(response.value.status))) &&
              r.value.status == (if Enrolled(env, host) && stale.Some? then 200 else response.value.status)
    // a failed fetch gets the stale copy or a 502 page
    ensures !isMaintenance && probe != Some(false) && response.None? && thrown ==>
              r == Some(if Enrolled(env, host) && stale.Some? then AlwaysOnline(stale.value)
                        else ErrorResponse(env, template, StatusCode(502))) &&
              r.value.status == (if Enrolled(env, host) && stale.Some? then 200 else 502)
    // the origin's response passes through exactly when none of the above applies
    ensures r.None? <==> !isMaintenance && probe != Some(false) &&
                         (if response.Some? then response.value.status < 500 else !thrown)
    // whatever the worker answers is marked as handled by it
    ensures r.Some? ==> "x-worker-handled" in r.value.headers && r.value.headers["x-worker-handled"] == "true"
  {
    Respond(env, template, Enrolled(env, host), response, thrown, isMaintenance, probe, stale)
  }

  /** c_redirect as written: `hostMatchesAny` runs on the domain list before
      the maintenance check, so when it throws the whole call throws,
      maintenance or not. */
  function CRedirectAsWritten(env: Env, template: string, host: Option<string>, response: Option<Response>, thrown: bool,
                              isMaintenance: bool, probe: Option<bool>, stale: Option<Response>): Completion<Option<Response>>
    requires response.Some? ==> response.value.status <= 599
  {
    match HostMatchesAnyAsWritten(host, AlwaysOnlineDomains(env))
    case Throws => Throws
    case Normal(useAlwaysOnline) => Normal(Respond(env, template, useAlwaysOnline, response, thrown, isMaintenance, probe, stale))
  }

  /** With a domain list of strings only, the code as written answers what
      the corrected model answers. */
  lemma AsWrittenAgreesOnStringDomains(env: Env, template: string, host: Option<string>, response: Option<Response>,
                                       thrown: bool, isMaintenance: bool, probe: Option<bool>, stale: Option<Response>)
    requires response.Some? ==> response.value.status <= 599
    requires AlwaysOnlineDomains(env).JArr? ==>
               forall k :: 0 <= k < |AlwaysOnlineDomains(env).items| ==> AlwaysOnlineDomains(env).items[k].JStr?
    ensures CRedirectAsWritten(env, template, host, response, thrown, isMaintenance, probe, stale) ==
            Normal(CRedirect(env, template, host, response, thrown, isMaintenance, probe, stale))
  {
    AsWrittenAgreesOnStrings(host, AlwaysOnlineDomains(env));
  }

  /** A number in ALWAYS_ONLINE_DOMAINS makes the code as written throw for
      a host it does not match earlier, even in maintenance, where the
      corrected model answers with the maintenance page. */
  lemma NonStringAlwaysOnlineThrows(env: Env, template: string, response: Option<Response>, thrown: bool,
                                    probe: Option<bool>, stale: Option<Response>)
    requires response.Some? ==> response.value.status <= 599
    requires env.alwaysOnlineDomains == Some(JArr([JNum(1)]))
    ensures CRedirectAsWritten(env, template, Some("www.example.com"), response, thrown, true, probe, stale) == Throws
    ensures CRedirect(env, template, Some("www.example.com"), response, thrown, true, probe, stale) ==
              Some(ErrorResponse(env, template, MaintenanceCode))
  {
    assert AlwaysOnlineDomains(env) == JArr([JNum(1)]);
    NonStringPatternThrows();
  }

  /** A probe that is not configured (or rejected) behaves like one that
      found the origin up. */
  lemma UnknownProbeIsIgnored(env: Env, template: string, host: Option<string>, response: Option<Response>, thrown: bool,
                              isMaintenance: bool, stale: Option<Response>)
    requires response.Some? ==> response.value.status <= 599
    ensures CRedirect(env, template, host, response, thrown, isMaintenance, None, stale) ==
            CRedirect(env, template, host, response, thrown, isMaintenance, Some(true), stale)
  {
  }

  /** The stale copy is served exactly when the host is enrolled, the edge
      cache has a copy, and the failure is an upstream 5xx or a failed fetch
      (not maintenance, not a failed probe). */
  lemma StaleServedIff(env: Env, template: string, host: Option<string>, response: Option<Response>, thrown: bool,
                       isMaintenance: bool, probe: Option<bool>, stale: Option<Response>)
    requires response.Some? ==> response.value.status <= 599
    ensures var r := CRedirect(env, template, host, response, thrown, isMaintenance, probe, stale);
            (r.Some? && "x-served-from-cache" in r.value.headers) <==>
              !isMaintenance && probe != Some(false) && Enrolled(env, host) && stale.Some? &&
              (if response.Some? then response.value.status >= 500 else thrown)
  {
    assert "x-served-from-cache" !in PageHeaders;
  }

  /** For a failed fetch the worker always answers: with the maintenance
      page, a 504, the stale copy or a 502. */
  lemma FailedFetchNeverPassesThrough(env: Env, template: string, host: Option<string>, isMaintenance: bool,
                                      probe: Option<bool>, stale: Option<Response>)
    ensures var r := CRedirect(env, template, host, None, true, isMaintenance, probe, stale);
            r.Some? && r.value.status in {503, 504, 200, 502}
  {
  }

  /** The page for an upstream 5xx carries the upstream status as its code,
      and the copy of the first list naming that status. */
  lemma UpstreamErrorPage(env: Env, template: string, host: Option<string>, upstream: Response, probe: Option<bool>,
                          stale: Option<Response>)
    requires 500 <= upstream.status <= 599 && probe != Some(false)
    requires !Enrolled(env, host) || stale.None?
    ensures var d := GetErrorDetails(StatusCode(upstream.status), env);
            CRedirect(env, template, host, Some(upstream), false, false, probe, stale) ==
              Some(Response(upstream.status, PageHeaders, GenerateErrorPage(template, d))) &&
            d.copy == CopyFor(env, CategoryOf(env, upstream.status))
  {
  }
}
