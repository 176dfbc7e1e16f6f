/** The worker's configuration (the `env` bindings set in wrangler.toml) and
    the shape of an HTTP response as the worker builds one. */
module Config {
  import opened Wrappers
  import opened Js

  /** Title, message and illustration of one category of error page. */
  datatype Copy = Copy(errorType: string, errorMessage: string, errorGif: string)

  /** The eight texts of the "report this error" button and its dialog. */
  datatype ReportCopy = ReportCopy(
    buttonText: string,
    modalHeaderText: string,
    labelPlaceholder: string,
    modalNamePlaceholder: string,
    cancelButtonText: string,
    submitButtonText: string,
    successMessage: string,
    failureMessage: string)

  const BlankReport := ReportCopy("", "", "", "", "", "", "", "")

  /** The `env` bindings the modelled code reads. Flags and the TTL keep
      their JavaScript value (`None` = unset) because the code tests them in
      different ways; texts are strings; the three error-code lists are
      arrays when set. */
  datatype Env = Env(
    enableCache: Binding,             // ENABLE_CACHE
    cacheTtlMs: Binding,              // CACHE_TTL_MS
    enable4gBanner: Binding,          // ENABLE_4G_BANNER
    enableUpsBanner: Binding,         // ENABLE_UPS_BANNER
    text4gBanner: string,             // TEXT_4G_BANNER_MESSAGE
    textUpsBanner: string,            // TEXT_UPS_BANNER_MESSAGE
    maintenanceDomain: Option<string>, // MAINTENANCE_DOMAIN
    enableReportError: Binding,       // ENABLE_REPORT_ERROR
    report: ReportCopy,               // REPORT_ERROR_*
    generic: Copy,                    // TEXT_GENERIC_ERROR_*
    maintenance: Copy,                // TEXT_MAINTENANCE_*
    container: Copy,                  // TEXT_CONTAINER_ERROR_*
    box: Copy,                        // TEXT_BOX_ERROR_*
    tunnel: Copy,                     // TEXT_TUNNEL_ERROR_*
    containerCodes: Option<seq<JsValue>>, // TEXT_CONTAINER_ERROR_CODE
    boxCodes: Option<seq<JsValue>>,       // TEXT_BOX_ERROR_CODE
    tunnelCodes: Option<seq<JsValue>>,    // TEXT_TUNNEL_ERROR_CODE
    alwaysOnlineDomains: Binding)     // ALWAYS_ONLINE_DOMAINS

  /** An HTTP response: status, headers (names in lower case, as the
      Headers class stores them) and body text. */
  datatype Response = Response(status: int, headers: map<string, string>, body: string)
}
