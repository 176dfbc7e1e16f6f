/** `hostMatchesAny` (worker.js:6-15, repeated at custom-redirect.js:117-126):
    does a host match a list of patterns, where `*.d` matches any host ending
    in `.d` other than `d` itself and any other pattern must be equal. */
module Hosts {
  import opened Wrappers
  import opened Js
  import opened Text

  /** One string pattern against one host. */
  predicate PatternMatches(host: string, pattern: string) {
    if StartsWith(pattern, "*.") then EndsWith(host, pattern[1..]) && host != pattern[2..]
    else host == pattern
  }

  /** `*.d` matches exactly the hosts that end in `.d` and are not `d`. */
  lemma WildcardMeaning(host: string, d: string)
    ensures PatternMatches(host, "*." + d) <==> EndsWith(host, "." + d) && host != d
  {
    var p := "*." + d;
    assert p[..2] == "*.";
    assert p[1..] == "." + d;
    assert p[2..] == d;
  }

  /** The bare parent domain never matches its own wildcard. */
  lemma BareParentNeverMatches(d: string)
    ensures !PatternMatches(d, "*." + d)
  {
    WildcardMeaning(d, d);
  }

  /** Any host of the form `x.d`, even with an empty `x`, matches `*.d`. */
  lemma SubdomainMatchesWildcard(sub: string, d: string)
    ensures PatternMatches(sub + "." + d, "*." + d)
  {
    var h := sub + "." + d;
    assert h[|h| - |"." + d|..] == "." + d;
    assert |h| > |d|;
    WildcardMeaning(h, d);
  }

  /** A pattern that does not start with `*.` matches by equality only. */
  lemma LiteralMeaning(host: string, pattern: string)
    requires !StartsWith(pattern, "*.")
    ensures PatternMatches(host, pattern) <==> host == pattern
  {
  }

  /** `patterns.some(...)` as written: the elements are tried left to right,
      and calling `startsWith` on an element that is not a string throws a
      TypeError before any later element is tried. */
  function SomeMatchAsWritten(host: string, ps: seq<JsValue>): Completion<bool> {
    if ps == [] then Normal(false)
    else
      match ps[0]
      case JStr(p) => if PatternMatches(host, p) then Normal(true) else SomeMatchAsWritten(host, ps[1..])
      case _ => Throws
  }

  /** hostMatchesAny as written: false for a missing or empty host and for a
      pattern list that is not an array. */
  function HostMatchesAnyAsWritten(host: Option<string>, patterns: JsValue): Completion<bool> {
    if host == None || host == Some("") || !patterns.JArr? then Normal(false)
    else SomeMatchAsWritten(host.value, patterns.items)
  }

  /** A list element matches when it is a string pattern that matches. */
  predicate EntryMatches(host: string, v: JsValue) {
    v.JStr? && PatternMatches(host, v.s)
  }

  function AnyEntryMatches(host: string, ps: seq<JsValue>): (r: bool)
    ensures r <==> exists k :: 0 <= k < |ps| && EntryMatches(host, ps[k])
  {
    if ps == [] then false
    else
      assert forall k :: 1 <= k < |ps| ==> ps[k] == ps[1..][k - 1];
      EntryMatches(host, ps[0]) || AnyEntryMatches(host, ps[1..])
  }

  /** hostMatchesAny with elements that are not strings treated as
      non-matching instead of throwing: true exactly when the host is present
      and non-empty, the list is an array, and one of its string patterns
      matches. */
  function HostMatchesAny(host: Option<string>, patterns: JsValue): (r: bool)
    ensures r <==> host.Some? && host.value != "" && patterns.JArr? &&
                   exists k :: 0 <= k < |patterns.items| && EntryMatches(host.value, patterns.items[k])
  {
    host.Some? && host.value != "" && patterns.JArr? && AnyEntryMatches(host.value, patterns.items)
  }

  /** The code as written throws exactly when it reaches an element that is
      not a string before reaching a matching one. */
  lemma {:induction false} SomeMatchThrowsIff(host: string, ps: seq<JsValue>)
    ensures SomeMatchAsWritten(host, ps) == Throws <==>
              exists k :: 0 <= k < |ps| && !ps[k].JStr? && forall j :: 0 <= j < k ==> !EntryMatches(host, ps[j])
    ensures SomeMatchAsWritten(host, ps) != Throws ==>
              SomeMatchAsWritten(host, ps) == Normal(AnyEntryMatches(host, ps))
  {
    if ps != [] {
      SomeMatchThrowsIff(host, ps[1..]);
      assert forall k :: 1 <= k < |ps| ==> ps[k] == ps[1..][k - 1];
      if ps[0].JStr? && !PatternMatches(host, ps[0].s) {
        if SomeMatchAsWritten(host, ps[1..]) == Throws {
          var k :| 0 <= k < |ps[1..]| && !ps[1..][k].JStr? && forall j :: 0 <= j < k ==> !EntryMatches(host, ps[1..][j]);
          assert !ps[k + 1].JStr? && forall j :: 0 <= j < k + 1 ==> !EntryMatches(host, ps[j]);
        } else {
          forall k | 0 <= k < |ps| && !ps[k].JStr?
            ensures exists j :: 0 <= j < k && EntryMatches(host, ps[j])
          {
            assert k >= 1;
            assert !ps[1..][k - 1].JStr?;
          }
        }
      }
    }
  }

  /** On a list of strings the code as written and the corrected matcher agree. */
  lemma AsWrittenAgreesOnStrings(host: Option<string>, patterns: JsValue)
    requires patterns.JArr? ==> forall k :: 0 <= k < |patterns.items| ==> patterns.items[k].JStr?
    ensures HostMatchesAnyAsWritten(host, patterns) == Normal(HostMatchesAny(host, patterns))
  {
    if host.Some? && host.value != "" && patterns.JArr? {
      SomeMatchThrowsIff(host.value, patterns.items);
    }
  }

  /** A number in the list (which POST /worker/api/banner/subdomains accepts)
      makes the code as written throw for any non-empty host it does not
      match earlier; the corrected matcher answers false. */
  lemma NonStringPatternThrows()
    ensures HostMatchesAnyAsWritten(Some("www.example.com"), JArr([JNum(1)])) == Throws
    ensures !HostMatchesAny(Some("www.example.com"), JArr([JNum(1)]))
  {
  }
}
