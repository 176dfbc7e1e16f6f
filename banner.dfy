/** `getBannerMessage` (worker.js:211-226): which banner, if any, the worker
    adds to an HTML page. */
module Banner {
  import opened Wrappers
  import opened Js
  import opened Text
  import opened Config
  import opened Hosts
  import opened Resolver

  /** The UPS banner applies: its feature is on and the UPS is on battery. */
  predicate UpsApplies(env: Env, state: Snapshot) {
    EnvIsTrue(env.enableUpsBanner) && state.upsOnBattery
  }

  /** The 4G banner applies: its feature is on and the uplink is on 4G. */
  predicate FourGApplies(env: Env, state: Snapshot) {
    EnvIsTrue(env.enable4gBanner) && state.is4gMode
  }

  /** The messages of the applicable status banners, UPS first. */
  function StatusMessages(env: Env, state: Snapshot): (ms: seq<string>)
    ensures |ms| == (if UpsApplies(env, state) then 1 else 0) + (if FourGApplies(env, state) then 1 else 0)
    ensures UpsApplies(env, state) ==> ms[0] == env.textUpsBanner
    ensures FourGApplies(env, state) ==> ms[|ms| - 1] == env.text4gBanner
  {
    (if UpsApplies(env, state) then [env.textUpsBanner] else []) +
    (if FourGApplies(env, state) then [env.text4gBanner] else [])
  }

  /** `messages.join(' | ')`. */
  function JoinBar(ms: seq<string>): string
    requires |ms| >= 1
  {
    if |ms| == 1 then ms[0] else ms[0] + " | " + JoinBar(ms[1..])
  }

  /** getBannerMessage with the corrected host matcher; `None` is `null`. */
  function GetBannerMessage(env: Env, state: Snapshot, host: Option<string>): (r: Option<string>)
    // a status banner that applies always wins, and its text is all of them, UPS first
    ensures UpsApplies(env, state) && FourGApplies(env, state) ==>
              r == Some(env.textUpsBanner + " | " + env.text4gBanner)
    ensures UpsApplies(env, state) && !FourGApplies(env, state) ==> r == Some(env.textUpsBanner)
    ensures !UpsApplies(env, state) && FourGApplies(env, state) ==> r == Some(env.text4gBanner)
    // otherwise only the free text, and only on a host its patterns cover
    ensures !UpsApplies(env, state) && !FourGApplies(env, state) ==>
              (r.Some? <==> state.bannerMessage != "" && HostMatchesAny(host, JArr(state.bannerSubdomains))) &&
              (r.Some? ==> r.value == state.bannerMessage)
  {
    var ms := StatusMessages(env, state);
    if |ms| > 0 then
      assert |ms| == 2 ==> ms[1..] == [ms[1]] && JoinBar(ms) == ms[0] + " | " + JoinBar([ms[1]]);
      Some(JoinBar(ms))
    else if state.bannerMessage != "" && HostMatchesAny(host, JArr(state.bannerSubdomains)) then Some(state.bannerMessage)
    else None
  }

  /** No banner at all exactly when no status banner applies and the free
      text is empty or its patterns do not cover the host. */
  lemma NoBannerIff(env: Env, state: Snapshot, host: Option<string>)
    ensures GetBannerMessage(env, state, host) == None <==>
              !UpsApplies(env, state) && !FourGApplies(env, state) &&
              (state.bannerMessage == "" || !HostMatchesAny(host, JArr(state.bannerSubdomains)))
  {
  }

  /** A disabled feature never shows its banner, whatever the stored flag;
      with both disabled the free-text rule decides alone. */
  lemma DisabledFeaturesFallBackToFreeText(env: Env, state: Snapshot, host: Option<string>, d: string)
    requires !EnvIsTrue(env.enableUpsBanner) && !EnvIsTrue(env.enable4gBanner)
    requires state.bannerMessage != "" && state.bannerSubdomains == [JStr("*." + d)]
    ensures GetBannerMessage(env, state, Some(d)) == None
    ensures forall sub :: GetBannerMessage(env, state, Some(sub + "." + d)) == Some(state.bannerMessage)
  {
    BareParentNeverMatches(d);
    forall sub
      ensures GetBannerMessage(env, state, Some(sub + "." + d)) == Some(state.bannerMessage)
    {
      SubdomainMatchesWildcard(sub, d);
      assert EntryMatches(sub + "." + d, state.bannerSubdomains[0]);
    }
  }
}
