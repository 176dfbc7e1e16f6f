/** The admin API (handle-api.js): read-modify-write handlers on the stored
    state object and on the two flag keys, behind a host gate and a route
    table. */
module AdminApi {
  import opened Wrappers
  import opened Js
  import opened Text
  import opened Config
  import opened TieredCache
  import opened Resolver

  const StateKey := "MAINTENANCE_STATE"
  const FourGKey := "wan-is-4g"
  const UpsKey := "ups-on-battery"

  /** `getStateObj` (handle-api.js:1-8): `JSON.parse(raw || '') || {}`, with
      `{}` on a SyntaxError too. The result is never falsy. */
  function GetStateObj(codec: Codec, raw: Option<string>): (obj: JsValue)
    ensures Truthy(Some(obj))
    // a missing, empty or unparsable text, or a falsy parse, gives `{}`
    ensures raw == None || raw == Some("") || codec.parse(raw.value) == None ==> obj == JObj(map[])
    ensures raw.Some? && raw.value != "" && codec.parse(raw.value).Some? && !Truthy(codec.parse(raw.value)) ==>
              obj == JObj(map[])
    // a truthy parse is the object the handlers work on
    ensures raw.Some? && raw.value != "" && codec.parse(raw.value).Some? && Truthy(codec.parse(raw.value)) ==>
              obj == codec.parse(raw.value).value
  {
    if raw == None || raw == Some("") then JObj(map[])
    else
      match codec.parse(raw.value)
      case None => JObj(map[])
      case Some(v) => if Truthy(Some(v)) then v else JObj(map[])
  }

  /** What `setStateObj` wrote, read back by `getStateObj`, is what was
      written. */
  lemma GetStateObjReadsBack(codec: Codec, obj: JsValue)
    requires RoundTrips(codec) && obj.JObj?
    ensures GetStateObj(codec, Some(codec.stringify(obj))) == obj
  {
    assert codec.stringify(obj) != "" && codec.parse(codec.stringify(obj)) == Some(obj);
  }

  /** The properties the handlers see on the object: those of an object; an
      array starts with none. */
  function Fields(obj: JsValue): map<string, JsValue> {
    if obj.JObj? then obj.props else map[]
  }

  /** The value `JSON.stringify(obj)` serialises after the handler assigned
      `fields`: an object carries them; an array keeps only its elements, so
      it is written back unchanged; assigning a property of any other value
      throws a TypeError in module code (`None`). */
  function Rebuild(obj: JsValue, fields: map<string, JsValue>): (r: Option<JsValue>)
    ensures obj.JObj? ==> r == Some(JObj(fields))
    ensures obj.JArr? ==> r == Some(obj)
    ensures r.None? <==> !obj.JObj? && !obj.JArr?
  {
    if obj.JObj? then Some(JObj(fields)) else if obj.JArr? then Some(obj) else None
  }

  /** Values `===` and `includes` compare by content; objects and arrays only
      by identity, so a freshly parsed one equals nothing already stored. */
  predicate IsPrimitive(v: JsValue) {
    !v.JArr? && !v.JObj?
  }

  /** `x === arg`, `arg` being `undefined` when `None`. */
  predicate SameValue(x: JsValue, arg: Binding) {
    arg.Some? && IsPrimitive(arg.value) && x == arg.value
  }

  /** `list.includes(arg)`. */
  predicate Includes(list: seq<JsValue>, arg: Binding) {
    exists k :: 0 <= k < |list| && SameValue(list[k], arg)
  }

  /** What `push(arg)` adds, as serialised: `undefined` becomes `null`. */
  function Pushed(arg: Binding): JsValue {
    arg.GetOr(JNull)
  }

  /** `if (!list.includes(arg)) list.push(arg)`. */
  function WithAdded(list: seq<JsValue>, arg: Binding): (r: seq<JsValue>)
    ensures Includes(list, arg) ==> r == list
    ensures !Includes(list, arg) ==> r == list + [Pushed(arg)]
  {
    if Includes(list, arg) then list else list + [Pushed(arg)]
  }

  predicate Distinct(list: seq<JsValue>) {
    forall i, j :: 0 <= i < j < |list| ==> list[i] != list[j]
  }

  /** Adding a primitive keeps a duplicate-free list duplicate-free, and the
      list then includes it. */
  lemma AddKeepsDistinct(list: seq<JsValue>, arg: Binding)
    requires Distinct(list) && arg.Some? && IsPrimitive(arg.value)
    ensures Distinct(WithAdded(list, arg)) && Includes(WithAdded(list, arg), arg)
  {
    var r := WithAdded(list, arg);
    if !Includes(list, arg) {
      assert r[|list|] == arg.value;
      forall i, j | 0 <= i < j < |r| ensures r[i] != r[j] {
        if j == |list| {
          assert !SameValue(list[i], arg);
        }
      }
    }
  }

  /** An undefined value (a body without the field) is never included, so
      every such request appends another `null`. */
  lemma AddUndefinedAppendsNull(list: seq<JsValue>)
    ensures WithAdded(list, None) == list + [JNull]
  {
  }

  /** `list.filter(d => d !== arg)`. */
  function Without(list: seq<JsValue>, arg: Binding): (r: seq<JsValue>)
    ensures |r| <= |list|
    ensures forall k :: 0 <= k < |r| ==> !SameValue(r[k], arg)
    ensures forall x :: x in r <==> x in list && !SameValue(x, arg)
  {
    if list == [] then []
    else
      var rest := Without(list[1..], arg);
      assert forall x :: x in list <==> x == list[0] || x in list[1..];
      if SameValue(list[0], arg) then rest else [list[0]] + rest
  }

  /** Filtering works piece by piece, so the order of what remains is kept. */
  lemma {:induction false} WithoutAppend(a: seq<JsValue>, b: seq<JsValue>, arg: Binding)
    ensures Without(a + b, arg) == Without(a, arg) + Without(b, arg)
  {
    if a == [] {
      assert a + b == b;
    } else {
      assert (a + b)[1..] == a[1..] + b;
      WithoutAppend(a[1..], b, arg);
    }
  }

  /** Every element not equal to the removed value keeps all its copies. */
  lemma {:induction false} WithoutKeepsOthers(list: seq<JsValue>, arg: Binding, x: JsValue)
    requires !SameValue(x, arg)
    ensures multiset(Without(list, arg))[x] == multiset(list)[x]
  {
    if list != [] {
      WithoutKeepsOthers(list[1..], arg, x);
      assert list == [list[0]] + list[1..];
    }
  }

  /** A request: its path, its HTTP method and its JSON body. */
  datatype Request = Request(path: string, verb: string, body: JsValue)

  /** The KV write a handler makes, if any. */
  datatype Effect = NoWrite | Write(key: string, value: string)

  /** A handler's reply status and write; `Fails` where it throws (no write). */
  datatype Outcome = Outcome(status: int, effect: Effect) | Fails

  function Apply(kv: map<string, string>, e: Effect): map<string, string> {
    match e
    case NoWrite => kv
    case Write(k, v) => kv[k := v]
  }

  /** `const { key } = body`: destructuring `null` throws. */
  function Arg(body: JsValue, key: string): Completion<Binding> {
    if body == JNull then Throws else Normal(Prop(body, key))
  }

  /** Write the object rebuilt with `fields` (setStateObj), or fail. */
  function Store(codec: Codec, obj: JsValue, fields: map<string, JsValue>): (o: Outcome)
    ensures o.Outcome? ==> o.status == 200 && o.effect.Write? && o.effect.key == StateKey
  {
    match Rebuild(obj, fields)
    case Some(v) => Outcome(200, Write(StateKey, codec.stringify(v)))
    case None => Fails
  }

  /** toggleGlobalMaintenance (handle-api.js:23-28). */
  function ToggleGlobal(codec: Codec, raw: Option<string>): Outcome {
    var obj := GetStateObj(codec, raw);
    var f := Fields(obj);
    Store(codec, obj, f["isGlobalMaintenance" := JBool(!EnvIsTrue(Prop(JObj(f), "isGlobalMaintenance")))])
  }

  /** The shared shape of the two add handlers (handle-api.js:30-39, 61-71):
      normalise the list, then append and write only when absent. */
  function AddTo(codec: Codec, raw: Option<string>, listKey: string, arg: Binding): Outcome {
    var obj := GetStateObj(codec, raw);
    var f := Fields(obj);
    var list := ListField(Prop(JObj(f), listKey));
    if Rebuild(obj, f).None? then Fails
    else if Includes(list, arg) then Outcome(200, NoWrite)
    else Store(codec, obj, f[listKey := JArr(WithAdded(list, arg))])
  }

  /** The shared shape of the two remove handlers (handle-api.js:41-48,
      73-81): filter and always write. */
  function RemoveFrom(codec: Codec, raw: Option<string>, listKey: string, arg: Binding): Outcome {
    var obj := GetStateObj(codec, raw);
    var f := Fields(obj);
    Store(codec, obj, f[listKey := JArr(Without(ListField(Prop(JObj(f), listKey)), arg))])
  }

  /** `typeof arg === 'string'`. */
  predicate IsString(arg: Binding) {
    arg.Some? && arg.value.JStr?
  }

  /** The handler a route runs. */
  datatype Handler =
    | ToggleGlobalHandler
    | AddMaintenanceHandler
    | RemoveMaintenanceHandler
    | SetBannerSubdomainsHandler
    | AddBannerHandler
    | RemoveBannerHandler
    | SetBannerMessageHandler
    | Toggle4gHandler
    | Set4gHandler
    | ToggleUpsHandler
    | SetUpsHandler

  /** One row of the route table. */
  datatype Route = Route(path: string, verb: string, handler: Handler)

  /** The route table (handle-api.js:139-151). */
  const Routes: seq<Route> := [
    Route("/worker/api/toggle-maintenance/global", "POST", ToggleGlobalHandler),
    Route("/worker/api/maintenance/subdomain/add", "POST", AddMaintenanceHandler),
    Route("/worker/api/maintenance/subdomain/remove", "POST", RemoveMaintenanceHandler),
    Route("/worker/api/banner/subdomains", "POST", SetBannerSubdomainsHandler),
    Route("/worker/api/banner/subdomains/add", "POST", AddBannerHandler),
    Route("/worker/api/banner/subdomains/remove", "POST", RemoveBannerHandler),
    Route("/worker/api/banner/message", "POST", SetBannerMessageHandler),
    Route("/worker/api/toggle-4g-mode", "POST", Toggle4gHandler),
    Route("/worker/api/4g-mode", "POST", Set4gHandler),
    Route("/worker/api/toggle-ups-mode", "POST", ToggleUpsHandler),
    Route("/worker/api/ups-mode", "POST", SetUpsHandler)]

  /** `routes.find(...)` from index `i`: the first route at or after `i`
      whose path and method both equal the request's. */
  function FindRouteFrom(path: string, verb: string, i: nat): (r: Option<nat>)
    requires i <= |Routes|
    decreases |Routes| - i
    ensures r.Some? ==> i <= r.value < |Routes| && Routes[r.value].path == path && Routes[r.value].verb == verb
    ensures r.Some? ==> forall j :: i <= j < r.value ==> Routes[j].path != path || Routes[j].verb != verb
    ensures r.None? ==> forall j :: i <= j < |Routes| ==> Routes[j].path != path || Routes[j].verb != verb
  {
    if i == |Routes| then None
    else if Routes[i].path == path && Routes[i].verb == verb then Some(i)
    else FindRouteFrom(path, verb, i + 1)
  }

  /** The handler selected for a path and method, if any. */
  function FindRoute(path: string, verb: string): Option<Handler> {
    match FindRouteFrom(path, verb, 0)
    case Some(i) => Some(Routes[i].handler)
    case None => None
  }

  /** A handler on the stored state text `raw`, the worker's snapshot
      `state` and the request body. */
  function RunHandler(h: Handler, env: Env, codec: Codec, raw: Option<string>, state: Snapshot, body: JsValue): Outcome {
    match h
    case ToggleGlobalHandler => ToggleGlobal(codec, raw)
    case AddMaintenanceHandler =>
      (match Arg(body, "subdomain")
       case Throws => Fails
       case Normal(arg) => AddTo(codec, raw, "subdomainsMaintenance", arg))
    case RemoveMaintenanceHandler =>
      (match Arg(body, "subdomain")
       case Throws => Fails
       case Normal(arg) => RemoveFrom(codec, raw, "subdomainsMaintenance", arg))
    case SetBannerSubdomainsHandler =>
      (match Arg(body, "subdomains")
       case Throws => Fails
       case Normal(arg) =>
         if !(arg.Some? && arg.value.JArr?) then Outcome(400, NoWrite)
         else
           var obj := GetStateObj(codec, raw);
           Store(codec, obj, Fields(obj)["bannerSubdomains" := arg.value]))
    case AddBannerHandler =>
      (match Arg(body, "subdomain")
       case Throws => Fails
       case Normal(arg) => if !IsString(arg) then Outcome(400, NoWrite) else AddTo(codec, raw, "bannerSubdomains", arg))
    case RemoveBannerHandler =>
      (match Arg(body, "subdomain")
       case Throws => Fails
       case Normal(arg) => if !IsString(arg) then Outcome(400, NoWrite) else RemoveFrom(codec, raw, "bannerSubdomains", arg))
    case SetBannerMessageHandler =>
      (match Arg(body, "message")
       case Throws => Fails
       case Normal(arg) =>
         if !IsString(arg) then Outcome(400, NoWrite)
         else
           var obj := GetStateObj(codec, raw);
           Store(codec, obj, Fields(obj)["bannerMessage" := arg.value]))
    case Toggle4gHandler =>
      if !Truthy(env.enable4gBanner) then Outcome(403, NoWrite)
      else Outcome(200, Write(FourGKey, BoolText(!state.is4gMode)))
    case Set4gHandler =>
      if !Truthy(env.enable4gBanner) then Outcome(403, NoWrite)
      else
        (match Arg(body, "enabled")
         case Throws => Fails
         case Normal(arg) =>
           if !(arg.Some? && arg.value.JBool?) then Outcome(400, NoWrite)
           else Outcome(200, Write(FourGKey, BoolText(arg.value.b))))
    case ToggleUpsHandler =>
      if !Truthy(env.enableUpsBanner) then Outcome(403, NoWrite)
      else Outcome(200, Write(UpsKey, BoolText(!state.upsOnBattery)))
    case SetUpsHandler =>
      if !Truthy(env.enableUpsBanner) then Outcome(403, NoWrite)
      else
        (match Arg(body, "enabled")
         case Throws => Fails
         case Normal(arg) =>
           if !(arg.Some? && arg.value.JBool?) then Outcome(400, NoWrite)
           else Outcome(200, Write(UpsKey, BoolText(arg.value.b))))
  }

  /** The handlers of the state blob answer 200 when they write, and write
      only the state key. */
  lemma BlobHandlerWrites(h: Handler, env: Env, codec: Codec, raw: Option<string>, state: Snapshot, body: JsValue)
    requires h !in {Toggle4gHandler, Set4gHandler, ToggleUpsHandler, SetUpsHandler}
    ensures var o := RunHandler(h, env, codec, raw, state, body);
            o.Outcome? && o.effect.Write? ==> o.effect.key == StateKey && o.status == 200
  {
    if h in {AddMaintenanceHandler, RemoveMaintenanceHandler, AddBannerHandler, RemoveBannerHandler} {
      ListHandlerWrites(h, env, codec, raw, state, body);
    } else {
      match h
      case ToggleGlobalHandler =>
      case SetBannerSubdomainsHandler =>
      case SetBannerMessageHandler =>
    }
  }

  /** The add and remove handlers write only the state key, with 200. */
  lemma ListHandlerWrites(h: Handler, env: Env, codec: Codec, raw: Option<string>, state: Snapshot, body: JsValue)
    requires h in {AddMaintenanceHandler, RemoveMaintenanceHandler, AddBannerHandler, RemoveBannerHandler}
    ensures var o := RunHandler(h, env, codec, raw, state, body);
            o.Outcome? && o.effect.Write? ==> o.effect.key == StateKey && o.status == 200
  {
    match h
    case AddMaintenanceHandler =>
    case RemoveMaintenanceHandler =>
    case AddBannerHandler =>
    case RemoveBannerHandler =>
  }

  /** The 4G and UPS handlers answer 200 when they write, and write only
      their own flag key. */
  lemma FlagHandlerWrites(h: Handler, env: Env, codec: Codec, raw: Option<string>, state: Snapshot, body: JsValue)
    requires h in {Toggle4gHandler, Set4gHandler, ToggleUpsHandler, SetUpsHandler}
    ensures var o := RunHandler(h, env, codec, raw, state, body);
            o.Outcome? && o.effect.Write? ==>
              o.effect.key == (if h in {Toggle4gHandler, Set4gHandler} then FourGKey else UpsKey) && o.status == 200
  {
    match h
    case Toggle4gHandler =>
    case Set4gHandler =>
    case ToggleUpsHandler =>
    case SetUpsHandler =>
  }

  /** Every handler answers 200 when it writes, and writes only the state
      key or its own flag key. */
  lemma HandlerWritesStateKeys(h: Handler, env: Env, codec: Codec, raw: Option<string>, state: Snapshot, body: JsValue)
    ensures var o := RunHandler(h, env, codec, raw, state, body);
            o.Outcome? && o.effect.Write? ==> o.effect.key in {StateKey, FourGKey, UpsKey} && o.status == 200
  {
    if h in {Toggle4gHandler, Set4gHandler, ToggleUpsHandler, SetUpsHandler} {
      FlagHandlerWrites(h, env, codec, raw, state, body);
    } else {
      BlobHandlerWrites(h, env, codec, raw, state, body);
    }
  }

  /** The request is on the admin host: `host === MAINTENANCE_DOMAIN`, which
      fails when either is missing. */
  predicate OnAdminHost(env: Env, host: Option<string>) {
    host.Some? && env.maintenanceDomain == host
  }

  /** handleApi (handle-api.js:153-164) as a function of the stored state. */
  function Decide(env: Env, codec: Codec, kv: map<string, string>, state: Snapshot, host: Option<string>, req: Request): (o: Outcome)
    // the host gate comes before any route lookup or handler
    ensures !OnAdminHost(env, host) ==> o == Outcome(403, NoWrite)
    // an unknown path or method is refused without a write
    ensures OnAdminHost(env, host) && FindRoute(req.path, req.verb).None? ==> o == Outcome(403, NoWrite)
    // only the state key and the two flag keys are ever written
    ensures o.Outcome? && o.effect.Write? ==> o.effect.key in {StateKey, FourGKey, UpsKey} && o.status == 200
  {
    if !OnAdminHost(env, host) then Outcome(403, NoWrite)
    else
      match FindRoute(req.path, req.verb)
      case None => Outcome(403, NoWrite)
      case Some(h) =>
        HandlerWritesStateKeys(h, env, codec, StoreGet(kv, StateKey), state, req.body);
        RunHandler(h, env, codec, StoreGet(kv, StateKey), state, req.body)
  }

  /** The global object: `cache` is `globalThis.cache`, which the worker
      never sets (its own cache is a module-level constant). */
  class GlobalScope {
    var cache: LocalCache?

    constructor (cache: LocalCache?)
      ensures this.cache == cache
    {
      this.cache := cache;
    }
  }

  /** invalidateCache (handle-api.js:15-21): reset the three entries of
      `globalThis.cache` when there is one, and nothing else. */
  method InvalidateCache(g: GlobalScope)
    modifies g.cache
    ensures g.cache != null ==> forall slot :: g.cache.Get(slot) == EmptyEntry
  {
    if g.cache != null {
      g.cache.Reset();
    }
  }

  /** handleApi: gate, route lookup by a scan of the table, then the
      handler's write followed by invalidateCache. */
  method HandleApi(p: Platform, g: GlobalScope, env: Env, codec: Codec, state: Snapshot, host: Option<string>, req: Request)
    returns (status: Option<int>)
    modifies p`kv, g.cache
    ensures var o := Decide(env, codec, old(p.kv), state, host, req);
            (o == Fails ==> status == None && p.kv == old(p.kv)) &&
            (o.Outcome? ==> status == Some(o.status) && p.kv == Apply(old(p.kv), o.effect))
    ensures var o := Decide(env, codec, old(p.kv), state, host, req);
            g.cache != null && o.Outcome? && o.effect.Write? ==> forall slot :: g.cache.Get(slot) == EmptyEntry
    ensures var o := Decide(env, codec, old(p.kv), state, host, req);
            g.cache != null && !(o.Outcome? && o.effect.Write?) ==> forall slot :: g.cache.Get(slot) == old(g.cache.Get(slot))
    ensures p.shared == old(p.shared)
  {
    if !(host.Some? && env.maintenanceDomain == host) {
      return Some(403);
    }
    var i := 0;
    while i < |Routes| && !(Routes[i].path == req.path && Routes[i].verb == req.verb)
      invariant 0 <= i <= |Routes|
      invariant FindRouteFrom(req.path, req.verb, 0) == FindRouteFrom(req.path, req.verb, i)
    {
      i := i + 1;
    }
    if i == |Routes| {
      return Some(403);
    }
    assert FindRoute(req.path, req.verb) == Some(Routes[i].handler);
    var o := RunHandler(Routes[i].handler, env, codec, StoreGet(p.kv, StateKey), state, req.body);
    match o
    case Fails =>
      status := None;
    case Outcome(code, effect) =>
      if effect.Write? {
        p.kv := p.kv[effect.key := effect.value];
        InvalidateCache(g);
      }
      status := Some(code);
  }

  /** A request off the admin host changes nothing, whatever its path. */
  lemma GateBeforeRoutes(env: Env, codec: Codec, kv: map<string, string>, state: Snapshot, host: Option<string>, req: Request)
    requires req.path == "/worker/api/toggle-maintenance/global" && req.verb == "POST"
    requires env.maintenanceDomain == None
    ensures Decide(env, codec, kv, state, host, req) == Outcome(403, NoWrite)
  {
  }

  /** The global toggle stores the negation of the stored flag and keeps
      every other property of a stored object. */
  lemma ToggleNegatesAndKeepsRest(codec: Codec, raw: Option<string>)
    requires RoundTrips(codec)
    requires GetStateObj(codec, raw).JObj?
    ensures var before := GetStateObj(codec, raw);
            var o := ToggleGlobal(codec, raw);
            o.Outcome? && o.effect.Write? && o.effect.key == StateKey &&
            var after := GetStateObj(codec, Some(o.effect.value));
            after.JObj? &&
            (EnvIsTrue(Prop(after, "isGlobalMaintenance")) <==> !EnvIsTrue(Prop(before, "isGlobalMaintenance"))) &&
            (forall k :: k != "isGlobalMaintenance" ==> Prop(after, k) == Prop(before, k))
  {
    var before := GetStateObj(codec, raw);
    var f := before.props;
    var written := JObj(f["isGlobalMaintenance" := JBool(!EnvIsTrue(Prop(JObj(f), "isGlobalMaintenance")))]);
    GetStateObjReadsBack(codec, written);
  }

  /** An add writes only when the value is absent; what it writes reads back
      as the old list with the value appended, and a duplicate-free list
      stays duplicate-free. */
  lemma AddWritesOnlyOnChange(codec: Codec, raw: Option<string>, listKey: string, arg: Binding)
    requires RoundTrips(codec) && arg.Some? && IsPrimitive(arg.value)
    requires GetStateObj(codec, raw).JObj?
    ensures var before := ListField(Prop(GetStateObj(codec, raw), listKey));
            var o := AddTo(codec, raw, listKey, arg);
            o.Outcome? && o.status == 200 &&
            (o.effect == NoWrite <==> Includes(before, arg)) &&
            (o.effect.Write? ==>
               var after := ListField(Prop(GetStateObj(codec, Some(o.effect.value)), listKey));
               after == before + [arg.value] && (Distinct(before) ==> Distinct(after)))
  {
    var obj := GetStateObj(codec, raw);
    var before := ListField(Prop(obj, listKey));
    if !Includes(before, arg) {
      var written := JObj(obj.props[listKey := JArr(WithAdded(before, arg))]);
      GetStateObjReadsBack(codec, written);
      if Distinct(before) {
        AddKeepsDistinct(before, arg);
      }
    }
  }

  /** A remove always writes, and what it writes reads back as the old list
      without any copy of the value. */
  lemma RemoveAlwaysWrites(codec: Codec, raw: Option<string>, listKey: string, arg: Binding)
    requires RoundTrips(codec)
    requires GetStateObj(codec, raw).JObj?
    ensures var before := ListField(Prop(GetStateObj(codec, raw), listKey));
            var o := RemoveFrom(codec, raw, listKey, arg);
            o.Outcome? && o.effect.Write? && o.effect.key == StateKey &&
            ListField(Prop(GetStateObj(codec, Some(o.effect.value)), listKey)) == Without(before, arg)
  {
    var obj := GetStateObj(codec, raw);
    var written := JObj(obj.props[listKey := JArr(Without(ListField(Prop(obj, listKey)), arg))]);
    GetStateObjReadsBack(codec, written);
  }

  /** A valid banner-list request stores the old object with only
      `bannerSubdomains` replaced by the given array, as read back. */
  lemma SetBannerSubdomainsReplacesOnlyList(env: Env, codec: Codec, raw: Option<string>, state: Snapshot, items: seq<JsValue>,
                                            body: map<string, JsValue>)
    requires RoundTrips(codec) && GetStateObj(codec, raw).JObj?
    requires "subdomains" in body && body["subdomains"] == JArr(items)
    ensures var before := GetStateObj(codec, raw);
            var o := RunHandler(SetBannerSubdomainsHandler, env, codec, raw, state, JObj(body));
            o.Outcome? && o.status == 200 && o.effect.Write? && o.effect.key == StateKey &&
            GetStateObj(codec, Some(o.effect.value)) == JObj(before.props["bannerSubdomains" := JArr(items)])
  {
    var before := GetStateObj(codec, raw);
    GetStateObjReadsBack(codec, JObj(before.props["bannerSubdomains" := JArr(items)]));
  }

  /** A valid message request stores the old object with only
      `bannerMessage` replaced by the given text, as read back. */
  lemma SetBannerMessageReplacesOnlyMessage(env: Env, codec: Codec, raw: Option<string>, state: Snapshot, message: string,
                                            body: map<string, JsValue>)
    requires RoundTrips(codec) && GetStateObj(codec, raw).JObj?
    requires "message" in body && body["message"] == JStr(message)
    ensures var before := GetStateObj(codec, raw);
            var o := RunHandler(SetBannerMessageHandler, env, codec, raw, state, JObj(body));
            o.Outcome? && o.status == 200 && o.effect.Write? && o.effect.key == StateKey &&
            GetStateObj(codec, Some(o.effect.value)) == JObj(before.props["bannerMessage" := JStr(message)])
  {
    var before := GetStateObj(codec, raw);
    GetStateObjReadsBack(codec, JObj(before.props["bannerMessage" := JStr(message)]));
  }

  /** Rejected inputs: any body other than `null` whose field is missing or
      of the wrong type gets 400 and no write (destructuring a number, a
      string or an array reads the field as undefined); a `null` body makes
      every handler that reads it throw. */
  lemma InvalidInputIsRejected(env: Env, codec: Codec, raw: Option<string>, state: Snapshot, body: JsValue)
    ensures body != JNull && !(Prop(body, "subdomains").Some? && Prop(body, "subdomains").value.JArr?) ==>
              RunHandler(SetBannerSubdomainsHandler, env, codec, raw, state, body) == Outcome(400, NoWrite)
    ensures body != JNull && !IsString(Prop(body, "subdomain")) ==>
              RunHandler(AddBannerHandler, env, codec, raw, state, body) == Outcome(400, NoWrite) &&
              RunHandler(RemoveBannerHandler, env, codec, raw, state, body) == Outcome(400, NoWrite)
    ensures body != JNull && !IsString(Prop(body, "message")) ==>
              RunHandler(SetBannerMessageHandler, env, codec, raw, state, body) == Outcome(400, NoWrite)
    ensures body != JNull && Truthy(env.enable4gBanner) && !(Prop(body, "enabled").Some? && Prop(body, "enabled").value.JBool?) ==>
              RunHandler(Set4gHandler, env, codec, raw, state, body) == Outcome(400, NoWrite)
    ensures body != JNull && Truthy(env.enableUpsBanner) && !(Prop(body, "enabled").Some? && Prop(body, "enabled").value.JBool?) ==>
              RunHandler(SetUpsHandler, env, codec, raw, state, body) == Outcome(400, NoWrite)
    ensures body == JNull ==>
              RunHandler(AddMaintenanceHandler, env, codec, raw, state, body) == Fails &&
              RunHandler(RemoveMaintenanceHandler, env, codec, raw, state, body) == Fails &&
              RunHandler(SetBannerSubdomainsHandler, env, codec, raw, state, body) == Fails &&
              RunHandler(AddBannerHandler, env, codec, raw, state, body) == Fails &&
              RunHandler(RemoveBannerHandler, env, codec, raw, state, body) == Fails &&
              RunHandler(SetBannerMessageHandler, env, codec, raw, state, body) == Fails
    ensures body == JNull && Truthy(env.enable4gBanner) ==> RunHandler(Set4gHandler, env, codec, raw, state, body) == Fails
    ensures body == JNull && Truthy(env.enableUpsBanner) ==> RunHandler(SetUpsHandler, env, codec, raw, state, body) == Fails
  {
  }

  /** The 4G and UPS endpoints are gated by truthiness, not by the worker's
      `true`/"true" test: "false" opens them, while the worker ignores the
      flag they write. */
  lemma FlagGateIsTruthiness(env: Env, codec: Codec, raw: Option<string>, state: Snapshot, body: JsValue)
    requires env.enable4gBanner == Some(JStr("false"))
    ensures RunHandler(Toggle4gHandler, env, codec, raw, state, body) == Outcome(200, Write(FourGKey, BoolText(!state.is4gMode)))
    ensures !EnvIsTrue(env.enable4gBanner)
  {
  }

  /** The 4G and UPS endpoints check their gate before reading the body: with
      the feature off nothing is written and the status is 403, whatever the
      body; with it on, a toggle writes the negation of the snapshot the
      worker holds, whatever the body, and a set writes the requested flag. */
  lemma FlagWrites(env: Env, codec: Codec, raw: Option<string>, state: Snapshot, body: JsValue, b: bool)
    ensures !Truthy(env.enable4gBanner) ==>
              RunHandler(Toggle4gHandler, env, codec, raw, state, body) == Outcome(403, NoWrite) &&
              RunHandler(Set4gHandler, env, codec, raw, state, body) == Outcome(403, NoWrite)
    ensures !Truthy(env.enableUpsBanner) ==>
              RunHandler(ToggleUpsHandler, env, codec, raw, state, body) == Outcome(403, NoWrite) &&
              RunHandler(SetUpsHandler, env, codec, raw, state, body) == Outcome(403, NoWrite)
    ensures Truthy(env.enable4gBanner) ==>
              RunHandler(Toggle4gHandler, env, codec, raw, state, body) ==
                Outcome(200, Write(FourGKey, if state.is4gMode then "false" else "true"))
    ensures Truthy(env.enableUpsBanner) ==>
              RunHandler(ToggleUpsHandler, env, codec, raw, state, body) ==
                Outcome(200, Write(UpsKey, if state.upsOnBattery then "false" else "true"))
    ensures Truthy(env.enable4gBanner) && body != JNull && Prop(body, "enabled") == Some(JBool(b)) ==>
              RunHandler(Set4gHandler, env, codec, raw, state, body) == Outcome(200, Write(FourGKey, if b then "true" else "false"))
    ensures Truthy(env.enableUpsBanner) && body != JNull && Prop(body, "enabled") == Some(JBool(b)) ==>
              RunHandler(SetUpsHandler, env, codec, raw, state, body) == Outcome(200, Write(UpsKey, if b then "true" else "false"))
  {
  }

  /** A stored value that parses to a truthy primitive (a non-empty string,
      a non-zero number or `true`) makes every handler of the state object
      throw before writing: strict-mode code cannot assign its property. */
  lemma PrimitiveStateThrows(env: Env, codec: Codec, raw: string, listKey: string, arg: Binding, v: JsValue,
                             state: Snapshot, items: seq<JsValue>, message: string)
    requires raw != "" && codec.parse(raw) == Some(v) && Truthy(Some(v)) && IsPrimitive(v)
    ensures ToggleGlobal(codec, Some(raw)) == Fails
    ensures AddTo(codec, Some(raw), listKey, arg) == Fails
    ensures RemoveFrom(codec, Some(raw), listKey, arg) == Fails
    ensures RunHandler(SetBannerSubdomainsHandler, env, codec, Some(raw), state, JObj(map["subdomains" := JArr(items)])) == Fails
    ensures RunHandler(SetBannerMessageHandler, env, codec, Some(raw), state, JObj(map["message" := JStr(message)])) == Fails
  {
  }
}
