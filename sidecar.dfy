/** The sidecar (docker/check_ip_and_store.py): it watches the WAN address,
    whether the uplink is mobile, and the UPS status read from a NUT server,
    and writes a KV key only when the value it remembers changes. */
module Sidecar {
  import opened Wrappers
  import opened Text

  /** The settings the loop uses (docker/check_ip_and_store.py:10-19). */
  datatype Settings = Settings(ipKey: string, fourGKey: string, upsKey: string,
                               enableUpsCheck: Option<string>, nutHost: string, nutUpsName: string)

  /** `os.environ.get("ENABLE_UPS_CHECK", "false").lower() == "true"`. */
  predicate UpsCheckRequested(raw: Option<string>) {
    LowerAscii(raw.GetOr("false")) == "true"
  }

  /** `ups_enabled`: requested, and both the NUT host and the UPS name set. */
  predicate UpsEnabled(s: Settings) {
    UpsCheckRequested(s.enableUpsCheck) && s.nutHost != "" && s.nutUpsName != ""
  }

  /** Any capitalisation of "true" requests the check; unset does not. */
  lemma UpsCheckRequestedMeaning(raw: string)
    ensures UpsCheckRequested(Some(raw)) <==> |raw| == 4 && forall k :: 0 <= k < 4 ==> LowerChar(raw[k]) == "true"[k]
    ensures UpsCheckRequested(Some(raw)) <==> |raw| == 4 && forall k :: 0 <= k < 4 ==> raw[k] == "true"[k] || raw[k] == "TRUE"[k]
    ensures !UpsCheckRequested(None)
  {
    assert LowerAscii("false")[0] == 'f';
    forall k | 0 <= k < |raw| && k < 4
      ensures LowerChar(raw[k]) == "true"[k] <==> raw[k] == "true"[k] || raw[k] == "TRUE"[k]
    {
      LowerCharIs(raw[k], "true"[k], "TRUE"[k]);
    }
  }

  /** The characters that lower to a given lower-case letter are that letter
      and its capital. */
  lemma LowerCharIs(ch: char, lower: char, upper: char)
    requires 'a' <= lower <= 'z' && upper as int == lower as int - 32
    ensures LowerChar(ch) == lower <==> ch == lower || ch == upper
  {
  }

  /** The second piece of a split at '"' is the text after the first '"',
      up to the next one or the end. */
  lemma SecondPiece(d: string)
    requires '"' in d
    ensures var parts := Split(d, '"');
            |parts| > 1 && |parts[0]| < |d| && d[|parts[0]|] == '"' && '"' !in d[..|parts[0]|] &&
            (d[|parts[0]| + 1..] == parts[1] || StartsWith(d[|parts[0]| + 1..], parts[1] + "\""))
  {
    var parts := Split(d, '"');
    SplitFirst(d, '"');
    var i := |parts[0]|;
    assert d[i] == '"' && d[..i] == parts[0];
    var rest := parts[1..];
    assert d[i + 1..] == Join(rest, '"');
    if |rest| > 1 {
      assert rest[1..] == parts[2..];
      assert Join(rest, '"') == parts[1] + "\"" + Join(parts[2..], '"');
      assert d[i + 1..][..|parts[1] + "\""|] == parts[1] + "\"";
    }
  }

  /** The status in a NUT reply (docker/check_ip_and_store.py:53-58): after
      stripping, a reply that starts with "VAR" and holds a '"' yields the
      text after the first '"', up to the next one or the end. */
  function ParseUpsReply(data: string): (r: Option<string>)
    ensures r.Some? <==> StartsWith(Strip(data), "VAR") && '"' in Strip(data)
    ensures r.Some? ==> '"' !in r.value
    ensures r.Some? ==> exists i :: 0 <= i < |Strip(data)| && Strip(data)[i] == '"' && '"' !in Strip(data)[..i] &&
                          (Strip(data)[i + 1..] == r.value || StartsWith(Strip(data)[i + 1..], r.value + "\""))
  {
    var d := Strip(data);
    if StartsWith(d, "VAR") && '"' in d then
      var parts := Split(d, '"');
      SecondPiece(d);
      Some(parts[1])
    else None
  }

  /** `"OB" in status`. */
  predicate Contains(s: string, p: string) {
    exists i :: 0 <= i <= |s| && OccursAt(s, p, i)
  }

  /** is_ups_on_battery (docker/check_ip_and_store.py:66-71): a missing
      status stays missing, otherwise whether it holds "OB". */
  function OnBattery(status: Option<string>): (r: Option<bool>)
    ensures r.None? <==> status.None?
    ensures r.Some? ==> (r.value <==> Contains(status.value, "OB"))
  {
    match status
    case None => None
    case Some(s) => Some(IndexOf(s, "OB").Some?)
  }

  /** "OB LB" (on battery, low battery) is on battery; "OL" is not. */
  lemma OnBatteryExamples()
    ensures OnBattery(Some("OB LB")) == Some(true)
    ensures OnBattery(Some("OL")) == Some(false)
  {
    assert OccursAt("OB LB", "OB", 0);
    assert "OL"[1] != "OB"[1];
    assert !OccursAt("OL", "OB", 0);
  }

  /** The value of the last write to `key` in a write log. */
  function LastWrite(log: seq<(string, string)>, key: string): (r: Option<string>)
    ensures r.Some? ==> (key, r.value) in log
    ensures r.None? ==> forall k :: 0 <= k < |log| ==> log[k].0 != key
  {
    if log == [] then None
    else if log[|log| - 1].0 == key then Some(log[|log| - 1].1)
    else
      var r := LastWrite(log[..|log| - 1], key);
      assert forall k :: 0 <= k < |log| - 1 ==> log[k] == log[..|log| - 1][k];
      r
  }

  /** Appending a write changes the last value of its key and no other. */
  lemma LastWriteAppend(log: seq<(string, string)>, k: string, v: string, key: string)
    ensures LastWrite(log + [(k, v)], key) == if k == key then Some(v) else LastWrite(log, key)
  {
    assert (log + [(k, v)])[..|log|] == log;
  }

  /** The three keys are distinct, as the defaults are. */
  predicate KeysDistinct(s: Settings) {
    s.ipKey != s.fourGKey && s.ipKey != s.upsKey && s.fourGKey != s.upsKey
  }

  /** The writes check_ip makes from remembered `ip` and `is4g`: the address
      key when the address changed and its PUT succeeds, then the flag key
      when the flag changed and its PUT succeeds, unless the first PUT raised. */
  function IpWrites(s: Settings, ip: Option<string>, is4g: Option<bool>, address: string, mobile: bool,
                    failing: set<string>): seq<(string, string)>
  {
    (if ip != Some(address) && s.ipKey !in failing then [(s.ipKey, address)] else []) +
    (if (ip == Some(address) || s.ipKey !in failing) && is4g != Some(mobile) && s.fourGKey !in failing
     then [(s.fourGKey, BoolText(mobile))] else [])
  }

  /** The write check_ups makes from remembered `upsOnBattery`: the key when
      there is a reading that differs and its PUT succeeds. */
  function UpsWrites(s: Settings, upsOnBattery: Option<bool>, reading: Option<bool>, failing: set<string>): seq<(string, string)>
  {
    if reading.Some? && upsOnBattery != reading && s.upsKey !in failing then [(s.upsKey, BoolText(reading.value))] else []
  }

  /** The address remembered after check_ip: the observed one, unless it
      changed and its PUT raised. */
  function IpAfter(s: Settings, ip: Option<string>, address: string, failing: set<string>): Option<string> {
    if ip == Some(address) || s.ipKey !in failing then Some(address) else ip
  }

  /** The flag remembered after check_ip: the observed one, unless its PUT
      or the address PUT before it raised. */
  function Is4gAfter(s: Settings, ip: Option<string>, is4g: Option<bool>, address: string, mobile: bool,
                     failing: set<string>): Option<bool>
  {
    if (ip == Some(address) || s.ipKey !in failing) && (is4g == Some(mobile) || s.fourGKey !in failing)
    then Some(mobile) else is4g
  }

  /** The reading remembered after check_ups: the new one, unless there is
      none or its PUT raised. */
  function UpsAfter(s: Settings, upsOnBattery: Option<bool>, reading: Option<bool>, failing: set<string>): Option<bool> {
    if reading.Some? && s.upsKey !in failing then reading else upsOnBattery
  }

  /** The reading a round passes to check_ups: none when the check is off or
      the socket raised, otherwise `is_ups_on_battery` of the parsed reply. */
  function UpsReading(s: Settings, reply: Option<string>): (r: Option<bool>)
    ensures !UpsEnabled(s) || reply.None? ==> r.None?
    ensures UpsEnabled(s) && reply.Some? ==> (r.Some? <==> ParseUpsReply(reply.value).Some?)
  {
    if UpsEnabled(s) && reply.Some? then OnBattery(ParseUpsReply(reply.value)) else None
  }

  /** The loop's `state` dict and the KV writes it has made. */
  class Watcher {
    const settings: Settings
    var ip: Option<string>
    var is4g: Option<bool>
    var upsOnBattery: Option<bool>
    /** Every successful `update_cloudflare_kv(key, value)`, in order. */
    var writes: seq<(string, string)>

    /** What is remembered is what was last written under each key. */
    predicate Mirrors()
      reads this
    {
      KeysDistinct(settings) ==>
        (ip.Some? ==> LastWrite(writes, settings.ipKey) == Some(ip.value)) &&
        (is4g.Some? ==> LastWrite(writes, settings.fourGKey) == Some(BoolText(is4g.value))) &&
        (upsOnBattery.Some? ==> LastWrite(writes, settings.upsKey) == Some(BoolText(upsOnBattery.value)))
    }

    /** The state starts all `None` (docker/check_ip_and_store.py:108). */
    constructor (settings: Settings)
      ensures this.settings == settings
      ensures ip == None && is4g == None && upsOnBattery == None && writes == []
      ensures Mirrors()
    {
      this.settings := settings;
      ip, is4g, upsOnBattery := None, None, None;
      writes := [];
    }

    /** update_cloudflare_kv: `fails` is whether the PUT raises, in which case
        nothing is recorded. */
    method Put(key: string, value: string, fails: bool) returns (ok: bool)
      modifies this`writes
      ensures ok == !fails
      ensures ok ==> writes == old(writes) + [(key, value)]
      ensures !ok ==> writes == old(writes)
    {
      ok := !fails;
      if ok {
        writes := writes + [(key, value)];
      }
    }

    /** check_ip with the observed address and mobile flag; a PUT to a key in
        `failing` raises, which ends the call (`ok` false) with the remembered
        value unchanged, so the write is retried on the next round. */
    method CheckIp(address: string, mobile: bool, failing: set<string>) returns (ok: bool)
      modifies this`ip, this`is4g, this`writes
      requires Mirrors()
      ensures Mirrors() && old(writes) <= writes
      // the address key is written exactly when the address changed, and then remembered
      ensures old(ip) == Some(address) ==> ip == old(ip)
      ensures old(ip) != Some(address) && settings.ipKey in failing ==> !ok && ip == old(ip) && is4g == old(is4g) && writes == old(writes)
      ensures old(ip) != Some(address) && settings.ipKey !in failing ==> ip == Some(address)
      // past the address step, the flag key is written exactly when the flag changed
      ensures ok <==> (old(ip) == Some(address) || settings.ipKey !in failing) &&
                      (old(is4g) == Some(mobile) || settings.fourGKey !in failing)
      ensures ok ==> is4g == Some(mobile)
      ensures !ok ==> is4g == old(is4g)
      ensures ip == IpAfter(settings, old(ip), address, failing)
      ensures is4g == Is4gAfter(settings, old(ip), old(is4g), address, mobile, failing)
      ensures writes == old(writes) + IpWrites(settings, old(ip), old(is4g), address, mobile, failing)
    {
      ok := true;
      if ip != Some(address) {
        ok := Put(settings.ipKey, address, settings.ipKey in failing);
        if !ok {
          return;
        }
        LastWriteAppend(old(writes), settings.ipKey, address, settings.fourGKey);
        LastWriteAppend(old(writes), settings.ipKey, address, settings.upsKey);
        ip := Some(address);
      }
      if is4g != Some(mobile) {
        var before := writes;
        ok := Put(settings.fourGKey, BoolText(mobile), settings.fourGKey in failing);
        if !ok {
          return;
        }
        LastWriteAppend(before, settings.fourGKey, BoolText(mobile), settings.ipKey);
        LastWriteAppend(before, settings.fourGKey, BoolText(mobile), settings.upsKey);
        is4g := Some(mobile);
      }
    }

    /** check_ups with the reading `is_ups_on_battery` gave: nothing happens
        without a reading; otherwise the key is written exactly when the
        reading changed, and then remembered. */
    method CheckUps(reading: Option<bool>, failing: set<string>) returns (ok: bool)
      modifies this`upsOnBattery, this`writes
      requires Mirrors()
      ensures Mirrors() && old(writes) <= writes
      ensures reading.None? ==> ok && upsOnBattery == old(upsOnBattery) && writes == old(writes)
      ensures reading.Some? && old(upsOnBattery) == reading ==> ok && upsOnBattery == old(upsOnBattery) && writes == old(writes)
      ensures reading.Some? && old(upsOnBattery) != reading ==>
                (ok <==> settings.upsKey !in failing) &&
                (ok ==> upsOnBattery == reading && writes == old(writes) + [(settings.upsKey, BoolText(reading.value))]) &&
                (!ok ==> upsOnBattery == old(upsOnBattery) && writes == old(writes))
    ensures upsOnBattery == UpsAfter(settings, old(upsOnBattery), reading, failing)
    ensures writes == old(writes) + UpsWrites(settings, old(upsOnBattery), reading, failing)
    {
      ok := true;
      if reading.None? {
        return;
      }
      if reading != upsOnBattery {
        ok := Put(settings.upsKey, BoolText(reading.value), settings.upsKey in failing);
        if !ok {
          return;
        }
        LastWriteAppend(old(writes), settings.upsKey, BoolText(reading.value), settings.ipKey);
        LastWriteAppend(old(writes), settings.upsKey, BoolText(reading.value), settings.fourGKey);
        upsOnBattery := reading;
      }
    }

    /** One round of the main loop (docker/check_ip_and_store.py:116-128),
        sleep aside. `observed` is the address and mobile flag, `None` when
        fetching either raised; `reply` is the NUT server's reply, `None` when
        the socket raised. Each check's exception is caught. */
    method Round(observed: Option<(string, bool)>, reply: Option<string>, failing: set<string>)
      modifies this`ip, this`is4g, this`upsOnBattery, this`writes
      requires Mirrors()
      ensures Mirrors()
      // the address and the flag are remembered unless a PUT raised, and kept when nothing was observed
      ensures ip == if observed.Some? then IpAfter(settings, old(ip), observed.value.0, failing) else old(ip)
      ensures is4g == if observed.Some? then Is4gAfter(settings, old(ip), old(is4g), observed.value.0, observed.value.1, failing)
                      else old(is4g)
      // the UPS reading is remembered unless there is none or its PUT raised
      ensures upsOnBattery == UpsAfter(settings, old(upsOnBattery), UpsReading(settings, reply), failing)
      // check_ip's writes, then check_ups's
      ensures writes == old(writes) +
                (if observed.Some? then IpWrites(settings, old(ip), old(is4g), observed.value.0, observed.value.1, failing) else []) +
                UpsWrites(settings, old(upsOnBattery), UpsReading(settings, reply), failing)
    {
      if observed.Some? {
        var _ := CheckIp(observed.value.0, observed.value.1, failing);
      }
      ghost var afterIp := writes;
      assert afterIp == old(writes) +
        (if observed.Some? then IpWrites(settings, old(ip), old(is4g), observed.value.0, observed.value.1, failing) else []);
      if UpsEnabled(settings) {
        var status := if reply.Some? then ParseUpsReply(reply.value) else None;
        var _ := CheckUps(OnBattery(status), failing);
      }
      assert writes == afterIp + UpsWrites(settings, old(upsOnBattery), UpsReading(settings, reply), failing);
    }
  }
}
