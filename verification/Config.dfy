/** Validation of the device and secrets documents of `app/config_schema.py`. */
module Config {
  import opened Common
  import opened Toml
  import opened TomlDoc

  datatype Error = UnknownKey | Invalid | TooNew

  const SCHEMA_VERSION := 1
  const MAX_NAME := 64
  const MAX_NTP := 3
  const DEFAULT_SERVER := "connect.prusa3d.com"
  const DEFAULT_URI := "mqtts://broker.example:8883"

  // ------------------------------------------------------------------ strings

  /** The characters Python's `str.strip` removes. */
  predicate Space(c: char) {
    var n := c as int;
    || 0x09 <= n <= 0x0D || 0x1C <= n <= 0x20 || n == 0x85 || n == 0xA0 || n == 0x1680
    || 0x2000 <= n <= 0x200A || n == 0x2028 || n == 0x2029 || n == 0x202F || n == 0x205F || n == 0x3000
  }

  function StripLeft(s: string): string {
    if s != "" && Space(s[0]) then StripLeft(s[1..]) else s
  }

  function StripRight(s: string): string {
    if s != "" && Space(s[|s| - 1]) then StripRight(s[..|s| - 1]) else s
  }

  function Strip(s: string): string { StripRight(StripLeft(s)) }

  /** Nothing to strip at either end. */
  predicate Trim(s: string) { s == "" || (!Space(s[0]) && !Space(s[|s| - 1])) }

  lemma {:induction false} StripRightTrims(s: string)
    requires s == "" || !Space(s[0])
    ensures Trim(StripRight(s))
  {
    if s != "" && Space(s[|s| - 1]) {
      StripRightTrims(s[..|s| - 1]);
    }
  }

  lemma {:induction false} StripLeftTrims(s: string)
    ensures StripLeft(s) == "" || !Space(StripLeft(s)[0])
  {
    if s != "" && Space(s[0]) {
      StripLeftTrims(s[1..]);
    }
  }

  lemma StripTrims(s: string)
    ensures Trim(Strip(s))
    ensures Trim(s) ==> Strip(s) == s
  {
    StripLeftTrims(s);
    StripRightTrims(StripLeft(s));
  }

  function Lower(s: string): string {
    seq(|s|, i requires 0 <= i < |s| =>
      if 'A' <= s[i] <= 'Z' then (s[i] as int + 32) as char else s[i])
  }

  const LEGACY_SERVERS := ["webcam.connect.prusa3d.com", "camera-service-webcam.prusa3d.com"]

  predicate Legacy(server: string) { Lower(Strip(server)) in LEGACY_SERVERS }

  function NormalizeServer(server: string): string { if Legacy(server) then DEFAULT_SERVER else server }

  predicate AlphaNum(c: char) { 'A' <= c <= 'Z' || 'a' <= c <= 'z' || '0' <= c <= '9' }

  /** A non-empty topic prefix over `[A-Za-z0-9_/-]`. */
  predicate Prefix(s: string) {
    s != "" && forall i :: 0 <= i < |s| ==> AlphaNum(s[i]) || s[i] in "_/-"
  }

  /** One label of a host name: 1 to 63 letters, digits or hyphens, no hyphen at an end. */
  predicate Label(s: string) {
    && 1 <= |s| <= 63 && AlphaNum(s[0]) && AlphaNum(s[|s| - 1])
    && forall i :: 0 <= i < |s| ==> AlphaNum(s[i]) || s[i] == '-'
  }

  function Labels(s: string): (r: seq<string>)
    ensures r != []
  {
    if s == "" then [""]
    else
      var rest := Labels(s[1..]);
      if s[0] == '.' then [""] + rest else [[s[0]] + rest[0]] + rest[1..]
  }

  predicate Host(s: string) {
    1 <= |s| <= 253 && forall i :: 0 <= i < |Labels(s)| ==> Label(Labels(s)[i])
  }

  // ------------------------------------------------------------------ the device document

  datatype Mqtt = Mqtt(
    enabled: bool, uri: string, clientId: string, discoveryPrefix: string, topicPrefix: string, caFile: string)

  datatype Device = Device(
    version: int, name: string, fingerprint: string, server: string, mqtt: Mqtt,
    hostname: string, ntp: seq<string>, meta: Option<Dict<string, string>>)

  const TABLES := ["prusa", "mqtt", "admin", "network"]

  function TableKeys(table: string): seq<string> {
    if table == "prusa" then ["server"]
    else if table == "mqtt" then ["enabled", "uri", "client_id", "discovery_prefix", "topic_prefix", "ca_file"]
    else if table == "admin" then ["hostname"]
    else if table == "network" then ["ntp_servers"]
    else []
  }

  predicate KeysIn(entries: Dict<string, Leaf>, allowed: seq<string>) {
    forall i :: 0 <= i < |entries| ==> entries[i].0 in allowed
  }

  function CheckItem(key: string, value: Value): Result<(), Error> {
    if key in TABLES then
      if value.Plain? then Err(Invalid)
      else if !KeysIn(value.entries, TableKeys(key)) then Err(UnknownKey)
      else Ok(())
    else if key == "meta" then if value.Plain? then Err(Invalid) else Ok(())
    else if key in ["schema_version", "camera_name", "fingerprint"] then Ok(())
    else Err(UnknownKey)
  }

  /** The allowlist: the first offending item in order decides. */
  function CheckKeys(data: Doc): Result<(), Error> {
    if data == [] then Ok(())
    else var _ :- CheckItem(data[0].0, data[0].1); CheckKeys(data[1..])
  }

  /** The value of a top-level key, as far as the scalar checks tell values apart. */
  function TopLeaf(data: Doc, key: string): Option<Leaf> {
    var v := Get(data, key);
    if v.None? then None else if v.value.Plain? then Some(v.value.leaf) else Some(Other)
  }

  function SectionOf(data: Doc, table: string): Dict<string, Leaf> {
    var v := Get(data, table);
    if v.Some? && v.value.Table? then v.value.entries else []
  }

  function ExpectStr(l: Option<Leaf>, default: string): Result<string, Error> {
    match l
    case None => Ok(default)
    case Some(Str(s)) => Ok(s)
    case Some(_) => Err(Invalid)
  }

  function CheckVersion(l: Option<Leaf>): Result<int, Error> {
    match l
    case None => Ok(1)
    case Some(Int(n)) => if n > SCHEMA_VERSION then Err(TooNew) else Ok(n)
    case Some(_) => Err(Invalid)
  }

  function CheckName(l: Option<Leaf>): Result<string, Error> {
    if l.None? then Ok("Printer Camera")
    else
      var s :- ExpectStr(l, "");
      var name := Strip(s);
      if name == "" || |name| > MAX_NAME then Err(Invalid) else Ok(name)
  }

  function CheckBool(l: Option<Leaf>): Result<bool, Error> {
    match l
    case None => Ok(false)
    case Some(Bool(b)) => Ok(b)
    case Some(_) => Err(Invalid)
  }

  function CheckUri(l: Option<Leaf>, uriOk: string -> bool): Result<string, Error> {
    if l.None? then Ok(DEFAULT_URI)
    else var s :- ExpectStr(l, ""); if uriOk(s) then Ok(s) else Err(Invalid)
  }

  function CheckPrefix(l: Option<Leaf>, default: string): Result<string, Error> {
    if l.None? then Ok(default)
    else var s :- ExpectStr(l, ""); if Prefix(s) then Ok(s) else Err(Invalid)
  }

  /** The stripped host names, each once, in order of first appearance. */
  function CheckHosts(items: seq<Option<string>>, done: seq<string>): Result<seq<string>, Error>
    decreases |items|
  {
    if items == [] then Ok(done)
    else if items[0].None? || !Host(Strip(items[0].value)) then Err(Invalid)
    else
      var name := Strip(items[0].value);
      CheckHosts(items[1..], if name in done then done else done + [name])
  }

  function CheckNtp(l: Option<Leaf>): Result<seq<string>, Error> {
    match l
    case None => Ok([])
    case Some(List(items)) => if |items| > MAX_NTP then Err(Invalid) else CheckHosts(items, [])
    case Some(_) => Err(Invalid)
  }

  /** The validator's own loop over the entries. */
  method CheckHostsLoop(items: seq<Option<string>>) returns (r: Result<seq<string>, Error>)
    ensures r == CheckHosts(items, [])
  {
    var servers: seq<string> := [];
    for k := 0 to |items|
      invariant CheckHosts(items[k..], servers) == CheckHosts(items, [])
    {
      assert items[k..][1..] == items[k + 1..];
      if items[k].None? {
        return Err(Invalid);
      }
      var name := Strip(items[k].value);
      if !Host(name) {
        return Err(Invalid);
      }
      if name !in servers {
        servers := servers + [name];
      }
    }
    return Ok(servers);
  }

  function MetaOf(entries: Dict<string, Leaf>): Result<Dict<string, string>, Error> {
    if entries == [] then Ok([])
    else if !entries[0].1.Str? then Err(Invalid)
    else var rest :- MetaOf(entries[1..]); Ok([(entries[0].0, entries[0].1.text)] + rest)
  }

  function CheckMeta(data: Doc): Result<Option<Dict<string, string>>, Error> {
    if !Has(data, "meta") then Ok(None)
    else var m :- MetaOf(SectionOf(data, "meta")); Ok(Some(m))
  }

  function CheckMqtt(section: Dict<string, Leaf>, uriOk: string -> bool): Result<Mqtt, Error> {
    var enabled :- CheckBool(Get(section, "enabled"));
    var uri :- CheckUri(Get(section, "uri"), uriOk);
    var clientId :- ExpectStr(Get(section, "client_id"), "");
    var caFile :- ExpectStr(Get(section, "ca_file"), "");
    var discovery :- CheckPrefix(Get(section, "discovery_prefix"), "homeassistant");
    var topic :- CheckPrefix(Get(section, "topic_prefix"), "pibuddycam");
    Ok(Mqtt(enabled, uri, clientId, discovery, topic, caFile))
  }

  function ValidateDevice(data: Doc, uriOk: string -> bool): Result<Device, Error> {
    var _ :- CheckKeys(data);
    var version :- CheckVersion(TopLeaf(data, "schema_version"));
    var name :- CheckName(TopLeaf(data, "camera_name"));
    var fingerprint :- ExpectStr(TopLeaf(data, "fingerprint"), "");
    var server :- ExpectStr(Get(SectionOf(data, "prusa"), "server"), DEFAULT_SERVER);
    var mqtt :- CheckMqtt(SectionOf(data, "mqtt"), uriOk);
    var hostname :- ExpectStr(Get(SectionOf(data, "admin"), "hostname"), "");
    var ntp :- CheckNtp(Get(SectionOf(data, "network"), "ntp_servers"));
    var meta :- CheckMeta(data);
    Ok(Device(version, name, fingerprint, NormalizeServer(server), mqtt, hostname, ntp, meta))
  }
}
