/** What validating a document means: which are accepted, as what, and what the others fail on. */
module ConfigMeans {
  import opened Common
  import opened Toml
  import opened TomlDoc
  import opened Config
  import S = ConfigSecrets

  // ------------------------------------------------------------------ keys

  /** A documented scalar, a documented table with documented keys only, or the open table `meta`. */
  ghost predicate KnownItem(key: string, value: Value) {
    || key in {"schema_version", "camera_name", "fingerprint"}
    || (key == "meta" && value.Table?)
    || (&& key in {"prusa", "mqtt", "admin", "network"} && value.Table?
        && forall i :: 0 <= i < |value.entries| ==> KnownKey(key, value.entries[i].0))
  }

  predicate KnownKey(table: string, key: string) {
    || (table == "prusa" && key == "server")
    || (table == "mqtt" && key in {"enabled", "uri", "client_id", "discovery_prefix", "topic_prefix", "ca_file"})
    || (table == "admin" && key == "hostname")
    || (table == "network" && key == "ntp_servers")
  }

  lemma KeyKnown(table: string, key: string)
    requires table in TABLES
    ensures key in TableKeys(table) <==> KnownKey(table, key)
  {
    if table == "prusa" {
    } else if table == "mqtt" {
    } else if table == "admin" {
    } else {
      assert table == "network";
    }
  }

  lemma TablesAre(key: string)
    ensures key in TABLES <==> key in {"prusa", "mqtt", "admin", "network"}
  {
    assert TABLES[0] == "prusa" && TABLES[1] == "mqtt" && TABLES[2] == "admin" && TABLES[3] == "network";
  }

  /** An item passes exactly when it is known; a documented name that is no table is invalid, anything else unknown. */
  lemma ItemMeans(key: string, value: Value)
    ensures CheckItem(key, value).Ok? <==> KnownItem(key, value)
    ensures CheckItem(key, value) == Err(Invalid) <==>
      value.Plain? && key in {"prusa", "mqtt", "admin", "network", "meta"}
    ensures CheckItem(key, value) in {Ok(()), Err(Invalid), Err(UnknownKey)}
  {
    TablesAre(key);
    if value.Table? && key in TABLES {
      forall k ensures k in TableKeys(key) <==> KnownKey(key, k) {
        KeyKnown(key, k);
      }
      hide TableKeys, KnownKey;
    }
  }

  ghost predicate AllKnown(data: Doc) { forall i :: 0 <= i < |data| ==> KnownItem(data[i].0, data[i].1) }

  /** The first item that is not known decides. */
  lemma {:induction false} KeysMean(data: Doc)
    ensures CheckKeys(data).Ok? <==> AllKnown(data)
    ensures forall i :: 0 <= i < |data| && !KnownItem(data[i].0, data[i].1) && AllKnown(data[..i]) ==>
      CheckKeys(data) == CheckItem(data[i].0, data[i].1)
  {
    hide CheckItem, KnownItem;
    if data != [] {
      ItemMeans(data[0].0, data[0].1);
      KeysMean(data[1..]);
      var rest := data[1..];
      assert forall i :: 0 <= i < |rest| ==> rest[i] == data[i + 1];
      forall i | 0 <= i < |data| && !KnownItem(data[i].0, data[i].1) && AllKnown(data[..i])
        ensures CheckKeys(data) == CheckItem(data[i].0, data[i].1)
      {
        if i > 0 {
          assert data[..i][0] == data[0];
          var front := rest[..i - 1];
          forall j | 0 <= j < |front| ensures KnownItem(front[j].0, front[j].1) {
            assert front[j] == data[..i][j + 1];
          }
          assert AllKnown(front);
        } else {
          assert CheckItem(data[0].0, data[0].1).Err?;
        }
      }
      assert AllKnown(data) <==> KnownItem(data[0].0, data[0].1) && AllKnown(rest);
    }
  }

  // ------------------------------------------------------------------ fields

  /** The text of a key, or its default when it is absent. */
  ghost predicate TextIs(l: Option<Leaf>, default: string, v: string) {
    (l.None? && v == default) || l == Some(Str(v))
  }

  /** `v` is `s` without the blanks around it. */
  ghost predicate Trimmed(s: string, v: string) {
    && Trim(v)
    && exists a: nat, b: nat :: a <= b <= |s| && v == s[a..b]
         && (forall i :: 0 <= i < a ==> Space(s[i])) && (forall i :: b <= i < |s| ==> Space(s[i]))
  }

  lemma {:induction false} LeftTrimmed(s: string) returns (a: nat)
    ensures a <= |s| && StripLeft(s) == s[a..] && forall i :: 0 <= i < a ==> Space(s[i])
  {
    a := 0;
    if s != "" && Space(s[0]) {
      var k := LeftTrimmed(s[1..]);
      a := k + 1;
      assert s[1..][k..] == s[a..];
      forall i | 0 <= i < a ensures Space(s[i]) {
        assert i > 0 ==> s[i] == s[1..][i - 1];
      }
    }
  }

  lemma {:induction false} RightTrimmed(s: string) returns (b: nat)
    ensures b <= |s| && StripRight(s) == s[..b] && forall i :: b <= i < |s| ==> Space(s[i])
  {
    b := |s|;
    if s != "" && Space(s[|s| - 1]) {
      b := RightTrimmed(s[..|s| - 1]);
    }
  }

  /** Stripping trims. */
  lemma StripMeans(s: string)
    ensures Trimmed(s, Strip(s))
  {
    hide Space;
    StripTrims(s);
    var a := LeftTrimmed(s);
    var b := RightTrimmed(s[a..]);
    assert s[a..][..b] == s[a..a + b];
    forall i | a + b <= i < |s| ensures Space(s[i]) {
      assert s[i] == s[a..][i - a];
    }
  }

  ghost predicate NameIs(l: Option<Leaf>, v: string) {
    || (l.None? && v == "Printer Camera")
    || (l.Some? && l.value.Str? && v == Strip(l.value.text) && 1 <= |v| <= 64)
  }

  ghost predicate PrefixIs(l: Option<Leaf>, default: string, v: string) {
    (l.None? && v == default) || (l == Some(Str(v)) && Prefix(v))
  }

  ghost predicate MqttIs(section: Dict<string, Leaf>, uriOk: string -> bool, m: Mqtt) {
    && ((Get(section, "enabled").None? && !m.enabled) || Get(section, "enabled") == Some(Bool(m.enabled)))
    && ((Get(section, "uri").None? && m.uri == "mqtts://broker.example:8883")
        || (Get(section, "uri") == Some(Str(m.uri)) && uriOk(m.uri)))
    && TextIs(Get(section, "client_id"), "", m.clientId)
    && TextIs(Get(section, "ca_file"), "", m.caFile)
    && PrefixIs(Get(section, "discovery_prefix"), "homeassistant", m.discoveryPrefix)
    && PrefixIs(Get(section, "topic_prefix"), "pibuddycam", m.topicPrefix)
  }

  lemma MqttMeans(section: Dict<string, Leaf>, uriOk: string -> bool, m: Mqtt)
    ensures CheckMqtt(section, uriOk) == Ok(m) <==> MqttIs(section, uriOk, m)
  {
    hide Get, Prefix;
  }

  /** At most three names; each is a text that trims to a host name, and they are kept once each in order. */
  ghost predicate NtpIs(l: Option<Leaf>, v: seq<string>) {
    || (l.None? && v == [])
    || (&& l.Some? && l.value.List? && |l.value.items| <= 3
        && (forall i :: 0 <= i < |l.value.items| ==> l.value.items[i].Some? && Host(Strip(l.value.items[i].value)))
        && Uniques(l.value.items, v))
  }

  /** `v` holds the trimmed texts of `items`, each at the place of its first appearance. */
  ghost predicate Uniques(items: seq<Option<string>>, v: seq<string>)
    requires forall i :: 0 <= i < |items| ==> items[i].Some?
    decreases |items|
  {
    if items == [] then v == []
    else
      var name, before := Strip(items[|items| - 1].value), items[..|items| - 1];
      exists w :: Uniques(before, w) && v == if name in w then w else w + [name]
  }

  lemma {:induction false} HostsFail(items: seq<Option<string>>, done: seq<string>)
    ensures CheckHosts(items, done).Ok? <==>
      forall i :: 0 <= i < |items| ==> items[i].Some? && Host(Strip(items[i].value))
    ensures CheckHosts(items, done) != Err(UnknownKey) && CheckHosts(items, done) != Err(TooNew)
    decreases |items|
  {
    hide Host, Strip;
    if items != [] && items[0].Some? && Host(Strip(items[0].value)) {
      var name := Strip(items[0].value);
      HostsFail(items[1..], if name in done then done else done + [name]);
      assert forall i :: 0 <= i < |items[1..]| ==> items[1..][i] == items[i + 1];
      assert forall i :: 0 < i < |items| ==> items[i] == items[1..][i - 1];
    }
  }

  /** Checking a list and then one more name. */
  lemma {:induction false} HostsStep(items: seq<Option<string>>, last: Option<string>, done: seq<string>)
    requires last.Some? && Host(Strip(last.value)) && CheckHosts(items, done).Ok?
    ensures var w, name := CheckHosts(items, done).value, Strip(last.value);
      CheckHosts(items + [last], done) == Ok(if name in w then w else w + [name])
    decreases |items|
  {
    hide Host, Strip;
    var all := items + [last];
    if items == [] {
      assert all[0] == last && all[1..] == [];
    } else {
      assert all[0] == items[0] && all[1..] == items[1..] + [last];
      var name := Strip(items[0].value);
      HostsStep(items[1..], last, if name in done then done else done + [name]);
    }
  }

  lemma {:induction false} HostsMean(items: seq<Option<string>>, v: seq<string>)
    requires forall i :: 0 <= i < |items| ==> items[i].Some? && Host(Strip(items[i].value))
    ensures CheckHosts(items, []) == Ok(v) <==> Uniques(items, v)
    decreases |items|
  {
    hide Host, Strip;
    if items != [] {
      var n := |items| - 1;
      HostsFail(items[..n], []);
      var w := CheckHosts(items[..n], []).value;
      HostsMean(items[..n], w);
      assert items[..n] + [items[n]] == items;
      HostsStep(items[..n], items[n], []);
      if Uniques(items, v) {
        var u :| Uniques(items[..n], u) && v == if Strip(items[n].value) in u then u else u + [Strip(items[n].value)];
        HostsMean(items[..n], u);
      }
    }
  }

  lemma NtpMeans(l: Option<Leaf>, v: seq<string>)
    ensures CheckNtp(l) == Ok(v) <==> NtpIs(l, v)
  {
    hide Host, Strip, Uniques;
    if l.Some? && l.value.List? {
      HostsFail(l.value.items, []);
      if CheckHosts(l.value.items, []).Ok? {
        HostsMean(l.value.items, v);
      }
    }
  }

  /** The metadata is the table's keys with their texts, in order, if every value is a text. */
  ghost predicate MetaIs(data: Doc, meta: Option<Dict<string, string>>) {
    if !Has(data, "meta") then meta.None?
    else
      var entries := SectionOf(data, "meta");
      && meta.Some? && |meta.value| == |entries|
      && forall i :: 0 <= i < |entries| ==> entries[i].0 == meta.value[i].0 && entries[i].1 == Str(meta.value[i].1)
  }

  lemma {:induction false} MetaEntries(entries: Dict<string, Leaf>, m: Dict<string, string>)
    ensures MetaOf(entries) == Ok(m) <==>
      && |m| == |entries|
      && forall i :: 0 <= i < |entries| ==> entries[i].0 == m[i].0 && entries[i].1 == Str(m[i].1)
    decreases |entries|
  {
    if entries != [] && m != [] {
      MetaEntries(entries[1..], m[1..]);
      assert m == [m[0]] + m[1..];
      assert forall i :: 0 <= i < |entries[1..]| ==> entries[1..][i] == entries[i + 1];
      assert forall i :: 0 <= i < |m[1..]| ==> m[1..][i] == m[i + 1];
      if MetaOf(entries) == Ok(m) {
        assert MetaOf(entries[1..]) == Ok(m[1..]);
        forall i | 0 <= i < |entries| ensures entries[i].0 == m[i].0 && entries[i].1 == Str(m[i].1) {
          if i > 0 {
            assert entries[1..][i - 1] == entries[i] && m[1..][i - 1] == m[i];
          }
        }
      }
    }
  }

  lemma MetaMeans(data: Doc, meta: Option<Dict<string, string>>)
    ensures CheckMeta(data) == Ok(meta) <==> MetaIs(data, meta)
  {
    hide SectionOf;
    if Has(data, "meta") && meta.Some? {
      MetaEntries(SectionOf(data, "meta"), meta.value);
    }
  }

  // ------------------------------------------------------------------ the document

  /** The two names of a retired server, read without blanks and case, stand for the present one. */
  ghost predicate ServerIs(l: Option<Leaf>, v: string) {
    || (l.None? && v == "connect.prusa3d.com")
    || (l.Some? && l.value.Str? &&
        (var retired := Lower(Strip(l.value.text)) in
           ["webcam.connect.prusa3d.com", "camera-service-webcam.prusa3d.com"];
         v == if retired then "connect.prusa3d.com" else l.value.text))
  }

  /** `d` is what the document says, with every absent key at its default. */
  ghost predicate Says(data: Doc, uriOk: string -> bool, d: Device) {
    && ((TopLeaf(data, "schema_version").None? && d.version == 1)
        || (TopLeaf(data, "schema_version") == Some(Int(d.version)) && d.version <= 1))
    && NameIs(TopLeaf(data, "camera_name"), d.name)
    && TextIs(TopLeaf(data, "fingerprint"), "", d.fingerprint)
    && ServerIs(Get(SectionOf(data, "prusa"), "server"), d.server)
    && MqttIs(SectionOf(data, "mqtt"), uriOk, d.mqtt)
    && TextIs(Get(SectionOf(data, "admin"), "hostname"), "", d.hostname)
    && NtpIs(Get(SectionOf(data, "network"), "ntp_servers"), d.ntp)
    && MetaIs(data, d.meta)
  }

  lemma DefaultServerKept()
    ensures NormalizeServer(DEFAULT_SERVER) == DEFAULT_SERVER
  {
    StripTrims(DEFAULT_SERVER);
    assert Trim(DEFAULT_SERVER);
    assert |Lower(DEFAULT_SERVER)| == 19;
  }

  lemma ServerMeans(l: Option<Leaf>, v: string)
    ensures ExpectStr(l, DEFAULT_SERVER).Ok? ==>
      (NormalizeServer(ExpectStr(l, DEFAULT_SERVER).value) == v <==> ServerIs(l, v))
    ensures ServerIs(l, v) ==> ExpectStr(l, DEFAULT_SERVER).Ok?
  {
    DefaultServerKept();
    hide Strip, Lower;
  }

  /**
   * Every document: it is accepted exactly when all its keys are known and it says something valid for each of them,
   * and then as exactly the device it says.
   */
  lemma ValidatesIff(data: Doc, uriOk: string -> bool, d: Device)
    ensures ValidateDevice(data, uriOk) == Ok(d) <==> AllKnown(data) && Says(data, uriOk, d)
  {
    KeysMean(data);
    var l := Get(SectionOf(data, "prusa"), "server");
    ServerMeans(l, d.server);
    MqttMeans(SectionOf(data, "mqtt"), uriOk, d.mqtt);
    NtpMeans(Get(SectionOf(data, "network"), "ntp_servers"), d.ntp);
    MetaMeans(data, d.meta);
    hide CheckKeys, AllKnown, SectionOf, TopLeaf, Get, CheckMqtt, MqttIs, CheckNtp, NtpIs, CheckMeta, MetaIs, Strip;
    hide NormalizeServer, ServerIs;
  }

  /**
   * A schema that is too new is reported as such exactly when the keys are known; an unknown key before
   * anything else.
   */
  lemma TooNewIff(data: Doc, uriOk: string -> bool)
    ensures ValidateDevice(data, uriOk) == Err(TooNew) <==>
      AllKnown(data) && TopLeaf(data, "schema_version").Some? && TopLeaf(data, "schema_version").value.Int?
      && TopLeaf(data, "schema_version").value.number > 1
    ensures !AllKnown(data) ==>
      && ValidateDevice(data, uriOk).Err?
      && CheckKeys(data) == Err(ValidateDevice(data, uriOk).error)
  {
    KeysMean(data);
    LateErrors(data, uriOk);
    hide AllKnown, SectionOf, TopLeaf, Get, CheckMqtt, CheckNtp, CheckMeta, Strip, NormalizeServer;
    if CheckKeys(data).Err? {
      KeyErrors(data);
    }
  }

  lemma {:induction false} KeyErrors(data: Doc)
    ensures CheckKeys(data) != Err(TooNew)
  {
    hide CheckItem;
    if data != [] {
      ItemMeans(data[0].0, data[0].1);
      KeyErrors(data[1..]);
    }
  }

  lemma LateErrors(data: Doc, uriOk: string -> bool)
    ensures CheckMqtt(SectionOf(data, "mqtt"), uriOk) != Err(TooNew)
    ensures CheckNtp(Get(SectionOf(data, "network"), "ntp_servers")) != Err(TooNew)
    ensures CheckMeta(data) != Err(TooNew)
  {
    hide SectionOf, Get, Prefix, CheckHosts;
    var l := Get(SectionOf(data, "network"), "ntp_servers");
    if l.Some? && l.value.List? {
      HostsFail(l.value.items, []);
    }
    MetaErrors(SectionOf(data, "meta"));
  }

  lemma {:induction false} MetaErrors(entries: Dict<string, Leaf>)
    ensures MetaOf(entries) != Err(TooNew)
  {
    if entries != [] {
      MetaErrors(entries[1..]);
    }
  }

  // ------------------------------------------------------------------ secrets

  ghost predicate KnownSecretItem(key: string, value: Value) {
    || key == "schema_version"
    || (&& key in {"prusa", "mqtt", "wifi", "admin"} && value.Table?
        && forall i :: 0 <= i < |value.entries| ==> KnownSecret(key, value.entries[i].0))
  }

  predicate KnownSecret(table: string, key: string) {
    || (table == "prusa" && key == "token")
    || (table == "mqtt" && key in {"username", "password"})
    || (table == "wifi" && key == "psk")
    || (table == "admin" && key == "password_hash")
  }

  lemma SecretTablesAre(key: string)
    ensures key in S.SECRET_TABLES <==> key in {"prusa", "mqtt", "wifi", "admin"}
  {
    var t := S.SECRET_TABLES;
    assert t[0] == "prusa" && t[1] == "mqtt" && t[2] == "wifi" && t[3] == "admin";
  }

  lemma SecretItemMeans(key: string, value: Value)
    ensures S.CheckSecretItem(key, value).Ok? <==> KnownSecretItem(key, value)
    ensures S.CheckSecretItem(key, value) == Err(Invalid) <==> value.Plain? && key in {"prusa", "mqtt", "wifi", "admin"}
  {
    SecretTablesAre(key);
    if value.Table? && key in {"prusa", "mqtt", "wifi", "admin"} {
      assert forall k :: k in S.SecretKeys(key) <==> KnownSecret(key, k);
      hide S.SecretKeys, KnownSecret;
    }
  }

  ghost predicate AllSecretsKnown(data: Doc) {
    forall i :: 0 <= i < |data| ==> KnownSecretItem(data[i].0, data[i].1)
  }

  lemma {:induction false} SecretKeysMean(data: Doc)
    ensures S.CheckSecretKeys(data).Ok? <==> AllSecretsKnown(data)
  {
    hide S.CheckSecretItem, KnownSecretItem;
    if data != [] {
      SecretItemMeans(data[0].0, data[0].1);
      SecretKeysMean(data[1..]);
      var rest := data[1..];
      assert forall i :: 0 <= i < |rest| ==> rest[i] == data[i + 1];
      assert forall i :: 0 < i < |data| ==> data[i] == rest[i - 1];
      assert AllSecretsKnown(data) <==> KnownSecretItem(data[0].0, data[0].1) && AllSecretsKnown(rest);
    }
  }

  /** A secret is the text of its key, or absent with it. */
  ghost predicate SecretIs(data: Doc, table: string, key: string, v: Option<string>) {
    var l := Get(SectionOf(data, table), key);
    (l.None? && v.None?) || (v.Some? && l == Some(Str(v.value)))
  }

  /** A secrets document is accepted exactly when its schema is not too new, its keys are known and its values texts. */
  lemma SecretsValidateIff(data: Doc, s: S.Secrets)
    ensures S.ValidateSecrets(data) == Ok(s) <==>
      && AllSecretsKnown(data)
      && (var v := TopLeaf(data, "schema_version"); v.None? || (v.value.Int? && v.value.number <= 1))
      && SecretIs(data, "prusa", "token", s.token)
      && SecretIs(data, "mqtt", "username", s.username) && SecretIs(data, "mqtt", "password", s.password)
      && SecretIs(data, "wifi", "psk", s.psk) && SecretIs(data, "admin", "password_hash", s.passwordHash)
  {
    SecretKeysMean(data);
    hide S.CheckSecretKeys, AllSecretsKnown, SectionOf, TopLeaf, Get;
  }
}
