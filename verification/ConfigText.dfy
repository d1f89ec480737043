/** Writing a validated document and reading it back: `app/config_schema.py`'s writers against its validators. */
module ConfigText {
  import opened Common
  import opened Toml
  import opened TomlDoc
  import opened Config

  // ------------------------------------------------------------------ validated documents

  ghost predicate Hosts(ntp: seq<string>) {
    && (forall i :: 0 <= i < |ntp| ==> Trim(ntp[i]) && Host(ntp[i]))
    && (forall i, j :: 0 <= i < j < |ntp| ==> ntp[i] != ntp[j])
  }

  ghost predicate WellFormed(d: Device, uriOk: string -> bool) {
    && d.version <= SCHEMA_VERSION
    && Trim(d.name) && 1 <= |d.name| <= MAX_NAME
    && !Legacy(d.server)
    && uriOk(d.mqtt.uri) && Prefix(d.mqtt.discoveryPrefix) && Prefix(d.mqtt.topicPrefix)
    && Hosts(d.ntp) && |d.ntp| <= MAX_NTP
    && (d.meta.Some? ==> DistinctKeys(d.meta.value))
  }

  lemma {:induction false} CheckHostsSound(items: seq<Option<string>>, done: seq<string>)
    requires Hosts(done)
    ensures CheckHosts(items, done).Ok? ==>
              Hosts(CheckHosts(items, done).value) && |CheckHosts(items, done).value| <= |done| + |items|
    decreases |items|
  {
    if items != [] && items[0].Some? && Host(Strip(items[0].value)) {
      var name := Strip(items[0].value);
      StripTrims(items[0].value);
      CheckHostsSound(items[1..], if name in done then done else done + [name]);
    }
  }

  function Somes(xs: seq<string>): seq<Option<string>> { seq(|xs|, i requires 0 <= i < |xs| => Some(xs[i])) }

  lemma {:induction false} CheckHostsSame(done: seq<string>, more: seq<string>)
    requires Hosts(done + more)
    ensures CheckHosts(Somes(more), done) == Ok(done + more)
    decreases |more|
  {
    if more == [] {
      assert done + more == done;
    } else {
      assert (done + more)[|done|] == more[0];
      StripTrims(more[0]);
      assert Somes(more)[1..] == Somes(more[1..]);
      assert done + [more[0]] + more[1..] == done + more;
      CheckHostsSame(done + [more[0]], more[1..]);
      forall i | 0 <= i < |done| ensures done[i] != more[0] {
        assert (done + more)[i] == done[i];
      }
    }
  }

  lemma NotLegacyDefault()
    ensures !Legacy(DEFAULT_SERVER)
  {
    StripTrims(DEFAULT_SERVER);
    assert Trim(DEFAULT_SERVER);
    assert |Lower(DEFAULT_SERVER)| == 19;
  }

  lemma {:induction false} MetaOfKeys(entries: Dict<string, Leaf>)
    ensures MetaOf(entries).Ok? ==>
      |MetaOf(entries).value| == |entries| &&
      forall i :: 0 <= i < |entries| ==> MetaOf(entries).value[i].0 == entries[i].0
  {
    if entries != [] {
      MetaOfKeys(entries[1..]);
    }
  }

  /** A dictionary of dictionaries has distinct keys at both levels. */
  ghost predicate Sound(data: Doc) {
    DistinctKeys(data) && forall i :: 0 <= i < |data| && data[i].1.Table? ==> DistinctKeys(data[i].1.entries)
  }

  lemma MetaDistinct(data: Doc)
    requires Sound(data) && CheckMeta(data).Ok?
    ensures CheckMeta(data).value.Some? ==> DistinctKeys(CheckMeta(data).value.value)
  {
    if Has(data, "meta") {
      GetIn(data, "meta");
      MetaOfKeys(SectionOf(data, "meta"));
    }
  }

  lemma NameSound(l: Option<Leaf>)
    ensures CheckName(l).Ok? ==> Trim(CheckName(l).value) && 1 <= |CheckName(l).value| <= MAX_NAME
  {
    if l.Some? && l.value.Str? {
      StripTrims(l.value.text);
    }
    hide Strip;
    assert Trim("Printer Camera");
  }

  lemma UriSound(l: Option<Leaf>, uriOk: string -> bool)
    requires uriOk(DEFAULT_URI)
    ensures CheckUri(l, uriOk).Ok? ==> uriOk(CheckUri(l, uriOk).value)
  {
  }

  lemma PrefixSound(l: Option<Leaf>, default: string)
    requires Prefix(default)
    ensures CheckPrefix(l, default).Ok? ==> Prefix(CheckPrefix(l, default).value)
  {
  }

  lemma NtpSound(l: Option<Leaf>)
    ensures CheckNtp(l).Ok? ==> Hosts(CheckNtp(l).value) && |CheckNtp(l).value| <= MAX_NTP
  {
    if l.Some? && l.value.List? {
      CheckHostsSound(l.value.items, []);
    }
  }

  lemma MqttSound(section: Dict<string, Leaf>, uriOk: string -> bool)
    requires uriOk(DEFAULT_URI)
    ensures CheckMqtt(section, uriOk).Ok? ==>
      var m := CheckMqtt(section, uriOk).value; uriOk(m.uri) && Prefix(m.discoveryPrefix) && Prefix(m.topicPrefix)
  {
    assert Prefix("homeassistant") && Prefix("pibuddycam");
    hide Get, Prefix, ExpectStr, CheckBool, CheckPrefix, CheckUri;
    UriSound(Get(section, "uri"), uriOk);
    PrefixSound(Get(section, "discovery_prefix"), "homeassistant");
    PrefixSound(Get(section, "topic_prefix"), "pibuddycam");
  }

  /** Whatever validates is well formed. */
  lemma ValidatedIsWellFormed(data: Doc, uriOk: string -> bool)
    requires Sound(data) && uriOk(DEFAULT_URI)
    ensures ValidateDevice(data, uriOk).Ok? ==> WellFormed(ValidateDevice(data, uriOk).value, uriOk)
  {
    hide Prefix, Trim, Get, DistinctKeys, Legacy, Has, CheckMeta, CheckName, CheckMqtt, CheckNtp, Hosts;
    hide CheckKeys, ExpectStr, SectionOf, TopLeaf, Sound;
    if ValidateDevice(data, uriOk).Ok? {
      NameSound(TopLeaf(data, "camera_name"));
      MqttSound(SectionOf(data, "mqtt"), uriOk);
      NtpSound(Get(SectionOf(data, "network"), "ntp_servers"));
      NotLegacyDefault();
      MetaDistinct(data);
    }
  }

  // ------------------------------------------------------------------ the device writer

  /** Python's order on strings: by code point, a prefix first. */
  predicate AtMost(a: string, b: string) {
    a == "" || (b != "" && (a[0] < b[0] || (a[0] == b[0] && AtMost(a[1..], b[1..]))))
  }

  function Insert(k: string, v: string, m: Dict<string, string>): Dict<string, string> {
    if m == [] || AtMost(k, m[0].0) then [(k, v)] + m else [m[0]] + Insert(k, v, m[1..])
  }

  /** The items by key. */
  function SortMeta(m: Dict<string, string>): Dict<string, string> {
    if m == [] then [] else Insert(m[0].0, m[0].1, SortMeta(m[1..]))
  }

  lemma {:induction false} AtMostTotal(a: string, b: string)
    ensures AtMost(a, b) || AtMost(b, a)
  {
    if a != "" && b != "" && a[0] == b[0] {
      AtMostTotal(a[1..], b[1..]);
    }
  }

  ghost predicate Ordered(m: Dict<string, string>) {
    forall i :: 0 <= i < |m| - 1 ==> AtMost(m[i].0, m[i + 1].0)
  }

  lemma {:induction false} InsertKeeps(k: string, v: string, m: Dict<string, string>, q: string)
    requires !Has(m, k) && DistinctKeys(m) && Ordered(m)
    ensures Get(Insert(k, v, m), q) == if q == k then Some(v) else Get(m, q)
    ensures DistinctKeys(Insert(k, v, m)) && Ordered(Insert(k, v, m))
    ensures m != [] ==> Insert(k, v, m)[0].0 in {k, m[0].0}
  {
    hide AtMost;
    if m == [] || AtMost(k, m[0].0) {
      DistinctCons(k, v, m);
      assert ([(k, v)] + m)[1..] == m;
    } else {
      AtMostTotal(k, m[0].0);
      DistinctTail(m);
      InsertKeeps(k, v, m[1..], q);
      InsertKeeps(k, v, m[1..], m[0].0);
      var r := Insert(k, v, m[1..]);
      DistinctCons(m[0].0, m[0].1, r);
      assert ([m[0]] + r)[1..] == r;
      assert m[1..] != [] ==> AtMost(m[0].0, m[1].0);
      assert m[1..] == [] ==> r == [(k, v)];
    }
  }

  /** Sorting the metadata changes no lookup, so the dictionary stays equal as a Python dictionary. */
  lemma {:induction false} SortMetaSame(m: Dict<string, string>, q: string)
    requires DistinctKeys(m)
    ensures Get(SortMeta(m), q) == Get(m, q)
    ensures DistinctKeys(SortMeta(m)) && Ordered(SortMeta(m))
  {
    if m != [] {
      DistinctTail(m);
      SortMetaSame(m[1..], q);
      SortMetaSame(m[1..], m[0].0);
      InsertKeeps(m[0].0, m[0].1, SortMeta(m[1..]), q);
    }
  }

  function MetaLeaves(m: Dict<string, string>): Dict<string, Leaf> {
    if m == [] then [] else [(m[0].0, Str(m[0].1))] + MetaLeaves(m[1..])
  }

  lemma {:induction false} MetaLeavesRead(m: Dict<string, string>)
    ensures MetaOf(MetaLeaves(m)) == Ok(m)
    ensures |MetaLeaves(m)| == |m| && forall i :: 0 <= i < |m| ==> MetaLeaves(m)[i] == (m[i].0, Str(m[i].1))
  {
    if m != [] {
      MetaLeavesRead(m[1..]);
      assert MetaLeaves(m)[1..] == MetaLeaves(m[1..]);
      assert [(m[0].0, m[0].1)] + m[1..] == m;
    }
  }

  /** The lines of a device document, metadata sorted by key. */
  function DeviceLines(d: Device): seq<Line> {
    [Pair("schema_version", Int(d.version)), Pair("camera_name", Str(d.name)), Pair("fingerprint", Str(d.fingerprint))]
    + ([Blank, Header("prusa"), Pair("server", Str(d.server))]
       + MqttLines(d.mqtt)
       + [Blank, Header("admin"), Pair("hostname", Str(d.hostname))]
       + [Blank, Header("network"), Pair("ntp_servers", List(Somes(d.ntp)))]
       + if d.meta.None? then [] else [Blank, Header("meta")] + Pairs(MetaLeaves(SortMeta(d.meta.value))))
  }

  function MqttLines(m: Mqtt): seq<Line> {
    [Blank, Header("mqtt"),
     Pair("enabled", Bool(m.enabled)), Pair("uri", Str(m.uri)), Pair("client_id", Str(m.clientId)),
     Pair("discovery_prefix", Str(m.discoveryPrefix)), Pair("topic_prefix", Str(m.topicPrefix)),
     Pair("ca_file", Str(m.caFile))]
  }

  function MqttEntries(m: Mqtt): Dict<string, Leaf> {
    [("enabled", Bool(m.enabled)), ("uri", Str(m.uri)), ("client_id", Str(m.clientId)),
     ("discovery_prefix", Str(m.discoveryPrefix)), ("topic_prefix", Str(m.topicPrefix)), ("ca_file", Str(m.caFile))]
  }

  function DeviceTop(d: Device): Dict<string, Leaf> {
    [("schema_version", Int(d.version)), ("camera_name", Str(d.name)), ("fingerprint", Str(d.fingerprint))]
  }

  function MetaSections(d: Device): seq<Section> {
    if d.meta.None? then [] else [Section("meta", MetaLeaves(d.meta.value))]
  }

  function DeviceSections(d: Device): seq<Section> {
    [Section("prusa", [("server", Str(d.server))]), Section("mqtt", MqttEntries(d.mqtt)),
     Section("admin", [("hostname", Str(d.hostname))]), Section("network", [("ntp_servers", List(Somes(d.ntp)))])]
    + MetaSections(d)
  }

  function Sorted(d: Device): Device {
    if d.meta.None? then d else d.(meta := Some(SortMeta(d.meta.value)))
  }

  lemma MqttLinesAre(m: Mqtt)
    ensures SectionLines(Section("mqtt", MqttEntries(m))) == MqttLines(m)
  {
    var e := MqttEntries(m);
    assert e[1..][1..] == e[2..] && e[2..][1..] == e[3..] && e[3..][1..] == e[4..] && e[4..][1..] == e[5..];
    assert e[5..][1..] == [];
    assert Pairs(e) == [Pair(e[0].0, e[0].1)] + Pairs(e[1..]);
    assert Pairs(e[1..]) == [Pair(e[1].0, e[1].1)] + Pairs(e[2..]);
    assert Pairs(e[2..]) == [Pair(e[2].0, e[2].1)] + Pairs(e[3..]);
    assert Pairs(e[3..]) == [Pair(e[3].0, e[3].1)] + Pairs(e[4..]);
    assert Pairs(e[4..]) == [Pair(e[4].0, e[4].1)] + Pairs(e[5..]);
    assert Pairs(e[5..]) == [Pair(e[5].0, e[5].1)] + Pairs([]);
  }

  lemma TopLines(d: Device)
    ensures Pairs(DeviceTop(d)) ==
      [Pair("schema_version", Int(d.version)), Pair("camera_name", Str(d.name)),
       Pair("fingerprint", Str(d.fingerprint))]
  {
    var e := DeviceTop(d);
    assert e[1..][1..] == e[2..] && e[2..][1..] == [];
    assert Pairs(e) == [Pair(e[0].0, e[0].1)] + Pairs(e[1..]);
    assert Pairs(e[1..]) == [Pair(e[1].0, e[1].1)] + Pairs(e[2..]);
    assert Pairs(e[2..]) == [Pair(e[2].0, e[2].1)] + Pairs([]);
  }

  lemma OneEntryLines(name: string, k: string, v: Leaf)
    ensures SectionLines(Section(name, [(k, v)])) == [Blank, Header(name), Pair(k, v)]
  {
    var e: Dict<string, Leaf> := [(k, v)];
    assert e[1..] == [];
    assert Pairs(e) == [Pair(k, v)] + Pairs([]);
  }

  lemma SectionsUnfold(a: Section, b: Section, c: Section, e: Section, rest: seq<Section>)
    ensures AllSectionLines([a, b, c, e] + rest)
            == SectionLines(a) + SectionLines(b) + SectionLines(c) + SectionLines(e) + AllSectionLines(rest)
    ensures Tables([a, b, c, e] + rest) ==
            [(a.name, Table(a.entries)), (b.name, Table(b.entries)),
             (c.name, Table(c.entries)), (e.name, Table(e.entries))] + Tables(rest)
  {
    hide SectionLines;
    var s4 := [a, b, c, e] + rest;
    var s3 := [b, c, e] + rest;
    var s2 := [c, e] + rest;
    var s1 := [e] + rest;
    assert s4[1..] == s3 && s3[1..] == s2 && s2[1..] == s1 && s1[1..] == rest;
    assert AllSectionLines(s4) == SectionLines(a) + AllSectionLines(s3);
    assert AllSectionLines(s3) == SectionLines(b) + AllSectionLines(s2);
    assert AllSectionLines(s2) == SectionLines(c) + AllSectionLines(s1);
    assert AllSectionLines(s1) == SectionLines(e) + AllSectionLines(rest);
    assert Tables(s4) == [(a.name, Table(a.entries))] + Tables(s3);
    assert Tables(s3) == [(b.name, Table(b.entries))] + Tables(s2);
    assert Tables(s2) == [(c.name, Table(c.entries))] + Tables(s1);
    assert Tables(s1) == [(e.name, Table(e.entries))] + Tables(rest);
  }

  lemma MetaUnfold(d: Device)
    ensures AllSectionLines(MetaSections(d)) ==
            if d.meta.None? then [] else [Blank, Header("meta")] + Pairs(MetaLeaves(d.meta.value))
    ensures Tables(MetaSections(d)) == if d.meta.None? then [] else [("meta", Table(MetaLeaves(d.meta.value)))]
  {
    if d.meta.Some? {
      var s := MetaSections(d);
      assert s[1..] == [];
      assert AllSectionLines(s) == SectionLines(s[0]) + [];
      assert Tables(s) == [(s[0].name, Table(s[0].entries))] + [];
    }
  }

  /** The writer's lines are the top keys and tables of the sorted document. */
  lemma DeviceLinesAre(d: Device)
    ensures DeviceLines(d) == LinesOf(DeviceTop(Sorted(d)), DeviceSections(Sorted(d)))
  {
    var e := Sorted(d);
    TopLines(e);
    MqttLinesAre(e.mqtt);
    OneEntryLines("prusa", "server", Str(e.server));
    OneEntryLines("admin", "hostname", Str(e.hostname));
    OneEntryLines("network", "ntp_servers", List(Somes(e.ntp)));
    var secs := DeviceSections(e);
    SectionsUnfold(secs[0], secs[1], secs[2], secs[3], MetaSections(e));
    MetaUnfold(e);
    hide Pairs, AllSectionLines, SectionLines, MetaLeaves, SortMeta, MqttEntries, MqttLines, DeviceTop, MetaSections,
      Somes;
  }

  /** The document a device stands for. */
  function DeviceItems(d: Device): Doc {
    [("schema_version", Plain(Int(d.version))), ("camera_name", Plain(Str(d.name))),
     ("fingerprint", Plain(Str(d.fingerprint))),
     ("prusa", Table([("server", Str(d.server))])), ("mqtt", Table(MqttEntries(d.mqtt))),
     ("admin", Table([("hostname", Str(d.hostname))])), ("network", Table([("ntp_servers", List(Somes(d.ntp)))]))]
    + if d.meta.None? then [] else [("meta", Table(MetaLeaves(d.meta.value)))]
  }

  lemma DeviceDocIs(d: Device)
    ensures DocOf(DeviceTop(d), DeviceSections(d)) == DeviceItems(d)
  {
    var e, secs := DeviceTop(d), DeviceSections(d);
    assert e[1..][1..] == e[2..] && e[2..][1..] == [];
    assert Plains(e) == [(e[0].0, Plain(e[0].1))] + Plains(e[1..]);
    assert Plains(e[1..]) == [(e[1].0, Plain(e[1].1))] + Plains(e[2..]);
    assert Plains(e[2..]) == [(e[2].0, Plain(e[2].1))] + Plains([]);
    SectionsUnfold(secs[0], secs[1], secs[2], secs[3], MetaSections(d));
    MetaUnfold(d);
    hide Plains, Tables, MetaLeaves, MqttEntries, MetaSections, Somes;
  }

  lemma DeviceDistinct(d: Device)
    ensures DistinctKeys(DeviceItems(d))
    ensures DistinctKeys(MqttEntries(d.mqtt))
  {
  }

  // ------------------------------------------------------------------ validating a written document

  lemma {:induction false} AllItemsOk(data: Doc)
    requires forall i :: 0 <= i < |data| ==> CheckItem(data[i].0, data[i].1).Ok?
    ensures CheckKeys(data).Ok?
  {
    hide CheckItem;
    if data != [] {
      AllItemsOk(data[1..]);
    }
  }

  lemma DeviceKeysOk(d: Device)
    ensures CheckKeys(DeviceItems(d)).Ok?
  {
    var data := DeviceItems(d);
    hide MetaLeaves, Somes;
    forall i | 0 <= i < |data| ensures CheckItem(data[i].0, data[i].1).Ok? {
      hide CheckKeys;
    }
    AllItemsOk(data);
  }

  lemma DeviceLookups(d: Device)
    ensures var data := DeviceItems(d);
      && TopLeaf(data, "schema_version") == Some(Int(d.version))
      && TopLeaf(data, "camera_name") == Some(Str(d.name))
      && TopLeaf(data, "fingerprint") == Some(Str(d.fingerprint))
      && SectionOf(data, "prusa") == [("server", Str(d.server))]
      && SectionOf(data, "mqtt") == MqttEntries(d.mqtt)
      && SectionOf(data, "admin") == [("hostname", Str(d.hostname))]
      && SectionOf(data, "network") == [("ntp_servers", List(Somes(d.ntp)))]
  {
    DeviceDistinct(d);
    var data := DeviceItems(d);
    hide Get, DistinctKeys, MqttEntries, Somes, MetaLeaves;
    GetAt(data, 0);
    GetAt(data, 1);
    GetAt(data, 2);
    GetAt(data, 3);
    GetAt(data, 4);
    GetAt(data, 5);
    GetAt(data, 6);
  }

  lemma MetaLookup(d: Device)
    ensures CheckMeta(DeviceItems(d)) == Ok(d.meta)
  {
    DeviceDistinct(d);
    var data := DeviceItems(d);
    if d.meta.Some? {
      GetAt(data, 7);
      MetaLeavesRead(d.meta.value);
    } else {
      GetIn(data, "meta");
    }
    hide Get, DistinctKeys, MqttEntries, Somes, MetaLeaves, MetaOf;
  }

  lemma MqttSame(m: Mqtt, uriOk: string -> bool)
    requires uriOk(m.uri) && Prefix(m.discoveryPrefix) && Prefix(m.topicPrefix)
    ensures CheckMqtt(MqttEntries(m), uriOk) == Ok(m)
  {
    var e := MqttEntries(m);
    assert DistinctKeys(e);
    hide Get, DistinctKeys, Prefix;
    GetAt(e, 0);
    GetAt(e, 1);
    GetAt(e, 2);
    GetAt(e, 3);
    GetAt(e, 4);
    GetAt(e, 5);
  }

  lemma NtpSame(ntp: seq<string>)
    requires Hosts(ntp) && |ntp| <= MAX_NTP
    ensures CheckNtp(Some(List(Somes(ntp)))) == Ok(ntp)
  {
    assert [] + ntp == ntp;
    CheckHostsSame([], ntp);
  }

  /** Validating a validated document changes nothing. */
  lemma ValidateIdempotent(d: Device, uriOk: string -> bool)
    requires WellFormed(d, uriOk)
    ensures ValidateDevice(DeviceItems(d), uriOk) == Ok(d)
  {
    DeviceKeysOk(d);
    DeviceLookups(d);
    MqttSame(d.mqtt, uriOk);
    NtpSame(d.ntp);
    MetaLookup(d);
    StripTrims(d.name);
    OneEntry("server", Str(d.server));
    OneEntry("hostname", Str(d.hostname));
    OneEntry("ntp_servers", List(Somes(d.ntp)));
    hide DeviceItems, CheckKeys, TopLeaf, SectionOf, CheckMqtt, CheckNtp, CheckMeta, Get, Strip, Legacy, Hosts, Somes,
         MqttEntries, DistinctKeys, Prefix, Trim;
  }

  lemma OneEntry(k: string, v: Leaf)
    ensures Get([(k, v)], k) == Some(v)
  {
  }

  // ------------------------------------------------------------------ the round trip

  lemma {:induction false} PairsPrintable(e: Dict<string, Leaf>)
    requires forall i :: 0 <= i < |e| ==> Printable(e[i].1)
    ensures AllPrintable(Pairs(e))
  {
    if e != [] {
      PairsPrintable(e[1..]);
    }
  }

  lemma PrintableConcat(a: seq<Line>, b: seq<Line>)
    requires AllPrintable(a) && AllPrintable(b)
    ensures AllPrintable(a + b)
  {
  }

  lemma MetaPrintable(m: Dict<string, string>)
    ensures AllPrintable([Blank, Header("meta")] + Pairs(MetaLeaves(m)))
  {
    MetaLeavesRead(m);
    PairsPrintable(MetaLeaves(m));
    assert Bare("meta");
    PrintableConcat([Blank, Header("meta")], Pairs(MetaLeaves(m)));
  }

  lemma LinesPrintable(d: Device)
    ensures AllPrintable(DeviceLines(d))
  {
    var top := [Pair("schema_version", Int(d.version)), Pair("camera_name", Str(d.name)),
                Pair("fingerprint", Str(d.fingerprint))];
    var a := [Blank, Header("prusa"), Pair("server", Str(d.server))];
    var b := MqttLines(d.mqtt);
    var c := [Blank, Header("admin"), Pair("hostname", Str(d.hostname))];
    var e := [Blank, Header("network"), Pair("ntp_servers", List(Somes(d.ntp)))];
    var m := if d.meta.None? then [] else [Blank, Header("meta")] + Pairs(MetaLeaves(SortMeta(d.meta.value)));
    assert AllPrintable(top) && AllPrintable(a) && AllPrintable(b) && AllPrintable(c) && AllPrintable(e);
    if d.meta.Some? {
      MetaPrintable(SortMeta(d.meta.value));
    }
    assert AllPrintable(m);
    hide AllPrintable, MqttLines, SortMeta, MetaLeaves, Pairs, Somes;
    PrintableConcat(a, b);
    PrintableConcat(a + b, c);
    PrintableConcat(a + b + c, e);
    PrintableConcat(a + b + c + e, m);
    PrintableConcat(top, a + b + c + e + m);
  }

  /** The device text; the writer checks the time servers once more. */
  function DumpDevice(d: Device): Result<string, Error> {
    var ntp :- CheckNtp(Some(List(Somes(d.ntp))));
    LinesPrintable(d.(ntp := ntp));
    Ok(Dump(DeviceLines(d.(ntp := ntp))))
  }

  function ParseDevice(text: string, uriOk: string -> bool): Result<Device, Error> {
    var doc := Loads(text);
    if doc.None? then Err(Invalid) else ValidateDevice(doc.value, uriOk)
  }

  lemma SectionsSound(d: Device)
    requires d.meta.Some? ==> DistinctKeys(d.meta.value)
    ensures SoundSections(DeviceSections(d))
  {
    DeviceDistinct(d);
    if d.meta.Some? {
      MetaLeavesRead(d.meta.value);
      assert DistinctKeys(MetaLeaves(d.meta.value));
    }
    var a: Dict<string, Leaf>, b: Dict<string, Leaf>, c: Dict<string, Leaf> :=
      [("server", Str(d.server))], [("hostname", Str(d.hostname))], [("ntp_servers", List(Somes(d.ntp)))];
    assert DistinctKeys(a) && DistinctKeys(b) && DistinctKeys(c);
    hide DistinctKeys, MqttEntries, Somes, MetaLeaves;
  }

  /**
   * For every well-formed device the writer succeeds and reading its text gives back the same
   * document: the same fields, and the same metadata up to order.
   */
  lemma DeviceRoundTrip(d: Device, uriOk: string -> bool)
    requires WellFormed(d, uriOk)
    ensures DumpDevice(d).Ok? && ParseDevice(DumpDevice(d).value, uriOk) == Ok(Sorted(d))
    ensures Sorted(d).(meta := d.meta) == d
    ensures d.meta.Some? ==> forall k :: Get(Sorted(d).meta.value, k) == Get(d.meta.value, k)
  {
    var e := Sorted(d);
    if d.meta.Some? {
      forall k ensures Get(e.meta.value, k) == Get(d.meta.value, k) && DistinctKeys(e.meta.value) {
        SortMetaSame(d.meta.value, k);
      }
      SortMetaSame(d.meta.value, "");
    }
    NtpSame(d.ntp);
    LinesPrintable(d);
    DeviceLinesAre(d);
    DeviceDocIs(e);
    DeviceDistinct(e);
    SectionsSound(e);
    hide DeviceLines, DeviceTop, DeviceSections, DeviceItems, Hosts, CheckNtp, Legacy, Prefix, Trim, Somes, SortMeta;
    LoadsDump(DeviceTop(e), DeviceSections(e));
    ValidateIdempotent(e, uriOk);
  }

  /** So the re-parse inside the save functions never fails on a validated document. */
  lemma ReparseNeverFails(data: Doc, uriOk: string -> bool)
    requires Sound(data) && uriOk(DEFAULT_URI) && ValidateDevice(data, uriOk).Ok?
    ensures var d := ValidateDevice(data, uriOk).value;
            DumpDevice(d).Ok? && ParseDevice(DumpDevice(d).value, uriOk) == Ok(Sorted(d))
  {
    ValidatedIsWellFormed(data, uriOk);
    DeviceRoundTrip(ValidateDevice(data, uriOk).value, uriOk);
  }
}
