/** The secrets document of `app/config_schema.py`: validation, the writer, and the round trip. */
module ConfigSecrets {
  import opened Common
  import opened Toml
  import opened TomlDoc
  import opened Config
  import opened ConfigText

  /** A normalized secrets document: each documented key, when present. */
  datatype Secrets = Secrets(
    token: Option<string>, username: Option<string>, password: Option<string>,
    psk: Option<string>, passwordHash: Option<string>)

  const SECRET_TABLES := ["prusa", "mqtt", "wifi", "admin"]

  function SecretKeys(table: string): seq<string> {
    if table == "prusa" then ["token"]
    else if table == "mqtt" then ["username", "password"]
    else if table == "wifi" then ["psk"]
    else if table == "admin" then ["password_hash"]
    else []
  }

  function CheckSecretItem(key: string, value: Value): Result<(), Error> {
    if key == "schema_version" then Ok(())
    else if key !in SECRET_TABLES then Err(UnknownKey)
    else if value.Plain? then Err(Invalid)
    else if !KeysIn(value.entries, SecretKeys(key)) then Err(UnknownKey)
    else Ok(())
  }

  function CheckSecretKeys(data: Doc): Result<(), Error> {
    if data == [] then Ok(())
    else var _ :- CheckSecretItem(data[0].0, data[0].1); CheckSecretKeys(data[1..])
  }

  function SecretOf(l: Option<Leaf>): Result<Option<string>, Error> {
    match l
    case None => Ok(None)
    case Some(Str(s)) => Ok(Some(s))
    case Some(_) => Err(Invalid)
  }

  function ValidateSecrets(data: Doc): Result<Secrets, Error> {
    var _ :- CheckVersion(TopLeaf(data, "schema_version"));
    var _ :- CheckSecretKeys(data);
    var token :- SecretOf(Get(SectionOf(data, "prusa"), "token"));
    var username :- SecretOf(Get(SectionOf(data, "mqtt"), "username"));
    var password :- SecretOf(Get(SectionOf(data, "mqtt"), "password"));
    var psk :- SecretOf(Get(SectionOf(data, "wifi"), "psk"));
    var hash :- SecretOf(Get(SectionOf(data, "admin"), "password_hash"));
    Ok(Secrets(token, username, password, psk, hash))
  }

  // ------------------------------------------------------------------ the writer

  /** The present keys of a table. */
  function Present(fields: seq<(string, Option<string>)>): Dict<string, Leaf> {
    if fields == [] then []
    else (if fields[0].1.None? then [] else [(fields[0].0, Str(fields[0].1.value))]) + Present(fields[1..])
  }

  function Block(name: string, fields: seq<(string, Option<string>)>): seq<Section> {
    if Present(fields) == [] then [] else [Section(name, Present(fields))]
  }

  /** The tables to write, in order, without the empty ones. */
  function SecretSections(s: Secrets): seq<Section> {
    Block("prusa", [("token", s.token)]) + FromMqtt(s)
  }

  function FromMqtt(s: Secrets): seq<Section> {
    Block("mqtt", [("username", s.username), ("password", s.password)]) + FromWifi(s)
  }

  function FromWifi(s: Secrets): seq<Section> { Block("wifi", [("psk", s.psk)]) + FromAdmin(s) }

  function FromAdmin(s: Secrets): seq<Section> { Block("admin", [("password_hash", s.passwordHash)]) + [] }

  predicate PrintableSection(s: Section) {
    Bare(s.name) && forall i :: 0 <= i < |s.entries| ==> s.entries[i].1.Str?
  }

  predicate PrintableSections(secs: seq<Section>) { forall i :: 0 <= i < |secs| ==> PrintableSection(secs[i]) }

  function BlockLines(s: Section): seq<Line> { [Header(s.name)] + Pairs(s.entries) }

  lemma BlockPrintable(s: Section)
    requires PrintableSection(s)
    ensures AllPrintable(BlockLines(s)) && AllPrintable(SectionLines(s))
  {
    PairsPrintable(s.entries);
  }

  function BlockTexts(secs: seq<Section>): seq<string>
    requires PrintableSections(secs)
  {
    if secs == [] then []
    else
      BlockPrintable(secs[0]);
      [Join("\n", ShowLines(BlockLines(secs[0])))] + BlockTexts(secs[1..])
  }

  lemma SecretsPrintable(s: Secrets)
    ensures PrintableSections(SecretSections(s))
  {
    assert Bare("prusa") && Bare("mqtt") && Bare("wifi") && Bare("admin");
    PresentStrings([("token", s.token)]);
    PresentStrings([("username", s.username), ("password", s.password)]);
    PresentStrings([("psk", s.psk)]);
    PresentStrings([("password_hash", s.passwordHash)]);
    hide Present, Bare;
  }

  lemma {:induction false} PresentStrings(fields: seq<(string, Option<string>)>)
    ensures forall i :: 0 <= i < |Present(fields)| ==> Present(fields)[i].1.Str?
  {
    if fields != [] {
      PresentStrings(fields[1..]);
    }
  }

  /** Blocks separated by an empty line; nothing at all for an empty document. */
  function DumpSecrets(s: Secrets): string {
    SecretsPrintable(s);
    var blocks := BlockTexts(SecretSections(s));
    if blocks == [] then "" else Join("\n\n", blocks) + "\n"
  }

  function ParseSecrets(text: string): Result<Secrets, Error> {
    var doc := Loads(text);
    if doc.None? then Err(Invalid) else ValidateSecrets(doc.value)
  }

  // ------------------------------------------------------------------ blocks as lines

  /** Every table's lines with its separating blank, and without the very first blank. */
  function BlocksLines(secs: seq<Section>): seq<Line>
    requires secs != []
  {
    BlockLines(secs[0]) + AllSectionLines(secs[1..])
  }

  lemma {:induction false} JoinConcat(a: seq<string>, b: seq<string>)
    requires a != [] && b != []
    ensures Join("\n", a + b) == Join("\n", a) + "\n" + Join("\n", b)
  {
    assert (a + b)[1..] == a[1..] + b;
    if |a| > 1 {
      JoinConcat(a[1..], b);
      assert Join("\n", a + b) == a[0] + "\n" + Join("\n", a[1..] + b);
    } else {
      assert a[1..] + b == b;
    }
  }

  lemma {:induction false} ShowConcat(a: seq<Line>, b: seq<Line>)
    requires AllPrintable(a) && AllPrintable(b)
    ensures AllPrintable(a + b) && ShowLines(a + b) == ShowLines(a) + ShowLines(b)
  {
    hide ShowLine, PrintableLine;
    if a == [] {
      assert a + b == b;
    } else {
      assert (a + b)[1..] == a[1..] + b;
      ShowConcat(a[1..], b);
    }
  }

  lemma {:induction false} AllSectionsPrintable(secs: seq<Section>)
    requires PrintableSections(secs)
    ensures AllPrintable(AllSectionLines(secs))
  {
    if secs != [] {
      AllSectionsPrintable(secs[1..]);
      BlockPrintable(secs[0]);
      hide SectionLines, PrintableLine, PrintableSection;
    }
  }

  lemma BlocksPrintable(secs: seq<Section>)
    requires secs != [] && PrintableSections(secs)
    ensures AllPrintable(BlocksLines(secs))
  {
    BlockPrintable(secs[0]);
    AllSectionsPrintable(secs[1..]);
    PrintableConcat(BlockLines(secs[0]), AllSectionLines(secs[1..]));
  }

  lemma JoinBlank(head: seq<string>, tail: seq<string>)
    requires head != [] && tail != []
    ensures Join("\n", head + ([""] + tail)) == Join("\n", head) + "\n\n" + Join("\n", tail)
  {
    JoinConcat(head, [""] + tail);
    JoinConcat([""], tail);
    hide Join;
    assert Join("\n", [""]) == "" by { JoinOne(""); }
  }

  lemma JoinOne(x: string)
    ensures Join("\n", [x]) == x
  {
  }

  lemma ShowBlank(a: seq<Line>, b: seq<Line>)
    requires AllPrintable(a) && AllPrintable(b)
    ensures AllPrintable(a + ([Blank] + b)) && ShowLines(a + ([Blank] + b)) == ShowLines(a) + ([""] + ShowLines(b))
  {
    BlankShown();
    ShowConcat([Blank], b);
    ShowConcat(a, [Blank] + b);
  }

  /** Joining the blocks by an empty line is joining all lines. */
  lemma {:induction false} BlocksJoin(secs: seq<Section>)
    requires secs != [] && PrintableSections(secs)
    ensures AllPrintable(BlocksLines(secs))
    ensures Join("\n\n", BlockTexts(secs)) == Join("\n", ShowLines(BlocksLines(secs)))
  {
    BlocksPrintable(secs);
    var first, rest := secs[0], secs[1..];
    BlockPrintable(first);
    var head := ShowLines(BlockLines(first));
    assert BlockTexts(secs) == [Join("\n", head)] + BlockTexts(rest);
    if rest == [] {
      assert BlockTexts(secs) == [Join("\n", head)];
      assert BlocksLines(secs) == BlockLines(first);
    } else {
      BlocksJoin(rest);
      var tail := BlocksLines(rest);
      SplitSection(rest);
      assert BlocksLines(secs) == BlockLines(first) + ([Blank] + tail);
      assert head != [] && ShowLines(tail) != [];
      assert BlockTexts(rest) != [];
      JoinHead("\n\n", Join("\n", head), BlockTexts(rest));
      hide ShowLines, Join, BlockTexts, BlocksLines, BlockLines, AllPrintable, PrintableSection;
      ShowBlank(BlockLines(first), tail);
      JoinBlank(head, ShowLines(tail));
    }
  }

  lemma JoinHead(sep: string, x: string, xs: seq<string>)
    requires xs != []
    ensures Join(sep, [x] + xs) == x + sep + Join(sep, xs)
  {
    assert ([x] + xs)[1..] == xs;
  }

  lemma BlankShown()
    ensures PrintableLine(Blank) && ShowLines([Blank]) == [""]
  {
    assert ShowLines([Blank][1..]) == [];
  }

  lemma SplitSection(secs: seq<Section>)
    requires secs != []
    ensures AllSectionLines(secs) == [Blank] + BlocksLines(secs)
  {
    var s, rest := secs[0], AllSectionLines(secs[1..]);
    hide Pairs;
    Assoc([Blank], [Header(s.name)], Pairs(s.entries));
    assert [Blank] + [Header(s.name)] == [Blank, Header(s.name)];
    Assoc([Blank], BlockLines(s), rest);
  }

  lemma LoadsBlocks(secs: seq<Section>)
    requires secs != [] && PrintableSections(secs) && DistinctKeys(Tables(secs)) && SoundSections(secs)
    ensures Loads(Join("\n\n", BlockTexts(secs)) + "\n") == Some(Tables(secs))
  {
    BlocksJoin(secs);
    var ls, start := BlocksLines(secs), Reading([], None);
    DumpReads(ls);
    assert [] + Tables(secs) == Tables(secs);
    AbsorbSections(start, secs);
    SplitSection(secs);
    AbsorbConcat(start, [Blank], ls);
    assert AbsorbAll(start, [Blank]) == Some(start) by { assert AbsorbAll(start, [Blank][1..]) == Some(start); }
    BlankLast(start, ls);
    hide ReadLines, Split, LineFeeds, AbsorbAll, BlocksLines, BlockTexts, Join;
  }

  // ------------------------------------------------------------------ validating a written document

  lemma {:induction false} TablesConcat(a: seq<Section>, b: seq<Section>)
    ensures Tables(a + b) == Tables(a) + Tables(b)
  {
    if a == [] {
      assert a + b == b;
    } else {
      assert (a + b)[1..] == a[1..] + b;
      TablesConcat(a[1..], b);
    }
  }

  lemma {:induction false} SecretKeysConcat(a: Doc, b: Doc)
    requires CheckSecretKeys(a).Ok? && CheckSecretKeys(b).Ok?
    ensures CheckSecretKeys(a + b).Ok?
  {
    hide CheckSecretItem;
    if a == [] {
      assert a + b == b;
    } else {
      assert (a + b)[1..] == a[1..] + b;
      SecretKeysConcat(a[1..], b);
    }
  }

  /** One table in front of others with other names. */
  lemma BlockFirst(name: string, fields: seq<(string, Option<string>)>, rest: seq<Section>, q: string)
    requires DistinctKeys(Tables(rest)) && !Has(Tables(rest), name)
    ensures DistinctKeys(Tables(Block(name, fields) + rest))
    ensures Get(Tables(Block(name, fields) + rest), q) ==
            if q == name && Present(fields) != [] then Some(Table(Present(fields))) else Get(Tables(rest), q)
  {
    TablesConcat(Block(name, fields), rest);
    var first := Tables(Block(name, fields));
    if Present(fields) == [] {
      assert [] + Tables(rest) == Tables(rest);
    } else {
      assert Block(name, fields)[1..] == [];
      assert first == [(name, Table(Present(fields)))];
      DistinctCons(name, Table(Present(fields)), Tables(rest));
      assert (first + Tables(rest))[1..] == Tables(rest);
    }
  }

  lemma BlockChecked(name: string, fields: seq<(string, Option<string>)>, rest: seq<Section>)
    requires name in SECRET_TABLES && KeysIn(Present(fields), SecretKeys(name)) && CheckSecretKeys(Tables(rest)).Ok?
    ensures CheckSecretKeys(Tables(Block(name, fields) + rest)).Ok?
  {
    TablesConcat(Block(name, fields), rest);
    var first := Tables(Block(name, fields));
    if Present(fields) != [] {
      assert Block(name, fields)[1..] == [];
      assert first == [(name, Table(Present(fields)))];
      assert first[1..] == [];
      assert name != "schema_version";
    }
    SecretKeysConcat(first, Tables(rest));
  }

  lemma OneField(k: string, v: Option<string>)
    ensures Present([(k, v)]) == if v.None? then [] else [(k, Str(v.value))]
    ensures DistinctKeys(Present([(k, v)]))
    ensures SecretOf(Get(Present([(k, v)]), k)) == Ok(v)
  {
    var f := [(k, v)];
    assert f[1..] == [];
    assert Present(f) == (if v.None? then [] else [(k, Str(v.value))]) + Present([]);
  }

  lemma TwoFields(k: string, v: Option<string>, l: string, w: Option<string>)
    requires k != l
    ensures var p := Present([(k, v), (l, w)]);
      && DistinctKeys(p) && SecretOf(Get(p, k)) == Ok(v) && SecretOf(Get(p, l)) == Ok(w)
      && forall i :: 0 <= i < |p| ==> p[i].0 in [k, l]
  {
    var f := [(k, v), (l, w)];
    assert f[1..] == [(l, w)];
    OneField(l, w);
    var rest := Present([(l, w)]);
    assert Present(f) == (if v.None? then [] else [(k, Str(v.value))]) + rest;
    GetIn(rest, k);
    assert !Has(rest, k);
    if v.None? {
      assert Present(f) == rest;
    } else {
      DistinctCons(k, Str(v.value), rest);
      assert Present(f)[1..] == rest;
    }
  }

  lemma AdminTable(s: Secrets, q: string)
    ensures var doc := Tables(FromAdmin(s));
      && DistinctKeys(doc) && (q != "admin" ==> !Has(doc, q))
      && SectionOf(doc, "admin") == Present([("password_hash", s.passwordHash)])
  {
    NoTables();
    BlockFirst("admin", [("password_hash", s.passwordHash)], [], q);
    BlockFirst("admin", [("password_hash", s.passwordHash)], [], "admin");
    hide Present, Block, Tables, Get, DistinctKeys;
  }

  lemma WifiTable(s: Secrets, q: string)
    ensures var doc := Tables(FromWifi(s));
      && DistinctKeys(doc) && (q !in ["wifi", "admin"] ==> !Has(doc, q))
      && SectionOf(doc, "wifi") == Present([("psk", s.psk)])
      && SectionOf(doc, "admin") == Present([("password_hash", s.passwordHash)])
  {
    AdminTable(s, q);
    AdminTable(s, "wifi");
    hide Present, Block, Tables, Get, DistinctKeys, FromAdmin;
    BlockFirst("wifi", [("psk", s.psk)], FromAdmin(s), q);
    BlockFirst("wifi", [("psk", s.psk)], FromAdmin(s), "wifi");
    BlockFirst("wifi", [("psk", s.psk)], FromAdmin(s), "admin");
  }

  lemma MqttTable(s: Secrets, q: string)
    ensures var doc := Tables(FromMqtt(s));
      && DistinctKeys(doc) && (q !in ["mqtt", "wifi", "admin"] ==> !Has(doc, q))
      && SectionOf(doc, "mqtt") == Present([("username", s.username), ("password", s.password)])
      && SectionOf(doc, "wifi") == Present([("psk", s.psk)])
      && SectionOf(doc, "admin") == Present([("password_hash", s.passwordHash)])
  {
    WifiTable(s, q);
    WifiTable(s, "mqtt");
    hide Present, Block, Tables, Get, DistinctKeys, FromWifi;
    var fields := [("username", s.username), ("password", s.password)];
    BlockFirst("mqtt", fields, FromWifi(s), q);
    BlockFirst("mqtt", fields, FromWifi(s), "mqtt");
    BlockFirst("mqtt", fields, FromWifi(s), "wifi");
    BlockFirst("mqtt", fields, FromWifi(s), "admin");
  }

  /** The tables of a written secrets document, looked up by name. */
  lemma SecretTables(s: Secrets)
    ensures var doc := Tables(SecretSections(s));
      && DistinctKeys(doc) && !Has(doc, "schema_version")
      && SectionOf(doc, "prusa") == Present([("token", s.token)])
      && SectionOf(doc, "mqtt") == Present([("username", s.username), ("password", s.password)])
      && SectionOf(doc, "wifi") == Present([("psk", s.psk)])
      && SectionOf(doc, "admin") == Present([("password_hash", s.passwordHash)])
  {
    MqttTable(s, "schema_version");
    MqttTable(s, "prusa");
    hide Present, Block, Tables, Get, DistinctKeys, FromMqtt;
    var fields := [("token", s.token)];
    BlockFirst("prusa", fields, FromMqtt(s), "schema_version");
    BlockFirst("prusa", fields, FromMqtt(s), "prusa");
    BlockFirst("prusa", fields, FromMqtt(s), "mqtt");
    BlockFirst("prusa", fields, FromMqtt(s), "wifi");
    BlockFirst("prusa", fields, FromMqtt(s), "admin");
  }

  lemma NoTables()
    ensures Tables([]) == [] && forall q: string :: Get(Tables([]), q).None?
  {
  }

  lemma SecretKeysOk(s: Secrets)
    ensures CheckSecretKeys(Tables(SecretSections(s))).Ok?
  {
    var p, m, w, a := [("token", s.token)], [("username", s.username), ("password", s.password)],
                      [("psk", s.psk)], [("password_hash", s.passwordHash)];
    OneField("token", s.token);
    TwoFields("username", s.username, "password", s.password);
    OneField("psk", s.psk);
    OneField("password_hash", s.passwordHash);
    hide Present, Block, Tables, CheckSecretKeys, Get, DistinctKeys;
    assert CheckSecretKeys(Tables([])).Ok? by { NoSecretKeys(); }
    BlockChecked("admin", a, []);
    BlockChecked("wifi", w, FromAdmin(s));
    BlockChecked("mqtt", m, FromWifi(s));
    BlockChecked("prusa", p, FromMqtt(s));
  }

  lemma NoSecretKeys()
    ensures CheckSecretKeys(Tables([])).Ok?
  {
  }

  /** Validating the tables of a secrets document gives it back. */
  lemma SecretsIdempotent(s: Secrets)
    ensures ValidateSecrets(Tables(SecretSections(s))) == Ok(s)
  {
    SecretTables(s);
    SecretKeysOk(s);
    OneField("token", s.token);
    TwoFields("username", s.username, "password", s.password);
    OneField("psk", s.psk);
    OneField("password_hash", s.passwordHash);
    hide Present, SecretSections, Tables, CheckSecretKeys, Get, DistinctKeys, SectionOf, SecretOf;
  }

  lemma SecretsSound(s: Secrets)
    ensures SoundSections(SecretSections(s))
  {
    OneField("token", s.token);
    TwoFields("username", s.username, "password", s.password);
    OneField("psk", s.psk);
    OneField("password_hash", s.passwordHash);
    hide Present, DistinctKeys, Get, SecretOf, Block, SoundSections;
    BlockSound("admin", [("password_hash", s.passwordHash)], []);
    BlockSound("wifi", [("psk", s.psk)], FromAdmin(s));
    BlockSound("mqtt", [("username", s.username), ("password", s.password)], FromWifi(s));
    BlockSound("prusa", [("token", s.token)], FromMqtt(s));
  }

  lemma BlockSound(name: string, fields: seq<(string, Option<string>)>, rest: seq<Section>)
    requires DistinctKeys(Present(fields)) && (rest != [] ==> SoundSections(rest))
    ensures SoundSections(Block(name, fields) + rest)
  {
    hide DistinctKeys, Present;
  }

  /** For every secrets document, reading the written text gives it back. */
  lemma SecretsRoundTrip(s: Secrets)
    ensures ParseSecrets(DumpSecrets(s)) == Ok(s)
  {
    hide SecretSections, ValidateSecrets, DistinctKeys, Loads, Get, Join, BlockTexts, SectionOf;
    var secs := SecretSections(s);
    SecretsPrintable(s);
    SecretTables(s);
    SecretsSound(s);
    SecretsIdempotent(s);
    TextsEmpty(secs);
    if secs == [] {
      EmptyLoads();
    } else {
      LoadsBlocks(secs);
    }
  }

  lemma TextsEmpty(secs: seq<Section>)
    requires PrintableSections(secs)
    ensures BlockTexts(secs) == [] <==> secs == []
    ensures secs == [] ==> Tables(secs) == []
  {
  }

  lemma EmptyLoads()
    ensures Loads("") == Some([])
  {
    var ss := Split("");
    assert ss == [""];
    assert ss[1..] == [];
    assert ReadLines(ss) == Some([Blank] + []);
    BlankLast(Reading([], None), []);
    assert [] + [Blank] == [Blank];
  }
}
