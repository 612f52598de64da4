/**
 * Configuration of the tun client: the proxies it exposes and the server it
 * connects to, read from an INI file and then overridden from the command line.
 *
 * The INI text itself is read by a library; the model starts from the list of
 * sections that library yields, each with the values of its `server`, `token`
 * and `addr` keys (an absent key reads as the empty string).
 */
module TuncConfig {
  import opened Results

  /** Name of the reserved section that holds the server address. */
  const TuncSection: string := "tunc"

  /** One local service to expose through the tunnel. */
  datatype Proxy = Proxy(addr: string, token: string)

  /** One parsed INI section with the three keys the client reads. */
  datatype Section = Section(name: string, server: string, token: string, addr: string)

  /**
   * What reading the configuration file gives: the file cannot be stat'ed
   * (treated as absent), it exists but the INI library fails to load it, or
   * it loads and yields its sections in file order.
   */
  datatype ConfigFile = Absent | Unloadable(error: string) | Loaded(sections: seq<Section>)

  /** The `-server`, `-id`, `-token` and `-addr` command-line values. */
  datatype Overrides = Overrides(server: string, id: string, token: string, addr: string)

  /** The value of a configuration: server address and proxies by id. */
  datatype Settings = Settings(server: string, proxies: map<string, Proxy>)

  /** The configuration a fresh `config` struct starts with. */
  const Empty: Settings := Settings("", map[])

  /** The `config` struct: the client updates both fields in place. */
  class Config {
    var server: string
    var proxies: map<string, Proxy>

    constructor ()
      ensures Value() == Empty
    {
      server := "";
      proxies := map[];
    }

    function Value(): Settings
      reads this
    {
      Settings(server, proxies)
    }
  }

  /** A section the file parser turns into a proxy entry. */
  predicate IsProxySection(sec: Section) {
    sec.name != TuncSection && sec.token != "" && sec.addr != ""
  }

  /** Complete entries: both the address and the token are non-empty. */
  predicate Complete(proxies: map<string, Proxy>) {
    forall id :: id in proxies ==> proxies[id].addr != "" && proxies[id].token != ""
  }

  /** The effect of one section on the configuration being built. */
  function ApplySection(s: Settings, sec: Section): Settings {
    if sec.name == TuncSection then s.(server := sec.server)
    else if sec.token == "" then s
    else if sec.addr == "" then s
    else s.(proxies := s.proxies[sec.name := Proxy(sec.addr, sec.token)])
  }

  /** The configuration after the sections have been applied in order. */
  function ParseSections(s: Settings, secs: seq<Section>): Settings
    decreases |secs|
  {
    if secs == [] then s
    else ApplySection(ParseSections(s, secs[..|secs| - 1]), secs[|secs| - 1])
  }

  /** Names of the sections that qualify as proxies. */
  function AcceptedNames(secs: seq<Section>): set<string> {
    set i | 0 <= i < |secs| && IsProxySection(secs[i]) :: secs[i].name
  }

  /**
   * `parse`: reads the file into `cfg`. A file that cannot be stat'ed is not an
   * error and leaves `cfg` alone; a load error is returned with `cfg` untouched;
   * otherwise every section is applied in order.
   */
  method Parse(file: ConfigFile, cfg: Config) returns (err: Option<string>)
    modifies cfg
    ensures file.Absent? ==> err == None && cfg.Value() == old(cfg.Value())
    ensures file.Unloadable? ==> err == Some(file.error) && cfg.Value() == old(cfg.Value())
    ensures file.Loaded? ==>
              err == None && cfg.Value() == ParseSections(old(cfg.Value()), file.sections)
  {
    if file.Absent? {
      return None;
    }
    if file.Unloadable? {
      return Some(file.error);
    }
    var secs := file.sections;
    for i := 0 to |secs|
      invariant cfg.Value() == ParseSections(old(cfg.Value()), secs[..i])
    {
      assert secs[..i + 1][..i] == secs[..i];
      var sec := secs[i];
      if sec.name == TuncSection {
        cfg.server := sec.server;
        continue;
      }
      if sec.token == "" {
        continue;
      }
      if sec.addr == "" {
        continue;
      }
      cfg.proxies := cfg.proxies[sec.name := Proxy(sec.addr, sec.token)];
    }
    assert secs[..|secs|] == secs;
    err := None;
  }

  /**
   * The command-line overrides: a non-empty `-server` replaces the server;
   * `-id` and `-addr`, both non-empty, insert or overwrite that one proxy,
   * with `-token` taken as it is, even when empty.
   */
  function ApplyOverrides(s: Settings, ov: Overrides): (r: Settings)
    ensures ov.server != "" ==> r.server == ov.server
    ensures ov.server == "" ==> r.server == s.server
    ensures ov.id != "" && ov.addr != "" ==>
              && r.proxies.Keys == s.proxies.Keys + {ov.id}
              && r.proxies[ov.id] == Proxy(ov.addr, ov.token)
              && forall id :: id in s.proxies && id != ov.id ==> r.proxies[id] == s.proxies[id]
    ensures ov.id == "" || ov.addr == "" ==> r.proxies == s.proxies
  {
    var withServer := if ov.server != "" then s.(server := ov.server) else s;
    if ov.id != "" && ov.addr != "" then
      withServer.(proxies := withServer.proxies[ov.id := Proxy(ov.addr, ov.token)])
    else
      withServer
  }

  /** What `loadConfig` yields: the merged configuration or the load error. */
  function Load(file: ConfigFile, ov: Overrides): Result<Settings, string> {
    match file
    case Absent => Success(ApplyOverrides(Empty, ov))
    case Unloadable(e) => Failure(e)
    case Loaded(secs) => Success(ApplyOverrides(ParseSections(Empty, secs), ov))
  }

  /**
   * `loadConfig`: parses into a fresh configuration and, unless parsing failed,
   * applies the overrides to it in place.
   */
  method LoadConfig(file: ConfigFile, ov: Overrides) returns (cfg: Config, err: Option<string>)
    ensures fresh(cfg)
    ensures err.None? <==> Load(file, ov).Success?
    ensures err.None? ==> cfg.Value() == Load(file, ov).value
    ensures err.Some? ==> err.value == Load(file, ov).error && cfg.Value() == Empty
    ensures file.Unloadable? ==> err == Some(file.error) && cfg.Value() == Empty
  {
    cfg := new Config();
    err := Parse(file, cfg);
    if err.Some? {
      return;
    }
    if ov.server != "" {
      cfg.server := ov.server;
    }
    if ov.id != "" && ov.addr != "" {
      cfg.proxies := cfg.proxies[ov.id := Proxy(ov.addr, ov.token)];
    }
  }

  // ---------------------------------------------------------------------------
  // Properties of parsing

  /** The last `tunc` section sets the server, even to the empty string. */
  lemma {:induction false} ParseServerLastTunc(s: Settings, secs: seq<Section>, i: nat)
    requires i < |secs| && secs[i].name == TuncSection
    requires forall j :: i < j < |secs| ==> secs[j].name != TuncSection
    ensures ParseSections(s, secs).server == secs[i].server
  {
    if i < |secs| - 1 {
      ParseServerLastTunc(s, secs[..|secs| - 1], i);
    }
  }

  /** Without a `tunc` section the server keeps its previous value. */
  lemma {:induction false} ParseServerNoTunc(s: Settings, secs: seq<Section>)
    requires forall j :: 0 <= j < |secs| ==> secs[j].name != TuncSection
    ensures ParseSections(s, secs).server == s.server
  {
    if secs != [] {
      ParseServerNoTunc(s, secs[..|secs| - 1]);
    }
  }

  /** Adding a section to the end adds its name when it qualifies, and nothing else. */
  lemma AcceptedNamesSnoc(secs: seq<Section>)
    requires secs != []
    ensures var last := secs[|secs| - 1];
            AcceptedNames(secs) ==
              AcceptedNames(secs[..|secs| - 1]) + (if IsProxySection(last) then {last.name} else {})
  {
    var init, last := secs[..|secs| - 1], secs[|secs| - 1];
    forall id | id in AcceptedNames(secs)
      ensures id in AcceptedNames(init) + (if IsProxySection(last) then {last.name} else {})
    {
      var i :| 0 <= i < |secs| && IsProxySection(secs[i]) && secs[i].name == id;
      if i < |init| {
        assert init[i] == secs[i];
      }
    }
    forall id | id in AcceptedNames(init)
      ensures id in AcceptedNames(secs)
    {
      var i :| 0 <= i < |init| && IsProxySection(init[i]) && init[i].name == id;
      assert secs[i] == init[i];
    }
  }

  /**
   * A proxy id is present after parsing exactly when it was present before or
   * some section of that name qualifies (not `tunc`, non-empty token and addr).
   */
  lemma {:induction false} ParseProxyIds(s: Settings, secs: seq<Section>)
    ensures ParseSections(s, secs).proxies.Keys == s.proxies.Keys + AcceptedNames(secs)
  {
    if secs != [] {
      ParseProxyIds(s, secs[..|secs| - 1]);
      AcceptedNamesSnoc(secs);
    }
  }

  /** The `tunc` section never becomes a proxy. */
  lemma {:induction false} ParseNeverTuncProxy(s: Settings, secs: seq<Section>)
    ensures TuncSection in ParseSections(s, secs).proxies <==> TuncSection in s.proxies
  {
    ParseProxyIds(s, secs);
  }

  /** The entry of a qualifying section is exactly its addr and token, unless a later one overrides it. */
  lemma {:induction false} ParseLastSectionWins(s: Settings, secs: seq<Section>, i: nat)
    requires i < |secs| && IsProxySection(secs[i])
    requires forall j :: i < j < |secs| && IsProxySection(secs[j]) ==> secs[j].name != secs[i].name
    ensures secs[i].name in ParseSections(s, secs).proxies
    ensures ParseSections(s, secs).proxies[secs[i].name] == Proxy(secs[i].addr, secs[i].token)
  {
    if i < |secs| - 1 {
      ParseLastSectionWins(s, secs[..|secs| - 1], i);
    }
  }

  /** An entry no qualifying section names keeps its previous value. */
  lemma {:induction false} ParseKeepsUnnamed(s: Settings, secs: seq<Section>, id: string)
    requires id in s.proxies && id !in AcceptedNames(secs)
    ensures id in ParseSections(s, secs).proxies
    ensures ParseSections(s, secs).proxies[id] == s.proxies[id]
  {
    if secs != [] {
      AcceptedNamesSnoc(secs);
      ParseKeepsUnnamed(s, secs[..|secs| - 1], id);
    }
  }

  /** Parsing never creates a partially filled entry. */
  lemma {:induction false} ParseEntriesComplete(s: Settings, secs: seq<Section>)
    requires Complete(s.proxies)
    ensures Complete(ParseSections(s, secs).proxies)
  {
    if secs != [] {
      ParseEntriesComplete(s, secs[..|secs| - 1]);
    }
  }

  /** With distinct names, a section that does not qualify gives no accepted name. */
  lemma NotAccepted(secs: seq<Section>, i: nat)
    requires i < |secs| && !IsProxySection(secs[i])
    requires forall j, k :: 0 <= j < k < |secs| ==> secs[j].name != secs[k].name
    ensures secs[i].name !in AcceptedNames(secs)
  {
    forall j | 0 <= j < |secs| && IsProxySection(secs[j])
      ensures secs[j].name != secs[i].name
    {
      assert j != i;
      if j < i {
        assert secs[j].name != secs[i].name;
      } else {
        assert secs[i].name != secs[j].name;
      }
    }
  }

  /**
   * With distinct section names, as the INI library yields them: a section other
   * than `tunc` is a proxy of the parsed file if and only if its token and addr
   * are both non-empty, and then its entry is exactly {addr, token}.
   */
  lemma ParseSectionSelected(secs: seq<Section>, i: nat)
    requires i < |secs| && secs[i].name != TuncSection
    requires forall j, k :: 0 <= j < k < |secs| ==> secs[j].name != secs[k].name
    ensures secs[i].name in ParseSections(Empty, secs).proxies <==>
              secs[i].token != "" && secs[i].addr != ""
    ensures secs[i].name in ParseSections(Empty, secs).proxies ==>
              ParseSections(Empty, secs).proxies[secs[i].name] == Proxy(secs[i].addr, secs[i].token)
  {
    ParseProxyIds(Empty, secs);
    if IsProxySection(secs[i]) {
      ParseLastSectionWins(Empty, secs, i);
    } else {
      NotAccepted(secs, i);
    }
  }

  // ---------------------------------------------------------------------------
  // Properties of loading

  /** A missing file is no error: the configuration comes from the overrides alone. */
  lemma LoadAbsentFile(ov: Overrides)
    ensures Load(Absent, ov).Success?
    ensures Load(Absent, ov).value.server == ov.server
    ensures Load(Absent, ov).value.proxies ==
              if ov.id != "" && ov.addr != "" then map[ov.id := Proxy(ov.addr, ov.token)] else map[]
  {
  }

  /**
   * Server precedence: a non-empty `-server` wins; otherwise the last `tunc`
   * section's value, or the empty string if the file has none.
   */
  lemma LoadServerPrecedence(secs: seq<Section>, ov: Overrides)
    ensures ov.server != "" ==> Load(Loaded(secs), ov).value.server == ov.server
    ensures ov.server == "" && (forall j :: 0 <= j < |secs| ==> secs[j].name != TuncSection) ==>
              Load(Loaded(secs), ov).value.server == ""
    ensures forall i :: 0 <= i < |secs| && secs[i].name == TuncSection &&
                        (forall j :: i < j < |secs| ==> secs[j].name != TuncSection) ==>
              Load(Loaded(secs), ov).value.server == if ov.server != "" then ov.server else secs[i].server
  {
    if forall j :: 0 <= j < |secs| ==> secs[j].name != TuncSection {
      ParseServerNoTunc(Empty, secs);
    }
    forall i | 0 <= i < |secs| && secs[i].name == TuncSection &&
               (forall j :: i < j < |secs| ==> secs[j].name != TuncSection)
      ensures Load(Loaded(secs), ov).value.server == if ov.server != "" then ov.server else secs[i].server
    {
      ParseServerLastTunc(Empty, secs, i);
    }
  }

  /**
   * Proxy precedence: an `-id`/`-addr` pair, both non-empty, yields exactly
   * {addr, token} under that id, overwriting any entry from the file, and every
   * other id keeps the file's entry; otherwise the proxies are the file's.
   */
  lemma {:induction false} LoadProxyPrecedence(secs: seq<Section>, ov: Overrides)
    ensures var file := ParseSections(Empty, secs).proxies;
            var merged := Load(Loaded(secs), ov).value.proxies;
            if ov.id != "" && ov.addr != "" then
              && merged.Keys == AcceptedNames(secs) + {ov.id}
              && merged[ov.id] == Proxy(ov.addr, ov.token)
              && forall id :: id in file && id != ov.id ==> merged[id] == file[id]
            else
              merged == file && merged.Keys == AcceptedNames(secs)
  {
    ParseProxyIds(Empty, secs);
  }

  /**
   * Entries coming from the file are always complete; only the override can
   * add an entry with an empty token.
   */
  lemma LoadIncompleteOnlyFromOverride(secs: seq<Section>, ov: Overrides, id: string)
    requires id in Load(Loaded(secs), ov).value.proxies
    requires Load(Loaded(secs), ov).value.proxies[id].token == ""
    ensures id == ov.id && ov.id != "" && ov.addr != "" && ov.token == ""
  {
    ParseEntriesComplete(Empty, secs);
  }
}
