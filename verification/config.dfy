/** `config::new`: the bot's configuration read from an INI file. The file is
    given here already parsed, as sections of key/value entries. */
module Config {
  import opened Wrappers
  import opened Strings
  import Strategy

  /** An INI file: section name to its entries. */
  type Ini = map<string, map<string, string>>

  datatype ExchangeConfig = ExchangeConfig(
    name: string, uri: string, apikey: string, endpoints: map<string, string>)

  datatype Config = Config(
    exchange: ExchangeConfig, dryrun: bool, strategies: set<Strategy.StrategyType>)

  /** Why the configuration was rejected (each is a panic in the source). */
  datatype ConfigError =
    | MissingSection(section: string)
    | MissingEntry(section: string, key: string)
    | EndpointWithoutValue(item: string)
    | UnsupportedStrategy(item: string)

  /** The key and value of one "KEY=value" item: the pieces before and after
      the first '=', anything after a second '=' is ignored. */
  function ParseEndpoint(item: string): (r: Option<(string, string)>)
    ensures r.None? <==> '=' !in item
    ensures r.Some? ==> '=' !in r.value.0 && '=' !in r.value.1
                        && StartsWith(item, r.value.0 + "=" + r.value.1)
  {
    var kv := Split(item, '=');
    SplitSingle(item, '=');
    if |kv| < 2 then None
    else
      SplitPrefixTwo(item, '=');
      Some((kv[0], kv[1]))
  }

  /** With a separator present, the first two pieces and the separator
      between them start the input. */
  lemma SplitPrefixTwo(s: string, c: char)
    requires c in s
    ensures var p := Split(s, c);
      |p| >= 2 && StartsWith(s, p[0] + [c] + p[1])
  {
    SplitHead(s, c);
    var p := Split(s, c);
    var rest := p[1..];
    if |rest| > 1 {
      assert Join(rest, c) == p[1] + [c] + Join(rest[1..], c);
    }
    assert s == p[0] + [c] + p[1] + s[|p[0] + [c] + p[1]|..];
  }

  predicate AllHaveValue(items: seq<string>) {
    forall i :: 0 <= i < |items| ==> '=' in items[i]
  }

  /** The items are inserted in order into the endpoint map, so a later
      duplicate key overwrites an earlier one; an item without '=' is rejected. */
  function ParseItems(items: seq<string>): (r: Result<map<string, string>, ConfigError>)
    ensures r.Ok? <==> AllHaveValue(items)
    ensures r.Err? ==> exists i :: 0 <= i < |items| && r.error == EndpointWithoutValue(items[i])
  {
    if |items| == 0 then Ok(map[])
    else
      var init := items[..|items| - 1];
      var last := items[|items| - 1];
      assert forall i :: 0 <= i < |init| ==> init[i] == items[i];
      match ParseItems(init)
      case Err(e) => Err(e)
      case Ok(m) =>
        match ParseEndpoint(last)
        case None => Err(EndpointWithoutValue(last))
        case Some(kv) => Ok(m[kv.0 := kv.1])
  }

  /** The endpoint list "EP0=ep0,EP1=ep1,…". */
  function ParseEndpoints(eps: string): (r: Result<map<string, string>, ConfigError>)
    ensures r.Ok? <==> AllHaveValue(Split(eps, ','))
  {
    ParseItems(Split(eps, ','))
  }

  /** The keys of the map are exactly the keys of the items. */
  lemma {:induction false} ParsedKeys(items: seq<string>, k: string)
    requires ParseItems(items).Ok?
    ensures k in ParseItems(items).value <==>
      exists i :: 0 <= i < |items| && ParseEndpoint(items[i]).value.0 == k
  {
    if |items| > 0 {
      var init := items[..|items| - 1];
      assert forall i :: 0 <= i < |init| ==> init[i] == items[i];
      ParsedKeys(init, k);
      var kv := ParseEndpoint(items[|items| - 1]).value;
      if k in ParseItems(items).value && k != kv.0 {
        var i :| 0 <= i < |init| && ParseEndpoint(init[i]).value.0 == k;
        assert ParseEndpoint(items[i]).value.0 == k;
      }
      if exists i :: 0 <= i < |items| && ParseEndpoint(items[i]).value.0 == k {
        var i :| 0 <= i < |items| && ParseEndpoint(items[i]).value.0 == k;
        if i < |init| {
          assert ParseEndpoint(init[i]).value.0 == k;
        }
      }
    }
  }

  /** Every key maps to the value of the LAST item that names it. */
  lemma {:induction false} LastDuplicateWins(items: seq<string>, i: nat)
    requires ParseItems(items).Ok?
    requires i < |items|
    requires forall j :: i < j < |items| ==>
      ParseEndpoint(items[j]).value.0 != ParseEndpoint(items[i]).value.0
    ensures var kv := ParseEndpoint(items[i]).value;
      kv.0 in ParseItems(items).value && ParseItems(items).value[kv.0] == kv.1
  {
    var init := items[..|items| - 1];
    if i < |items| - 1 {
      assert forall j :: 0 <= j < |init| ==> init[j] == items[j];
      LastDuplicateWins(init, i);
    }
  }

  /** Dryrun is on iff the entry is "true" or "yes" in any ASCII case; a missing entry is off. */
  function Dryrun(v: Option<string>): (r: bool)
    ensures r ==> v.Some?
  {
    match v
    case None => false
    case Some(s) => Lower(s) == "true" || Lower(s) == "yes"
  }

  /** Dryrun is the source's case-insensitive comparison with "true" and "yes". */
  lemma DryrunComparesIgnoringCase(s: string)
    ensures Dryrun(Some(s)) <==> EqIgnoreAsciiCase(s, "true") || EqIgnoreAsciiCase(s, "yes")
  {
    assert Lower("true") == "true";
    assert Lower("yes") == "yes";
  }

  /** Dryrun depends on the entry only up to ASCII case. */
  lemma DryrunIgnoresCase(s: string, t: string)
    requires Lower(s) == Lower(t)
    ensures Dryrun(Some(s)) == Dryrun(Some(t))
  {
  }

  function Entry(ini: Ini, section: string, key: string): Option<string> {
    if section in ini && key in ini[section] then Some(ini[section][key]) else None
  }

  /** The checks in source order: the three sections, the four exchange
      entries, the endpoint list, then the enabled strategies. */
  function New(ini: Ini): (r: Result<Config, ConfigError>)
    ensures "Manager" !in ini ==> r == Err(MissingSection("Manager"))
    ensures r.Ok? <==>
      && "Manager" in ini && "Exchange" in ini && "Strategies" in ini
      && "Name" in ini["Exchange"] && "URI" in ini["Exchange"]
      && "APIKey" in ini["Exchange"] && "Endpoints" in ini["Exchange"]
      && "Enabled" in ini["Strategies"]
      && AllHaveValue(Split(ini["Exchange"]["Endpoints"], ','))
      && Strategy.FromStrCs(ini["Strategies"]["Enabled"]).Ok?
    ensures r.Ok? ==>
      && r.value.exchange.name == ini["Exchange"]["Name"]
      && r.value.exchange.uri == ini["Exchange"]["URI"]
      && r.value.exchange.apikey == ini["Exchange"]["APIKey"]
      && r.value.exchange.endpoints == ParseEndpoints(ini["Exchange"]["Endpoints"]).value
      && r.value.dryrun == Dryrun(Entry(ini, "Manager", "Dryrun"))
      && r.value.strategies == {}
  {
    if "Manager" !in ini then Err(MissingSection("Manager"))
    else if "Exchange" !in ini then Err(MissingSection("Exchange"))
    else if "Strategies" !in ini then Err(MissingSection("Strategies"))
    else
      var ex := ini["Exchange"];
      if "Name" !in ex then Err(MissingEntry("Exchange", "Name"))
      else if "URI" !in ex then Err(MissingEntry("Exchange", "URI"))
      else if "APIKey" !in ex then Err(MissingEntry("Exchange", "APIKey"))
      else if "Endpoints" !in ex then Err(MissingEntry("Exchange", "Endpoints"))
      else
        match ParseEndpoints(ex["Endpoints"])
        case Err(e) => Err(e)
        case Ok(eps) =>
          var dryrun := Dryrun(Entry(ini, "Manager", "Dryrun"));
          if "Enabled" !in ini["Strategies"] then Err(MissingEntry("Strategies", "Enabled"))
          else
            match Strategy.FromStrCs(ini["Strategies"]["Enabled"])
            case Err(item) => Err(UnsupportedStrategy(item))
            case Ok(strategies) =>
              Ok(Config(ExchangeConfig(ex["Name"], ex["URI"], ex["APIKey"], eps),
                        dryrun, strategies))
  }
}
