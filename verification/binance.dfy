/** The request-building policy of the exchange client: which URI a request
    goes to, when it is signed, the isolated-margin check of `post`/`put`, the
    retry policy of `get_retries`, and the parameters `send_order` adds.
    Sending a request is the network's business: a request is built here and
    the outcome of each attempt is a parameter. */
module Binance {
  import opened Wrappers
  import opened Strings

  /** The exchange error code for an order the balance cannot cover. */
  const InsufficientBalance: int := -2010

  /** What the client needs of its configuration. `version`, `marginVersion`
      and the secret key are read by the client but are not fields of the
      configuration record the config parser builds. */
  datatype ApiConfig = ApiConfig(
    uri: string, version: string, marginVersion: string,
    apikey: string, endpoints: map<string, string>)

  /** A query-parameter value. Prices, quantities and timestamps are kept as
      numbers; their rendering as text belongs to the HTTP layer. */
  datatype Value = Text(s: string) | Num(x: real) | Stamp(millis: nat)

  type Params = map<string, Value>

  datatype Verb = Post | Put | Get | Delete

  /** A request as handed to the HTTP client; `signed` says whether a
      signature is appended to the query. */
  datatype Request = Request(
    verb: Verb, uri: string, params: Option<Params>, signed: bool)

  datatype ApiError = IsolatedWithoutMargin | NoEndpoint(name: string)

  /** The REST URI of an endpoint: isolated margin, cross margin, or spot. */
  function Uri(cfg: ApiConfig, endpoint: string, margin: bool, isolated: bool): string {
    cfg.uri + "/" + Path(cfg, endpoint, margin, isolated)
  }

  /** Every URI is the base address, a '/', and a path ending in "/endpoint". */
  lemma UriShape(cfg: ApiConfig, endpoint: string, margin: bool, isolated: bool)
    ensures var r := Uri(cfg, endpoint, margin, isolated);
      StartsWith(r, cfg.uri + "/") && EndsWith(r, "/" + endpoint)
  {
    var dir := cfg.uri + "/" + Directory(cfg, margin, isolated);
    AppendEnds(cfg.uri + "/", Path(cfg, endpoint, margin, isolated));
    AppendEnds(dir, "/" + endpoint);
    assert Uri(cfg, endpoint, margin, isolated) == dir + ("/" + endpoint);
  }

  /** The directory an endpoint sits in, below the base address. */
  function Directory(cfg: ApiConfig, margin: bool, isolated: bool): string {
    if margin && isolated then cfg.marginVersion + "/margin/isolated"
    else if margin then cfg.marginVersion + "/margin"
    else cfg.version
  }

  /** The part of the URI after the base address. */
  function Path(cfg: ApiConfig, endpoint: string, margin: bool, isolated: bool): string {
    Directory(cfg, margin, isolated) + "/" + endpoint
  }

  lemma AppendEnds(a: string, b: string)
    ensures StartsWith(a + b, a) && EndsWith(a + b, b)
  {
    assert (a + b)[..|a|] == a;
    assert (a + b)[|a + b| - |b|..] == b;
  }

  /** The route a request takes: spot, cross margin, or isolated margin. */
  datatype Route = Spot | CrossMargin | IsolatedMargin

  function RouteOf(margin: bool, isolated: bool): Route {
    if margin && isolated then IsolatedMargin else if margin then CrossMargin else Spot
  }

  /** `post` and `put`: isolated without margin is refused (an assertion in the
      source); a signature is added only when asked for and there are parameters. */
  function Send(verb: Verb, cfg: ApiConfig, endpoint: string, params: Option<Params>,
                sign: bool, margin: bool, isolated: bool): (r: Result<Request, ApiError>)
    requires verb == Post || verb == Put
    ensures r.Err? <==> isolated && !margin
    ensures r.Ok? ==> r.value.verb == verb && r.value.params == params
                      && r.value.uri == Uri(cfg, endpoint, margin, isolated)
                      && (r.value.signed <==> sign && params.Some?)
  {
    if isolated && !margin then Err(IsolatedWithoutMargin)
    else Ok(Request(verb, Uri(cfg, endpoint, margin, isolated), params, sign && params.Some?))
  }

  /** `get`: no isolated check; signed when there are parameters and signing is asked for. */
  function GetRequest(cfg: ApiConfig, endpoint: string, params: Option<Params>,
                      sign: bool, margin: bool, isolated: bool): (r: Request)
    ensures r.verb == Get && r.params == params
    ensures r.uri == Uri(cfg, endpoint, margin, isolated)
    ensures r.signed <==> params.Some? && sign
  {
    Request(Get, Uri(cfg, endpoint, margin, isolated), params, params.Some? && sign)
  }

  /** `delete`: no isolated check; always has parameters and is signed whenever asked. */
  function DeleteRequest(cfg: ApiConfig, endpoint: string, params: Params,
                         sign: bool, margin: bool, isolated: bool): (r: Request)
    ensures r.verb == Delete && r.params == Some(params)
    ensures r.uri == Uri(cfg, endpoint, margin, isolated)
    ensures r.signed <==> sign
  {
    Request(Delete, Uri(cfg, endpoint, margin, isolated), Some(params), sign)
  }

  /** Whatever request succeeds with `post`, `get` builds the same one but for
      the verb. Where `post` refuses isolated without margin, `get` quietly
      sends the request to the spot URI. */
  lemma PostAndGetAgree(cfg: ApiConfig, endpoint: string, params: Option<Params>,
                        sign: bool, margin: bool, isolated: bool)
    ensures var p := Send(Post, cfg, endpoint, params, sign, margin, isolated);
      var g := GetRequest(cfg, endpoint, params, sign, margin, isolated);
      p.Ok? ==> p.value == g.(verb := Post)
    ensures isolated && !margin ==>
      Send(Post, cfg, endpoint, params, sign, margin, isolated).Err?
      && GetRequest(cfg, endpoint, params, sign, margin, isolated).uri == Uri(cfg, endpoint, false, false)
  {
  }

  /** The index of the first '/' of a string, or its length when it has none. */
  function FirstSlash(s: string): (k: nat)
    ensures k <= |s|
  {
    if |s| == 0 || s[0] == '/' then 0 else 1 + FirstSlash(s[1..])
  }

  /** The text before the first '/'. */
  function FirstSegment(s: string): string {
    s[..FirstSlash(s)]
  }

  /** A '/'-free prefix followed by '/' is the first segment. */
  lemma {:induction false} FirstSegmentOf(s: string, a: string)
    requires |a| < |s| && s[..|a|] == a && s[|a|] == '/' && '/' !in a
    ensures FirstSlash(s) == |a| && FirstSegment(s) == a
    decreases |a|
  {
    if |a| > 0 {
      assert s[0] == a[0] && a[0] in a;
      assert s[1..][..|a| - 1] == a[1..];
      FirstSegmentOf(s[1..], a[1..]);
    }
  }

  /** With distinct, '/'-free API versions, an endpoint's URI determines its
      route: no two routes share a URI. */
  lemma UriDeterminesRoute(cfg: ApiConfig, endpoint: string,
                           m1: bool, i1: bool, m2: bool, i2: bool)
    requires '/' !in cfg.version && '/' !in cfg.marginVersion
    requires cfg.version != cfg.marginVersion
    ensures Uri(cfg, endpoint, m1, i1) == Uri(cfg, endpoint, m2, i2) ==> RouteOf(m1, i1) == RouteOf(m2, i2)
  {
    var p1 := Path(cfg, endpoint, m1, i1);
    var p2 := Path(cfg, endpoint, m2, i2);
    assert p1 == Uri(cfg, endpoint, m1, i1)[|cfg.uri| + 1..];
    assert p2 == Uri(cfg, endpoint, m2, i2)[|cfg.uri| + 1..];
    if m1 != m2 {
      FirstSegmentOf(p1, if m1 then cfg.marginVersion else cfg.version);
      FirstSegmentOf(p2, if m2 then cfg.marginVersion else cfg.version);
    } else if m1 && i1 != i2 {
      assert |p1| != |p2|;
    }
  }

  /** `get_retries`: at most five attempts with the same request. The first
      successful one of attempts 1–4 is returned; otherwise the fifth
      attempt's outcome is returned as it is. `outcomes[k]` is what the
      (k+1)-th attempt would produce. */
  method GetRetries<T, E>(outcomes: seq<Result<T, E>>) returns (r: Result<T, E>, attempts: nat)
    requires |outcomes| == 5
    ensures 1 <= attempts <= 5
    ensures r == outcomes[attempts - 1]
    ensures forall k :: 0 <= k < attempts - 1 ==> outcomes[k].Err?
    ensures attempts < 5 ==> r.Ok?
  {
    var n := 0;
    var tries := 5;
    while n < tries - 1
      invariant 0 <= n <= tries - 1
      invariant forall k :: 0 <= k < n ==> outcomes[k].Err?
    {
      if outcomes[n].Ok? {
        return outcomes[n], n + 1;
      }
      n := n + 1;
    }
    return outcomes[4], 5;
  }

  /** `send_order`: the ORDER endpoint must be configured (a panic otherwise);
      the parameters gain newOrderRespType=ACK and nothing else changes; the
      request is a signed, non-isolated post. */
  function SendOrder(cfg: ApiConfig, params: Params, margin: bool): (r: Result<Request, ApiError>)
    ensures r.Err? <==> "ORDER" !in cfg.endpoints
    ensures r.Ok? ==>
      && r.value.verb == Post && r.value.signed
      && r.value.uri == Uri(cfg, cfg.endpoints["ORDER"], margin, false)
      && r.value.params.Some?
      && r.value.params.value.Keys == params.Keys + {"newOrderRespType"}
      && r.value.params.value["newOrderRespType"] == Text("ACK")
      && forall k :: k in params && k != "newOrderRespType" ==> r.value.params.value[k] == params[k]
  {
    if "ORDER" !in cfg.endpoints then Err(NoEndpoint("ORDER"))
    else
      var withAck := params["newOrderRespType" := Text("ACK")];
      var r := Send(Post, cfg, cfg.endpoints["ORDER"], Some(withAck), true, margin, false);
      assert r.Ok?;
      r
  }

  /** `send_stop_order`: the same ORDER endpoint, signed, on the spot route,
      with the parameters exactly as given (no response type is added). */
  function SendStopOrder(cfg: ApiConfig, params: Params): (r: Result<Request, ApiError>)
    ensures r.Err? <==> "ORDER" !in cfg.endpoints
    ensures r.Ok? ==>
      && r.value.verb == Post && r.value.signed
      && r.value.uri == Uri(cfg, cfg.endpoints["ORDER"], false, false)
      && r.value.params == Some(params)
  {
    if "ORDER" !in cfg.endpoints then Err(NoEndpoint("ORDER"))
    else
      var r := Send(Post, cfg, cfg.endpoints["ORDER"], Some(params), true, false, false);
      assert r.Ok?;
      r
  }
}
