/** Choosing an access point and negotiating a configuration with it. */
module DotNegotiation {
  import opened Wrappers
  import opened Domains
  import LatencyRank

  datatype Mode = Full | Split

  datatype Dot = Dot(
    id: Option<int>, mode: Option<int>, reconnect: Option<bool>, dedicated: Option<bool>, exclude: Option<bool>,
    apiPort: Option<int>, vpnPort: Option<int>, ip: string, ip4Domain: Option<string>, fastIp: Option<string>,
    apiIp: Option<string>, operatorRouting: bool)

  datatype Request = Request(mode: Mode, location: Option<int>, notAuto: bool, reconnect: bool)

  datatype ApiError = MissingVpnDotField(field: string) | InvalidPort(port: int) | InvalidBaseUrl | Remote(code: nat)

  datatype Error =
    | Api(source: ApiError)
    | NoVpnDots
    | NoSupportedVpnDot(mode: Mode)
    | MissingVpnConfigData
    | MissingVpnDotListData

  datatype Url = Url(host: string, port: nat)

  datatype Endpoint = Endpoint(api: Url, wireguard: Url)

  datatype Config<D> = Config(dot: Dot, endpoint: Endpoint, data: D)

  const MAX_DOT_ATTEMPTS := 3
  const MAX_CONFIG_ATTEMPTS := 3

  // ------------------------------------------------------------------
  // One dot
  // ------------------------------------------------------------------

  function ModeId(mode: Mode): int {
    if mode.Full? then 0 else 1
  }

  predicate SupportsMode(dot: Dot, mode: int) {
    !(dot.mode == Some(1) && mode == 0)
  }

  predicate SupportsReconnect(dot: Dot) {
    dot.reconnect.GetOr(false) && !dot.dedicated.GetOr(false) && !dot.exclude.GetOr(false)
  }

  predicate Suits(request: Request, dot: Dot) {
    && (request.location.Some? ==> dot.id == request.location)
    && SupportsMode(dot, ModeId(request.mode))
    && (request.reconnect ==> SupportsReconnect(dot))
  }

  /** A dot suits when it is the pinned one, if one is pinned; is not a split node asked
      for a full tunnel; and, for a reconnect, allows reconnects and is neither
      dedicated nor excluded. */
  lemma SuitsIff(request: Request, dot: Dot)
    ensures Suits(request, dot) <==>
            && (request.location.None? || dot.id == request.location)
            && (dot.mode == Some(1) ==> request.mode == Split)
            && (request.reconnect ==>
                  dot.reconnect == Some(true) && dot.dedicated != Some(true) && dot.exclude != Some(true))
  {
  }

  predicate Filled(host: Option<string>) {
    host.Some? && host.value != ""
  }

  function ApiHost(dot: Dot): string {
    if Filled(dot.ip4Domain) then dot.ip4Domain.value
    else if Filled(dot.fastIp) then dot.fastIp.value
    else if Filled(dot.apiIp) then dot.apiIp.value
    else dot.ip
  }

  predicate UsesVpnIp(dot: Dot, isAuto: bool) {
    !isAuto && dot.ip != "" && dot.operatorRouting
  }

  /** `parses` stands for the URL parser. */
  function UrlFromHostPort(host: string, port: int, parses: string -> bool): Result<Url, ApiError> {
    if !(0 < port < 65536) then Err(InvalidPort(port))
    else if Trim(host, Space) == "" then Err(MissingVpnDotField("host"))
    else if !parses(Trim(host, Space)) then Err(InvalidBaseUrl)
    else Ok(Url(Trim(host, Space), port))
  }

  function FromDot(dot: Dot, useVpnIp: bool, parses: string -> bool): Result<Endpoint, ApiError> {
    if dot.apiPort.None? then Err(MissingVpnDotField("api_port"))
    else if dot.vpnPort.None? then Err(MissingVpnDotField("vpn_port"))
    else
      var api := UrlFromHostPort(if useVpnIp then dot.ip else ApiHost(dot), dot.apiPort.value, parses);
      if api.Err? then Err(api.error)
      else
        var wireguard := UrlFromHostPort(dot.ip, dot.vpnPort.value, parses);
        if wireguard.Err? then Err(wireguard.error) else Ok(Endpoint(api.value, wireguard.value))
  }

  function EndpointOf(request: Request, dot: Dot, parses: string -> bool): Result<Endpoint, ApiError> {
    FromDot(dot, UsesVpnIp(dot, !request.notAuto), parses)
  }

  /** Exactly when there is an endpoint, and its hosts and ports. The configuration goes
      to the dot's API port, WireGuard to its VPN port. The API host is the node's
      address for a choice that is not automatic under operator routing, and otherwise
      the first of the three frontends that is given, or else the node. */
  lemma EndpointExact(request: Request, dot: Dot, parses: string -> bool)
    ensures EndpointOf(request, dot, parses).Ok? <==>
            && dot.apiPort.Some? && dot.vpnPort.Some?
            && 0 < dot.apiPort.value < 65536 && 0 < dot.vpnPort.value < 65536
            && Dials(ApiAddress(request, dot), parses) && Dials(dot.ip, parses)
    ensures EndpointOf(request, dot, parses).Ok? ==>
              var e := EndpointOf(request, dot, parses).value;
              && Some(e.api.port) == dot.apiPort && Some(e.wireguard.port) == dot.vpnPort
              && e.api.host == Trim(ApiAddress(request, dot), Space) && e.wireguard.host == Trim(dot.ip, Space)
  {
  }

  predicate Dials(host: string, parses: string -> bool) {
    Trim(host, Space) != "" && parses(Trim(host, Space))
  }

  function ApiAddress(request: Request, dot: Dot): (host: string)
    ensures request.notAuto && dot.operatorRouting && dot.ip != "" ==> host == dot.ip
    ensures !(request.notAuto && dot.operatorRouting && dot.ip != "") ==>
              var first, second, third := dot.ip4Domain.GetOr(""), dot.fastIp.GetOr(""), dot.apiIp.GetOr("");
              && (first != "" ==> host == first)
              && (first == "" && second != "" ==> host == second)
              && (first == "" && second == "" && third != "" ==> host == third)
              && (first == "" && second == "" && third == "" ==> host == dot.ip)
  {
    if UsesVpnIp(dot, !request.notAuto) then dot.ip else ApiHost(dot)
  }

  /** The errors, in the order in which the fields are looked at. */
  lemma EndpointErrors(request: Request, dot: Dot, parses: string -> bool)
    requires EndpointOf(request, dot, parses).Err?
    ensures var e := EndpointOf(request, dot, parses).error;
            && (dot.apiPort.None? ==> e == MissingVpnDotField("api_port"))
            && (dot.apiPort.Some? && dot.vpnPort.None? ==> e == MissingVpnDotField("vpn_port"))
            && (dot.apiPort.Some? && dot.vpnPort.Some? && !(0 < dot.apiPort.value < 65536) ==>
                  e == InvalidPort(dot.apiPort.value))
            && (e.MissingVpnDotField? ==> e.field == "api_port" || e.field == "vpn_port" || e.field == "host")
  {
  }

  /** An endpoint dials the node address itself over WireGuard at the dot's VPN port; an
      automatic choice never configures through the node address while the dot names
      another host. */
  lemma EndpointShape(request: Request, dot: Dot, parses: string -> bool)
    requires EndpointOf(request, dot, parses).Ok?
    ensures var e := EndpointOf(request, dot, parses).value;
            && e.wireguard.host == Trim(dot.ip, Space) && e.wireguard.host != ""
            && 0 < e.api.port < 65536 && 0 < e.wireguard.port < 65536
            && dot.apiPort == Some(e.api.port) && dot.vpnPort == Some(e.wireguard.port)
            && (!request.notAuto && Filled(dot.ip4Domain) ==> e.api.host == Trim(dot.ip4Domain.value, Space))
            && (!request.notAuto ==> e.api.host == Trim(ApiHost(dot), Space))
  {
  }

  // ------------------------------------------------------------------
  // Candidates
  // ------------------------------------------------------------------

  function Candidates(request: Request, dots: seq<Dot>): (r: seq<Dot>)
    ensures forall d :: d in r <==> d in dots && Suits(request, d)
    ensures r == [] <==> forall d :: d in dots ==> !Suits(request, d)
  {
    var r := Filter(dots, d => Suits(request, d));
    assert r != [] ==> r[0] in r;
    r
  }

  /** The candidates keep the order of the listing. */
  lemma CandidatesAppend(request: Request, front: seq<Dot>, back: seq<Dot>)
    ensures Candidates(request, front + back) == Candidates(request, front) + Candidates(request, back)
  {
    FilterAppend(front, back, d => Suits(request, d));
  }

  function FirstThree(dots: seq<Dot>): seq<Dot> {
    if |dots| > MAX_DOT_ATTEMPTS then dots[..MAX_DOT_ATTEMPTS] else dots
  }

  /** The dots that are tried, in order. `rank` is asked only in the automatic case
      with a choice to make. */
  function Tried(request: Request, dots: seq<Dot>, rank: seq<Dot> -> seq<Dot>): seq<Dot> {
    var candidates := Candidates(request, dots);
    FirstThree(if request.location.None? && |candidates| > 1 then rank(candidates) else candidates)
  }

  /** At most three dots are tried: the first ones of the ranking in the automatic case
      with a choice to make, and of the listing otherwise. */
  lemma TriedExact(request: Request, dots: seq<Dot>, rank: seq<Dot> -> seq<Dot>)
    ensures var candidates := Candidates(request, dots);
            var ordered := if request.location.None? && |candidates| >= 2 then rank(candidates) else candidates;
            var tried := Tried(request, dots, rank);
            && |tried| == (if |ordered| < 3 then |ordered| else 3)
            && forall i :: 0 <= i < |tried| ==> tried[i] == ordered[i]
  {
  }

  /** In the automatic case the dot that ranks first is asked first: no reachable
      candidate answers faster, and of equally fast ones it is the first listed. */
  lemma FastestIsTriedFirst(
      request: Request, dots: seq<Dot>, rank: seq<Dot> -> seq<Dot>, slots: seq<LatencyRank.Latency>, i: nat)
    requires request.location.None? && |Candidates(request, dots)| >= 2 && |slots| == |Candidates(request, dots)|
    requires LatencyRank.IsRanking(rank(Candidates(request, dots)), Candidates(request, dots), slots)
    requires i < |slots| && slots[i].Some?
    requires forall j :: 0 <= j < |slots| && j != i ==>
               slots[j].None? || slots[i].value < slots[j].value || (slots[i].value == slots[j].value && i < j)
    ensures Tried(request, dots, rank) != [] && Tried(request, dots, rank)[0] == Candidates(request, dots)[i]
  {
    var candidates := Candidates(request, dots);
    var order :| LatencyRank.Permutation(order, |candidates|) && LatencyRank.Sorted(order, slots)
                 && rank(candidates) == LatencyRank.Arrange(candidates, order);
    TriedExact(request, dots, rank);
    assert i in order;
    var p :| 0 <= p < |order| && order[p] == i;
    if p != 0 {
      LatencyRank.RankingOrders(slots, order, 0, p);
    }
  }

  // ------------------------------------------------------------------
  // The search
  // ------------------------------------------------------------------

  /** The network: what attempt `a` (from 1) at the `i`-th tried dot answers, the
      response data of an answer being optional. */
  type Answers<D> = (nat, nat) -> Result<Option<D>, ApiError>

  /** The `k`-th request of a search: the dot and the attempt. */
  function Slot(k: nat): (nat, nat) {
    (k / MAX_CONFIG_ATTEMPTS, k % MAX_CONFIG_ATTEMPTS + 1)
  }

  function Answer<D>(answers: Answers<D>, k: nat): Result<Option<D>, ApiError> {
    answers(Slot(k).0, Slot(k).1)
  }

  /** Building the endpoint of a dot. */
  type Build = Dot -> Result<Endpoint, ApiError>

  /** `n` requests were made and ended with `r`: they went through the dots in
      order, three attempts each, every one but the last failed, and the search
      ended at a response, at a dot without an endpoint, or at the end. */
  ghost predicate Searched<D>(
    mode: Mode, tried: seq<Dot>, build: Build, answers: Answers<D>, n: nat, r: Result<Config<D>, Error>)
  {
    && n <= MAX_CONFIG_ATTEMPTS * |tried|
    && (forall i :: 0 <= i < |tried| && MAX_CONFIG_ATTEMPTS * i < n ==> build(tried[i]).Ok?)
    && (forall k: nat :: k < n - 1 ==> Answer(answers, k).Err?)
    && SearchEnds(mode, tried, build, answers, n, r)
  }

  ghost predicate SearchEnds<D>(
    mode: Mode, tried: seq<Dot>, build: Build, answers: Answers<D>, n: nat, r: Result<Config<D>, Error>)
    requires n <= MAX_CONFIG_ATTEMPTS * |tried|
  {
    if n > 0 && Answer(answers, n - 1).Ok? then
      var dot := tried[Slot(n - 1).0];
      var response := Answer(answers, n - 1).value;
      if response.None? then r == Err(MissingVpnConfigData)
      else
        r.Ok? && r.value.dot == dot && r.value.data == response.value && Ok(r.value.endpoint) == build(dot)
    else if n < MAX_CONFIG_ATTEMPTS * |tried| then
      && n % MAX_CONFIG_ATTEMPTS == 0
      && build(tried[Slot(n).0]).Err?
      && r == Err(Api(build(tried[Slot(n).0]).error))
    else if n > 0 then r == Err(Api(Answer(answers, n - 1).error))
    else r == Err(NoSupportedVpnDot(mode))
  }

  /** There is only one such search. */
  lemma SearchIsDetermined<D>(
      mode: Mode, tried: seq<Dot>, build: Build, answers: Answers<D>,
      m: nat, r: Result<Config<D>, Error>, n: nat, s: Result<Config<D>, Error>)
    requires Searched(mode, tried, build, answers, m, r)
    requires Searched(mode, tried, build, answers, n, s)
    ensures m == n && r == s
  {
  }

  /** The first `k` requests all failed, at dots that have an endpoint. */
  ghost predicate AllFailed<D>(tried: seq<Dot>, build: Build, answers: Answers<D>, k: nat) {
    && (forall i :: 0 <= i < |tried| && MAX_CONFIG_ATTEMPTS * i < k ==> build(tried[i]).Ok?)
    && (forall j: nat :: j < k ==> Answer(answers, j).Err?)
  }

  /** A search gives a configuration at request `k` exactly when that request is
      answered with data, at a dot with an endpoint, and all before it failed. */
  lemma FirstSuccessWins<D>(
      mode: Mode, tried: seq<Dot>, build: Build, answers: Answers<D>, n: nat, r: Result<Config<D>, Error>, k: nat)
    requires Searched(mode, tried, build, answers, n, r)
    requires k < MAX_CONFIG_ATTEMPTS * |tried|
    ensures n == k + 1 && r.Ok? <==>
            && AllFailed(tried, build, answers, k) && build(tried[Slot(k).0]).Ok?
            && Answer(answers, k).Ok? && Answer(answers, k).value.Some?
    ensures n == k + 1 && r.Ok? ==> r.value.dot == tried[Slot(k).0] && Ok(Some(r.value.data)) == Answer(answers, k)
  {
    var at := Slot(k).0;
    if && AllFailed(tried, build, answers, k) && build(tried[at]).Ok?
       && Answer(answers, k).Ok? && Answer(answers, k).value.Some?
    {
      var config := Config(tried[at], build(tried[at]).value, Answer(answers, k).value.value);
      forall i | 0 <= i < |tried| && MAX_CONFIG_ATTEMPTS * i < k + 1 ensures build(tried[i]).Ok? {
        assert MAX_CONFIG_ATTEMPTS * i == k ==> i == at;
      }
      assert Searched(mode, tried, build, answers, k + 1, Ok(config));
      SearchIsDetermined(mode, tried, build, answers, n, r, k + 1, Ok(config));
    }
  }

  /** A dot without an endpoint and a response without data end the search at once, with
      nothing asked after them. */
  lemma StopsAtOnce<D>(
      mode: Mode, tried: seq<Dot>, build: Build, answers: Answers<D>, n: nat, r: Result<Config<D>, Error>, i: nat)
    requires Searched(mode, tried, build, answers, n, r) && i < |tried|
    requires AllFailed(tried, build, answers, 3 * i)
    ensures build(tried[i]).Err? ==> n == 3 * i && r == Err(Api(build(tried[i]).error))
    ensures forall a :: 1 <= a <= 3 && build(tried[i]).Ok? && answers(i, a) == Ok(None)
                        && (forall b :: 1 <= b < a ==> answers(i, b).Err?) ==>
              n == 3 * i + a && r == Err(MissingVpnConfigData)
  {
    if build(tried[i]).Err? {
      var s: Result<Config<D>, Error> := Err(Api(build(tried[i]).error));
      assert Searched(mode, tried, build, answers, 3 * i, s);
      SearchIsDetermined(mode, tried, build, answers, n, r, 3 * i, s);
    }
    forall a | 1 <= a <= 3 && build(tried[i]).Ok? && answers(i, a) == Ok(None)
               && (forall b :: 1 <= b < a ==> answers(i, b).Err?)
      ensures n == 3 * i + a && r == Err(MissingVpnConfigData)
    {
      MissingDataEnds(mode, tried, build, answers, n, r, i, a);
    }
  }

  lemma MissingDataEnds<D>(
      mode: Mode, tried: seq<Dot>, build: Build, answers: Answers<D>, n: nat, r: Result<Config<D>, Error>,
      i: nat, a: nat)
    requires Searched(mode, tried, build, answers, n, r) && i < |tried| && build(tried[i]).Ok?
    requires AllFailed(tried, build, answers, 3 * i)
    requires 1 <= a <= 3 && answers(i, a) == Ok(None) && forall b: nat :: 1 <= b < a ==> answers(i, b).Err?
    ensures n == 3 * i + a && r == Err(MissingVpnConfigData)
  {
    var k := 3 * i + a - 1;
    assert Slot(k) == (i, a);
    forall j: nat | j < k ensures Answer(answers, j).Err? {
      if j >= 3 * i {
        assert Slot(j) == (i, j - 3 * i + 1);
      }
    }
    var s: Result<Config<D>, Error> := Err(MissingVpnConfigData);
    assert Answer(answers, k) == Ok(None);
    assert Searched(mode, tried, build, answers, k + 1, s);
    SearchIsDetermined(mode, tried, build, answers, n, r, k + 1, s);
  }

  /** When every request fails, the error is that of the last one. */
  lemma LastErrorWins<D>(
      mode: Mode, tried: seq<Dot>, build: Build, answers: Answers<D>, n: nat, r: Result<Config<D>, Error>)
    requires Searched(mode, tried, build, answers, n, r) && tried != []
    requires AllFailed(tried, build, answers, MAX_CONFIG_ATTEMPTS * |tried|)
    ensures n == 3 * |tried|
    ensures answers(|tried| - 1, 3).Err?
    ensures r == Err(Api(answers(|tried| - 1, 3).error))
  {
    var last := MAX_CONFIG_ATTEMPTS * |tried| - 1;
    assert Slot(last) == (|tried| - 1, MAX_CONFIG_ATTEMPTS);
    assert Answer(answers, last).Err?;
  }

  method Search<D>(mode: Mode, tried: seq<Dot>, build: Build, answers: Answers<D>)
    returns (r: Result<Config<D>, Error>, n: nat)
    ensures Searched(mode, tried, build, answers, n, r)
  {
    n := 0;
    var lastError: Option<ApiError> := None;
    for i := 0 to |tried|
      invariant n == MAX_CONFIG_ATTEMPTS * i
      invariant AllFailed(tried, build, answers, n)
      invariant lastError == if n == 0 then None else Some(Answer(answers, n - 1).error)
    {
      var dot := tried[i];
      assert Slot(n).0 == i;
      var endpoint := build(dot);
      if endpoint.Err? {
        return Err(Api(endpoint.error)), n;
      }
      for attempt := 1 to MAX_CONFIG_ATTEMPTS + 1
        invariant n == MAX_CONFIG_ATTEMPTS * i + attempt - 1
        invariant AllFailed(tried, build, answers, n)
        invariant lastError == if n == 0 then None else Some(Answer(answers, n - 1).error)
      {
        assert Slot(n) == (i, attempt);
        var response := answers(i, attempt);
        assert response == Answer(answers, n);
        n := n + 1;
        if response.Ok? {
          if response.value.None? {
            return Err(MissingVpnConfigData), n;
          }
          return Ok(Config(dot, endpoint.value, response.value.value)), n;
        }
        lastError := Some(response.error);
      }
    }
    if lastError.Some? {
      return Err(Api(lastError.value)), n;
    }
    return Err(NoSupportedVpnDot(mode)), n;
  }

  // ------------------------------------------------------------------
  // The negotiation
  // ------------------------------------------------------------------

  /** Ranking these dots only changes their order. */
  ghost predicate Rearranges(rank: seq<Dot> -> seq<Dot>, dots: seq<Dot>) {
    SameDots(rank(dots), dots)
  }

  ghost predicate SameDots(a: seq<Dot>, b: seq<Dot>) {
    |a| == |b| && forall d :: d in a <==> d in b
  }

  /** The latency ranking is such a rearrangement, so a negotiation that uses it only
      ever returns a listed dot that suits the request. */
  lemma RankingKeepsCandidates(ranked: seq<Dot>, candidates: seq<Dot>, slots: seq<LatencyRank.Latency>)
    requires |slots| == |candidates| && LatencyRank.IsRanking(ranked, candidates, slots)
    ensures SameDots(ranked, candidates)
  {
    LatencyRank.RankingKeepsDots(ranked, candidates, slots);
  }

  /** A configuration is for a dot that was tried, with the ports of that dot. */
  lemma FoundDotIsTried<D>(
      request: Request, tried: seq<Dot>, parses: string -> bool, answers: Answers<D>,
      n: nat, r: Result<Config<D>, Error>)
    requires Searched(request.mode, tried, d => EndpointOf(request, d, parses), answers, n, r)
    ensures r.Ok? ==>
              && r.value.dot in tried
              && Some(r.value.endpoint.wireguard.port) == r.value.dot.vpnPort
              && Some(r.value.endpoint.api.port) == r.value.dot.apiPort
  {
    if r.Ok? {
      EndpointExact(request, r.value.dot, parses);
    }
  }

  /** Rank the candidates if there is a choice to make, and keep the first three. */
  method Order(request: Request, candidates: seq<Dot>, rank: seq<Dot> -> seq<Dot>) returns (tried: seq<Dot>)
    ensures tried == FirstThree(if request.location.None? && |candidates| > 1 then rank(candidates) else candidates)
    ensures |tried| <= 3
    ensures Rearranges(rank, candidates) ==> forall d :: d in tried ==> d in candidates
  {
    tried := candidates;
    if request.location.None? && |tried| > 1 {
      tried := rank(tried);
    }
    if |tried| > MAX_DOT_ATTEMPTS {
      tried := tried[..MAX_DOT_ATTEMPTS];
    }
  }

  /** `vpn_config_from_dot_list`, `listing` being what the dot list request yields.
      `n` counts the configuration requests. */
  method Negotiate<D>(
      listing: Result<Option<seq<Dot>>, ApiError>, request: Request, parses: string -> bool,
      rank: seq<Dot> -> seq<Dot>, answers: Answers<D>)
    returns (r: Result<Config<D>, Error>, n: nat)
    ensures n <= 9
    ensures listing.Err? ==> r == Err(Api(listing.error)) && n == 0
    ensures listing == Ok(None) ==> r == Err(MissingVpnDotListData) && n == 0
    ensures listing == Ok(Some([])) ==> r == Err(NoVpnDots) && n == 0
    ensures listing.Ok? && listing.value.Some? && listing.value.value != [] ==>
              Searched(
                request.mode, Tried(request, listing.value.value, rank),
                d => EndpointOf(request, d, parses), answers, n, r)
    ensures r.Ok? && Rearranges(rank, Candidates(request, listing.value.value)) ==>
              r.value.dot in listing.value.value && Suits(request, r.value.dot)
    ensures r.Ok? ==>
              && Some(r.value.endpoint.wireguard.port) == r.value.dot.vpnPort
              && Some(r.value.endpoint.api.port) == r.value.dot.apiPort
    ensures listing.Ok? && listing.value.Some? && listing.value.value != []
            && (forall d :: d in listing.value.value ==> !Suits(request, d)) ==>
              n == 0 && r == Err(NoSupportedVpnDot(request.mode))
  {
    if listing.Err? {
      return Err(Api(listing.error)), 0;
    }
    if listing.value.None? {
      return Err(MissingVpnDotListData), 0;
    }
    var dots := listing.value.value;
    if dots == [] {
      return Err(NoVpnDots), 0;
    }
    var candidates := Candidates(request, dots);
    if candidates == [] {
      return Err(NoSupportedVpnDot(request.mode)), 0;
    }
    var tried := Order(request, candidates, rank);
    r, n := Search(request.mode, tried, d => EndpointOf(request, d, parses), answers);
    FoundDotIsTried(request, tried, parses, answers, n, r);
  }
}
