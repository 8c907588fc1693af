/** Quote engine and swap executor (src/utils/dex.ts): ask every configured
    router for a quote along a path through WAVAX, rank the quotes, and turn
    the chosen route into exactly one router call with a slippage bound and a
    deadline. Router calls are oracles: `QuoteOracle` stands for
    `getAmountsOut`, `SendOracle` for submitting a swap. */
module Dex {
  import opened Wrappers
  import Sorting
  import Seqs

  const WAVAX: string := "0xB31f66AA3C1e785363F0875A1B74E27b85FD66c7"
  const NATIVE_AVAX: string := "0xEeeeeEeeeEeEeeEeEeEeeEEEeeeeEeeeeeeeEEeE"
  const GAS_LIMIT: nat := 300000
  /** 60 * 20 seconds. */
  const DEADLINE_SECONDS: nat := 1200
  const NO_ROUTES: string := "No valid routes found"
  const SWAP_FAILED: string := "Swap failed"

  datatype DexRouter = DexRouter(name: string, address: string)

  /** `Object.entries(DEX_ROUTERS)`, in declaration order. */
  const DEX_ROUTERS: seq<DexRouter> := [
    DexRouter("TRADER_JOE", "0x60aE616a2155Ee3d9A68541Ba4544862310933d4"),
    DexRouter("PANGOLIN", "0xE54Ca86531e17Ef3616d22Ca28b0D458b6C89106"),
    DexRouter("GMX", "0x5F719c2F1095F7B9fc68a68e35B51194f4b6abe8")
  ]

  datatype Route = Route(dex: string, outputAmount: nat, path: seq<string>, routerAddress: string)

  /** What `getAmountsOut` returns: one amount per path entry, so never empty. */
  type Amounts = s: seq<nat> | |s| > 0 witness [0]

  /** `router.getAmountsOut(amountIn, path)` on the router at the given
      address; `None` when the call throws. */
  type QuoteOracle = (string, seq<string>, nat) -> Option<Amounts>

  // ---------------------------------------------------------------------
  // Path building

  function SubstituteNative(token: string): string {
    if token == NATIVE_AVAX then WAVAX else token
  }

  /** The path `getBestRoute` hands to every router. */
  function TradePath(fromToken: string, toToken: string): seq<string> {
    var f := SubstituteNative(fromToken);
    var t := SubstituteNative(toToken);
    if f != WAVAX && t != WAVAX && f != t then [f, WAVAX, t] else [f, t]
  }

  lemma WavaxIsNotNative()
    ensures WAVAX != NATIVE_AVAX
  {
    assert WAVAX[2] != NATIVE_AVAX[2];
  }

  /** The path has two or three entries, starts and ends at the substituted
      tokens, goes through WAVAX exactly when neither end is WAVAX and the ends
      differ, and never contains the native pseudo-address. */
  lemma TradePathShape(fromToken: string, toToken: string)
    ensures var p := TradePath(fromToken, toToken);
      && (|p| == 2 || |p| == 3)
      && p[0] == SubstituteNative(fromToken)
      && p[|p| - 1] == SubstituteNative(toToken)
      && (|p| == 3 <==> SubstituteNative(fromToken) != WAVAX && SubstituteNative(toToken) != WAVAX
                        && SubstituteNative(fromToken) != SubstituteNative(toToken))
      && (|p| == 3 ==> p[1] == WAVAX)
      && NATIVE_AVAX !in p
  {
    WavaxIsNotNative();
  }

  // ---------------------------------------------------------------------
  // Quote collection and ranking

  function RouteFrom(router: DexRouter, path: seq<string>, amounts: Amounts): Route {
    Route(router.name, amounts[|amounts| - 1], path, router.address)
  }

  /** What one router contributes: its route when its quote succeeds. */
  function QuotedRoute(router: DexRouter, path: seq<string>, amountIn: nat, quote: QuoteOracle): seq<Route> {
    match quote(router.address, path, amountIn)
    case None => []
    case Some(amounts) => [RouteFrom(router, path, amounts)]
  }

  /** The routes pushed by the loop over `routers`: one per router whose quote
      succeeds, in router order. */
  function CollectRoutes(routers: seq<DexRouter>, path: seq<string>, amountIn: nat, quote: QuoteOracle): seq<Route>
    decreases |routers|
  {
    if routers == [] then []
    else
      QuotedRoute(routers[0], path, amountIn, quote) + CollectRoutes(routers[1..], path, amountIn, quote)
  }

  /** Router `i` answered the quote and `r` is the route built from its answer. */
  predicate QuotedAt(routers: seq<DexRouter>, i: int, path: seq<string>, amountIn: nat, quote: QuoteOracle, r: Route) {
    && 0 <= i < |routers|
    && quote(routers[i].address, path, amountIn).Some?
    && r == RouteFrom(routers[i], path, quote(routers[i].address, path, amountIn).value)
  }

  /** A route is collected exactly when some router's quote succeeded, and it
      is that router's last amount tagged with that router's name and
      address; failing routers contribute nothing. */
  lemma {:induction false} CollectRoutesMembers(routers: seq<DexRouter>, path: seq<string>, amountIn: nat, quote: QuoteOracle, r: Route)
    ensures r in CollectRoutes(routers, path, amountIn, quote) <==>
      exists i :: QuotedAt(routers, i, path, amountIn, quote, r)
    decreases |routers|
  {
    if routers != [] {
      CollectRoutesMembers(routers[1..], path, amountIn, quote, r);
      var rest := CollectRoutes(routers[1..], path, amountIn, quote);
      if r in CollectRoutes(routers, path, amountIn, quote) {
        if r in rest {
          var i :| QuotedAt(routers[1..], i, path, amountIn, quote, r);
          assert QuotedAt(routers, i + 1, path, amountIn, quote, r);
        } else {
          assert QuotedAt(routers, 0, path, amountIn, quote, r);
        }
      }
      if exists i :: QuotedAt(routers, i, path, amountIn, quote, r) {
        var i :| QuotedAt(routers, i, path, amountIn, quote, r);
        if i > 0 {
          assert QuotedAt(routers[1..], i - 1, path, amountIn, quote, r);
        }
      }
    }
  }

  /** No route at all exactly when every router's quote fails. */
  lemma {:induction false} CollectRoutesEmpty(routers: seq<DexRouter>, path: seq<string>, amountIn: nat, quote: QuoteOracle)
    ensures CollectRoutes(routers, path, amountIn, quote) == [] <==>
      forall i :: 0 <= i < |routers| ==> quote(routers[i].address, path, amountIn).None?
    ensures |CollectRoutes(routers, path, amountIn, quote)| <= |routers|
    decreases |routers|
  {
    if routers != [] {
      CollectRoutesEmpty(routers[1..], path, amountIn, quote);
      assert forall i :: 1 <= i < |routers| ==> routers[1..][i - 1] == routers[i];
    }
  }

  predicate RouteLe(a: Route, b: Route) {
    a.outputAmount >= b.outputAmount
  }

  /** The quotes of all routers for a trade, best first: the loop of
      `getBestRoute` followed by its in-place `routes.sort`. The result is a
      permutation of the collected routes in non-increasing output order. */
  method RankRoutes(fromToken: string, toToken: string, amountIn: nat, quote: QuoteOracle)
    returns (ranked: seq<Route>)
    ensures multiset(ranked) == multiset(CollectRoutes(DEX_ROUTERS, TradePath(fromToken, toToken), amountIn, quote))
    ensures Sorting.SortedBy(ranked, RouteLe)
  {
    var routes := QuoteRouters(DEX_ROUTERS, fromToken, toToken, amountIn, quote);
    var a := new Route[|routes|](i requires 0 <= i < |routes| => routes[i]);
    assert a[..] == routes;
    Sorting.SortInPlace(a, RouteLe);
    ranked := a[..];
  }

  /** The `for ... of Object.entries(DEX_ROUTERS)` loop: build the path, ask
      the router, and push a route when the quote succeeds. */
  method QuoteRouters(routers: seq<DexRouter>, fromToken: string, toToken: string, amountIn: nat, quote: QuoteOracle)
    returns (routes: seq<Route>)
    ensures routes == CollectRoutes(routers, TradePath(fromToken, toToken), amountIn, quote)
  {
    routes := [];
    var actualFromToken := SubstituteNative(fromToken);
    var actualToToken := SubstituteNative(toToken);
    ghost var expected := TradePath(fromToken, toToken);
    var k := 0;
    while k < |routers|
      invariant 0 <= k <= |routers|
      invariant routes + CollectRoutes(routers[k..], expected, amountIn, quote)
             == CollectRoutes(routers, expected, amountIn, quote)
    {
      var router := routers[k];
      var path := [actualFromToken, actualToToken];
      if actualFromToken != WAVAX && actualToToken != WAVAX && actualFromToken != actualToToken {
        path := path[..1] + [WAVAX] + path[1..];
      }
      assert path == expected;
      var amounts := quote(router.address, path, amountIn);
      ghost var step := QuotedRoute(router, expected, amountIn, quote);
      assert routers[k..][1..] == routers[k + 1..];
      assert CollectRoutes(routers[k..], expected, amountIn, quote)
          == step + CollectRoutes(routers[k + 1..], expected, amountIn, quote);
      Seqs.ConcatAssoc(routes, step, CollectRoutes(routers[k + 1..], expected, amountIn, quote));
      if amounts.Some? {
        assert step == [RouteFrom(router, path, amounts.value)];
        routes := routes + [RouteFrom(router, path, amounts.value)];
      } else {
        assert routes + step == routes;
      }
      k := k + 1;
    }
    assert routers[k..] == [];
  }

  /** `getBestRoute`: the first of the ranked routes, or the error raised
      when no router produced a quote. The route returned is one of the
      collected quotes and its output is at least that of every other. */
  method GetBestRoute(fromToken: string, toToken: string, amountIn: nat, quote: QuoteOracle)
    returns (best: Result<Route, string>)
    ensures var routes := CollectRoutes(DEX_ROUTERS, TradePath(fromToken, toToken), amountIn, quote);
      && (best.Failure? <==> routes == [])
      && (best.Failure? ==> best.error == NO_ROUTES)
      && (best.Success? ==>
            && best.value in routes
            && forall r :: r in routes ==> r.outputAmount <= best.value.outputAmount)
  {
    var ranked := RankRoutes(fromToken, toToken, amountIn, quote);
    ghost var routes := CollectRoutes(DEX_ROUTERS, TradePath(fromToken, toToken), amountIn, quote);
    if |ranked| == 0 {
      assert multiset(routes) == multiset{};
      return Failure(NO_ROUTES);
    }
    best := Success(ranked[0]);
    assert ranked[0] in multiset(routes);
    forall r | r in routes
      ensures r.outputAmount <= ranked[0].outputAmount
    {
      assert r in multiset(ranked);
      var j :| 0 <= j < |ranked| && ranked[j] == r;
      if j > 0 {
        assert RouteLe(ranked[0], ranked[j]);
      }
    }
  }

  // ---------------------------------------------------------------------
  // Swap execution

  /** `Math.floor(slippage * 10)`: the slippage in tenths of a percent. */
  function SlippageTenths(slippage: real): (s: int)
    requires 0.0 <= slippage <= 100.0
    ensures 0 <= s <= 1000
    ensures s as real <= slippage * 10.0 < s as real + 1.0
  {
    (slippage * 10.0).Floor
  }

  /** `outputAmount * (1000 - floor(slippage * 10)) / 1000`: the largest
      amount whose thousandfold does not exceed the output scaled by the
      kept fraction. It never exceeds the quoted output, and equals it when
      the slippage is below 0.1%. */
  function MinAmountOut(outputAmount: nat, slippage: real): (m: nat)
    requires 0.0 <= slippage <= 100.0
    ensures m * 1000 <= outputAmount * (1000 - SlippageTenths(slippage)) < (m + 1) * 1000
    ensures m <= outputAmount
    ensures SlippageTenths(slippage) == 0 ==> m == outputAmount
  {
    var s := SlippageTenths(slippage);
    assert 0 <= outputAmount * (1000 - s) <= outputAmount * 1000;
    outputAmount * (1000 - s) / 1000
  }

  /** The default 0.5% slippage on an output of 1,000,000 keeps 995,000. */
  lemma MinAmountOutDefaultSlippage()
    ensures MinAmountOut(1000000, 0.5) == 995000
  {
    assert SlippageTenths(0.5) == 5;
  }

  /** A larger slippage tolerance never raises the minimum output. */
  lemma MinAmountOutAntitone(outputAmount: nat, s1: real, s2: real)
    requires 0.0 <= s1 <= s2 <= 100.0
    ensures MinAmountOut(outputAmount, s2) <= MinAmountOut(outputAmount, s1)
  {
    var t1, t2 := SlippageTenths(s1), SlippageTenths(s2);
    assert t1 <= t2;
    MulMonotone(outputAmount, 1000 - t2, 1000 - t1);
  }

  lemma MulMonotone(x: nat, a: int, b: int)
    requires 0 <= a <= b
    ensures x * a <= x * b
  {
    assert x * b - x * a == x * (b - a);
  }

  /** `Math.floor(Date.now() / 1000) + 60 * 20`: twenty minutes after the
      current second. */
  function Deadline(nowMs: nat): (d: nat)
    ensures d >= DEADLINE_SECONDS
    ensures (d - DEADLINE_SECONDS) * 1000 <= nowMs < (d - DEADLINE_SECONDS + 1) * 1000
  {
    nowMs / 1000 + DEADLINE_SECONDS
  }

  /** The three router entry points `executeSwap` can call. */
  datatype SwapCall =
    | SwapExactAVAXForTokens(amountOutMin: nat, path: seq<string>, to: string, deadline: nat)
    | SwapExactTokensForAVAX(amountIn: nat, amountOutMin: nat, path: seq<string>, to: string, deadline: nat)
    | SwapExactTokensForTokens(amountIn: nat, amountOutMin: nat, path: seq<string>, to: string, deadline: nat)

  /** The transaction overrides object: `{ value?, gasLimit }`. */
  datatype Overrides = Overrides(value: Option<nat>, gasLimit: nat)

  datatype RouterCall = RouterCall(router: string, call: SwapCall, overrides: Overrides)

  datatype SwapError =
    | UnknownDex(dex: string)      // `DEX_ROUTERS[route.dex]` is undefined: a TypeError outside the try
    | SwapFailed(message: string)  // the rethrown `Error(error.message || 'Swap failed')`

  /** Submitting one router call: a transaction hash, or the error's message
      (possibly empty). */
  type SendOracle<Tx> = RouterCall -> Result<Tx, string>

  function FindRouter(routers: seq<DexRouter>, dex: string): (r: Option<DexRouter>)
    ensures r.Some? ==> r.value in routers && r.value.name == dex
    ensures r.None? ==> forall i :: 0 <= i < |routers| ==> routers[i].name != dex
    decreases |routers|
  {
    if routers == [] then None
    else if routers[0].name == dex then Some(routers[0])
    else FindRouter(routers[1..], dex)
  }

  /** The single call `executeSwap` submits for a trade on `router`. */
  function PlanSwap(router: DexRouter, route: Route, fromToken: string, toToken: string, amountIn: nat,
                    slippage: real, to: string, nowMs: nat): RouterCall
    requires 0.0 <= slippage <= 100.0
  {
    var minOut := MinAmountOut(route.outputAmount, slippage);
    var deadline := Deadline(nowMs);
    if fromToken == NATIVE_AVAX then
      RouterCall(router.address, SwapExactAVAXForTokens(minOut, route.path, to, deadline),
                 Overrides(Some(amountIn), GAS_LIMIT))
    else if toToken == NATIVE_AVAX then
      RouterCall(router.address, SwapExactTokensForAVAX(amountIn, minOut, route.path, to, deadline),
                 Overrides(None, GAS_LIMIT))
    else
      RouterCall(router.address, SwapExactTokensForTokens(amountIn, minOut, route.path, to, deadline),
                 Overrides(None, GAS_LIMIT))
  }

  /** Every planned call goes to the named router with gas limit 300000,
      the route's path, the slippage-bounded minimum and the deadline; its
      shape is decided by which side is native, and only the native-input
      shape attaches a value (the input amount) and has no `amountIn`. */
  lemma PlanSwapShape(router: DexRouter, route: Route, fromToken: string, toToken: string, amountIn: nat,
                      slippage: real, to: string, nowMs: nat)
    requires 0.0 <= slippage <= 100.0
    ensures var c := PlanSwap(router, route, fromToken, toToken, amountIn, slippage, to, nowMs);
      && c.router == router.address
      && c.overrides.gasLimit == GAS_LIMIT
      && c.call.path == route.path && c.call.to == to
      && c.call.amountOutMin == MinAmountOut(route.outputAmount, slippage)
      && c.call.amountOutMin <= route.outputAmount
      && c.call.deadline == Deadline(nowMs)
      && (c.call.SwapExactAVAXForTokens? <==> fromToken == NATIVE_AVAX)
      && (c.call.SwapExactTokensForAVAX? <==> fromToken != NATIVE_AVAX && toToken == NATIVE_AVAX)
      && (c.call.SwapExactTokensForTokens? <==> fromToken != NATIVE_AVAX && toToken != NATIVE_AVAX)
      && (c.overrides.value.Some? <==> c.call.SwapExactAVAXForTokens?)
      && (c.overrides.value.Some? ==> c.overrides.value.value == amountIn)
      && (!c.call.SwapExactAVAXForTokens? ==> c.call.amountIn == amountIn)
  {
  }

  /** `executeSwap`: look up the route's router by name, submit exactly one
      call, and rethrow any failure with its message, or "Swap failed" when
      the message is empty. */
  function ExecuteSwap<Tx>(route: Route, fromToken: string, toToken: string, amountIn: nat, slippage: real,
                           to: string, nowMs: nat, send: SendOracle<Tx>): (r: Result<Tx, SwapError>)
    requires 0.0 <= slippage <= 100.0
    ensures r.Failure? && r.error.UnknownDex? <==> FindRouter(DEX_ROUTERS, route.dex).None?
    ensures FindRouter(DEX_ROUTERS, route.dex).Some? ==>
      var c := PlanSwap(FindRouter(DEX_ROUTERS, route.dex).value, route, fromToken, toToken, amountIn, slippage, to, nowMs);
      match send(c)
      case Success(tx) => r == Success(tx)
      case Failure(msg) => r.Failure? && r.error.SwapFailed? && r.error.message != "" &&
                           (msg != "" ==> r.error.message == msg) &&
                           (msg == "" ==> r.error.message == SWAP_FAILED)
  {
    match FindRouter(DEX_ROUTERS, route.dex)
    case None => Failure(UnknownDex(route.dex))
    case Some(router) =>
      match send(PlanSwap(router, route, fromToken, toToken, amountIn, slippage, to, nowMs))
      case Success(tx) => Success(tx)
      case Failure(msg) => Failure(SwapFailed(if msg != "" then msg else SWAP_FAILED))
  }
}
