/** The swap screen (`SwapInterface`): the React state variables are the
    fields of one object and each handler is a method that updates them.
    Amounts are raw integers in the token's smallest unit; turning them into
    the text the input shows (`formatUnits`) and back (`parseUnits`) are the
    parameters `format` and `parse`. */
module SwapInterface {
  import opened Wrappers
  import Text
  import Sorting
  import Dex
  import TokenLists
  import Tokens

  type TokenInfo = TokenLists.TokenInfo

  const DEFAULT_SLIPPAGE: real := 0.5

  // ---------------------------------------------------------------------
  // The amount input

  predicate AllDigits(s: string) {
    forall k :: 0 <= k < |s| ==> Text.IsDigit(s[k])
  }

  /** `s` splits the way the regular expression `^\d*\.?\d*$` reads it:
      digits `s[..i]`, an optional dot `s[i..j]`, then digits `s[j..]`. */
  predicate SplitsAsAmount(s: string, i: int, j: int) {
    && 0 <= i <= j <= |s|
    && AllDigits(s[..i])
    && (j == i || (j == i + 1 && s[i] == '.'))
    && AllDigits(s[j..])
  }

  /** `/^\d*\.?\d*$/.test(s)`. */
  ghost predicate MatchesAmountPattern(s: string) {
    exists i, j :: SplitsAsAmount(s, i, j)
  }

  /** Digits and dots only, and no two dots. */
  predicate IsAmountText(s: string) {
    && (forall k :: 0 <= k < |s| ==> Text.IsDigit(s[k]) || s[k] == '.')
    && (forall k, l :: 0 <= k < l < |s| && s[k] == '.' ==> s[l] != '.')
  }

  /** In a split, a dot can only be the optional middle part. */
  lemma DotIsMiddle(s: string, i: int, j: int, k: int)
    requires SplitsAsAmount(s, i, j) && 0 <= k < |s|
    ensures s[k] == '.' ==> i <= k < j
    ensures Text.IsDigit(s[k]) || s[k] == '.'
  {
    if k < i {
      assert s[k] == s[..i][k];
    } else if k >= j {
      assert s[k] == s[j..][k - j];
    }
  }

  /** The input pattern accepts exactly the texts made of digits with at
      most one dot (the empty text included). */
  lemma AmountPatternIff(s: string)
    ensures MatchesAmountPattern(s) <==> IsAmountText(s)
  {
    if MatchesAmountPattern(s) {
      var i, j :| SplitsAsAmount(s, i, j);
      forall k | 0 <= k < |s|
        ensures Text.IsDigit(s[k]) || s[k] == '.'
      {
        DotIsMiddle(s, i, j, k);
      }
      forall k, l | 0 <= k < l < |s| && s[k] == '.'
        ensures s[l] != '.'
      {
        DotIsMiddle(s, i, j, k);
        DotIsMiddle(s, i, j, l);
      }
    }
    if IsAmountText(s) {
      if exists k :: 0 <= k < |s| && s[k] == '.' {
        var k :| 0 <= k < |s| && s[k] == '.';
        assert AllDigits(s[..k]) by {
          forall m | 0 <= m < k
            ensures Text.IsDigit(s[..k][m])
          {
            assert s[..k][m] == s[m];
          }
        }
        var rest := s[k + 1..];
        assert AllDigits(rest) by {
          forall m | 0 <= m < |rest|
            ensures Text.IsDigit(rest[m])
          {
            assert rest[m] == s[k + 1 + m];
          }
        }
        assert SplitsAsAmount(s, k, k + 1);
      } else {
        assert s[..|s|] == s;
        assert SplitsAsAmount(s, |s|, |s|);
      }
    }
  }

  // ---------------------------------------------------------------------
  // The Max and Half buttons

  datatype Fraction = Max | Half

  /** For the native coin the balance is read afresh and scaled down to
      leave gas: 95% for Max, 45% for Half, rounded down (`mul(...).div(100)`). */
  function NativeButtonAmount(f: Fraction, balance: nat): nat {
    match f
    case Max => balance * 95 / 100
    case Half => balance * 45 / 100
  }

  /** For a token the cached balance is used, a missing one counting as 0:
      all of it for Max, half rounded down for Half. */
  function TokenButtonAmount(f: Fraction, cached: Option<nat>): nat {
    match f
    case Max => cached.GetOr(0)
    case Half => cached.GetOr(0) / 2
  }

  /** Max for the native coin is the largest amount within 95% of the
      balance, so at least a twentieth of the balance is left for gas; Half
      is the largest within 45%, never more than Max. */
  lemma NativeButtonBounds(balance: nat)
    ensures var m := NativeButtonAmount(Max, balance);
      m * 100 <= balance * 95 < (m + 1) * 100 && m <= balance && (balance - m) * 20 >= balance
    ensures var h := NativeButtonAmount(Half, balance);
      h * 100 <= balance * 45 < (h + 1) * 100 && h <= NativeButtonAmount(Max, balance)
  {
    var m := NativeButtonAmount(Max, balance);
    var h := NativeButtonAmount(Half, balance);
    assert m * 100 <= balance * 95 < (m + 1) * 100;
    assert h * 100 <= balance * 45 < (h + 1) * 100;
  }

  /** Max for a token is its whole cached balance; Half is the largest
      amount whose double does not exceed it. */
  lemma TokenButtonBounds(cached: Option<nat>)
    ensures TokenButtonAmount(Max, cached) == (if cached.Some? then cached.value else 0)
    ensures var h := TokenButtonAmount(Half, cached);
      2 * h <= TokenButtonAmount(Max, cached) <= 2 * h + 1
  {
  }

  // ---------------------------------------------------------------------
  // Merging fetched balances into the selected tokens

  /** Addresses compared after `toLowerCase`. */
  predicate SameAddress(a: string, b: string) {
    Text.ToLower(a) == Text.ToLower(b)
  }

  /** `balances.find(...)`: the index of the first entry whose token address
      matches, if any. */
  function FindEntry(entries: seq<Tokens.TokenBalance>, address: string): (r: Option<nat>)
    ensures r.Some? ==>
      && r.value < |entries|
      && SameAddress(entries[r.value].token.address, address)
      && forall j :: 0 <= j < r.value ==> !SameAddress(entries[j].token.address, address)
    ensures r.None? ==> forall j :: 0 <= j < |entries| ==> !SameAddress(entries[j].token.address, address)
    decreases |entries|
  {
    if entries == [] then None
    else if SameAddress(entries[0].token.address, address) then Some(0)
    else match FindEntry(entries[1..], address)
      case None => None
      case Some(k) => Some(k + 1)
  }

  /** The merge as written: the selected token takes `found.token.balance`,
      the balance field of the entry's token object. */
  function MergeAsWritten(selected: Option<TokenInfo>, entries: seq<Tokens.TokenBalance>): Option<TokenInfo> {
    match selected
    case None => None
    case Some(t) =>
      match FindEntry(entries, t.address)
      case None => selected
      case Some(k) => Some(t.(balance := entries[k].token.balance))
  }

  /** The merge as intended: the selected token takes the amount the entry
      was fetched with. */
  function Merge(selected: Option<TokenInfo>, entries: seq<Tokens.TokenBalance>): Option<TokenInfo> {
    match selected
    case None => None
    case Some(t) =>
      match FindEntry(entries, t.address)
      case None => selected
      case Some(k) => Some(t.(balance := Some(entries[k].balance)))
  }

  /** The merge keeps an empty selection empty and a token without a
      matching entry as it is; otherwise it changes only the balance, to the
      amount of the first matching entry. */
  lemma MergeCorrect(selected: Option<TokenInfo>, entries: seq<Tokens.TokenBalance>)
    ensures var r := Merge(selected, entries);
      && (r.None? <==> selected.None?)
      && (selected.Some? ==>
            && r.value.(balance := None) == selected.value.(balance := None)
            && ((forall j :: 0 <= j < |entries| ==> !SameAddress(entries[j].token.address, selected.value.address))
                ==> r == selected))
      && (forall k :: 0 <= k < |entries| && selected.Some?
            && SameAddress(entries[k].token.address, selected.value.address)
            && (forall j :: 0 <= j < k ==> !SameAddress(entries[j].token.address, selected.value.address))
            ==> r.value.balance == Some(entries[k].balance))
  {
    if selected.Some? {
      var a := selected.value.address;
      forall k | 0 <= k < |entries|
          && SameAddress(entries[k].token.address, a)
          && (forall j :: 0 <= j < k ==> !SameAddress(entries[j].token.address, a))
        ensures FindEntry(entries, a) == Some(k)
      {
      }
    }
  }

  /** As written, the merge after a balance refresh clears the balance of
      every selected token that was found: the fetched entries never carry
      one in their token object. */
  lemma MergeAsWrittenClearsBalance(hasClient: bool, address: Option<string>, native: Tokens.NativeRpc,
                                    rpc: Tokens.TokenRpc, t: TokenInfo)
    requires FindEntry(Tokens.Balances(hasClient, address, native, rpc), t.address).Some?
    ensures MergeAsWritten(Some(t), Tokens.Balances(hasClient, address, native, rpc)).value.balance == None
  {
    Tokens.BalancesLeaveTokenBalanceUnset(hasClient, address, native, rpc);
    var entries := Tokens.Balances(hasClient, address, native, rpc);
    var k := FindEntry(entries, t.address).value;
    assert entries[k] in entries;
  }

  /** The native coin selected with balance 5, and a refresh that reads 7:
      the merge as written leaves it without a balance, the intended merge
      gives it 7. */
  lemma MergeNativeExample()
    ensures var t := TokenLists.NATIVE_AVAX.(balance := Some(5));
      var entries := [Tokens.TokenBalance(TokenLists.NATIVE_AVAX, 7)];
      && MergeAsWritten(Some(t), entries) == Some(t.(balance := None))
      && Merge(Some(t), entries) == Some(t.(balance := Some(7)))
  {
    var t := TokenLists.NATIVE_AVAX.(balance := Some(5));
    var entries := [Tokens.TokenBalance(TokenLists.NATIVE_AVAX, 7)];
    assert SameAddress(entries[0].token.address, t.address);
    assert FindEntry(entries, t.address) == Some(0);
  }

  /** With the intended merge, a selected native coin takes the balance the
      refresh read: the native entry comes first and matches it. */
  lemma MergeTakesFetchedNativeBalance(hasClient: bool, address: Option<string>, native: Tokens.NativeRpc,
                                       rpc: Tokens.TokenRpc, t: TokenInfo, k: nat)
    requires Tokens.Guarded(hasClient, address)
    requires Tokens.FirstNative(native, 0) == Some(k)
    requires t.address == TokenLists.NATIVE_AVAX.address
    ensures Merge(Some(t), Tokens.Balances(hasClient, address, native, rpc)) == Some(t.(balance := native(k)))
  {
    var entries := Tokens.Balances(hasClient, address, native, rpc);
    assert entries == Tokens.BatchEntries(Tokens.COMMON_TOKENS, native(k).value, rpc);
    assert entries[0] == Tokens.TokenBalance(TokenLists.NATIVE_AVAX, native(k).value);
    assert FindEntry(entries, t.address) == Some(0);
  }

  // ---------------------------------------------------------------------
  // The screen state

  /** A snapshot of the screen's state variables. */
  datatype Screen = Screen(
    userTokens: seq<Tokens.TokenBalance>,
    fromToken: Option<TokenInfo>,
    toToken: Option<TokenInfo>,
    amount: string,
    returnAmount: string,
    slippage: real,
    routes: seq<Dex.Route>,
    isConnected: bool,
    address: Option<string>)

  /** What `fetchUserTokens` makes of the state: nothing without an account,
      a client and a connection; otherwise the fetched list, merged into the
      selected tokens. */
  function AfterFetch(s: Screen, hasClient: bool, native: Tokens.NativeRpc, rpc: Tokens.TokenRpc): Screen {
    if !(Tokens.Guarded(hasClient, s.address) && s.isConnected) then s
    else
      var b := Tokens.Balances(hasClient, s.address, native, rpc);
      s.(userTokens := b, fromToken := Merge(s.fromToken, b), toToken := Merge(s.toToken, b))
  }

  /** A balance refresh touches only the fetched list and the selected
      tokens' balances. */
  lemma AfterFetchKeepsForm(s: Screen, hasClient: bool, native: Tokens.NativeRpc, rpc: Tokens.TokenRpc)
    ensures var r := AfterFetch(s, hasClient, native, rpc);
      && r.(userTokens := s.userTokens, fromToken := s.fromToken, toToken := s.toToken) == s
      && (r.fromToken.None? <==> s.fromToken.None?)
      && (r.toToken.None? <==> s.toToken.None?)
      && (s.fromToken.Some? ==> r.fromToken.value.address == s.fromToken.value.address)
      && (s.toToken.Some? ==> r.toToken.value.address == s.toToken.value.address)
  {
    if Tokens.Guarded(hasClient, s.address) && s.isConnected {
      var b := Tokens.Balances(hasClient, s.address, native, rpc);
      MergeCorrect(s.fromToken, b);
      MergeCorrect(s.toToken, b);
    }
  }

  /** The guard of `handleSwap`. */
  predicate ReadyToSwap(s: Screen) {
    s.fromToken.Some? && s.toToken.Some? && s.amount != "" && s.isConnected && |s.routes| > 0
  }

  /** What `executeSwap` receives in its first parameter, `provider`. */
  datatype ProviderArgument = WalletProvider(signer: string) | NotAProvider

  /** One swap attempt of the current form through `executeSwap(provider,
      routes[0], ...)`: whether it is submitted and confirmed. Anything but a
      provider in the first position makes `provider.getSigner()` throw
      before any router call. */
  function SwapAttempt<Tx>(provider: ProviderArgument, s: Screen, parse: (string, nat) -> nat, nowMs: nat,
                           send: Dex.SendOracle<Tx>, wait: Tx -> bool): bool
    requires ReadyToSwap(s) && 0.0 <= s.slippage <= 100.0
  {
    match provider
    case NotAProvider => false
    case WalletProvider(signer) =>
      var from := s.fromToken.value;
      match Dex.ExecuteSwap(s.routes[0], from.address, s.toToken.value.address, parse(s.amount, from.decimals),
                            s.slippage, signer, nowMs, send)
      case Success(tx) => wait(tx)
      case Failure(_) => false
  }

  /** As written, `handleSwap` leaves the provider out, so the route lands in
      the `provider` position and no swap is ever submitted, whatever the
      state and the chain do. */
  lemma SwapAsWrittenNeverConfirms<Tx>(s: Screen, parse: (string, nat) -> nat, nowMs: nat,
                                       send: Dex.SendOracle<Tx>, wait: Tx -> bool)
    requires ReadyToSwap(s) && 0.0 <= s.slippage <= 100.0
    ensures !SwapAttempt(NotAProvider, s, parse, nowMs, send, wait)
  {
  }

  /** With the provider passed, a swap is confirmed exactly when the route's
      router is known, the one call it plans is accepted, and the transaction
      is mined. */
  lemma SwapConfirmedIff<Tx>(signer: string, s: Screen, parse: (string, nat) -> nat, nowMs: nat,
                             send: Dex.SendOracle<Tx>, wait: Tx -> bool)
    requires ReadyToSwap(s) && 0.0 <= s.slippage <= 100.0
    ensures var from := s.fromToken.value;
      var router := Dex.FindRouter(Dex.DEX_ROUTERS, s.routes[0].dex);
      SwapAttempt(WalletProvider(signer), s, parse, nowMs, send, wait) <==>
        && router.Some?
        && var call := Dex.PlanSwap(router.value, s.routes[0], from.address, s.toToken.value.address,
                                    parse(s.amount, from.decimals), s.slippage, signer, nowMs);
           send(call).Success? && wait(send(call).value)
  {
  }

  class SwapScreen {
    var userTokens: seq<Tokens.TokenBalance>
    var fromToken: Option<TokenInfo>
    var toToken: Option<TokenInfo>
    var amount: string
    var returnAmount: string
    var slippage: real
    var routes: seq<Dex.Route>
    var isConnected: bool
    var address: Option<string>

    function State(): Screen
      reads this
    {
      Screen(userTokens, fromToken, toToken, amount, returnAmount, slippage, routes, isConnected, address)
    }

    /** The slippage stays within what the settings panel accepts. */
    predicate Valid()
      reads this
    {
      0.0 <= slippage <= 100.0
    }

    /** The initial state: nothing selected, empty amount, return "0",
      slippage 0.5%, no routes, no wallet. */
    constructor ()
      ensures Valid()
      ensures State() == Screen([], None, None, "", "0", DEFAULT_SLIPPAGE, [], false, None)
    {
      userTokens := [];
      fromToken := None;
      toToken := None;
      amount := "";
      returnAmount := "0";
      slippage := DEFAULT_SLIPPAGE;
      routes := [];
      isConnected := false;
      address := None;
    }

    /** `onSlippageChange`, reached only with a value in (0, 100]. */
    method SetSlippage(value: real)
      requires 0.0 < value <= 100.0
      modifies this
      ensures Valid()
      ensures State() == old(State()).(slippage := value)
    {
      slippage := value;
    }

    /** `handleAmountChange`: an accepted text replaces the amount, any other
        leaves it as it was. */
    method HandleAmountChange(value: string)
      modifies this
      ensures MatchesAmountPattern(value) ==> State() == old(State()).(amount := value)
      ensures !MatchesAmountPattern(value) ==> State() == old(State())
    {
      AmountPatternIff(value);
      if value == "" || IsAmountText(value) {
        amount := value;
      }
    }

    /** `handleMaxAmount` and `handleHalfAmount`: nothing without a selected
        token and an account; for the native coin the wallet balance is read
        (a failed read changes nothing); the amount becomes the scaled value
        in the token's units. */
    method HandleFractionAmount(f: Fraction, getBalance: string -> Option<nat>, format: (nat, nat) -> string)
      modifies this
      ensures var s := old(State());
        if s.fromToken.None? || !TokenLists.IsSet(s.address) then State() == s
        else
          var t := s.fromToken.value;
          if t.address == TokenLists.NATIVE_AVAX.address then
            match getBalance(s.address.value)
            case None => State() == s
            case Some(b) => State() == s.(amount := format(NativeButtonAmount(f, b), t.decimals))
          else State() == s.(amount := format(TokenButtonAmount(f, t.balance), t.decimals))
    {
      if fromToken.None? || !TokenLists.IsSet(address) {
        return;
      }
      var t := fromToken.value;
      if t.address == TokenLists.NATIVE_AVAX.address {
        var balance := getBalance(address.value);
        if balance.None? {
          return;
        }
        amount := format(NativeButtonAmount(f, balance.value), t.decimals);
      } else {
        amount := format(TokenButtonAmount(f, t.balance), t.decimals);
      }
    }

    /** `fetchUserTokens`, with the balance merge as intended. */
    method FetchUserTokens(hasClient: bool, native: Tokens.NativeRpc, rpc: Tokens.TokenRpc)
      modifies this
      ensures State() == AfterFetch(old(State()), hasClient, native, rpc)
    {
      if !Tokens.Guarded(hasClient, address) || !isConnected {
        return;
      }
      var balances, _ := Tokens.GetTokenBalances(hasClient, address, native, rpc);
      TakeBalances(balances);
    }

    /** Storing a fetched list and merging it into the selected tokens. */
    method TakeBalances(balances: seq<Tokens.TokenBalance>)
      modifies this
      ensures State() == old(State()).(userTokens := balances, fromToken := Merge(old(fromToken), balances),
                                       toToken := Merge(old(toToken), balances))
    {
      userTokens := balances;
      fromToken := Merge(fromToken, balances);
      toToken := Merge(toToken, balances);
    }

    /** One run of the connection effect, whose dependencies are the
        connection and `fetchUserTokens` (and so also the selections, the
        account and the client): when connected it fetches the balances and
        initialises the token registry; otherwise it clears the fetched list
        and both selections. The caller runs it after each such change. */
    method ConnectionChanged(connected: bool, account: Option<string>, hasClient: bool,
                             native: Tokens.NativeRpc, rpc: Tokens.TokenRpc,
                             registry: TokenLists.TokenRegistry, fetchList: TokenLists.ListFetcher)
      requires registry.Valid()
      modifies this, registry
      ensures registry.Valid()
      ensures var s := old(State()).(isConnected := connected, address := account);
        if connected then State() == AfterFetch(s, hasClient, native, rpc)
        else State() == s.(userTokens := [], fromToken := None, toToken := None)
      ensures connected ==> registry.isInitialized
      ensures connected && !old(registry.isInitialized) ==> registry.tokenList == TokenLists.BuildTokenList(fetchList)
      ensures !connected || old(registry.isInitialized) ==> registry.tokenList == old(registry.tokenList)
      ensures !connected ==> registry.isInitialized == old(registry.isInitialized)
    {
      isConnected := connected;
      address := account;
      if connected {
        FetchUserTokens(hasClient, native, rpc);
        registry.Initialize(fetchList);
      } else {
        userTokens := [];
        fromToken := None;
        toToken := None;
      }
    }

    /** The swap arrow: the two selections change places. */
    method SwapArrow()
      modifies this
      ensures State() == old(State()).(fromToken := old(toToken), toToken := old(fromToken))
    {
      var temp := fromToken;
      fromToken := toToken;
      toToken := temp;
    }

    /** Choosing a token in the "from" or "to" picker. */
    method SelectToken(isFrom: bool, token: TokenInfo)
      modifies this
      ensures isFrom ==> State() == old(State()).(fromToken := Some(token))
      ensures !isFrom ==> State() == old(State()).(toToken := Some(token))
    {
      if isFrom {
        fromToken := Some(token);
      } else {
        toToken := Some(token);
      }
    }

    /** `refreshPrice`: with both tokens, an amount and a connection, quote
        every router, keep the routes best first, and show the best output
        in the target token's units. */
    method RefreshPrice(quote: Dex.QuoteOracle, parse: (string, nat) -> nat, format: (nat, nat) -> string)
      modifies this
      ensures var s := old(State());
        if s.fromToken.None? || s.toToken.None? || s.amount == "" || !s.isConnected then State() == s
        else
          && State() == s.(routes := routes, returnAmount := returnAmount)
          && multiset(routes) == multiset(Dex.CollectRoutes(Dex.DEX_ROUTERS,
               Dex.TradePath(s.fromToken.value.address, s.toToken.value.address),
               parse(s.amount, s.fromToken.value.decimals), quote))
          && Sorting.SortedBy(routes, Dex.RouteLe)
          && returnAmount == (if routes == [] then s.returnAmount
                              else format(routes[0].outputAmount, s.toToken.value.decimals))
    {
      if fromToken.None? || toToken.None? || amount == "" || !isConnected {
        return;
      }
      var parsedAmount := parse(amount, fromToken.value.decimals);
      var allRoutes := Dex.RankRoutes(fromToken.value.address, toToken.value.address, parsedAmount, quote);
      routes := allRoutes;
      if |allRoutes| > 0 {
        returnAmount := format(allRoutes[0].outputAmount, toToken.value.decimals);
      }
    }

    /** `handleSwap` with the provider passed: nothing unless the form is
        ready; a swap that fails or is not confirmed changes nothing; a
        confirmed one empties the amount, shows a return of "0" and
        refreshes the balances. */
    method HandleSwap<Tx>(signer: string, parse: (string, nat) -> nat, nowMs: nat, send: Dex.SendOracle<Tx>,
                          wait: Tx -> bool, hasClient: bool, native: Tokens.NativeRpc, rpc: Tokens.TokenRpc)
      requires Valid()
      modifies this
      ensures Valid()
      ensures var s := old(State());
        if !ReadyToSwap(s) || !SwapAttempt(WalletProvider(signer), s, parse, nowMs, send, wait) then State() == s
        else State() == AfterFetch(s.(amount := "", returnAmount := "0"), hasClient, native, rpc)
    {
      if fromToken.None? || toToken.None? || amount == "" || !isConnected || |routes| == 0 {
        return;
      }
      var parsedAmount := parse(amount, fromToken.value.decimals);
      var tx := Dex.ExecuteSwap(routes[0], fromToken.value.address, toToken.value.address, parsedAmount,
                                slippage, signer, nowMs, send);
      if tx.Failure? || !wait(tx.value) {
        return;
      }
      amount := "";
      returnAmount := "0";
      FetchUserTokens(hasClient, native, rpc);
    }
  }
}
