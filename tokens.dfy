/** The wallet balance fetcher of `src/utils/tokens.ts`: the native balance
    plus six common ERC-20 tokens, read over JSON-RPC with two nested retry
    loops, and the hand-written decoder of the `string` results of `symbol()`
    and `name()`.

    The RPC client is two oracles. `NativeRpc(n)` is the `eth_getBalance`
    result of the `n`-th run of the whole batch; `TokenRpc(token, k)` is the
    outcome of the `k`-th attempt of the four `eth_call`s for `token`, `None`
    when any of them throws. Balances are raw integers in the token's
    smallest unit. */
module Tokens {
  import opened Wrappers
  import opened Hex
  import Seqs
  import TokenLists

  const MAX_RETRIES: nat := 3

  const COMMON_TOKENS: seq<string> := [
    "0xB31f66AA3C1e785363F0875A1B74E27b85FD66c7",  // WAVAX
    "0x49D5c2BdFfac6CE2BFdB6640F4F80f226bc10bAB",  // WETH.e
    "0x50b7545627a5162F82A992c33b87aDc75187B218",  // WBTC.e
    "0xc7198437980c041c805A1EDcbA50c1Ce5db95118",  // USDT.e
    "0xA7D7079b0FEaD91F3e65f86E8915Cb59c1a4C664",  // USDC.e
    "0xd586E7F844cEa2F87f50152665BCbc2C279D8d70"   // DAI.e
  ]

  datatype TokenBalance = TokenBalance(token: TokenLists.TokenInfo, balance: nat)

  /** The results of one attempt's `balanceOf`, `decimals`, `symbol` and `name`
      calls; the last two are the raw hex text of the call result. */
  datatype TokenReply = TokenReply(balance: nat, decimals: nat, symbolData: string, nameData: string)

  type NativeRpc = nat -> Option<nat>
  type TokenRpc = (string, nat) -> Option<TokenReply>

  /** One RPC round trip, in the order they are made. */
  datatype Call = NativeCall(batch: nat) | TokenCall(token: string, attempt: nat)

  // ---------------------------------------------------------------------
  // What getTokenBalances computes

  /** The first batch run, from `n` on, whose native balance call succeeds. */
  function FirstNative(native: NativeRpc, n: nat): (k: Option<nat>)
    ensures k.Some? ==> n <= k.value < MAX_RETRIES && native(k.value).Some?
    ensures k.Some? ==> forall m :: n <= m < k.value ==> native(m).None?
    ensures k.None? ==> forall m :: n <= m < MAX_RETRIES ==> native(m).None?
    decreases MAX_RETRIES - n
  {
    if n >= MAX_RETRIES then None
    else if native(n).Some? then Some(n)
    else FirstNative(native, n + 1)
  }

  /** The first attempt, from `n` on, whose calls for `token` all succeed. */
  function FirstReply(rpc: TokenRpc, token: string, n: nat): (k: Option<nat>)
    ensures k.Some? ==> n <= k.value < MAX_RETRIES && rpc(token, k.value).Some?
    ensures k.Some? ==> forall m :: n <= m < k.value ==> rpc(token, m).None?
    ensures k.None? ==> forall m :: n <= m < MAX_RETRIES ==> rpc(token, m).None?
    decreases MAX_RETRIES - n
  {
    if n >= MAX_RETRIES then None
    else if rpc(token, n).Some? then Some(n)
    else FirstReply(rpc, token, n + 1)
  }

  /** The entry pushed for a token whose calls succeeded. Its name and
      symbol are read with the corrected decoder `DecodeAbiString`, not with
      `decodeString` as written (see `TokenEntryNames`). */
  function TokenEntry(token: string, reply: TokenReply): (e: TokenBalance)
    ensures e.token.address == token && e.balance == reply.balance && e.token.decimals == reply.decimals
    ensures e.token.chainId.None? && e.token.balance.None?
  {
    TokenBalance(
      TokenLists.TokenInfo(token, DecodeAbiString(reply.nameData), DecodeAbiString(reply.symbolData),
                           reply.decimals, None, None),
      reply.balance)
  }

  /** What the retry loop for one token pushes: the entry built from its
      first successful attempt, or nothing. */
  function TokenResult(rpc: TokenRpc, token: string): seq<TokenBalance> {
    match FirstReply(rpc, token, 0)
    case Some(k) => [TokenEntry(token, rpc(token, k).value)]
    case None => []
  }

  /** The entries of the per-token loop over `tokens`. */
  function CommonEntries(tokens: seq<string>, rpc: TokenRpc): seq<TokenBalance>
    decreases |tokens|
  {
    if tokens == [] then [] else TokenResult(rpc, tokens[0]) + CommonEntries(tokens[1..], rpc)
  }

  predicate Guarded(hasClient: bool, address: Option<string>) {
    hasClient && TokenLists.IsSet(address)
  }

  /** The array `getTokenBalances` resolves to. */
  function Balances(hasClient: bool, address: Option<string>, native: NativeRpc, rpc: TokenRpc): seq<TokenBalance> {
    if Guarded(hasClient, address) then BatchesResult(COMMON_TOKENS, native, rpc) else []
  }

  /** The entries of the first batch run over `tokens` whose native call
      succeeds, if any. */
  function BatchesResult(tokens: seq<string>, native: NativeRpc, rpc: TokenRpc): seq<TokenBalance> {
    match FirstNative(native, 0)
    case None => []
    case Some(k) => BatchEntries(tokens, native(k).value, rpc)
  }

  /** What a run of the batch over `tokens` pushes when its native call
      returns `nativeBalance`: the native entry, then the per-token loop's. */
  function BatchEntries(tokens: seq<string>, nativeBalance: nat, rpc: TokenRpc): seq<TokenBalance> {
    [TokenBalance(TokenLists.NATIVE_AVAX, nativeBalance)] + CommonEntries(tokens, rpc)
  }

  /** The calls made for one token from attempt `n` on: one per attempt, up to
      and including the first that succeeds. */
  function AttemptCalls(rpc: TokenRpc, token: string, n: nat): seq<Call>
    decreases MAX_RETRIES - n
  {
    if n >= MAX_RETRIES then []
    else [TokenCall(token, n)] + (if rpc(token, n).Some? then [] else AttemptCalls(rpc, token, n + 1))
  }

  function CommonCalls(tokens: seq<string>, rpc: TokenRpc): seq<Call>
    decreases |tokens|
  {
    if tokens == [] then [] else AttemptCalls(rpc, tokens[0], 0) + CommonCalls(tokens[1..], rpc)
  }

  function NativeCalls(native: NativeRpc, n: nat): seq<Call>
    decreases MAX_RETRIES - n
  {
    if n >= MAX_RETRIES then []
    else [NativeCall(n)] + (if native(n).Some? then [] else NativeCalls(native, n + 1))
  }

  /** Every call `getTokenBalances` makes, in order. */
  function BalanceCalls(hasClient: bool, address: Option<string>, native: NativeRpc, rpc: TokenRpc): seq<Call> {
    if Guarded(hasClient, address) then BatchesCalls(COMMON_TOKENS, native, rpc) else []
  }

  /** The calls of the batch runs over `tokens` up to the first whose native
      call succeeds. */
  function BatchesCalls(tokens: seq<string>, native: NativeRpc, rpc: TokenRpc): seq<Call> {
    NativeCalls(native, 0) + (if FirstNative(native, 0).Some? then CommonCalls(tokens, rpc) else [])
  }

  // ---------------------------------------------------------------------
  // The imperative fetcher

  /** One run of `fetchBalances` for batch run `batch`: when the native call
      fails nothing is pushed and the run reports failure; otherwise the
      native entry and every token of `tokens` that succeeds within three
      attempts are pushed onto `balances`. */
  method FetchBalances(tokens: seq<string>, batch: nat, native: NativeRpc, rpc: TokenRpc, balances: seq<TokenBalance>, calls: seq<Call>)
    returns (success: bool, balances': seq<TokenBalance>, calls': seq<Call>)
    ensures success <==> native(batch).Some?
    ensures !success ==> balances' == balances && calls' == calls + [NativeCall(batch)]
    ensures success ==>
      && balances' == balances + BatchEntries(tokens, native(batch).value, rpc)
      && calls' == calls + [NativeCall(batch)] + CommonCalls(tokens, rpc)
  {
    balances', calls' := balances, calls + [NativeCall(batch)];
    var nativeBalance := native(batch);
    if nativeBalance.None? {
      return false, balances', calls';
    }
    balances' := balances' + [TokenBalance(TokenLists.NATIVE_AVAX, nativeBalance.value)];
    var entries, tokenCalls := FetchCommon(tokens, rpc);
    balances', calls' := balances' + entries, calls' + tokenCalls;
    success := true;
  }

  /** The per-token loop of `fetchBalances`: every token in order, each with
      its own retry loop. */
  method FetchCommon(tokens: seq<string>, rpc: TokenRpc) returns (entries: seq<TokenBalance>, calls: seq<Call>)
    ensures entries == CommonEntries(tokens, rpc)
    ensures calls == CommonCalls(tokens, rpc)
  {
    entries, calls := [], [];
    var i := 0;
    while i < |tokens|
      invariant 0 <= i <= |tokens|
      invariant entries + CommonEntries(tokens[i..], rpc) == CommonEntries(tokens, rpc)
      invariant calls + CommonCalls(tokens[i..], rpc) == CommonCalls(tokens, rpc)
    {
      var entry, tokenCalls := FetchToken(tokens[i], rpc);
      CommonStep(tokens, i, rpc);
      Seqs.ConcatAssoc(entries, entry, CommonEntries(tokens[i + 1..], rpc));
      Seqs.ConcatAssoc(calls, tokenCalls, CommonCalls(tokens[i + 1..], rpc));
      entries := entries + entry;
      calls := calls + tokenCalls;
      i := i + 1;
    }
    assert tokens[i..] == [];
  }

  /** The retry loop for one token: up to three attempts, stopping at the
      first that succeeds, whose entry is the one pushed. */
  method FetchToken(tokenAddress: string, rpc: TokenRpc) returns (pushed: seq<TokenBalance>, calls: seq<Call>)
    ensures pushed == TokenResult(rpc, tokenAddress)
    ensures calls == AttemptCalls(rpc, tokenAddress, 0)
  {
    pushed, calls := [], [];
    var tokenRetries := 0;
    while tokenRetries < MAX_RETRIES
      invariant 0 <= tokenRetries <= MAX_RETRIES
      invariant FirstReply(rpc, tokenAddress, tokenRetries) == FirstReply(rpc, tokenAddress, 0)
      invariant calls + AttemptCalls(rpc, tokenAddress, tokenRetries) == AttemptCalls(rpc, tokenAddress, 0)
      invariant pushed == []
    {
      var reply := rpc(tokenAddress, tokenRetries);
      AttemptStep(rpc, tokenAddress, tokenRetries, calls);
      calls := calls + [TokenCall(tokenAddress, tokenRetries)];
      if reply.Some? {
        pushed := [TokenEntry(tokenAddress, reply.value)];
        return;
      }
      tokenRetries := tokenRetries + 1;
    }
  }

  /** One turn of the per-token loop: token `i` contributes its result and
      its calls, and the loop goes on with the tokens after it. */
  lemma CommonStep(tokens: seq<string>, i: nat, rpc: TokenRpc)
    requires i < |tokens|
    ensures CommonEntries(tokens[i..], rpc) == TokenResult(rpc, tokens[i]) + CommonEntries(tokens[i + 1..], rpc)
    ensures CommonCalls(tokens[i..], rpc) == AttemptCalls(rpc, tokens[i], 0) + CommonCalls(tokens[i + 1..], rpc)
  {
    assert tokens[i..][1..] == tokens[i + 1..];
  }

  /** One attempt for a token, from the point of view of its calls: attempt
      `n` makes the call `TokenCall(token, n)` and, when it fails, the attempts
      after it follow. */
  lemma AttemptStep(rpc: TokenRpc, token: string, n: nat, calls: seq<Call>)
    requires n < MAX_RETRIES && calls + AttemptCalls(rpc, token, n) == AttemptCalls(rpc, token, 0)
    ensures rpc(token, n).Some? ==>
      calls + [TokenCall(token, n)] == AttemptCalls(rpc, token, 0) && FirstReply(rpc, token, n) == Some(n)
    ensures rpc(token, n).None? ==>
      calls + [TokenCall(token, n)] + AttemptCalls(rpc, token, n + 1) == AttemptCalls(rpc, token, 0) &&
      FirstReply(rpc, token, n) == FirstReply(rpc, token, n + 1)
  {
    assert AttemptCalls(rpc, token, n)
        == [TokenCall(token, n)] + (if rpc(token, n).Some? then [] else AttemptCalls(rpc, token, n + 1));
  }

  /** `getTokenBalances`: nothing without a client and an address; otherwise
      the batch is run up to three times, stopping at the first run whose
      native call succeeds. */
  method GetTokenBalances(hasClient: bool, address: Option<string>, native: NativeRpc, rpc: TokenRpc)
    returns (balances: seq<TokenBalance>, calls: seq<Call>)
    ensures balances == Balances(hasClient, address, native, rpc)
    ensures calls == BalanceCalls(hasClient, address, native, rpc)
  {
    if !Guarded(hasClient, address) {
      return [], [];
    }
    balances, calls := RetryBatches(COMMON_TOKENS, native, rpc);
  }

  /** The main retry loop of `getTokenBalances`, over the token list `tokens`. */
  method RetryBatches(tokens: seq<string>, native: NativeRpc, rpc: TokenRpc)
    returns (balances: seq<TokenBalance>, calls: seq<Call>)
    ensures balances == BatchesResult(tokens, native, rpc)
    ensures calls == BatchesCalls(tokens, native, rpc)
  {
    balances, calls := [], [];
    var retryCount := 0;
    while retryCount < MAX_RETRIES
      invariant 0 <= retryCount <= MAX_RETRIES
      invariant FirstNative(native, retryCount) == FirstNative(native, 0)
      invariant balances == []
      invariant calls + NativeCalls(native, retryCount) == NativeCalls(native, 0)
    {
      NativeStep(native, retryCount, calls);
      var success;
      success, balances, calls := FetchBalances(tokens, retryCount, native, rpc, balances, calls);
      if success {
        return;
      }
      retryCount := retryCount + 1;
    }
  }

  /** One run of the batch loop, from the point of view of its calls: run
      `n` makes the call `NativeCall(n)` and, when it fails, the runs after it
      follow. */
  lemma NativeStep(native: NativeRpc, n: nat, calls: seq<Call>)
    requires n < MAX_RETRIES && calls + NativeCalls(native, n) == NativeCalls(native, 0)
    ensures native(n).Some? ==> calls + [NativeCall(n)] == NativeCalls(native, 0) && FirstNative(native, n) == Some(n)
    ensures native(n).None? ==>
      calls + [NativeCall(n)] + NativeCalls(native, n + 1) == NativeCalls(native, 0) &&
      FirstNative(native, n) == FirstNative(native, n + 1)
  {
    assert NativeCalls(native, n) == [NativeCall(n)] + (if native(n).Some? then [] else NativeCalls(native, n + 1));
  }

  // ---------------------------------------------------------------------
  // Properties of the fetcher

  function Addresses(entries: seq<TokenBalance>): (r: seq<string>)
    ensures |r| == |entries|
    ensures forall i :: 0 <= i < |entries| ==> r[i] == entries[i].token.address
  {
    seq(|entries|, i requires 0 <= i < |entries| => entries[i].token.address)
  }

  /** Without a client or an address nothing is fetched. */
  lemma NoClientNoBalances(hasClient: bool, address: Option<string>, native: NativeRpc, rpc: TokenRpc)
    requires !hasClient || address.None? || address == Some("")
    ensures Balances(hasClient, address, native, rpc) == []
    ensures BalanceCalls(hasClient, address, native, rpc) == []
  {
  }

  /** The per-token loop keeps the order of `tokens`, records a token exactly
      when one of its three attempts succeeds, and records it with the reply
      of that first successful attempt. */
  lemma {:induction false} CommonEntriesCorrect(tokens: seq<string>, rpc: TokenRpc)
    ensures |CommonEntries(tokens, rpc)| <= |tokens|
    ensures TokenLists.IsSubsequence(Addresses(CommonEntries(tokens, rpc)), tokens)
    ensures forall t :: t in Addresses(CommonEntries(tokens, rpc)) ==> t in tokens
    ensures forall t :: t in tokens ==> (t in Addresses(CommonEntries(tokens, rpc)) <==> FirstReply(rpc, t, 0).Some?)
    ensures forall e :: e in CommonEntries(tokens, rpc) ==>
      var k := FirstReply(rpc, e.token.address, 0);
      k.Some? && e == TokenEntry(e.token.address, rpc(e.token.address, k.value).value)
    decreases |tokens|
  {
    if tokens != [] {
      CommonEntriesCorrect(tokens[1..], rpc);
      var rest := CommonEntries(tokens[1..], rpc);
      var first := TokenResult(rpc, tokens[0]);
      assert CommonEntries(tokens, rpc) == first + rest;
      var addrs := Addresses(first + rest);
      if first != [] {
        assert addrs[0] == tokens[0];
        assert addrs[1..] == Addresses(rest);
      } else {
        assert addrs == Addresses(rest);
      }
      assert addrs == Addresses(first) + Addresses(rest);
      assert FirstReply(rpc, tokens[0], 0).Some? ==> Addresses(first) == [tokens[0]];
      assert FirstReply(rpc, tokens[0], 0).None? ==> Addresses(first) == [];
      forall t | t in tokens
        ensures t in Addresses(first + rest) <==> FirstReply(rpc, t, 0).Some?
      {
        if t in Addresses(rest) || t != tokens[0] {
          assert t in tokens[1..];
        }
      }
      forall t | t in Addresses(first + rest)
        ensures t in tokens
      {
        if t in Addresses(rest) {
          assert t in tokens[1..];
        }
      }
    }
  }

  /** The result is empty exactly when the guard fails or all three native
      calls fail; otherwise the native entry comes first, followed by the
      common tokens that succeeded, in `COMMON_TOKENS` order. */
  lemma BalancesShape(hasClient: bool, address: Option<string>, native: NativeRpc, rpc: TokenRpc)
    ensures var r := Balances(hasClient, address, native, rpc);
      && |r| <= 1 + |COMMON_TOKENS|
      && (r == [] <==> !Guarded(hasClient, address) || forall m :: 0 <= m < MAX_RETRIES ==> native(m).None?)
      && (r != [] ==> r[0].token == TokenLists.NATIVE_AVAX && r[1..] == CommonEntries(COMMON_TOKENS, rpc))
  {
    BatchesShape(COMMON_TOKENS, native, rpc);
  }

  /** `BalancesShape` for any token list. */
  lemma BatchesShape(tokens: seq<string>, native: NativeRpc, rpc: TokenRpc)
    ensures var r := BatchesResult(tokens, native, rpc);
      && |r| <= 1 + |tokens|
      && (r == [] <==> forall m :: 0 <= m < MAX_RETRIES ==> native(m).None?)
      && (r != [] ==> r[0].token == TokenLists.NATIVE_AVAX && r[1..] == CommonEntries(tokens, rpc))
  {
    CommonEntriesCorrect(tokens, rpc);
  }

  /** Every entry's `token` object is built without a `balance` field: the
      amount is kept only in the entry's own `balance`. */
  lemma BalancesLeaveTokenBalanceUnset(hasClient: bool, address: Option<string>, native: NativeRpc, rpc: TokenRpc)
    ensures forall e :: e in Balances(hasClient, address, native, rpc) ==> e.token.balance == None
  {
    CommonEntriesLeaveTokenBalanceUnset(COMMON_TOKENS, rpc);
  }

  lemma {:induction false} CommonEntriesLeaveTokenBalanceUnset(tokens: seq<string>, rpc: TokenRpc)
    ensures forall e :: e in CommonEntries(tokens, rpc) ==> e.token.balance == None
    decreases |tokens|
  {
    if tokens != [] {
      CommonEntriesLeaveTokenBalanceUnset(tokens[1..], rpc);
      assert CommonEntries(tokens, rpc) == TokenResult(rpc, tokens[0]) + CommonEntries(tokens[1..], rpc);
    }
  }

  lemma CommonTokensDistinct()
    ensures forall i, j :: 0 <= i < j < |COMMON_TOKENS| ==> COMMON_TOKENS[i] != COMMON_TOKENS[j]
    ensures TokenLists.NATIVE_AVAX.address !in COMMON_TOKENS
  {
    var c := COMMON_TOKENS;
    assert c[0][2] == 'B' && c[1][2] == '4' && c[2][2] == '5' && c[3][2] == 'c' && c[4][2] == 'A' && c[5][2] == 'd';
    assert TokenLists.NATIVE_AVAX.address[2] == 'E';
  }

  lemma {:induction false} SubsequenceDistinct(r: seq<string>, s: seq<string>)
    requires TokenLists.IsSubsequence(r, s)
    requires forall i, j :: 0 <= i < j < |s| ==> s[i] != s[j]
    ensures forall i, j :: 0 <= i < j < |r| ==> r[i] != r[j]
    decreases |s|
  {
    if r != [] {
      if r[0] == s[0] && TokenLists.IsSubsequence(r[1..], s[1..]) {
        SubsequenceDistinct(r[1..], s[1..]);
        SubsequenceMembers(r[1..], s[1..]);
        forall j | 0 < j < |r|
          ensures r[0] != r[j]
        {
          assert r[j] == r[1..][j - 1];
          assert r[1..][j - 1] in r[1..];
          var k :| 0 <= k < |s[1..]| && s[1..][k] == r[j];
          assert s[k + 1] == r[j];
        }
        forall i, j | 0 < i < j < |r|
          ensures r[i] != r[j]
        {
          assert r[i] == r[1..][i - 1] && r[j] == r[1..][j - 1];
        }
      } else {
        SubsequenceDistinct(r, s[1..]);
      }
    }
  }

  lemma {:induction false} SubsequenceMembers(r: seq<string>, s: seq<string>)
    requires TokenLists.IsSubsequence(r, s)
    ensures forall x :: x in r ==> x in s
    decreases |s|
  {
    if r != [] {
      if r[0] == s[0] && TokenLists.IsSubsequence(r[1..], s[1..]) {
        SubsequenceMembers(r[1..], s[1..]);
        forall x | x in r
          ensures x in s
        {
          if x != r[0] {
            assert x in r[1..];
            assert x in s[1..];
          }
        }
      } else {
        SubsequenceMembers(r, s[1..]);
      }
    }
  }

  /** No address is listed twice: a failed batch run pushes nothing, so a
      re-run cannot duplicate entries. */
  lemma BalancesDistinct(hasClient: bool, address: Option<string>, native: NativeRpc, rpc: TokenRpc)
    ensures var a := Addresses(Balances(hasClient, address, native, rpc));
      forall i, j :: 0 <= i < j < |a| ==> a[i] != a[j]
  {
    if Guarded(hasClient, address) {
      CommonTokensDistinct();
      BatchesDistinct(COMMON_TOKENS, native, rpc);
    }
  }

  /** `BalancesDistinct` for any list of distinct tokens without the native
      pseudo-address. */
  lemma BatchesDistinct(tokens: seq<string>, native: NativeRpc, rpc: TokenRpc)
    requires forall i, j :: 0 <= i < j < |tokens| ==> tokens[i] != tokens[j]
    requires TokenLists.NATIVE_AVAX.address !in tokens
    ensures var a := Addresses(BatchesResult(tokens, native, rpc));
      forall i, j :: 0 <= i < j < |a| ==> a[i] != a[j]
  {
    if FirstNative(native, 0).Some? {
      var head := TokenBalance(TokenLists.NATIVE_AVAX, native(FirstNative(native, 0).value).value);
      assert BatchesResult(tokens, native, rpc) == [head] + CommonEntries(tokens, rpc);
      EntriesDistinct(tokens, rpc, head);
      assert Addresses(BatchesResult(tokens, native, rpc)) == Addresses([head] + CommonEntries(tokens, rpc));
    } else {
      assert BatchesResult(tokens, native, rpc) == [];
    }
  }

  lemma EntriesDistinct(tokens: seq<string>, rpc: TokenRpc, head: TokenBalance)
    requires forall i, j :: 0 <= i < j < |tokens| ==> tokens[i] != tokens[j]
    requires head.token.address !in tokens
    ensures var a := Addresses([head] + CommonEntries(tokens, rpc));
      forall i, j :: 0 <= i < j < |a| ==> a[i] != a[j]
  {
    var entries := CommonEntries(tokens, rpc);
    CommonEntriesCorrect(tokens, rpc);
    SubsequenceDistinct(Addresses(entries), tokens);
    var a := Addresses([head] + entries);
    forall i, j | 0 <= i < j < |a|
      ensures a[i] != a[j]
    {
      assert a[j] == Addresses(entries)[j - 1];
      assert Addresses(entries)[j - 1] in Addresses(entries);
      if i > 0 {
        assert a[i] == Addresses(entries)[i - 1];
      }
    }
  }

  /** The attempts `lo`, `lo + 1`, ... below `hi` for `token`. */
  function AttemptRange(token: string, lo: nat, hi: nat): (r: seq<Call>)
    ensures lo <= hi ==> |r| == hi - lo
    ensures hi <= lo ==> r == []
    ensures forall k :: 0 <= k < |r| ==> r[k] == TokenCall(token, lo + k)
    decreases hi - lo
  {
    if lo >= hi then [] else [TokenCall(token, lo)] + AttemptRange(token, lo + 1, hi)
  }

  /** The batch runs `lo`, `lo + 1`, ... below `hi`. */
  function NativeRange(lo: nat, hi: nat): (r: seq<Call>)
    ensures lo <= hi ==> |r| == hi - lo
    ensures hi <= lo ==> r == []
    ensures forall k :: 0 <= k < |r| ==> r[k] == NativeCall(lo + k)
    decreases hi - lo
  {
    if lo >= hi then [] else [NativeCall(lo)] + NativeRange(lo + 1, hi)
  }

  /** A token is tried at attempts 0, 1, ... up to and including its first
      success, and never more than three times. */
  lemma {:induction false} AttemptCallsShape(rpc: TokenRpc, token: string, n: nat)
    requires n <= MAX_RETRIES
    ensures var last := if FirstReply(rpc, token, n).Some? then FirstReply(rpc, token, n).value + 1 else MAX_RETRIES;
      AttemptCalls(rpc, token, n) == AttemptRange(token, n, last)
    decreases MAX_RETRIES - n
  {
    if n < MAX_RETRIES && rpc(token, n).None? {
      AttemptCallsShape(rpc, token, n + 1);
    }
  }

  /** The whole batch is run at most three times, up to and including the
      first run whose native call succeeds. */
  lemma {:induction false} NativeCallsShape(native: NativeRpc, n: nat)
    requires n <= MAX_RETRIES
    ensures var last := if FirstNative(native, n).Some? then FirstNative(native, n).value + 1 else MAX_RETRIES;
      NativeCalls(native, n) == NativeRange(n, last)
    decreases MAX_RETRIES - n
  {
    if n < MAX_RETRIES && native(n).None? {
      NativeCallsShape(native, n + 1);
    }
  }

  /** The calls in `calls` that are attempts for `token`. */
  function CallsFor(calls: seq<Call>, token: string): seq<Call> {
    if calls == [] then []
    else (if calls[0].TokenCall? && calls[0].token == token then [calls[0]] else []) + CallsFor(calls[1..], token)
  }

  lemma {:induction false} CallsForConcat(a: seq<Call>, b: seq<Call>, token: string)
    ensures CallsFor(a + b, token) == CallsFor(a, token) + CallsFor(b, token)
    decreases |a|
  {
    if a != [] {
      assert (a + b)[0] == a[0];
      assert (a + b)[1..] == a[1..] + b;
      CallsForConcat(a[1..], b, token);
    } else {
      assert a + b == b;
    }
  }

  lemma {:induction false} CallsForAttempts(rpc: TokenRpc, other: string, token: string, n: nat)
    ensures CallsFor(AttemptCalls(rpc, other, n), token) == if other == token then AttemptCalls(rpc, other, n) else []
    decreases MAX_RETRIES - n
  {
    if n < MAX_RETRIES {
      var rest := if rpc(other, n).Some? then [] else AttemptCalls(rpc, other, n + 1);
      CallsForConcat([TokenCall(other, n)], rest, token);
      if rpc(other, n).None? {
        CallsForAttempts(rpc, other, token, n + 1);
      }
    }
  }

  lemma {:induction false} CallsForNative(native: NativeRpc, n: nat, token: string)
    ensures CallsFor(NativeCalls(native, n), token) == []
    decreases MAX_RETRIES - n
  {
    if n < MAX_RETRIES {
      var rest := if native(n).Some? then [] else NativeCalls(native, n + 1);
      CallsForConcat([NativeCall(n)], rest, token);
      if native(n).None? {
        CallsForNative(native, n + 1, token);
      }
    }
  }

  lemma {:induction false} CallsForCommon(tokens: seq<string>, rpc: TokenRpc, token: string)
    requires forall i, j :: 0 <= i < j < |tokens| ==> tokens[i] != tokens[j]
    ensures CallsFor(CommonCalls(tokens, rpc), token) == if token in tokens then AttemptCalls(rpc, token, 0) else []
    decreases |tokens|
  {
    if tokens != [] {
      CallsForConcat(AttemptCalls(rpc, tokens[0], 0), CommonCalls(tokens[1..], rpc), token);
      CallsForAttempts(rpc, tokens[0], token, 0);
      CallsForCommon(tokens[1..], rpc, token);
      if token == tokens[0] {
        assert token !in tokens[1..] by {
          forall j | 0 <= j < |tokens[1..]|
            ensures tokens[1..][j] != token
          {
            assert tokens[1..][j] == tokens[j + 1];
          }
        }
      }
    }
  }

  /** Over a whole `getTokenBalances` call, each common token is tried in
      attempts 0, 1, ... up to its first success and at most three times, and
      the native balance is requested at most three times. */
  lemma RetryBounds(hasClient: bool, address: Option<string>, native: NativeRpc, rpc: TokenRpc, token: string)
    ensures var calls := BalanceCalls(hasClient, address, native, rpc);
      && |CallsFor(calls, token)| <= MAX_RETRIES
      && (Guarded(hasClient, address) && FirstNative(native, 0).Some? && token in COMMON_TOKENS ==>
            CallsFor(calls, token) == AttemptCalls(rpc, token, 0))
      && |NativeCalls(native, 0)| <= MAX_RETRIES
  {
    NativeCallsShape(native, 0);
    AttemptCallsShape(rpc, token, 0);
    CommonTokensDistinct();
    CallsForCommon(COMMON_TOKENS, rpc, token);
    if Guarded(hasClient, address) {
      var nc := NativeCalls(native, 0);
      var cc := if FirstNative(native, 0).Some? then CommonCalls(COMMON_TOKENS, rpc) else [];
      CallsForConcat(nc, cc, token);
      CallsForNative(native, 0, token);
    }
  }

  // ---------------------------------------------------------------------
  // decodeString as written

  /** The number `parseInt(s, 16)` returns: NaN, or an integer. */
  datatype ParsedInt = NaN | Int(value: int)

  /** JavaScript's white space and line terminators, which `parseInt` skips. */
  predicate IsJsSpace(c: char) {
    var n := c as int;
    n == 0x09 || n == 0x0A || n == 0x0B || n == 0x0C || n == 0x0D || n == 0x20 || n == 0xA0 ||
    n == 0x1680 || (0x2000 <= n <= 0x200A) || n == 0x2028 || n == 0x2029 || n == 0x202F ||
    n == 0x205F || n == 0x3000 || n == 0xFEFF
  }

  function TrimStart(s: string): (r: string)
    ensures |r| <= |s|
    ensures r == [] || !IsJsSpace(r[0])
    decreases |s|
  {
    if s != [] && IsJsSpace(s[0]) then TrimStart(s[1..]) else s
  }

  /** The number of leading hex digits of `s`. */
  function HexPrefixLength(s: string): (k: nat)
    ensures k <= |s| && AllHex(s[..k])
    ensures k < |s| ==> !IsHexDigit(s[k])
    decreases |s|
  {
    if s != [] && IsHexDigit(s[0]) then
      var k := 1 + HexPrefixLength(s[1..]);
      assert s[..k] == [s[0]] + s[1..][..k - 1];
      k
    else 0
  }

  /** `parseInt(s, 16)`: skip leading white space, take an optional sign,
      drop a `0x`/`0X` prefix, then read the longest run of hex digits; no
      digits is NaN. (Exact for the at most two digits it is given here.) */
  function ParseIntHex(s: string): (r: ParsedInt)
    ensures AllHex(s) && s != [] ==> r == Int(HexValue(s))
    ensures |s| <= 2 && r.Int? ==> -15 <= r.value <= 255
  {
    var t := TrimStart(s);
    var negative := t != [] && t[0] == '-';
    var u := if t != [] && (t[0] == '-' || t[0] == '+') then t[1..] else t;
    var v := if |u| >= 2 && u[0] == '0' && (u[1] == 'x' || u[1] == 'X') then u[2..] else u;
    var k := HexPrefixLength(v);
    if k == 0 then NaN
    else
      assert AllHex(s) && s != [] ==> t == s && u == s && v == s && k == |s| && s[..k] == s;
      assert |v[..k]| <= 2 ==> Pow16(|v[..k]|) <= 256;
      Int(if negative then -(HexValue(v[..k]) as int) else HexValue(v[..k]))
  }

  /** `String.fromCharCode(x)`: the code unit `x` modulo 2^16, NaN as 0. */
  function FromCharCode(p: ParsedInt): (c: char)
    requires p.Int? ==> -15 <= p.value <= 255
    ensures p.Int? && 0 <= p.value ==> c as int == p.value
  {
    match p
    case NaN => 0 as char
    case Int(v) => (v % 0x1_0000) as char
  }

  function Min(a: int, b: int): int {
    if a <= b then a else b
  }

  /** The two-character chunk at `i`; the last one may be a single character. */
  function Chunk(hex: string, i: nat): (c: string)
    requires i < |hex|
    ensures 1 <= |c| <= 2
  {
    hex[i..Min(i + 2, |hex|)]
  }

  /** The characters the loop of `decodeString` appends from position `i` of
      `hex` on, up to the first chunk that parses to 0. */
  function DecodeChunks(hex: string, i: nat): string
    decreases |hex| - i
  {
    if i >= |hex| then ""
    else
      var code := ParseIntHex(Chunk(hex, i));
      if code == Int(0) then "" else [FromCharCode(code)] + DecodeChunks(hex, i + 2)
  }

  /** What `decodeString` returns: the characters decoded from position 66
      on, or "" for "0x" and inputs shorter than 66 characters. */
  function DecodedString(hexString: string): string {
    if hexString == "0x" || |hexString| < 66 then "" else DecodeChunks(hexString[66..], 0)
  }

  /** `decodeString`, as written: it skips "0x" and only one 32-byte word. */
  method DecodeString(hexString: string) returns (str: string)
    ensures str == DecodedString(hexString)
  {
    if hexString == "0x" || |hexString| < 66 {
      return "";
    }
    var hex := hexString[66..];
    str := "";
    var i := 0;
    while i < |hex|
      invariant str + DecodeChunks(hex, i) == DecodeChunks(hex, 0)
    {
      var charCode := ParseIntHex(Chunk(hex, i));
      if charCode == Int(0) {
        break;
      }
      str := str + [FromCharCode(charCode)];
      i := i + 2;
    }
  }

  /** The value of the chunk at `i` read as hex digits. */
  function ChunkValue(hex: string, i: nat): (v: nat)
    requires i < |hex|
    ensures v < 256
  {
    var c := Chunk(hex, i);
    assert Pow16(|c|) <= 256;
    HexValue(c)
  }

  /** Reading hex text from `i` as one byte code per two digits, up to the
      end or the first code 0: what `decodeString` is meant to do with the
      text it reads. */
  function BytesUntilZero(hex: string, i: nat): (r: string)
    ensures forall j :: 0 <= j < |r| ==> 0 < r[j] as int < 256
    decreases |hex| - i
  {
    if i >= |hex| || ChunkValue(hex, i) == 0 then ""
    else [ChunkValue(hex, i) as char] + BytesUntilZero(hex, i + 2)
  }

  /** On hex text, the loop of `decodeString` is exactly that reading. */
  lemma {:induction false} DecodeHexChunks(hex: string, i: nat)
    requires AllHex(hex)
    ensures DecodeChunks(hex, i) == BytesUntilZero(hex, i)
    decreases |hex| - i
  {
    if i < |hex| {
      ChunkParses(hex, i);
      DecodeHexChunks(hex, i + 2);
    }
  }

  /** For hex text after position 66, `decodeString` reads byte codes up to
      the first zero, so it never emits code 0 and every code is below 256. */
  lemma DecodedHexCodes(hexString: string)
    requires |hexString| >= 66 && AllHex(hexString[66..])
    ensures DecodedString(hexString) == BytesUntilZero(hexString[66..], 0)
    ensures forall j :: 0 <= j < |DecodedString(hexString)| ==> 0 < DecodedString(hexString)[j] as int < 256
  {
    DecodeHexChunks(hexString[66..], 0);
  }

  lemma ChunkParses(hex: string, i: nat)
    requires AllHex(hex) && i < |hex|
    ensures ParseIntHex(Chunk(hex, i)) == Int(ChunkValue(hex, i))
  {
    var c := Chunk(hex, i);
    assert AllHex(c) by {
      forall j | 0 <= j < |c|
        ensures IsHexDigit(c[j])
      {
        assert c[j] == hex[i + j];
      }
    }
  }


  /** `decodeString` returns "" for "0x" and for anything shorter than 66
      characters, and otherwise at most one character per two characters after
      position 66. */
  lemma DecodedStringLength(hexString: string)
    ensures hexString == "0x" || |hexString| < 66 ==> DecodedString(hexString) == ""
    ensures |hexString| >= 66 ==> |DecodedString(hexString)| <= (|hexString| - 66 + 1) / 2
  {
    if |hexString| >= 66 {
      DecodeChunksLength(hexString[66..], 0);
    }
  }

  lemma {:induction false} DecodeChunksLength(hex: string, i: nat)
    ensures i <= |hex| ==> |DecodeChunks(hex, i)| <= (|hex| - i + 1) / 2
    ensures i > |hex| ==> DecodeChunks(hex, i) == ""
    decreases |hex| - i
  {
    if i < |hex| {
      DecodeChunksLength(hex, i + 2);
    }
  }

  /** Characters 66 and 67 equal to "00" end the loop before it emits anything. */
  lemma LeadingZeroByteDecodesEmpty(hexString: string)
    requires |hexString| >= 68 && hexString[66] == '0' && hexString[67] == '0'
    ensures DecodedString(hexString) == ""
  {
    var hex := hexString[66..];
    assert Chunk(hex, 0) == "00";
    assert AllHex("00");
    assert HexValue("00") == 0 by {
      assert "00"[..1] == "0";
      assert "0"[..0] == "";
    }
  }

  // ---------------------------------------------------------------------
  // The ABI encoding of a string result, and a decoder that reads it

  /** Zero digits filling the last 32-byte word of `n` bytes. */
  function PaddingDigits(n: nat): nat {
    2 * ((32 - n % 32) % 32)
  }

  /** The bytes of `s` (each character a byte value) as hex text. */
  function HexBytes(s: string): (h: string)
    ensures |h| == 2 * |s| && AllHex(h)
    decreases |s|
  {
    if s == [] then "" else NatToHex(s[0] as int, 2) + HexBytes(s[1..])
  }

  /** The offset word of a single dynamic return value: 0x20, in 64 digits. */
  const OFFSET_WORD: string := ZeroDigits(62) + "20"

  function ZeroDigits(n: nat): (z: string)
    ensures |z| == n && AllHex(z)
  {
    seq(n, _ => '0')
  }

  /** An `eth_call` result returning the string `s` under the Ethereum
      contract ABI: "0x", the offset word 0x20, the length word, then the
      bytes, zero-padded to a whole number of 32-byte words. */
  function AbiEncodeString(s: string): (h: string)
    ensures |h| == 130 + 2 * |s| + PaddingDigits(|s|)
    ensures h[..2] == "0x" && h[2..66] == OFFSET_WORD
    ensures h[66..] == NatToHex(|s|, 64) + HexBytes(s) + ZeroDigits(PaddingDigits(|s|))
  {
    var tail := NatToHex(|s|, 64) + HexBytes(s) + ZeroDigits(PaddingDigits(|s|));
    var enc := "0x" + (OFFSET_WORD + tail);
    assert enc[..2] == "0x" && enc[2..66] == OFFSET_WORD && enc[66..] == tail by {
      Seqs.AppendSlices<char>("0x", OFFSET_WORD + tail);
      Seqs.AppendSlices<char>(OFFSET_WORD, tail);
      Seqs.DropSlices<char>(enc, 2, 64);
    }
    enc
  }

  lemma AllHexConcat(a: string, b: string)
    requires AllHex(a) && AllHex(b)
    ensures AllHex(a + b)
  {
  }

  /** The characters whose codes the hex pairs of `h` spell. */
  function DecodeBytes(h: string): (s: string)
    requires |h| % 2 == 0
    ensures |s| == |h| / 2
    decreases |h|
  {
    if h == [] then ""
    else
      assert Pow16(2) == 256;
      [HexValue(h[..2]) as char] + DecodeBytes(h[2..])
  }

  /** The intended `decodeString`: skip "0x" and the offset word, read the
      length word, then that many bytes; "" when the text is not well formed. */
  function DecodeAbiString(hexString: string): string {
    if |hexString| < 130 || !AllHex(hexString[66..]) then ""
    else
      var body := hexString[66..];
      var n := HexValue(body[..64]);
      if 64 + 2 * n > |body| then "" else DecodeBytes(body[64..64 + 2 * n])
  }

  predicate IsByteString(s: string) {
    forall i :: 0 <= i < |s| ==> s[i] as int < 256
  }

  lemma {:induction false} DecodeHexBytes(s: string)
    requires IsByteString(s)
    ensures DecodeBytes(HexBytes(s)) == s
    decreases |s|
  {
    if s != [] {
      var h := HexBytes(s);
      assert Pow16(2) == 256;
      HexValueOfNatToHex(s[0] as int, 2);
      assert h[..2] == NatToHex(s[0] as int, 2);
      assert h[2..] == HexBytes(s[1..]);
      DecodeHexBytes(s[1..]);
    }
  }

  /** The corrected decoder inverts the ABI encoding of every byte string. */
  lemma AbiStringRoundTrip(s: string)
    requires IsByteString(s) && |s| < Pow16(64)
    ensures DecodeAbiString(AbiEncodeString(s)) == s
  {
    var body := AbiEncodeString(s)[66..];
    var lengthWord, bytes := NatToHex(|s|, 64), HexBytes(s);
    AllHexConcat(lengthWord, bytes);
    AllHexConcat(lengthWord + bytes, ZeroDigits(PaddingDigits(|s|)));
    Seqs.ThreeSlices(lengthWord, bytes, ZeroDigits(PaddingDigits(|s|)));
    HexValueOfNatToHex(|s|, 64);
    DecodeHexBytes(s);
  }

  /** What the code as written makes of the same text: every string whose
      length fits in 62 hex digits (any real one) has a length word starting
      with "00", so `decodeString` returns "" for it. */
  lemma AbiStringDecodesEmptyAsWritten(s: string)
    requires |s| < Pow16(62)
    ensures DecodedString(AbiEncodeString(s)) == ""
  {
    var h := AbiEncodeString(s);
    var body := h[66..];
    LengthWordStartsWithZeroByte(|s|);
    assert body[0] == '0' && body[1] == '0';
    assert h[66] == body[0] && h[67] == body[1];
    LeadingZeroByteDecodesEmpty(h);
  }

  /** A length below `16^62` written as a 64-digit word starts with a `00`
      byte. */
  lemma LengthWordStartsWithZeroByte(n: nat)
    requires n < Pow16(62)
    ensures NatToHex(n, 64)[0] == '0' && NatToHex(n, 64)[1] == '0'
  {
    LeadingZeros(n, 64, 2);
  }

  /** The token symbol "USDC" as `symbol()` returns it: the as-written decoder
      yields "" and the corrected one "USDC". */
  lemma UsdcSymbolExample(symbol: string)
    requires symbol == "USDC"
    ensures DecodedString(AbiEncodeString(symbol)) == ""
    ensures DecodeAbiString(AbiEncodeString(symbol)) == "USDC"
  {
    var w := 62;
    assert Pow16(w) > 4 by {
      PowGrows(w);
    }
    AbiStringDecodesEmptyAsWritten(symbol);
    PowGrows(w + 2);
    AbiStringRoundTrip(symbol);
  }

  /** An entry built from the ABI-encoded `name()` and `symbol()` replies
      of a token carries that name and symbol, where `decodeString` as
      written would have given "" for both. */
  lemma TokenEntryNames(token: string, reply: TokenReply, name: string, symbol: string)
    requires IsByteString(name) && |name| < Pow16(62) && reply.nameData == AbiEncodeString(name)
    requires IsByteString(symbol) && |symbol| < Pow16(62) && reply.symbolData == AbiEncodeString(symbol)
    ensures TokenEntry(token, reply).token.name == name && TokenEntry(token, reply).token.symbol == symbol
    ensures DecodedString(reply.nameData) == "" && DecodedString(reply.symbolData) == ""
  {
    PowMonotone(62, 64);
    AbiStringRoundTrip(name);
    AbiStringRoundTrip(symbol);
    AbiStringDecodesEmptyAsWritten(name);
    AbiStringDecodesEmptyAsWritten(symbol);
  }

  lemma {:induction false} PowMonotone(m: nat, n: nat)
    requires m <= n
    ensures Pow16(m) <= Pow16(n)
    decreases n
  {
    if m < n {
      PowMonotone(m, n - 1);
    }
  }

  lemma {:induction false} PowGrows(n: nat)
    ensures Pow16(n) > n
  {
    if n > 0 {
      PowGrows(n - 1);
    }
  }
}
