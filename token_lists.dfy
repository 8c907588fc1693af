/** Token registry (src/utils/tokenLists.ts): a process-wide list built once
    from external token lists (chain 43114 only, one entry per lower-cased
    address), listed with the native asset first and then by balance, and
    searched by case-insensitive substring. HTTP fetches, contract reads and
    the DexScreener lookup are oracles passed in as functions. */
module TokenLists {
  import opened Wrappers
  import opened Text
  import Sorting
  import Seqs

  const CHAIN_ID: int := 43114
  const DEXSCREENER_DECIMALS: nat := 18

  const TOKEN_LISTS: seq<string> := [
    "https://raw.githubusercontent.com/traderjoe-xyz/joe-tokenlists/main/joe.tokenlist.json",
    "https://raw.githubusercontent.com/pangolindex/tokenlists/main/pangolin.tokenlist.json"
  ]

  /** A token descriptor. `chainId` is present on token-list entries only;
      `balance` is the raw integer balance once annotated. */
  datatype TokenInfo = TokenInfo(address: string, name: string, symbol: string, decimals: nat,
                                 chainId: Option<int>, balance: Option<nat>)

  const NATIVE_AVAX: TokenInfo :=
    TokenInfo("0xEeeeeEeeeEeEeeEeEeEeeEEEeeeeEeeeeeeeEEeE", "Avalanche", "AVAX", 18, None, None)

  /** The chain as seen through an injected provider. */
  datatype Provider = Provider(
    getBalance: string -> Option<nat>,                      // provider.getBalance(user)
    balanceOf: (string, string) -> Option<nat>,             // ERC20(token).balanceOf(user)
    metadata: string -> Option<(string, string, nat)>)      // name(), symbol(), decimals() of a contract

  /** `fetch(url).then(r => r.json()).then(d => d.tokens || d)`; `None` when
      the fetch or the parse fails. */
  type ListFetcher = string -> Option<seq<TokenInfo>>

  /** `fetchTokenFromDexScreener`: a token's name and symbol, if found. */
  type DexScreener = string -> Option<(string, string)>

  /** JavaScript truthiness of an optional string argument. */
  predicate IsSet(s: Option<string>) {
    s.Some? && s.value != ""
  }

  // ---------------------------------------------------------------------
  // Building the cached list

  /** What each source contributes once failures are replaced by `[]`,
      flattened in source order (`Promise.all(...)` then `lists.flat()`). */
  function Fetched(urls: seq<string>, fetchList: ListFetcher): seq<TokenInfo>
    decreases |urls|
  {
    if urls == [] then [] else fetchList(urls[0]).GetOr([]) + Fetched(urls[1..], fetchList)
  }

  /** A token is fetched exactly when some source succeeded and listed it: a
      failing source contributes nothing and does not hide the others. */
  lemma {:induction false} FetchedMembers(urls: seq<string>, fetchList: ListFetcher, t: TokenInfo)
    ensures t in Fetched(urls, fetchList) <==>
      exists k :: 0 <= k < |urls| && fetchList(urls[k]).Some? && t in fetchList(urls[k]).value
    decreases |urls|
  {
    if urls != [] {
      FetchedMembers(urls[1..], fetchList, t);
      if t in Fetched(urls[1..], fetchList) {
        var k :| 0 <= k < |urls[1..]| && fetchList(urls[1..][k]).Some? && t in fetchList(urls[1..][k]).value;
        assert urls[1..][k] == urls[k + 1];
      }
      if exists k :: 0 <= k < |urls| && fetchList(urls[k]).Some? && t in fetchList(urls[k]).value {
        var k :| 0 <= k < |urls| && fetchList(urls[k]).Some? && t in fetchList(urls[k]).value;
        if k > 0 {
          assert urls[1..][k - 1] == urls[k];
        }
      }
    }
  }

  predicate OnChain(t: TokenInfo) {
    t.chainId == Some(CHAIN_ID)
  }

  /** `.filter(token => token.chainId === 43114)`. */
  function FilterChain(ts: seq<TokenInfo>): (r: seq<TokenInfo>)
    ensures forall t :: t in r <==> t in ts && OnChain(t)
    decreases |ts|
  {
    if ts == [] then []
    else if OnChain(ts[0]) then [ts[0]] + FilterChain(ts[1..])
    else FilterChain(ts[1..])
  }

  /** The filter keeps order and multiplicity: it maps a single token to
      itself or to nothing, and distributes over concatenation. */
  lemma {:induction false} FilterChainOrder(a: seq<TokenInfo>, b: seq<TokenInfo>)
    ensures FilterChain(a + b) == FilterChain(a) + FilterChain(b)
    ensures |a| == 1 ==> FilterChain(a) == (if OnChain(a[0]) then a else [])
    decreases |a|
  {
    if a == [] {
      assert a + b == b;
    } else {
      FilterChainOrder(a[1..], b);
      assert (a + b)[1..] == a[1..] + b;
      Seqs.ConcatAssoc([a[0]], FilterChain(a[1..]), FilterChain(b));
      if |a| == 1 {
        assert a[1..] == [];
      }
    }
  }

  /** The key of the de-duplicating `Map`. */
  function Key(t: TokenInfo): string {
    ToLower(t.address)
  }

  /** The first position of `s` whose key is `k`, or `|s|` when there is none. */
  function IndexOfKey(s: seq<TokenInfo>, k: string): (i: nat)
    ensures i <= |s|
    ensures i < |s| ==> Key(s[i]) == k
    ensures forall j :: 0 <= j < i ==> Key(s[j]) != k
    decreases |s|
  {
    if s == [] then 0 else if Key(s[0]) == k then 0 else 1 + IndexOfKey(s[1..], k)
  }

  /** `map.set(key, token)` on an insertion-ordered `Map`, seen through its
      values: an existing key keeps its position and takes the new value, a
      new key goes last. */
  function Upsert(acc: seq<TokenInfo>, t: TokenInfo): (r: seq<TokenInfo>)
    ensures |r| <= |acc| + 1
  {
    var j := IndexOfKey(acc, Key(t));
    if j < |acc| then acc[j := t] else acc + [t]
  }

  /** `Array.from(new Map(ts.map(t => [key(t), t])).values())`. */
  function Dedup(ts: seq<TokenInfo>): seq<TokenInfo>
    decreases |ts|
  {
    if ts == [] then [] else Upsert(Dedup(ts[..|ts| - 1]), ts[|ts| - 1])
  }

  predicate UniqueKeys(s: seq<TokenInfo>) {
    forall j1, j2 :: 0 <= j1 < j2 < |s| ==> Key(s[j1]) != Key(s[j2])
  }

  /** Position `i` holds the last entry of `ts` with its key. */
  predicate LastOfKey(ts: seq<TokenInfo>, i: int) {
    0 <= i < |ts| && forall i' :: i < i' < |ts| ==> Key(ts[i']) != Key(ts[i])
  }

  /** `r` is the JavaScript `Map` de-duplication of `ts`: one entry per key,
      every key of `ts` represented, each entry the last one of `ts` with its
      key, and the keys ordered by their first occurrence in `ts`. */
  ghost predicate DedupOf(r: seq<TokenInfo>, ts: seq<TokenInfo>) {
    UniqueKeys(r) && EntriesAreLast(r, ts) && CoversKeys(r, ts) && KeysInFirstOrder(r, ts)
  }

  ghost predicate EntriesAreLast(r: seq<TokenInfo>, ts: seq<TokenInfo>) {
    forall j :: 0 <= j < |r| ==> exists i :: LastOfKey(ts, i) && ts[i] == r[j]
  }

  predicate CoversKeys(r: seq<TokenInfo>, ts: seq<TokenInfo>) {
    forall i :: 0 <= i < |ts| ==> IndexOfKey(r, Key(ts[i])) < |r|
  }

  predicate KeysInFirstOrder(r: seq<TokenInfo>, ts: seq<TokenInfo>) {
    forall j1, j2 :: 0 <= j1 < j2 < |r| ==> IndexOfKey(ts, Key(r[j1])) < IndexOfKey(ts, Key(r[j2]))
  }

  lemma IndexOfKeyPrefix(ts: seq<TokenInfo>, t: TokenInfo, k: string)
    requires IndexOfKey(ts, k) < |ts|
    ensures IndexOfKey(ts + [t], k) == IndexOfKey(ts, k)
  {
    var s := ts + [t];
    var i := IndexOfKey(ts, k);
    assert s[i] == ts[i];
    assert IndexOfKey(s, k) <= i;
  }

  lemma IndexOfKeyNew(ts: seq<TokenInfo>, t: TokenInfo)
    requires IndexOfKey(ts, Key(t)) == |ts|
    ensures IndexOfKey(ts + [t], Key(t)) == |ts|
  {
    var s := ts + [t];
    assert s[|ts|] == t;
    assert IndexOfKey(s, Key(t)) <= |ts|;
  }

  /** Keys already represented keep their first index when an entry is
      appended to the input. */
  lemma FirstIndicesKept(r: seq<TokenInfo>, ts: seq<TokenInfo>, t: TokenInfo)
    requires DedupOf(r, ts)
    ensures forall j :: 0 <= j < |r| ==> IndexOfKey(ts, Key(r[j])) < |ts|
    ensures forall j :: 0 <= j < |r| ==> IndexOfKey(ts + [t], Key(r[j])) == IndexOfKey(ts, Key(r[j]))
  {
    forall j | 0 <= j < |r|
      ensures IndexOfKey(ts, Key(r[j])) < |ts|
      ensures IndexOfKey(ts + [t], Key(r[j])) == IndexOfKey(ts, Key(r[j]))
    {
      var i :| LastOfKey(ts, i) && ts[i] == r[j];
      assert IndexOfKey(ts, Key(r[j])) <= i;
      IndexOfKeyPrefix(ts, t, Key(r[j]));
    }
  }

  /** An earlier last-of-key position stays last-of-key after appending an
      entry with a different key. */
  lemma LastOfKeyKept(ts: seq<TokenInfo>, t: TokenInfo, i: int)
    requires LastOfKey(ts, i) && Key(ts[i]) != Key(t)
    ensures LastOfKey(ts + [t], i) && (ts + [t])[i] == ts[i]
  {
  }

  /** Each entry of an upserted list is the last of its key in the longer input. */
  lemma UpsertLastOfKey(r: seq<TokenInfo>, ts: seq<TokenInfo>, t: TokenInfo)
    requires DedupOf(r, ts)
    ensures EntriesAreLast(Upsert(r, t), ts + [t])
  {
    var ts' := ts + [t];
    var r' := Upsert(r, t);
    var j0 := IndexOfKey(r, Key(t));
    assert LastOfKey(ts', |ts|) && ts'[|ts|] == t;
    forall j | 0 <= j < |r'|
      ensures exists i :: LastOfKey(ts', i) && ts'[i] == r'[j]
    {
      if j == j0 {
        assert LastOfKey(ts', |ts|) && ts'[|ts|] == r'[j];
      } else {
        assert r'[j] == r[j];
        var i :| LastOfKey(ts, i) && ts[i] == r[j];
        LastOfKeyKept(ts, t, i);
      }
    }
  }

  /** Every key of the longer input is represented in the upserted list. */
  lemma UpsertCovers(r: seq<TokenInfo>, ts: seq<TokenInfo>, t: TokenInfo)
    requires DedupOf(r, ts)
    ensures CoversKeys(Upsert(r, t), ts + [t])
  {
    var ts' := ts + [t];
    var r' := Upsert(r, t);
    var j0 := IndexOfKey(r, Key(t));
    forall i | 0 <= i < |ts'|
      ensures IndexOfKey(r', Key(ts'[i])) < |r'|
    {
      if i < |ts| {
        var m := IndexOfKey(r, Key(ts[i]));
        assert ts'[i] == ts[i];
        assert Key(r'[m]) == Key(ts[i]);
      } else {
        assert Key(r'[j0]) == Key(t);
      }
    }
  }

  /** The new key occurs nowhere in an input whose keys are all represented. */
  lemma NewKeyAbsent(r: seq<TokenInfo>, ts: seq<TokenInfo>, t: TokenInfo)
    requires DedupOf(r, ts)
    requires IndexOfKey(r, Key(t)) == |r|
    ensures IndexOfKey(ts, Key(t)) == |ts|
  {
  }

  /** The order of `r`'s keys carries over to an input in which they keep
      their first positions. */
  lemma OrderTransfer(r: seq<TokenInfo>, ts: seq<TokenInfo>, ts': seq<TokenInfo>)
    requires KeysInFirstOrder(r, ts)
    requires forall j :: 0 <= j < |r| ==> IndexOfKey(ts', Key(r[j])) == IndexOfKey(ts, Key(r[j]))
    ensures KeysInFirstOrder(r, ts')
  {
  }

  /** Appending a key first listed after all of `r`'s keeps the order. */
  lemma OrderAppend(r: seq<TokenInfo>, ts: seq<TokenInfo>, t: TokenInfo)
    requires KeysInFirstOrder(r, ts)
    requires forall j :: 0 <= j < |r| ==> IndexOfKey(ts, Key(r[j])) < IndexOfKey(ts, Key(t))
    ensures KeysInFirstOrder(r + [t], ts)
  {
    var r' := r + [t];
    forall j1, j2 | 0 <= j1 < j2 < |r'|
      ensures IndexOfKey(ts, Key(r'[j1])) < IndexOfKey(ts, Key(r'[j2]))
    {
      assert r'[j1] == r[j1];
      if j2 < |r| {
        assert r'[j2] == r[j2];
      } else {
        assert r'[j2] == t;
      }
    }
  }

  /** Replacing values without changing keys keeps the order. */
  lemma OrderSameKeys(r: seq<TokenInfo>, r': seq<TokenInfo>, ts: seq<TokenInfo>)
    requires KeysInFirstOrder(r, ts)
    requires |r'| == |r| && forall j :: 0 <= j < |r| ==> Key(r'[j]) == Key(r[j])
    ensures KeysInFirstOrder(r', ts)
  {
  }

  /** Replacing the value of an existing key keeps the keys' order. */
  lemma UpsertOrderExisting(r: seq<TokenInfo>, ts: seq<TokenInfo>, t: TokenInfo)
    requires KeysInFirstOrder(r, ts)
    requires forall j :: 0 <= j < |r| ==> IndexOfKey(ts + [t], Key(r[j])) == IndexOfKey(ts, Key(r[j]))
    requires IndexOfKey(r, Key(t)) < |r|
    ensures KeysInFirstOrder(Upsert(r, t), ts + [t])
  {
    OrderTransfer(r, ts, ts + [t]);
    OrderSameKeys(r, Upsert(r, t), ts + [t]);
  }

  /** A new key goes after every old key. */
  lemma UpsertOrderNew(r: seq<TokenInfo>, ts: seq<TokenInfo>, t: TokenInfo)
    requires KeysInFirstOrder(r, ts)
    requires forall j :: 0 <= j < |r| ==> IndexOfKey(ts, Key(r[j])) < |ts|
    requires forall j :: 0 <= j < |r| ==> IndexOfKey(ts + [t], Key(r[j])) == IndexOfKey(ts, Key(r[j]))
    requires IndexOfKey(r, Key(t)) == |r| && IndexOfKey(ts, Key(t)) == |ts|
    ensures KeysInFirstOrder(Upsert(r, t), ts + [t])
  {
    var ts' := ts + [t];
    OrderTransfer(r, ts, ts');
    IndexOfKeyNew(ts, t);
    OrderAppend(r, ts', t);
  }

  /** The upserted list still has one entry per key. */
  lemma UpsertUnique(r: seq<TokenInfo>, t: TokenInfo)
    requires UniqueKeys(r)
    ensures UniqueKeys(Upsert(r, t))
  {
    var r' := Upsert(r, t);
    var j0 := IndexOfKey(r, Key(t));
    if j0 < |r| {
      forall j | 0 <= j < |r|
        ensures Key(r'[j]) == Key(r[j])
      {
      }
    }
  }

  /** One `map.set` step keeps the de-duplication relation. */
  lemma UpsertStep(r: seq<TokenInfo>, ts: seq<TokenInfo>, t: TokenInfo)
    requires DedupOf(r, ts)
    ensures DedupOf(Upsert(r, t), ts + [t])
  {
    UpsertUnique(r, t);
    UpsertLastOfKey(r, ts, t);
    UpsertCovers(r, ts, t);
    FirstIndicesKept(r, ts, t);
    if IndexOfKey(r, Key(t)) < |r| {
      UpsertOrderExisting(r, ts, t);
    } else {
      NewKeyAbsent(r, ts, t);
      UpsertOrderNew(r, ts, t);
    }

  }

  /** Appending one entry to the input is one `map.set` on the output. */
  lemma DedupSnoc(ts: seq<TokenInfo>)
    requires ts != []
    requires DedupOf(Dedup(ts[..|ts| - 1]), ts[..|ts| - 1])
    ensures DedupOf(Dedup(ts), ts)
  {
    var prefix, last := ts[..|ts| - 1], ts[|ts| - 1];
    UpsertStep(Dedup(prefix), prefix, last);
    Seqs.SplitLast(ts);
    DedupOfEqual(Upsert(Dedup(prefix), last), Dedup(ts), prefix + [last], ts);
  }

  lemma DedupOfEqual(r: seq<TokenInfo>, r': seq<TokenInfo>, ts: seq<TokenInfo>, ts': seq<TokenInfo>)
    requires DedupOf(r, ts) && r == r' && ts == ts'
    ensures DedupOf(r', ts')
  {
  }

  /** The output of `Dedup` is never longer than its input. */
  lemma {:induction false} DedupLength(ts: seq<TokenInfo>)
    ensures |Dedup(ts)| <= |ts|
    decreases |ts|
  {
    if ts != [] {
      DedupLength(ts[..|ts| - 1]);
    }
  }

  /** `Dedup` is the `Map` de-duplication of its input. */
  lemma {:induction false} DedupCorrect(ts: seq<TokenInfo>)
    ensures DedupOf(Dedup(ts), ts)
    ensures |Dedup(ts)| <= |ts|
    decreases |ts|
  {
    DedupLength(ts);
    if ts != [] {
      DedupCorrect(ts[..|ts| - 1]);
      DedupSnoc(ts);
    }
  }

  /** The list `initializeTokenList` caches. */
  function BuildTokenList(fetchList: ListFetcher): seq<TokenInfo> {
    Dedup(FilterChain(Fetched(TOKEN_LISTS, fetchList)))
  }

  predicate CachedListOk(s: seq<TokenInfo>) {
    (forall t :: t in s ==> OnChain(t)) && UniqueKeys(s)
  }

  /** The cached list holds only chain-43114 tokens, at most one per
      lower-cased address, each the last listed entry with that address and
      placed where that address was first listed; every chain-43114 entry of
      a successful source is represented. */
  lemma BuildTokenListCorrect(fetchList: ListFetcher)
    ensures CachedListOk(BuildTokenList(fetchList))
    ensures DedupOf(BuildTokenList(fetchList), FilterChain(Fetched(TOKEN_LISTS, fetchList)))
  {
    var ts := FilterChain(Fetched(TOKEN_LISTS, fetchList));
    DedupCorrect(ts);
    var r := Dedup(ts);
    forall t | t in r
      ensures OnChain(t)
    {
      var j :| 0 <= j < |r| && r[j] == t;
      var i :| LastOfKey(ts, i) && ts[i] == r[j];
      assert ts[i] in ts;
    }
  }

  // ---------------------------------------------------------------------
  // Balances and ordering

  /** `getTokenBalance`: the native balance for the native pseudo-address,
      `balanceOf` otherwise, and 0 when the lookup fails. */
  function GetTokenBalance(tokenAddress: string, user: string, provider: Provider): (b: nat)
    ensures tokenAddress == NATIVE_AVAX.address ==> b == provider.getBalance(user).GetOr(0)
    ensures tokenAddress != NATIVE_AVAX.address ==> b == provider.balanceOf(tokenAddress, user).GetOr(0)
  {
    if tokenAddress == NATIVE_AVAX.address then
      match provider.getBalance(user)
      case Some(b) => b
      case None => 0
    else
      match provider.balanceOf(tokenAddress, user)
      case Some(b) => b
      case None => 0
  }

  /** `results.map(token => ({ ...token, balance }))`. */
  function Annotate(ts: seq<TokenInfo>, user: string, provider: Provider): (r: seq<TokenInfo>)
    ensures |r| == |ts|
    ensures forall i :: 0 <= i < |ts| ==>
      r[i] == ts[i].(balance := Some(GetTokenBalance(ts[i].address, user, provider)))
  {
    seq(|ts|, i requires 0 <= i < |ts| => ts[i].(balance := Some(GetTokenBalance(ts[i].address, user, provider))))
  }

  /** The list `getTokenList` sorts: the native asset and the cached tokens,
      with balances when an account and a wallet are present. */
  function ListCandidates(tokenList: seq<TokenInfo>, account: Option<string>, walletPresent: bool,
                          provider: Provider): seq<TokenInfo>
  {
    if IsSet(account) && walletPresent then Annotate([NATIVE_AVAX] + tokenList, account.value, provider)
    else [NATIVE_AVAX] + tokenList
  }

  function Pow10(n: nat): (p: nat)
    ensures p > 0
  {
    if n == 0 then 1 else 10 * Pow10(n - 1)
  }

  predicate IsNative(t: TokenInfo) {
    t.address == NATIVE_AVAX.address
  }

  /** `balance / 10^decimals`, a missing balance counting as 0. */
  function BalanceValue(t: TokenInfo): real {
    (t.balance.GetOr(0) as real) / (Pow10(t.decimals) as real)
  }

  /** The comparator of `getTokenList` as a "sorts no later than" relation:
      the native asset first, then larger balances, then symbols in
      lexicographic order. */
  predicate TokenLe(a: TokenInfo, b: TokenInfo) {
    if IsNative(a) then true
    else if IsNative(b) then false
    else BalanceValue(a) > BalanceValue(b) || (BalanceValue(a) == BalanceValue(b) && LexLe(a.symbol, b.symbol))
  }

  /** The comparator is total and transitive, so sorting by it is meaningful. */
  lemma TokenLeOrders()
    ensures Sorting.TotalOrderish(TokenLe)
  {
    forall a: TokenInfo, b: TokenInfo
      ensures TokenLe(a, b) || TokenLe(b, a)
    {
      LexLeTotal(a.symbol, b.symbol);
    }
    forall a: TokenInfo, b: TokenInfo, c: TokenInfo | TokenLe(a, b) && TokenLe(b, c)
      ensures TokenLe(a, c)
    {
      if !IsNative(a) && !IsNative(b) && !IsNative(c) && LexLe(a.symbol, b.symbol) && LexLe(b.symbol, c.symbol) {
        LexLeTransitive(a.symbol, b.symbol, c.symbol);
      }
    }
  }

  /** Any sorted permutation of a candidate list starts with the native
      asset, lists the other tokens by non-increasing balance, and orders
      equal balances by symbol. */
  lemma SortedListShape(results: seq<TokenInfo>, tokenList: seq<TokenInfo>, account: Option<string>,
                        walletPresent: bool, provider: Provider)
    requires multiset(results) == multiset(ListCandidates(tokenList, account, walletPresent, provider))
    requires Sorting.SortedBy(results, TokenLe)
    ensures |results| == 1 + |tokenList|
    ensures IsNative(results[0])
    ensures forall p, q :: 1 <= p < q < |results| && !IsNative(results[p]) ==>
      BalanceValue(results[p]) >= BalanceValue(results[q])
    ensures forall p, q ::
      (1 <= p < q < |results| && !IsNative(results[p]) && BalanceValue(results[p]) == BalanceValue(results[q]))
      ==> LexLe(results[p].symbol, results[q].symbol)
  {
    var cands := ListCandidates(tokenList, account, walletPresent, provider);
    assert |results| == |multiset(results)| == |cands|;
    assert IsNative(cands[0]);
    assert cands[0] in multiset(results);
    var k :| 0 <= k < |results| && results[k] == cands[0];
    if k > 0 {
      assert TokenLe(results[0], results[k]);
    }
    forall p, q | 1 <= p < q < |results| && !IsNative(results[p])
      ensures BalanceValue(results[p]) >= BalanceValue(results[q])
    {
      assert TokenLe(results[p], results[q]);
    }
  }

  // ---------------------------------------------------------------------
  // Search

  /** `fetchTokenFromDexScreener` then `fetchTokenFromContract`: both build
      the token at the queried address. A DexScreener answer wins and is
      given 18 decimals, which nothing later corrects; only a token read
      from the contract carries its own `decimals()`. */
  function ResolveToken(query: string, dexScreener: DexScreener, provider: Provider): (r: Option<TokenInfo>)
    ensures r.Some? ==> r.value.address == query && r.value.balance.None? && r.value.chainId.None?
    ensures r.None? <==> dexScreener(query).None? && provider.metadata(query).None?
    ensures dexScreener(query).Some? ==>
      r == Some(TokenInfo(query, dexScreener(query).value.0, dexScreener(query).value.1, DEXSCREENER_DECIMALS, None, None))
    ensures dexScreener(query).None? && provider.metadata(query).Some? ==>
      var m := provider.metadata(query).value;
      r == Some(TokenInfo(query, m.0, m.1, m.2, None, None))
  {
    match dexScreener(query)
    case Some((name, symbol)) => Some(TokenInfo(query, name, symbol, DEXSCREENER_DECIMALS, None, None))
    case None =>
      match provider.metadata(query)
      case Some((name, symbol, decimals)) => Some(TokenInfo(query, name, symbol, decimals, None, None))
      case None => None
  }

  /** `allTokens` after the address branch of `searchTokens`: an address not
      in the list is prepended, with its balance, when it resolves and an
      account is given. `None` is the throw of `new Web3Provider(undefined)`
      when an address is searched without a wallet. */
  function SearchCandidates(allTokens: seq<TokenInfo>, query: string, account: Option<string>, walletPresent: bool,
                            provider: Provider, isAddress: string -> bool, dexScreener: DexScreener)
    : Option<seq<TokenInfo>>
  {
    if !isAddress(query) then Some(allTokens)
    else if !walletPresent then None
    else if IndexOfKey(allTokens, ToLower(query)) < |allTokens| then Some(allTokens)
    else
      match ResolveToken(query, dexScreener, provider)
      case Some(t) =>
        if IsSet(account) then
          Some([t.(balance := Some(GetTokenBalance(t.address, account.value, provider)))] + allTokens)
        else Some(allTokens)
      case None => Some(allTokens)
  }

  /** The list changes only by prepending the resolved token, and only for
      an address query that is not listed, resolves, and comes with an
      account; the search fails only for an address query without a wallet. */
  lemma SearchCandidatesCases(allTokens: seq<TokenInfo>, query: string, account: Option<string>, walletPresent: bool,
                              provider: Provider, isAddress: string -> bool, dexScreener: DexScreener)
    ensures var c := SearchCandidates(allTokens, query, account, walletPresent, provider, isAddress, dexScreener);
      && (c.None? <==> isAddress(query) && !walletPresent)
      && (c.Some? ==> c.value == allTokens || (|c.value| == |allTokens| + 1 && c.value[1..] == allTokens))
      && (c.Some? && c.value != allTokens <==>
            && isAddress(query) && walletPresent
            && (forall t :: t in allTokens ==> Key(t) != ToLower(query))
            && ResolveToken(query, dexScreener, provider).Some?
            && IsSet(account))
      && (c.Some? && c.value != allTokens ==> c.value[0].address == query && c.value[0].balance.Some?)
  {
    if isAddress(query) && walletPresent && IndexOfKey(allTokens, ToLower(query)) < |allTokens| {
      assert allTokens[IndexOfKey(allTokens, ToLower(query))] in allTokens;
    }
    if isAddress(query) && walletPresent && IndexOfKey(allTokens, ToLower(query)) == |allTokens| {
      forall t | t in allTokens
        ensures Key(t) != ToLower(query)
      {
        var j :| 0 <= j < |allTokens| && allTokens[j] == t;
      }
    }
  }

  /** Does a token match the lower-cased query on symbol, name or address? */
  predicate Matches(t: TokenInfo, searchQuery: string) {
    Contains(ToLower(t.symbol), searchQuery) || Contains(ToLower(t.name), searchQuery) ||
    Contains(ToLower(t.address), searchQuery)
  }

  /** `allTokens.filter(...)` of `searchTokens`. */
  function SearchFilter(ts: seq<TokenInfo>, searchQuery: string): seq<TokenInfo>
    decreases |ts|
  {
    if ts == [] then []
    else if Matches(ts[0], searchQuery) then [ts[0]] + SearchFilter(ts[1..], searchQuery)
    else SearchFilter(ts[1..], searchQuery)
  }

  /** `r` is `s` with some elements left out, order kept. */
  predicate IsSubsequence<T(==)>(r: seq<T>, s: seq<T>)
    decreases |s|
  {
    r == [] || (s != [] && ((r[0] == s[0] && IsSubsequence(r[1..], s[1..])) || IsSubsequence(r, s[1..])))
  }

  /** The search keeps, in order, exactly the candidates that match. */
  lemma {:induction false} SearchFilterCorrect(ts: seq<TokenInfo>, searchQuery: string)
    ensures IsSubsequence(SearchFilter(ts, searchQuery), ts)
    ensures forall t :: t in SearchFilter(ts, searchQuery) <==> t in ts && Matches(t, searchQuery)
    decreases |ts|
  {
    if ts != [] {
      SearchFilterCorrect(ts[1..], searchQuery);
      var rest := SearchFilter(ts[1..], searchQuery);
      if Matches(ts[0], searchQuery) {
        assert ([ts[0]] + rest)[1..] == rest;
      } else {
        if rest != [] {
          assert IsSubsequence(rest, ts[1..]);
        }
      }
      assert ts == [ts[0]] + ts[1..];
    }
  }

  /** `searchTokens` on an already listed `allTokens`. */
  function SearchIn(allTokens: seq<TokenInfo>, query: string, account: Option<string>, walletPresent: bool,
                    provider: Provider, isAddress: string -> bool, dexScreener: DexScreener)
    : Option<seq<TokenInfo>>
  {
    match SearchCandidates(allTokens, query, account, walletPresent, provider, isAddress, dexScreener)
    case None => None
    case Some(c) => Some(SearchFilter(c, ToLower(query)))
  }

  /** A resolved, prepended token always survives the filter and leads the
      result, since its address is the query itself. */
  lemma ResolvedTokenLeads(allTokens: seq<TokenInfo>, query: string, account: Option<string>, walletPresent: bool,
                           provider: Provider, isAddress: string -> bool, dexScreener: DexScreener)
    requires var c := SearchCandidates(allTokens, query, account, walletPresent, provider, isAddress, dexScreener);
      c.Some? && c.value != allTokens
    ensures var r := SearchIn(allTokens, query, account, walletPresent, provider, isAddress, dexScreener);
      r.Some? && r.value != [] && r.value[0].address == query
  {
    SearchCandidatesCases(allTokens, query, account, walletPresent, provider, isAddress, dexScreener);
    var c := SearchCandidates(allTokens, query, account, walletPresent, provider, isAddress, dexScreener).value;
    OwnAddressMatches(c[0]);
  }

  /** A token matches the lower-cased form of its own address. */
  lemma OwnAddressMatches(t: TokenInfo)
    ensures Matches(t, ToLower(t.address))
  {
    var q := ToLower(t.address);
    assert IsPrefixOf(q, q);
  }

  // ---------------------------------------------------------------------
  // The registry's module state

  class TokenRegistry {
    var tokenList: seq<TokenInfo>
    var isInitialized: bool

    ghost predicate Valid()
      reads this
    {
      (isInitialized ==> CachedListOk(tokenList)) && (!isInitialized ==> tokenList == [])
    }

    constructor ()
      ensures Valid() && !isInitialized && tokenList == []
    {
      tokenList := [];
      isInitialized := false;
    }

    /** `initializeTokenList`: does nothing once initialised; otherwise
        fetches every source (a failing one contributes nothing), builds the
        list and only then sets the flag. */
    method Initialize(fetchList: ListFetcher)
      requires Valid()
      modifies this
      ensures Valid() && isInitialized
      ensures old(isInitialized) ==> tokenList == old(tokenList)
      ensures !old(isInitialized) ==> tokenList == BuildTokenList(fetchList)
    {
      if isInitialized {
        return;
      }
      var lists: seq<TokenInfo> := [];
      var k := 0;
      while k < |TOKEN_LISTS|
        invariant 0 <= k <= |TOKEN_LISTS|
        invariant lists + Fetched(TOKEN_LISTS[k..], fetchList) == Fetched(TOKEN_LISTS, fetchList)
      {
        var fetched := fetchList(TOKEN_LISTS[k]);
        var tokens := if fetched.Some? then fetched.value else [];
        assert TOKEN_LISTS[k..][1..] == TOKEN_LISTS[k + 1..];
        lists := lists + tokens;
        k := k + 1;
      }
      assert TOKEN_LISTS[k..] == [];
      assert lists == Fetched(TOKEN_LISTS, fetchList);
      BuildTokenListCorrect(fetchList);
      tokenList := Dedup(FilterChain(lists));
      isInitialized := true;
    }

    /** `getTokenList`: initialise, prepend the native asset, annotate
        balances when an account and a wallet are present, and sort in
        place. */
    method GetTokenList(fetchList: ListFetcher, account: Option<string>, walletPresent: bool, provider: Provider)
      returns (results: seq<TokenInfo>)
      requires Valid()
      modifies this
      ensures Valid() && isInitialized
      ensures old(isInitialized) ==> tokenList == old(tokenList)
      ensures !old(isInitialized) ==> tokenList == BuildTokenList(fetchList)
      ensures multiset(results) == multiset(ListCandidates(tokenList, account, walletPresent, provider))
      ensures Sorting.SortedBy(results, TokenLe)
    {
      Initialize(fetchList);
      var list := [NATIVE_AVAX] + tokenList;
      if IsSet(account) && walletPresent {
        list := Annotate(list, account.value, provider);
      }
      var a := new TokenInfo[|list|](i requires 0 <= i < |list| => list[i]);
      assert a[..] == list;
      TokenLeOrders();
      Sorting.SortInPlace(a, TokenLe);
      results := a[..];
    }

    /** `searchTokens`: list the tokens, resolve an unknown address, and
        filter by the lower-cased query. `None` is the throw described at
        `SearchCandidates`. */
    method SearchTokens(query: string, fetchList: ListFetcher, account: Option<string>, walletPresent: bool,
                        provider: Provider, isAddress: string -> bool, dexScreener: DexScreener)
      returns (found: Option<seq<TokenInfo>>)
      requires Valid()
      modifies this
      ensures Valid() && isInitialized
      ensures old(isInitialized) ==> tokenList == old(tokenList)
      ensures !old(isInitialized) ==> tokenList == BuildTokenList(fetchList)
      ensures exists listed ::
        && multiset(listed) == multiset(ListCandidates(tokenList, account, walletPresent, provider))
        && Sorting.SortedBy(listed, TokenLe)
        && found == SearchIn(listed, query, account, walletPresent, provider, isAddress, dexScreener)
    {
      var searchQuery := ToLower(query);
      var allTokens := GetTokenList(fetchList, account, walletPresent, provider);
      ghost var listed := allTokens;
      if isAddress(query) {
        if !walletPresent {
          return None;
        }
        if IndexOfKey(allTokens, ToLower(query)) == |allTokens| {
          var newToken := ResolveToken(query, dexScreener, provider);
          if newToken.Some? && IsSet(account) {
            var balance := GetTokenBalance(newToken.value.address, account.value, provider);
            allTokens := [newToken.value.(balance := Some(balance))] + allTokens;
          }
        }
      }
      found := Some(SearchFilter(allTokens, searchQuery));
      assert found == SearchIn(listed, query, account, walletPresent, provider, isAddress, dexScreener);
    }
  }
}
