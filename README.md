# ASwap core, modelled in Dafny

ASwap is a browser front end for swapping tokens on Avalanche (chain 43114)
through three Uniswap-v2-style routers (Trader Joe, Pangolin, GMX). This
project models its core and proves properties of it:

- **Routing and swapping** (`dex.dfy`, module `Dex`). `getBestRoute`
  replaces the native pseudo-address `0xEeee…EEeE` by WAVAX, builds a
  two- or three-hop path, asks every router for a quote and skips the ones
  that fail. It then sorts the routes by output and takes the first.
  `executeSwap` computes the slippage-bounded minimum output and the
  20-minute deadline, then submits exactly one of three router calls.
- **Token registry** (`token_lists.dfy`, module `TokenLists`).
  `initializeTokenList` fetches the token lists once, keeps chain-43114
  entries and de-duplicates them by lower-cased address with a JavaScript
  `Map`. `getTokenList` puts the native coin first, annotates balances
  (0 when a lookup fails) and sorts. `searchTokens` resolves an unknown
  address and filters by substring.
- **Wallet balances** (`tokens.dfy`, module `Tokens`). `getTokenBalances`
  has two loops: an outer loop of up to three batch runs, and an inner loop
  of up to three attempts per common token. The module also models
  `decodeString`, which turns an `eth_call` hex result into text, together
  with the Ethereum contract ABI encoding of a string that it is meant to
  invert.
- **Swap screen** (`swap_interface.dfy`, module `SwapInterface`). The React
  state of `SwapInterface` is modelled as the class `SwapScreen`. Its
  methods are the handlers: the amount-input filter, the Max/Half buttons,
  the balance refresh and merge, the connection effect, the swap arrow,
  the price refresh and the swap.
- **Refresh countdown** (`price_refresh_timer.dfy`, module
  `PriceRefreshTimer`). A 30-second countdown that fires the price refresh
  and restarts. Turning it off resets it, and a click refreshes at once.

Shared helpers:

- `wrappers.dfy`: `Option` and `Result`.
- `text.dfy`: ASCII lower-casing, substring search, and the lexicographic
  order used in place of `localeCompare`.
- `sorting.dfy`: one in-place insertion sort on arrays, used for both
  `routes.sort` and `results.sort`.
- `hex.dfy`: hex digits and fixed-width hex numerals.
- `seqs.dfy`: small facts about sequence concatenation and slicing.

Everything the program learns from outside is a parameter:

- router quotes and transaction submission;
- token-list downloads, DexScreener, the injected wallet provider;
- the `publicClient` RPC replies;
- `tx.wait()`, the clock;
- `formatUnits`/`parseUnits`.

An oracle returns `None` (or a `Failure`) where the JavaScript call would
throw. The RPC oracles are indexed by attempt number, so a retry may
succeed where the previous attempt failed. Amounts are raw unbounded
integers in the token's smallest unit.

## Model

| member | source | states |
|---|---|---|
| Dex.TradePathShape | src/utils/dex.ts:55-65 | the path has 2 or 3 entries, runs from the substituted source to the substituted target, goes through WAVAX exactly when neither end is WAVAX and the ends differ (case-sensitive), and never contains the native pseudo-address |
| Dex.WavaxIsNotNative | src/utils/dex.ts:37-38 | the wrapped-native and native pseudo-addresses differ |
| Dex.QuoteRouters | src/utils/dex.ts:58-78 | the router loop pushes exactly the routes of the reference `CollectRoutes`, in router order |
| Dex.CollectRoutesMembers | src/utils/dex.ts:58-78 | a route is collected iff some router's quote succeeded, and it is that router's last amount tagged with its name and address |
| Dex.CollectRoutesEmpty | src/utils/dex.ts:58-82 | no route iff every router's quote fails; at most one route per router |
| Dex.RankRoutes | src/utils/dex.ts:53-84 | the ranked list is a permutation of the collected routes, sorted by non-increasing output |
| Sorting.SortInPlace | src/utils/dex.ts:84 | sorting in place leaves the array sorted by the comparator and a permutation of its old contents |
| Dex.GetBestRoute | src/utils/dex.ts:47-86 | fails with "No valid routes found" iff no router quoted; otherwise returns a collected route whose output is at least every other route's |
| Dex.SlippageTenths | src/utils/dex.ts:103 | `floor(slippage*10)` lies in 0..1000 and is the floor of the scaled slippage |
| Dex.MinAmountOut | src/utils/dex.ts:103 | the minimum is the floor of `out*(1000-s)/1000`, never above `out`, and equal to `out` when `s` is 0 |
| Dex.MinAmountOutDefaultSlippage | src/utils/dex.ts:103 | 0.5% slippage on 1,000,000 gives 995,000 |
| Dex.MinAmountOutAntitone | src/utils/dex.ts:103 | a larger slippage never raises the minimum |
| Dex.Deadline | src/utils/dex.ts:100 | the deadline is the current whole second plus 1200 |
| Dex.FindRouter | src/utils/dex.ts:97 | the router found has the route's dex name; none is found iff no router has that name |
| Dex.PlanSwapShape | src/utils/dex.ts:105-133 | one call to the named router with gas limit 300000, the route's path, the minimum and the deadline; native source means `swapExactAVAXForTokens` with value = input and no `amountIn`; otherwise native target means `swapExactTokensForAVAX`, else `swapExactTokensForTokens` |
| Dex.ExecuteSwap | src/utils/dex.ts:88-139 | an unknown dex fails before any call; otherwise exactly the planned call is sent, its transaction returned, and its failure rethrown with its message or "Swap failed" |
| Text.LexLeTotal | src/utils/tokenLists.ts:160 | the symbol order used for ties is total |
| Text.LexLeTransitive | src/utils/tokenLists.ts:160 | the symbol order used for ties is transitive |
| TokenLists.FetchedMembers | src/utils/tokenLists.ts:87-101 | a token is in the flattened lists iff some source fetched successfully and listed it; failing sources add nothing |
| TokenLists.FilterChain | src/utils/tokenLists.ts:102 | exactly the chain-43114 entries are kept |
| TokenLists.FilterChainOrder | src/utils/tokenLists.ts:102 | the filter keeps order and multiplicity: one token maps to itself or to nothing, and the filter of a concatenation is the concatenation of the filters |
| TokenLists.UpsertStep | src/utils/tokenLists.ts:100-104 | inserting one more `[lower-case address, token]` pair keeps the `Map` invariant: unique keys, last value, every key present, first-insertion order |
| TokenLists.DedupCorrect | src/utils/tokenLists.ts:99-105 | `Array.from(new Map(...).values())` has one entry per lower-cased address, the last listed one, in first-listed order, and is no longer than its input |
| TokenLists.BuildTokenListCorrect | src/utils/tokenLists.ts:99-105 | the cached list holds only chain-43114 tokens with distinct lower-cased addresses and is the `Map` de-duplication of the filtered lists |
| TokenLists.GetTokenBalance | src/utils/tokenLists.ts:113-127 | the native coin uses the provider balance, any other token `balanceOf`; a failure gives 0 |
| TokenLists.Annotate | src/utils/tokenLists.ts:136-147 | every token keeps its fields and gains its looked-up balance, in the same order |
| TokenLists.TokenLeOrders | src/utils/tokenLists.ts:149-161 | the list comparator (native first, larger balance first, then symbol) is total and transitive |
| TokenLists.SortedListShape | src/utils/tokenLists.ts:134-161 | the sorted list has one more entry than the cache, starts with the native coin, and is ordered by non-increasing balance value, then by symbol |
| TokenLists.ResolveToken | src/utils/tokenLists.ts:36-81 | as `searchTokens` calls the two fetchers (lines 181-186), an unknown address resolves to a token at that address with no balance; a DexScreener answer takes precedence and gets 18 decimals; otherwise the contract's name, symbol and own `decimals()` are used; it fails iff both fail |
| TokenLists.SearchCandidatesCases | src/utils/tokenLists.ts:172-195 | the list searched is the full list, or it with the resolved token prepended exactly when the query is an address missing from the list, it resolves and an account is set; an address query without a wallet throws |
| TokenLists.SearchFilterCorrect | src/utils/tokenLists.ts:197-202 | the filter keeps, in order, exactly the tokens whose lower-cased symbol, name or address contains the query |
| TokenLists.ResolvedTokenLeads | src/utils/tokenLists.ts:189-202 | a prepended token matches its own address query and comes first in the results |
| TokenLists.TokenRegistry.constructor | src/utils/tokenLists.ts:33-34 | the registry starts empty and uninitialised |
| TokenLists.TokenRegistry.Initialize | src/utils/tokenLists.ts:83-111 | the first call caches the built list and marks the registry initialised; later calls change nothing |
| TokenLists.TokenRegistry.GetTokenList | src/utils/tokenLists.ts:129-164 | initialises if needed, then returns a permutation of the native coin plus the (annotated) cache, sorted by the comparator |
| TokenLists.TokenRegistry.SearchTokens | src/utils/tokenLists.ts:166-203 | initialises if needed, then filters the sorted list, with an unknown address resolved and prepended |
| Tokens.CommonTokensDistinct | src/utils/tokens.ts:16-23 | the six common tokens are distinct and none is the native pseudo-address |
| Tokens.FirstNative | src/utils/tokens.ts:121-130 | the batch run that succeeds is the first of the three whose native call succeeds |
| Tokens.FirstReply | src/utils/tokens.ts:51-110 | the attempt that succeeds for a token is the first of its three that succeeds |
| Tokens.TokenEntry | src/utils/tokens.ts:85-99 | a token entry carries the token's address, the balance and decimals read, no chain id and no `balance` field; its name and symbol come from the corrected decoder (see the tokens.ts:140 Findings row) |
| Tokens.TokenEntryNames | src/utils/tokens.ts:85-99 | an entry built from the ABI-encoded `name()` and `symbol()` replies carries that name and symbol, where `decodeString` as written gives "" for both |
| Tokens.FetchToken | src/utils/tokens.ts:51-111 | the retry loop for one token pushes the entry of its first successful attempt or nothing, after one call per attempt up to that one |
| Tokens.FetchCommon | src/utils/tokens.ts:50-112 | the loop over the common tokens pushes, in list order, each token's first successful entry, and makes exactly each token's attempts up to its first success |
| Tokens.FetchBalances | src/utils/tokens.ts:36-118 | a batch run succeeds iff its native call does; a failed run pushes nothing; a successful one pushes the native entry, then each common token's result |
| Tokens.RetryBatches | src/utils/tokens.ts:120-132 | the outer loop returns the entries of the first batch run whose native call succeeds, or nothing, after the calls of the runs up to it |
| Tokens.GetTokenBalances | src/utils/tokens.ts:25-133 | with no client or account the result is empty and no call is made; otherwise the retried batches' entries and calls, with names and symbols read by the corrected decoder rather than as written (tokens.ts:140 Findings row) |
| Tokens.NativeStep | src/utils/tokens.ts:121-130 | one turn of the outer loop either stops at a succeeding batch run or moves on to the next |
| Tokens.NoClientNoBalances | src/utils/tokens.ts:29 | without a client or a non-empty account there are no entries and no calls |
| Tokens.CommonEntriesCorrect | src/utils/tokens.ts:50-112 | the token entries follow the common-token order, one per token at most; a token has an entry iff one of its attempts succeeds, built from the first successful one |
| Tokens.BalancesShape | src/utils/tokens.ts:39-50 | at most 7 entries; none iff unguarded or all three native calls fail; otherwise the native entry comes first, then the token entries |
| Tokens.BalancesDistinct | src/utils/tokens.ts:44-112 | no two entries have the same address |
| Tokens.EntriesDistinct | src/utils/tokens.ts:44-112 | a head entry followed by the per-token entries of distinct tokens have distinct addresses |
| Tokens.BalancesLeaveTokenBalanceUnset | src/utils/tokens.ts:44-99 | no entry's token object carries a `balance` field |
| Tokens.CommonEntriesLeaveTokenBalanceUnset | src/utils/tokens.ts:90-99 | the token objects built by the per-token loop carry no `balance` field |
| Tokens.AttemptCallsShape | src/utils/tokens.ts:51-110 | the calls for one token are its attempts 0, 1, … up to the first success, or all three |
| Tokens.NativeCallsShape | src/utils/tokens.ts:121-130 | the native calls are batch runs 0, 1, … up to the first success, or all three |
| Tokens.RetryBounds | src/utils/tokens.ts:50-130 | no token is tried more than three times in all, and after a successful native call every common token gets exactly its attempts up to its first success; at most three native calls |
| Tokens.TrimStart | src/utils/tokens.ts:145 | `parseInt` skips leading JavaScript white space |
| Tokens.HexPrefixLength | src/utils/tokens.ts:145 | `parseInt` reads the longest run of hex digits |
| Tokens.ParseIntHex | src/utils/tokens.ts:145 | `parseInt(s, 16)` of hex text is its value; of at most two characters it lies in -15..255 |
| Tokens.FromCharCode | src/utils/tokens.ts:147 | `String.fromCharCode` of a code in 0..255 is that character |
| Tokens.Chunk | src/utils/tokens.ts:145 | `hex.substr(i, 2)` has one or two characters |
| Tokens.DecodeString | src/utils/tokens.ts:136-150 | the loop of `decodeString` computes the reference reading `DecodedString` |
| Tokens.ChunkValue | src/utils/tokens.ts:145 | a two-digit chunk's value is below 256 |
| Tokens.ChunkParses | src/utils/tokens.ts:145 | on hex text, `parseInt` of a chunk is that chunk's value |
| Tokens.BytesUntilZero | src/utils/tokens.ts:143-148 | reading hex text as byte codes up to the first zero yields only codes in 1..255 |
| Tokens.DecodeHexChunks | src/utils/tokens.ts:143-148 | on hex text the decoding loop is exactly that byte reading, stopping at the first `00` |
| Tokens.DecodedHexCodes | src/utils/tokens.ts:140-148 | the decoded text of hex input is the byte reading from digit 66, with codes in 1..255 |
| Tokens.DecodedStringLength | src/utils/tokens.ts:137-148 | "0x" and anything shorter than 66 decode to ""; longer input decodes to at most one character per two digits |
| Tokens.DecodeChunksLength | src/utils/tokens.ts:144-148 | the chunk loop yields at most one character per two remaining digits |
| Tokens.LeadingZeroByteDecodesEmpty | src/utils/tokens.ts:146 | a first chunk of `00` stops the loop at once |
| Tokens.HexBytes | src/utils/tokens.ts:69-75 | the hex text of a byte string has two hex digits per byte |
| Tokens.AbiEncodeString | src/utils/tokens.ts:69-75 | the `symbol()`/`name()` reply is "0x", the 64-digit offset word 0x20, then from digit 66 the 64-digit length word, the bytes and zero padding to a whole word |
| Tokens.DecodeBytes | src/utils/tokens.ts:143-148 | two hex digits become one character |
| Tokens.DecodeHexBytes | src/utils/tokens.ts:143-148 | decoding the hex text of a byte string gives it back |
| Tokens.AbiStringRoundTrip | src/utils/tokens.ts:136-150 | the corrected decoder inverts the ABI string encoding |
| Tokens.AbiStringDecodesEmptyAsWritten | src/utils/tokens.ts:137-140 | `decodeString` as written turns every ABI-encoded string into "" |
| Tokens.UsdcSymbolExample | src/utils/tokens.ts:140 | the reply for symbol "USDC" decodes to "" as written and to "USDC" corrected |
| SwapInterface.AmountPatternIff | src/components/SwapInterface.tsx:131-135 | `^\d*\.?\d*$` accepts exactly the texts of digits with at most one dot, the empty text included |
| SwapInterface.NativeButtonBounds | src/components/SwapInterface.tsx:145-163 | native Max is the floor of 95% of the balance and leaves at least a twentieth of it; native Half is the floor of 45% and never exceeds Max |
| SwapInterface.TokenButtonBounds | src/components/SwapInterface.tsx:148-167 | token Max is the cached balance (0 if missing); token Half is its floor half |
| SwapInterface.FindEntry | src/components/SwapInterface.tsx:39-46 | `balances.find` returns the first entry whose address equals the token's ignoring ASCII case, or none when no entry matches |
| SwapInterface.MergeCorrect | src/components/SwapInterface.tsx:38-50 | the corrected merge keeps no selection as none and an unmatched token as it is; otherwise it changes only the balance, to the first matching entry's amount |
| SwapInterface.MergeAsWrittenClearsBalance | src/components/SwapInterface.tsx:41-48 | the merge as written clears the balance of every selected token it finds |
| SwapInterface.MergeNativeExample | src/components/SwapInterface.tsx:38-43 | AVAX selected with 5 and refreshed with 7: as written its balance is cleared; corrected it is 7 |
| SwapInterface.MergeTakesFetchedNativeBalance | src/components/SwapInterface.tsx:38-43 | with the corrected merge a selected native coin takes the freshly read native balance |
| SwapInterface.AfterFetchKeepsForm | src/components/SwapInterface.tsx:30-54 | a balance refresh changes only the fetched list and the selected tokens' balances, never which tokens are selected |
| SwapInterface.SwapAsWrittenNeverConfirms | src/components/SwapInterface.tsx:112 | as written, with the provider argument missing, no swap is ever confirmed |
| SwapInterface.SwapConfirmedIff | src/components/SwapInterface.tsx:111-115 | with the provider passed, a swap is confirmed iff the route's router is known, its one planned call succeeds and the transaction is mined |
| SwapInterface.SwapScreen.constructor | src/components/SwapInterface.tsx:14-25 | initial state: no tokens, empty amount, return "0", slippage 0.5, no routes |
| SwapInterface.SwapScreen.SetSlippage | src/components/SlippageSettings.tsx:22-28 | a slippage in (0, 100] replaces the old one and nothing else changes |
| SwapInterface.SwapScreen.HandleAmountChange | src/components/SwapInterface.tsx:131-135 | an input matching the pattern becomes the amount; any other leaves the state unchanged |
| SwapInterface.SwapScreen.HandleFractionAmount | src/components/SwapInterface.tsx:137-172 | nothing happens without a token and an account; native reads the balance (a failed read changes nothing) and sets 95%/45%; a token sets its cached balance or half; only the amount changes |
| SwapInterface.SwapScreen.FetchUserTokens | src/components/SwapInterface.tsx:30-54 | guarded by account, client and connection; stores the fetched list and merges it into both selections with the corrected merge, not the as-written one that clears their balances (SwapInterface.tsx:41 Findings row) |
| SwapInterface.SwapScreen.TakeBalances | src/components/SwapInterface.tsx:35-50 | stores the list and merges it into both selections with the corrected merge (SwapInterface.tsx:41 Findings row), nothing else |
| SwapInterface.SwapScreen.ConnectionChanged | src/components/SwapInterface.tsx:30-67 | one run of the effect that depends on the connection and on `fetchUserTokens` (so also on the selections, account and client): when connected it refreshes balances (with the corrected merge, SwapInterface.tsx:41 Findings row) and initialises the registry; otherwise it clears the list and both selections |
| SwapInterface.SwapScreen.SwapArrow | src/components/SwapInterface.tsx:261-265 | the two selections exchange places, nothing else changes |
| SwapInterface.SwapScreen.SelectToken | src/components/SwapInterface.tsx:335-341 | a picked token becomes the from or to selection |
| SwapInterface.SwapScreen.RefreshPrice | src/components/SwapInterface.tsx:80-100 | guarded by both tokens, an amount and a connection; the routes become the ranked quotes and the return amount shows the best one's output when there is one |
| SwapInterface.SwapScreen.HandleSwap | src/components/SwapInterface.tsx:106-129 | nothing happens unless the form is ready; always swaps `routes[0]`; a failed or unconfirmed swap changes nothing; a confirmed one clears the amount, shows "0" and refreshes balances; the wallet provider is passed as the first argument, the corrected call of the SwapInterface.tsx:112 Findings row, since as written no swap is ever confirmed |
| PriceRefreshTimer.Run | src/components/PriceRefreshTimer.tsx:26-34 | whatever the ticks, `timeLeft` stays in 1..30 |
| PriceRefreshTimer.RunPosition | src/components/PriceRefreshTimer.tsx:26-34 | after `n` ticks from `t`, `timeLeft` and the refresh count follow the position `30 - t + n` modulo and divided by 30 |
| PriceRefreshTimer.RefreshEvery30 | src/components/PriceRefreshTimer.tsx:26-34 | from 30, after `n` ticks `timeLeft` is `30 - n mod 30` and the refresh has fired `n div 30` times |
| PriceRefreshTimer.RefreshPeriod | src/components/PriceRefreshTimer.tsx:26-34 | every 30 further ticks fire exactly one more refresh and return to the same count |
| PriceRefreshTimer.RefreshTimer.constructor | src/components/PriceRefreshTimer.tsx:8-12 | the count starts at 30 with no refresh |
| PriceRefreshTimer.RefreshTimer.SetEnabled | src/components/PriceRefreshTimer.tsx:15-20 | turning the timer off resets the count to 30; turning it on keeps it |
| PriceRefreshTimer.RefreshTimer.Tick | src/components/PriceRefreshTimer.tsx:23-37 | while disabled nothing happens; while enabled one tick of `Run`: at 1 or below it fires once and restarts at 30, otherwise it counts down by one |
| PriceRefreshTimer.RefreshTimer.Click | src/components/PriceRefreshTimer.tsx:39-43 | while disabled nothing happens; otherwise it fires once and restarts at 30 |

## Left out

- Network I/O is not modelled; every external read or write is a parameter:
  - the HTTP token-list fetches and DexScreener;
  - ethers `Contract` calls, `provider.getBalance` and `publicClient.request`;
  - transaction submission and `tx.wait()`.
- Concurrency is not modelled:
  - the `Promise.all` fan-outs run sequentially in router, source or token order;
  - the 1-second retry back-offs are dropped, and so is the 10-second balance refresh interval of the swap screen;
  - the 300 ms search debounce is dropped.
- `formatUnits`, `parseUnits`, `formatTokenAmount` and `parseTokenAmount` are the parameters `format` and `parse`. Entry and token balances are raw integers, not formatted decimal strings.
- `ethers.utils.isAddress` is the parameter `isAddress`.
- `logoURI`, the ABI arrays of the routers, the loading, swapping and modal-open flags, and all rendering are not modelled.
- The exchange-rate, fee and USD display arithmetic is not modelled; it is floating point and display only.
- Dex.MinAmountOut: the slippage is an exact real, so the floating-point rounding of `slippage * 10` is not modelled.
- Dex.RankRoutes: the comparator answers -1 for equal outputs, so the model states only the non-increasing order and a permutation, not which tied route comes first.
- TokenLists.TokenLe: balances compare as exact rationals `balance / 10^decimals` rather than `parseFloat` of the formatted text, and symbols by character code rather than `localeCompare`.
- Tokens.FromCharCode: a code is reduced modulo 2^16 as `String.fromCharCode` does; the NaN of a non-hex chunk becomes code 0.
- Tokens.DecodeAbiString: the corrected decoder assumes the offset word is 0x20, as every Solidity `string` return has it, and reads the length word and bytes after it.
- SwapInterface.SwapScreen.RefreshPrice: `getAllRoutes` is imported but `src/utils/dex.ts` does not define it. As written the import is either a link error (native ES modules) or `undefined`, whose call throws, so the routes never change. The model uses the ranked route list that `getBestRoute` builds before taking its first entry.
- SwapInterface.SwapScreen.SwapArrow: the handler also calls `refreshPrice` as it was bound before the exchange; the refresh effect then runs it again with the new pair. Only the exchange is modelled; the refresh is `RefreshPrice`.
- SwapInterface.SwapScreen.HandleSwap: the signer's address and the current time are parameters.
- TokenLists.ResolveToken: a token found through DexScreener keeps the default 18 decimals; the comment at src/utils/tokenLists.ts:50 says they "will be updated from contract", but no code does so. The model keeps the code's behaviour (a 6-decimal token found this way is scaled as an 18-decimal one) and models no correction.
- TokenLists.TokenRegistry.Initialize: the typed `ListFetcher` cannot return a chain-43114 entry whose `address` is not a string. In the source such an entry makes `token.address.toLowerCase()` (src/utils/tokenLists.ts:103) throw inside the `try`, the `catch` (lines 106-108) leaves `isInitialized` false, and the next call fetches everything again; that path is not modelled, and `Initialize` always marks the registry initialised.
- Dex.ExecuteSwap: the recipient `to` is a parameter, so a rejected `signer.getAddress()` (src/utils/dex.ts:99), which happens outside the `try` and is therefore not rewrapped as "Swap failed", is not modelled.
- SwapInterface.SwapScreen.SelectToken, SwapArrow and ConnectionChanged: React effects are methods the caller invokes, not runs triggered by state changes. The connection effect depends on `fetchUserTokens` (src/components/SwapInterface.tsx:54,67), so it also re-runs on every change of `fromToken`, `toToken`, `address` or the client. In particular a selection made while disconnected is undone at once by the next run of `ConnectionChanged`, and while connected every selection change triggers a fresh balance fetch and merge; neither the automatic re-run nor the repeated fetches it causes are modelled.
- PriceRefreshTimer.RefreshTimer.Tick: each call is one firing of the interval. The interval being re-created when `onRefresh` changes is not modelled.
- The code has no token-approval step before `swapExactTokensFor…`, collects no fee and computes no price impact; slippage is applied in tenths of a percent (`Math.floor(slippage * 10)`). None of these is modelled beyond what the code does.
- `getBestRoute` queries the routers even for an empty amount or identical tokens and throws "No valid routes found" when no quote succeeds; tied outputs have no defined order. The model follows this.
- Tokens.TokenEntry: names and symbols are read with the corrected decoder `DecodeAbiString`, so the entries differ from the source's, whose `decodeString` gives "" for every ABI-encoded string; `Tokens.TokenEntryNames` states both readings.
- Tokens.GetTokenBalances: for the same reason its entries (and those of `FetchToken`, `FetchCommon`, `FetchBalances` and `RetryBatches`) carry the decoded names and symbols, not the "" the source stores.
- SwapInterface.SwapScreen.FetchUserTokens, TakeBalances and ConnectionChanged use the corrected merge, so a selected token takes its fetched balance; as written the balance is cleared (`MergeAsWrittenClearsBalance`).
- SwapInterface.SwapScreen.HandleSwap passes the wallet provider as the first argument of `executeSwap`; as written the arguments shift and no swap is confirmed (`SwapAsWrittenNeverConfirms`, where a non-provider in the first place is modelled as a failure before any call).
- Text.ToLower lower-cases ASCII letters only, where JavaScript `toLowerCase` folds all of Unicode; TokenLists.SearchFilter and the `Map` key therefore match case-insensitively only on ASCII (a query "ü" finds "Ünicorn" in the source, not in the model).
- TokenLists.TokenRegistry.GetTokenList: the result is a sorted permutation, but the order of tokens the comparator ties is not stated (JavaScript's sort is stable).

## Findings

| source | as written | input that shows it | evidently intended | confidence | as-written member | corrected member |
|---|---|---|---|---|---|---|
| src/utils/tokens.ts:140 | `hexString.slice(66)` skips only "0x" and the offset word, so decoding starts at the length word, whose first byte is `00` | the `symbol()` reply for "USDC": "0x", the word 0x20, the word 4, then `55534443` and padding; digits 66-67 are "00", so the result is "" | skip the length word too and read that many bytes; the balance fetcher (`Tokens.TokenEntry` through `Tokens.GetTokenBalances`) uses the corrected decoder | not executed; high | Tokens.AbiStringDecodesEmptyAsWritten | Tokens.AbiStringRoundTrip |
| src/components/SwapInterface.tsx:41 | the merge copies `found.token.balance`, a field the fetched entries' token objects never have | AVAX selected with balance 5, refresh reads 7: the balance becomes undefined and shows as 0 | convert the entry's own fetched balance back to raw units, `parseUnits(b.balance, b.token.decimals)`, since entries hold `formatUnits` text while `TokenInfo.balance` is read as raw units (lines 148, 166, 227); the model keeps entry balances as raw integers, which is what lets its corrected merge copy them directly | not executed; high | SwapInterface.MergeAsWrittenClearsBalance | SwapInterface.MergeTakesFetchedNativeBalance |
| src/components/SwapInterface.tsx:112 | `executeSwap(routes[0], ...)` leaves out the leading `provider` parameter, so every argument shifts by one | any ready form: the route lands in `provider`, `provider.getSigner()` throws before any router call | pass the wallet provider first | not executed; high | SwapInterface.SwapAsWrittenNeverConfirms | SwapInterface.SwapConfirmedIff |
