# Tag-registry rewards: a Dafny model of the collector and the sender

This project models the decision-making core of a job that rewards curators of
three community-curated registries (address tags, tokens, domains):

- **Tag collector** (`tag_fetch.dfy`, module `TagFetch`). For a period it fetches
  each registry's items resolved in that period. It drops domain items that are
  also listed in the token registry. It resolves each item's submitter through
  the canonical indexing endpoint and parses the item's chain-qualified key
  (`namespace:chainId:address`) into a tag. It then concatenates address tags,
  tokens and domains in that order and drops tags whose submitter is one of four
  denylisted addresses.
- **Reward sender** (`transaction_sender.dfy`, module `TransactionSender`). It picks
  the network from the mode flag, and refuses to send unless the wallet's
  balance is present and at least twelve stipends. It then issues one token
  transfer per reward, in order, with consecutive nonces starting at the
  wallet's transaction count. It pauses twenty seconds after each transfer and
  stops at the first transfer that throws.

The indexing services are oracles: the `Subgraphs` datatype holds pure functions
from a query (`BatchQuery`, `AddressQuery`, an item id) to the items returned.
The chain is a `Runtime` object. Its constant oracles give the balance, the
transaction count and whether a transfer call is accepted. Its `effects` field
logs every transfer call and every pause in order. `Math.random()` is a free
choice of a real in `[0, 1)`.

Shared pieces: `wrappers.dfy` (Option/Result/Outcome), `seqs.dfy` (order-preserving
`Filter` and the subsequence relation), and `js_text.dfy`. The last one holds
`String.prototype.split` on one character and JavaScript `Number` on digit strings.

Three behaviours a reader might expect are not what the code does, and the model follows the code:
- The address of a key is its third colon-separated segment. A CAIP-10 reading would take the last segment, and the two differ when the key has more than three segments.
- The pause between transfers is `sleep(20)`. It waits exactly 20 seconds and adds no random delay. Only `sleep()` / `sleep(0)` draws from `[2, 5)`.
- A missing balance never reaches the balance guard. `humanizeAmount` is called on it first for the log line and throws, so the run fails with `BalanceDisplayFailed` rather than `BalanceLowerThanStipend`.

## Model

| member | source | states |
|---|---|---|
| `TagFetch.FetchTagsByAddressInRegistry` | src/tag-fetch.ts:6-49 | the address lookup is the oracle applied to the registry's address and the key; what it returns is used through `IsNonTokenDomain` |
| `TagFetch.FetchTagsBatchByRegistry` | src/tag-fetch.ts:51-96 | the batch fetch is the oracle applied to `BatchQueryFor`; see `BatchQueryFor`, `BatchWindow` and `BatchWindowWholeSeconds` for the query it sends |
| `TagFetch.BatchQueryFor` | src/tag-fetch.ts:56-68 | the batch query asks for statuses Registered and ClearingRequested, at most 1000 items, with bounds that are the period's start and end rounded down to whole seconds |
| `TagFetch.BatchWindow` | src/tag-fetch.ts:56-67 | a resolution second `t` is inside the `_gte`/`_lt` window exactly when it ends after the period start and no later than the period end |
| `TagFetch.BatchWindowWholeSeconds` | src/tag-fetch.ts:56-67 | for a period on whole seconds the window is exactly `[start, end)`: start inclusive, end exclusive |
| `TagFetch.FetchCorrectRequester` | src/tag-fetch.ts:99-123 | the submitter is the first requester of the first item the canonical endpoint returns; it fails with `RequesterNotFound` exactly when there is no item or no request |
| `JsText.Split` | src/tag-fetch.ts:125 | splitting yields at least one part, no part holds the separator, and joining the parts gives back the string |
| `JsText.SplitJoin` | src/tag-fetch.ts:125 | splitting a join of separator-free parts gives back exactly those parts |
| `JsText.JsNumber` | src/tag-fetch.ts:126 | `Number` gives a value exactly on digit strings, and 0 on the empty string; its inverse property is `JsNumberDecimal` (also used for `latestRequestResolutionTime` at line 139) |
| `JsText.JsNumberDecimal` | src/tag-fetch.ts:126 | the modelled `Number` reads every decimal numeral back as its exact value; JavaScript agrees up to 2^53 (see Left out) |
| `TagFetch.ParseCaip` | src/tag-fetch.ts:124-127 | the address never contains a colon; see `ParseCaipSegments` for what each segment becomes |
| `TagFetch.ParseCaipSegments` | src/tag-fetch.ts:124-127 | on a key of three or more segments, chain is the number in segment 1 and address is segment 2; further segments are ignored |
| `TagFetch.ParseCaipExample` | src/tag-fetch.ts:124-127 | `eip155:100:0xabc` parses to chain 100 and address `0xabc` |
| `TagFetch.ItemToTag` | src/tag-fetch.ts:129-144 | the tag succeeds exactly when the submitter resolves; it has the item's id, the given registry, the resolved submitter, the parsed chain and address, and the numeric resolution time |
| `TagFetch.ItemToTagFromKey` | src/tag-fetch.ts:129-143 | a tag built from a well-formed key carries the key's chain and address segments and the canonical submitter |
| `TagFetch.ItemsToTags` | src/tag-fetch.ts:173-175 | mapping a batch succeeds iff every item converts; the tags then match the items position by position and all carry the batch's registry |
| `Seqs.Filter` | src/tag-fetch.ts:156-158 | a filter keeps exactly the elements that pass the test and is no longer than its input |
| `Seqs.FilterConcat` | src/tag-fetch.ts:199-211 | filtering a concatenation equals concatenating the filtered parts |
| `Seqs.FilterCounts` | src/tag-fetch.ts:156-158 | a filter keeps every occurrence of a passing element and no occurrence of a failing one |
| `Seqs.FilterIsSubsequence` | src/tag-fetch.ts:156-158 | what a filter keeps is an order-preserving subsequence of its input |
| `Seqs.FilterEmptyIff` | src/tag-fetch.ts:156-159 | a filter's result is empty iff no element passes the test |
| `TagFetch.IsNonTokenDomain` | src/tag-fetch.ts:149-159 | a domain is kept iff its token-registry lookup has no entry with status Registered or RemovalRequested |
| `TagFetch.NonTokenDomains` | src/tag-fetch.ts:146-162 | an item is kept iff it is in the input and is not a token; the output is no longer than the input |
| `TagFetch.NonTokenDomainsSubsequence` | src/tag-fetch.ts:146-162 | the kept domains are an order-preserving subsequence of the fetched ones |
| `TagFetch.NonTokensFromDomains` | src/tag-fetch.ts:146-162 | the loop with one token lookup per domain item returns exactly `NonTokenDomains` of its input |
| `TagFetch.CollectTags` | src/tag-fetch.ts:199-211 | no returned tag has a denylisted submitter, and every tag of the three inputs whose submitter is not denylisted is returned |
| `TagFetch.CollectTagsOrder` | src/tag-fetch.ts:199-211 | the output is the kept address tags, then the kept tokens, then the kept domains, each in input order |
| `TagFetch.FetchTags` | src/tag-fetch.ts:164-212 | fetches the three registries, converts their items and drops denylisted submitters; its properties are `FetchTagsDenylist`, `FetchTagsShape` and `FetchTagsProvenance` |
| `TagFetch.FetchTagsDenylist` | src/tag-fetch.ts:204-210 | no tag returned by `FetchTags` has one of the four denylisted submitters |
| `TagFetch.FetchTagsShape` | src/tag-fetch.ts:164-212 | fetching succeeds iff every eligible item of every registry resolves its submitter; the result is then the three registries' filtered tags in fixed order |
| `TagFetch.FetchTagsProvenance` | src/tag-fetch.ts:173-197 | every returned tag comes from an eligible item of the registry it names, and every eligible item with a non-denylisted submitter yields a returned tag |
| `TagFetch.SingleAddressTagScenario` | src/tag-fetch.ts:164-212 | one address-tag item keyed `eip155:100:0xabc` with an allowed submitter, and empty other registries, gives exactly one tag with chain 100 and address `0xabc` |
| `TagFetch.TokenDomainScenario` | src/tag-fetch.ts:186-197 | a domain whose token lookup holds a Registered entry yields no tag |
| `TransactionSender.RandomBetween` | src/transaction-sender.ts:6-7 | for `min < max` the draw is an integer in `[min, max)`; for `min == max` it is `min` |
| `TransactionSender.RandomBetweenReaches` | src/transaction-sender.ts:6-7 | every integer in `[min, max)` is drawn for some random value |
| `TransactionSender.SleepSeconds` | src/transaction-sender.ts:9-12 | a non-zero argument is waited exactly; zero (the default) waits 2, 3 or 4 seconds |
| `TransactionSender.SleepDefaultReaches` | src/transaction-sender.ts:9-10 | each of 2, 3 and 4 seconds is a possible default pause |
| `TransactionSender.Sleep` | src/transaction-sender.ts:9-12 | the pause logged is the chosen number of seconds times 1000 milliseconds, with the same bounds as `SleepSeconds` |
| `TransactionSender.Runtime.Transfer` | src/transaction-sender.ts:19 | a transfer call is logged whether or not it throws, and reports whether it was accepted |
| `TransactionSender.Runtime.Wait` | src/transaction-sender.ts:11 | a timeout appends one pause of the given length to the log |
| `TransactionSender.SendReward` | src/transaction-sender.ts:18-20 | one transfer is issued with the reward's recipient and amount unchanged and the given nonce |
| `TransactionSender.SelectNetwork` | src/transaction-sender.ts:28-34 | mode `production` selects the production network id, RPC endpoint and token address; any other string selects the test triple |
| `TransactionSender.OnlyExactFlagSelectsProduction` | src/transaction-sender.ts:28-34 | when the two triples differ, the production network is selected iff the flag is exactly `production` |
| `TransactionSender.HumanizeAmount` | src/transaction-sender.ts:14-16 | displaying an amount throws exactly when the value is missing or is at least 2^53 · 10^15; otherwise its integer part is the amount rounded down to thousandths of a token |
| `TransactionSender.BalanceSufficient` | src/transaction-sender.ts:45 | the guard passes iff a balance is present and at least twelve times the stipend |
| `TransactionSender.BalanceBoundary` | src/transaction-sender.ts:45 | a balance of exactly twelve stipends passes; one unit less fails |
| `TransactionSender.RewardCalls` | src/transaction-sender.ts:48-60 | there is one call per reward, in order; call `i` pays reward `i`'s recipient its amount with nonce `start + i` |
| `TransactionSender.TransferEffects` | src/transaction-sender.ts:50-60 | the log of the transfer loop; its properties are `SentCallsOfTransferEffects`, `TransferEffectsAllAccepted` and `NonceSequence`, and `SendRewardsFrom` is proved to produce it |
| `TransactionSender.FirstRejected` | src/transaction-sender.ts:50-60 | gives the position of the first call that throws, with every earlier call accepted, or nothing when all are accepted |
| `TransactionSender.SentCallsOfTransferEffects` | src/transaction-sender.ts:50-60 | the loop issues exactly the calls up to and including the first that throws, in order, and none after it |
| `TransactionSender.TransferEffectsAllAccepted` | src/transaction-sender.ts:57-59 | when no call throws, the log alternates each call with a 20-second pause |
| `TransactionSender.NonceSequence` | src/transaction-sender.ts:48-60 | the i-th issued transfer pays reward i with nonce `start + i`; all N rewards are sent when none throws, and none after a throw |
| `TransactionSender.SendRewardsFrom` | src/transaction-sender.ts:48-60 | the loop logs exactly the effects of `TransferEffects` on the reward calls from the given nonce, and fails with the index of the first transfer that throws |
| `TransactionSender.SendAllRewards` | src/transaction-sender.ts:22-61 | when the balance cannot be displayed (missing, or too large for `toNumber`) the run fails with `BalanceDisplayFailed`, and when it is below twelve stipends with `BalanceLowerThanStipend`; in both cases nothing is logged. Otherwise the log is the transfer loop's effects from the current transaction count, and the outcome names the first reward whose transfer threw |

## Left out

- The GraphQL HTTP calls, query-string building and JSON decoding. The indexing services are oracle functions from a query value to the items returned; transport and decoding errors are not modelled.
- What the indexing service does with `status_in`, `first: 1000` and the case-insensitive `key0_starts_with`/`key0_ends_with` matching. Those are server-side; the model records them as fields of the query value only.
- The `props` field of the batch query and the `key1`..`key3` fields, which the core reads but never uses.
- `TagFetch.ParseCaip` models JavaScript `Number` only on digit strings. The empty string gives 0, as in JavaScript; every other string gives `None` for `NaN`. Whitespace trimming, signs, decimals, exponents, hexadecimal prefixes and `Infinity` are not modelled, and neither is the rounding of large numerals described under `JsText.JsNumber`. A key with fewer than three segments gives `None` (`undefined`) for the address.
- `JsText.JsNumber` keeps the exact value of every digit string. JavaScript `Number` returns the nearest double, so numerals above 2^53 are rounded (`Number("9007199254740993")` is 9007199254740992), and numerals of about 310 digits or more give `Infinity`. This affects the chain id and `latestRequestResolutionTime` of a tag and the network ids. Real chain ids and Unix times in seconds are far below 2^53.
- `JsText.JsNumberDecimal` proves the round trip for the exact model of `Number`. For JavaScript it holds only for values up to 2^53.
- `TagFetch.ItemsToTags`: `Promise.all` rejects with whichever lookup fails first in time. The model reports the failure of the first failing item by position; it captures that the whole fetch fails, not which error wins.
- The ethers provider, wallet and private key. The wallet is implicit: balance and transaction count are oracles indexed by the selected network.
- Console logging and the final floating-point division by 1000 in `humanizeAmount`. The model keeps only whether `humanizeAmount` throws and its integer part.
- `TransactionSender.SendRewardsFrom` does not model the `humanizeAmount(reward.amount)` call before each transfer. That call throws for an amount of 2^53 · 10^15 base units or more (about 9 · 10^12 tokens at 18 decimals), and the model sends such a transfer anyway.
- `TransactionSender.SendAllRewards` inherits that gap from `SendRewardsFrom`: its ensures describe such a transfer as sent where the source throws before sending it.
- `TransactionSender.RandomBetween` computes `Math.floor(min + Math.random() * (max - min))` on exact reals. IEEE double rounding is not modelled.
- `TransactionSender.Sleep` takes integer seconds. Negative or fractional durations, and `setTimeout`'s clamping of them, are not modelled.
- Amounts and nonces are unbounded naturals. Negative amounts and the 2^53 precision of JavaScript numbers for nonces are not modelled. The `toNumber` overflow is modelled only for the balance, in `HumanizeAmount`.
- Confirmation of transfers and async scheduling. A transfer either is accepted into the pool or throws, as the `accepts` oracle says.
