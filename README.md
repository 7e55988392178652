# European mutual fund portfolio: ledger, offline analyzer and buy conversions

This project models the core of a small investment application for European
mutual funds:

- **The in-memory store (`MemStorage`).** It has a fund catalog, a transaction
  log and one portfolio holding per bought fund, each kept in a map keyed by
  an auto-incremented id.
  - Buying records a completed transaction.
  - The buy then folds into that fund's holding: totals add up, and the
    average cost is the weighted average.
  - The store also derives a portfolio summary and a fund list joined with
    holdings.
- **The HTTP guard.** Before a buy reaches the store, the handler rejects an
  unknown fund id with "Fund not found".
- **The offline fund analyzer (`OfflineFundAnalyzer`).**
  1. It lower-cases and trims a natural-language query.
  2. It picks the first matching category, in the order risk, return, region,
     fees, technology, bonds, minimum investment, ESG.
  3. It applies that category's filter, sort or slice.
  4. If no category matches, it runs a keyword search. When nothing matches,
     the search falls back to the first six funds.
- **The conversion helpers that feed a buy.** These are the fixed USD to EUR
  rate, shares as amount over NAV, and the signed percentage label.

Money, shares and NAVs are exact `real`s, in place of the decimal strings the
application parses and prints. Map iteration order is modelled as ascending
id, because the keys are dense and inserted in increasing order. `new Date()`
becomes a `now` parameter.

Layout:
- `wrappers.dfy` holds `Option` and `Result`.
- `seqs.dfy` holds `filter`, `find`, sums and a stable sort.
- `text.dfy` holds `toLowerCase`, `trim`, `includes`, `split`, digits and
  `toLocaleString`.
- `schema.dfy` holds the record shapes.
- `ledger.dfy` holds the pure ledger functions and the lemmas about them.
- `storage.dfy` holds the `MemStorage` class.
- `routes.dfy` holds the fund-exists guard.
- `offline_analysis.dfy` holds the analyzer.
- `utils.dfy` holds the conversions.
- `buy_flow.dfy` holds the investment form's buy, with the finding below.

## Model

| member | source | states |
|---|---|---|
| Storage.MemStorage.constructor | server/storage.ts:42-52 | The store starts with the seed funds under ids 1..n, created in order, with no transactions or holdings and both other counters at 1. The ledger invariants hold from the start. |
| Storage.MemStorage.GetAllFunds | server/storage.ts:123-125 | Lists the catalog in id order: entry i is the fund stored under id i+1, and there is one entry per allocated fund id. |
| Storage.MemStorage.InitializeFunds | server/storage.ts:54-121 | Creates the seed funds one after another: the fund under id k is the k-th seed entry stamped with id k and the creation time, and the fund counter ends one past the last. Transactions and holdings stay empty. |
| Storage.MemStorage.GetFund | server/storage.ts:127-129 | Finds a fund exactly when the id has been allocated, and then it is the stored fund carrying that id. Otherwise the result is `None` (the source's `undefined`). |
| Storage.MemStorage.CreateFund | server/storage.ts:131-140 | Stores the fund under the current counter value, which was unused before, and increments the counter. The catalog listing grows by exactly that fund at the end. Transactions and holdings are untouched. |
| Storage.MemStorage.TransactionLog | server/storage.ts:142-150 | The stored transactions in creation (id) order: entry i is the transaction with id i+1. |
| Storage.MemStorage.CreateTransaction | server/storage.ts:142-156 | Logs a completed transaction under a fresh id, appended after all earlier ones, and leaves the catalog alone. Holdings become exactly the fold of the buy (`Ledger.Absorb`). Conservation of shares and amounts (`Consistent`) is preserved. |
| Storage.MemStorage.LogTransaction | server/storage.ts:143-150 | Stores the completed transaction under the next transaction id, with the request's fund, amount, shares and NAV and the current time, appended after every logged transaction. The catalog and holdings are unchanged. |
| Storage.MemStorage.UpdatePortfolioAfterTransaction | server/storage.ts:158-187 | Leaves the holdings and holding counter equal to `Ledger.Absorb` of the old ones: a weighted-average update of the existing holding, or a new holding for the first buy. The catalog and log are unchanged. |
| Storage.MemStorage.UpdatePortfolioHolding | server/storage.ts:201-222 | Upserts by fund. An existing holding of the fund keeps its id and takes the new totals. Otherwise a holding is created under the next holding id. Afterwards the fund's holding is the returned one, and nothing else changes. |
| Storage.MemStorage.GetPortfolioHolding | server/storage.ts:197-199 | Returns `None` exactly when no holding belongs to the fund. Otherwise it returns a stored holding of that fund. |
| Storage.MemStorage.GetAllHoldings | server/storage.ts:224-226 | The holdings in id order, one per allocated holding id. |
| Storage.MemStorage.GetTransactionsByFund | server/storage.ts:189-191 | Contains exactly the stored transactions of the fund, and nothing else. |
| Storage.MemStorage.GetTransactionsByFundInOrder | server/storage.ts:189-191 | The fund's transactions are exactly the log's entries of that fund, with their multiplicities, in log order. |
| Storage.MemStorage.GetAllTransactions | server/storage.ts:193-195 | A permutation of the log, ordered by non-increasing creation time. |
| Storage.MemStorage.GetAllTransactionsStable | server/storage.ts:193-195 | Transactions created at the same time keep their creation order, because the sort is stable. |
| Storage.MemStorage.GetPortfolioSummary | server/storage.ts:228-260 | Totals: value = Σ shares·NAV and invested = Σ invested, both over holdings whose fund is in the catalog. Gain = value − invested. The percentage is gain/invested·100 when invested > 0, else 0. Daily change is 0.76% of the value. The count covers every holding. |
| Storage.MemStorage.GetFundsWithHoldings | server/storage.ts:262-285 | One entry per catalog fund, in catalog order. A fund without a holding comes back bare. A held fund carries its holding, current value shares·NAV, gain value − invested, and gain/invested·100. |
| Storage.MemStorage.HoldingTotals | server/storage.ts:158-191 | In a consistent store, a holding's shares and invested amount are the sums over the fund's transactions. The shares are positive and the average cost is invested/shares. |
| Storage.MemStorage.InvestedIsSumOfAmounts | server/storage.ts:228-242 | With every holding's fund in the catalog, the summary's invested total equals the sum of all transaction amounts. |
| Routes.PostTransaction | server/routes.ts:43-50 | Fails with "fund not found" exactly when the fund id is unknown, and then leaves the store unchanged. Otherwise it returns the completed transaction with the next transaction id, the request's fund, amount, shares and NAV, and the current time. That transaction is appended to the log and the catalog is kept. The holdings become exactly `Ledger.Absorb` of the old ones with that buy. Every ledger invariant is kept, including all holdings' funds being in the catalog. |
| Ledger.DenseValues | server/storage.ts:123-125 | `Array.from(map.values())` over keys 1..n: the value under key i+1 at position i. |
| Ledger.DenseValuesAppend | server/storage.ts:138 | Storing under the next key appends its value to the listing. |
| Ledger.DenseValuesUpdate | server/storage.ts:210 | Overwriting an existing key replaces that entry in place in the listing. |
| Ledger.ByFund | server/storage.ts:190 | The fund's transactions are drawn from the log and belong to that fund. |
| Ledger.ByFundAppend | server/storage.ts:150 | A new transaction extends its own fund's list only. |
| Ledger.BoughtIsSumByFund | server/storage.ts:158-191 | Per-fund share and amount totals are the sums over that fund's transaction list. |
| Ledger.BoughtAppend | server/storage.ts:163-164 | A buy adds its shares and amount to its own fund's totals and to no other fund's. |
| Ledger.NothingBought | server/storage.ts:175-181 | A fund no transaction names has bought nothing, so a first buy's totals are the buy itself. |
| Ledger.ConservedAfterBuy | server/storage.ts:161-174 | Adding a buy's shares and amount to a conserved holding keeps it conserved. Its average cost is again invested/shares. |
| Ledger.ConservedAfterFirstBuy | server/storage.ts:175-186 | The first buy of an unbought fund opens a holding whose shares and invested total are that buy's, positive, with average cost invested/shares. |
| Ledger.ConservedAfterOtherBuy | server/storage.ts:158-187 | A buy of another fund leaves a conserved holding conserved. |
| Ledger.AverageCostBetweenPrices | server/storage.ts:165 | The weighted average cost lies between the lowest and highest price paid per share for that fund. |
| Ledger.RatioBetween | server/storage.ts:165 | A ratio a/b with lo·b ≤ a ≤ hi·b lies in [lo, hi]. |
| Ledger.PriceFloor | server/storage.ts:163-164 | Buys all paid at least c a share total at least c a share. |
| Ledger.PriceCeiling | server/storage.ts:163-164 | Buys all paid at most c a share total at most c a share. |
| Ledger.HoldingFor | server/storage.ts:267 | `holdings.find(h => h.fundId === id)`: `None` exactly when no holding has that fund, else the first holding of that fund in list order. |
| Ledger.HoldingOfFund | server/storage.ts:197-199 | The same lookup over the holdings map: `None` exactly when no stored holding has the fund, else the first stored holding of the fund in id order, stored under its own id. |
| Ledger.HoldingOfFundSmallestId | server/storage.ts:197-199 | The holding found has the smallest id among the fund's holdings: no holding with a lower id belongs to the fund. |
| Ledger.Absorb | server/storage.ts:158-222 | Folding a buy keeps one holding per fund, with dense ids. Other funds' holdings are untouched and no holding changes fund. The bought fund ends up held. A new holding id is allocated exactly when the fund was not held before. |
| Ledger.AbsorbStaysInCatalog | server/storage.ts:158-187 | When the bought fund and every held fund are in the catalog, every holding after the buy is too. |
| Ledger.AbsorbBalanced | server/storage.ts:142-187 | Logging a completed buy and folding it into the holdings keeps every holding equal to the sums over its fund's transactions, and keeps every logged fund held. |
| Ledger.AbsorbConserves | server/storage.ts:158-187 | Each holding after the buy is conserved against the log extended by the buy: the bought fund's holding by the weighted-average update or the first-buy holding, every other holding unchanged. |
| Ledger.FundById | server/storage.ts:236 | `funds.find(f => f.id === id)`: `None` exactly when no fund has the id, else the first fund in the list with that id. |
| Ledger.InvestedIsLedgerTotal | server/storage.ts:235-242 | With one holding per fund, each holding's invested total equal to its fund's amounts, and every transaction's fund held, the summed invested total equals the sum of all amounts. |
| Ledger.InvestedIsSum | server/storage.ts:235-242 | The same total, when each holding's invested total is stated as the sum over its fund's list. |
| Ledger.ByFundSkipping | server/storage.ts:190 | Removing one fund's transactions does not change any other fund's list. |
| Ledger.Join | server/storage.ts:266-284 | One entry per fund, in order. An entry is bare exactly when no holding has its fund. Otherwise it carries the first holding of its fund in list order, and the value, gain and gain percentage. |
| OfflineAnalysis.NormalizeIdempotent | client/src/lib/offline-analysis.ts:17 | Lower-casing and trimming a query that is already normalized changes nothing. |
| OfflineAnalysis.Classify | client/src/lib/offline-analysis.ts:16-61 | The chosen category's matcher accepts the query, and every category earlier in the priority order rejects it. |
| OfflineAnalysis.TargetRisk | client/src/lib/offline-analysis.ts:69-81 | "Low" iff a low-risk word occurs. "High" iff none does and a high-risk word occurs. "Medium" iff neither does. |
| OfflineAnalysis.FilterByRisk | client/src/lib/offline-analysis.ts:68-89 | Exactly the funds of the target risk level, with their multiplicities, as a subsequence of the list, so in original order. Criterion "Risk Level: <level>". |
| OfflineAnalysis.TopCount | client/src/lib/offline-analysis.ts:110 | k = max(1, ⌈3n/10⌉) capped at n. In particular 3n ≤ 10k, k−1 is below 30%, and k ≥ 1 for a non-empty list. |
| OfflineAnalysis.TopReturns | client/src/lib/offline-analysis.ts:100-111 | TopCount(n) funds from the list, sorted by descending return, none with a lower return than any fund left out. |
| OfflineAnalysis.PositiveReturns | client/src/lib/offline-analysis.ts:96-117 | Exactly the funds with positive return, with their multiplicities, sorted by descending return. |
| OfflineAnalysis.FilterByReturn | client/src/lib/offline-analysis.ts:96-124 | With high/best/top in the query, the top funds by return. Otherwise the positive-return funds. Always drawn from the list, with criteria "High Returns", "1-Year Performance". |
| OfflineAnalysis.TargetRegion | client/src/lib/offline-analysis.ts:132-141 | "US" iff us/usa/american occurs, otherwise "Offshore". |
| OfflineAnalysis.FilterByRegion | client/src/lib/offline-analysis.ts:131-149 | Exactly the funds of the target region, in original order. Criterion "Region: <region>". |
| OfflineAnalysis.RegionlessCatalogMatchesNothing | client/src/lib/offline-analysis.ts:143 | When no fund has a region, the region filter returns no fund, whatever the query. |
| OfflineAnalysis.FilterByFees | client/src/lib/offline-analysis.ts:156-172 | ⌈n/2⌉ funds from the list in ascending expense-ratio order, none with a higher ratio than any fund left out. |
| OfflineAnalysis.FilterByKeywords | client/src/lib/offline-analysis.ts:182-185 | Exactly the funds whose lower-cased "name objective" contains one of the keywords, in original order. |
| OfflineAnalysis.FilterByTech | client/src/lib/offline-analysis.ts:179-192 | Exactly the funds whose text mentions one of the seven technology words, in order. Criteria "Technology Sector", "Growth Focus". |
| OfflineAnalysis.FilterByBonds | client/src/lib/offline-analysis.ts:199-212 | Exactly the funds whose text mentions bond/treasury/municipal/fixed/income, in order. Criteria "Fixed Income", "Bonds". |
| OfflineAnalysis.FilterByEsg | client/src/lib/offline-analysis.ts:238-251 | Exactly the funds whose text mentions one of the ESG words, in order. Criteria "ESG", "Sustainable Investing". |
| OfflineAnalysis.TargetAmount | client/src/lib/offline-analysis.ts:221-222 | The value of the first run of digits in the query, or 5000 when it has no digit. |
| OfflineAnalysis.FilterByMinInvestment | client/src/lib/offline-analysis.ts:219-231 | Exactly the funds whose minimum investment is at most the target, in order. The criterion shows the target with thousands separators. |
| OfflineAnalysis.Keywords | client/src/lib/offline-analysis.ts:254 | A word is a keyword iff it is a space-separated piece of the query longer than two characters. No keyword contains a space. |
| OfflineAnalysis.Popular | client/src/lib/offline-analysis.ts:262 | The first min(6, n) funds of the list. |
| OfflineAnalysis.KeywordSearch | client/src/lib/offline-analysis.ts:253-268 | When some fund's "name manager objective" text contains a keyword: exactly those funds, in order, with "Keyword Match". Otherwise the popular funds, with "Popular Funds". |
| OfflineAnalysis.Dispatch | client/src/lib/offline-analysis.ts:19-60 | Whichever filter the category selects, every fund returned comes from the list, with no fund more often than in the list. There is at least one criterion. |
| OfflineAnalysis.Analyze | client/src/lib/offline-analysis.ts:16-61 | `analyze(query)` returns funds drawn from the analyzer's list and at least one criterion. |
| OfflineAnalysis.AnalyzeNormalized | client/src/lib/offline-analysis.ts:16-17 | Analyzing an already normalized query gives the same result as analyzing the raw query. |
| OfflineAnalysis.TechNeverSeesGrowth | client/src/lib/offline-analysis.ts:25-42 | A query reaching the technology filter never contains "growth", because the return matcher, which is tried first, takes it (the technology words are listed at line 175). |
| OfflineAnalysis.SustainableNeverEsg | client/src/lib/offline-analysis.ts:30-57 | A query containing "sustainable" never reaches the ESG filter: "us" occurs inside it, so the region filter, or an earlier one, takes it (the region words are listed at line 127). |
| Utils.ConvertUsdToEur | client/src/lib/utils.ts:24-27 | The euro amount is 0.85 times the dollars: same sign, never larger in size. |
| Utils.ConvertAdditive | client/src/lib/utils.ts:24-27 | The conversion is additive. |
| Utils.ConvertMonotone | client/src/lib/utils.ts:24-27 | The conversion maps 0 to 0 and is strictly increasing. |
| Utils.CalculateShares | client/src/lib/utils.ts:20-22 | The shares bought at a non-zero NAV are worth the amount again: shares·nav = amount. |
| Utils.SharesMonotone | client/src/lib/utils.ts:20-22 | At a positive NAV, more money buys strictly more shares, and a positive amount buys a positive number. |
| Utils.RoundHalfUp | client/src/lib/utils.ts:17 | The integer `toFixed` picks: within half a unit of the input, with halves going up. |
| Utils.ToFixed1 | client/src/lib/utils.ts:17 | `toFixed(1)`: digits, a point and one digit, with a leading '-' exactly for negative values. |
| Utils.FormatPercentage | client/src/lib/utils.ts:15-18 | Ends in "%" after a point and one digit. Starts with '+' iff the value is ≥ 0 and with '-' iff it is < 0. No sign appears anywhere else. |
| Utils.ReadLabel | client/src/lib/utils.ts:17 | A label built from a sign, whole digits and a digit reads back as that signed number of tenths. |
| Utils.FormatPercentageReadsBack | client/src/lib/utils.ts:15-18 | The label always reads back as a number, and that number is the value rounded to one decimal, with halves rounded away from zero. |
| BuyFlow.SubmittedAsWritten | client/src/components/investment-form.tsx:73-81 | As written: the shares paid for at NAV are worth the euro value of the amount sent, not the amount itself. |
| BuyFlow.Submitted | client/src/components/investment-form.tsx:73-81 | Corrected: the amount sent is the euro amount, and the shares at NAV are worth exactly that amount. |
| BuyFlow.FirstPosition | server/storage.ts:175-186 | A first buy opens a holding at average cost amount/shares, shown with gain shares·NAV − amount. |
| BuyFlow.AsWrittenBooksALoss | client/src/components/investment-form.tsx:73-81 | As written, any first buy is booked at NAV/0.85 a share, above the NAV, and shows a loss of 15% of the dollars at once. |
| BuyFlow.AsWrittenExample | client/src/components/investment-form.tsx:73-81 | A fund at NAV 100 and a $1000 buy give 8.5 shares booked for 1000 and a gain of −150. |
| BuyFlow.CorrectedBooksAtNav | client/src/components/investment-form.tsx:73-81 | With the euro amount sent, a first buy is booked at the NAV and shows no gain or loss. |
| Seqs.FilterSelects | server/storage.ts:190 | `filter` keeps exactly the elements satisfying the predicate, with their multiplicities, as a subsequence. |
| Seqs.Find | server/storage.ts:198 | `find` is `None` exactly when no element satisfies the predicate, else the first element that does. |
| Seqs.FirstMatchAt | server/storage.ts:198 | The first match is the element at an index where the predicate holds and fails at every earlier index, and conversely. |
| Sorting.SortBy | server/storage.ts:194 | The sort returns a permutation ordered by the key. |
| Sorting.SortByStable | server/storage.ts:194 | Elements with equal keys keep their relative order. |
| Sorting.PrefixDominates | client/src/lib/offline-analysis.ts:164-165 | A prefix of the sorted list holds the smallest keys of the input: no element left out has a smaller key. |
| Text.ToLower | client/src/lib/offline-analysis.ts:17 | Same length, no upper-case letter left, other characters kept, and each upper-case letter shifted to lower case. |
| Text.TrimIsInfix | client/src/lib/offline-analysis.ts:17 | `trim` removes only white space, and only at the two ends, and trimming twice is trimming once. |
| Text.Split | client/src/lib/offline-analysis.ts:254 | `split(' ')` gives at least one piece, none with a space, and joining them with spaces gives the string back. |
| Text.SplitJoin | client/src/lib/offline-analysis.ts:254 | Splitting space-joined space-free pieces gives the pieces back. |
| Text.NumeralSplit | client/src/lib/offline-analysis.ts:228-229 | The numeral of a number of at least 1000 is the numeral of its thousands followed by its last three digits, zero-padded. |
| Text.FirstNumber | client/src/lib/offline-analysis.ts:221-222 | `None` exactly when there is no digit. Otherwise, the value of the maximal run of digits starting at the first digit. |
| Text.Grouped | client/src/lib/offline-analysis.ts:228-229 | `toLocaleString()` of a whole number: removing the commas leaves exactly its decimal numeral. A comma stands at a position exactly when it is not the first and a multiple of four places from the end, so commas split the digits into groups of three from the right. |

## Left out

- The seed catalog literals (server/storage.ts:54-121) are a constructor parameter, not reproduced. `region` and `currency` are optional on insert, and `createFund` adds no default for them, so they are `Option` fields. Those seed literals give no region, so on the shipped catalog the region filter returns no fund (`OfflineAnalysis.RegionlessCatalogMatchesNothing`).
- Floating point is not modelled.
  - Numbers are exact reals. `parseFloat`/`toString` round trips, IEEE rounding, NaN and Infinity are out of scope.
  - Parsed returns (`yearReturn`) and expense ratios are numeric fields, not the strings parsed at offline-analysis.ts:102 and 160.
- The 30% and 50% cut-offs are exact ceilings (`TopCount`, `FilterByFees`), not float products.
- Sorting with `Array.prototype.sort` is modelled as a stable insertion sort.
- Timestamps: `new Date()` is a `now: nat` parameter supplied by the caller. Nothing forces it to grow from call to call.
- `async`/`Promise`, Express plumbing, zod validation and the 400/500 responses are not modelled. Only the 404 fund-exists guard is kept.
- The AI agent (server/ai-agent.ts) and every React page and component are not part of this model. The exception is the two lines of the investment form behind the finding below.
- `toLowerCase` is modelled on ASCII letters only. `trim` uses the JavaScript whitespace set, and `toLocaleString` is modelled for the en-US locale only.
- Strings are sequences of Unicode code points, where JavaScript counts UTF-16 code units. A character outside the Basic Multilingual Plane counts once here and twice there. So `word.length > 2` in `OfflineAnalysis.Keywords` (offline-analysis.ts:254) can differ on such text.
- OfflineAnalysis.FilterByReturn and OfflineAnalysis.FilterByFees return the funds themselves. The source returns copies that carry an extra `returnValue` or `feeValue` field (offline-analysis.ts:100-103 and 158-161). Nothing downstream reads those fields.
- `parseInt` on a digit run is exact, including for runs beyond double precision.
- `formatCurrency` and `cn` are not part of this model.
- Utils.ToFixed1: requires |value| < 10^21. At that size and above, `toFixed` switches to exponent notation.
- Utils.FormatPercentage: requires |value| < 10^21, for the same reason.
- Utils.CalculateShares: requires a non-zero NAV. The source divides anyway, and gets Infinity or NaN.
- Storage.MemStorage.CreateTransaction: requires amount > 0 and shares > 0. The source checks neither. A zero-share first buy would store an infinite or NaN average cost.
- Routes.PostTransaction: requires amount > 0 and shares > 0, for the same reason.
- Storage.MemStorage.UpdatePortfolioAfterTransaction: requires every stored holding to have non-negative shares. This keeps the weighted-average division defined.
- Storage.MemStorage.GetFundsWithHoldings: requires every holding's invested total to be non-zero. The source divides by it unguarded.
- Storage.MemStorage.CreateFund: states the catalog's new state but not that the ledger invariants (`Consistent`, `HoldingsInCatalog`) carry over.
- Storage.MemStorage.UpdatePortfolioHolding is public and unchecked, so it can break conservation. It therefore keeps only the structural invariant `Valid`.
- The "Min Investment" criterion keeps the garbled "â‰¤" as the source spells it (`OfflineAnalysis.AtMost`).

## Findings

| source | as written | input that shows it | evidently intended | confidence | as-written member | corrected member |
|---|---|---|---|---|---|---|
| client/src/components/investment-form.tsx:73-81 | The shares are computed from the euro value of the dollar amount, but the dollar figure is sent as the amount paid. The store then books the holding at NAV/0.85 a share, and the position shows an immediate 15% loss. | A fund at NAV 100 and $1000 entered: 8.5 shares are booked for 1000, an average cost of about 117.65, and a gain of −150. | Send the euro amount the shares were priced with. The first buy is then booked at NAV, with zero gain. | not executed | BuyFlow.AsWrittenBooksALoss | BuyFlow.CorrectedBooksAtNav |
