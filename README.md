# AInvestool portfolio engine, modelled in Dafny

AInvestool is a Streamlit application that keeps an investment portfolio: holdings of US and Taiwanese stocks, crypto, precious metals, cash and debt, spread over several accounts. This project models the valuation and bookkeeping engine behind its pages, and proves properties of that model.

- **Price refresh** (`MarketService`, `Timestamps`). A holding's price is stale when its `"%Y-%m-%d %H:%M"` stamp is missing or unparseable, or older than the threshold. Stale investments are re-quoted in place, and successes and failures are counted. `get_exchange_rate` falls back to the configured default.
- **Valuation** (`MarketService`). The valuation table is built row by row with these rules:
  - the price follows a fixed chain of fallbacks (face value, cached, live, manual, cost);
  - prices are converted between USD and TWD;
  - liabilities are sign-aware;
  - the ROI is guarded against a zero cost;
  - display columns are in native or base currency.
- **Dashboard** (`Dashboard`). The net worth KPIs, the allocation diff and its advice, and per-category totals, ROI and weights.
- **Fund deployment** (`UiTools`, `Manager`). The new-fund split `calculate_base_suggestions`, the draft budgets, and the merge-or-append commit of draft trades.
- **Holding management** (`AssetManagement`, `Manager`). Buy at weighted average cost, sell clamped at zero, edit, move between accounts and delete. Also the new-asset dialog (with an optional loan plan), tolerant change detection in the editable table, and the allocation-target form.
- **Session state** (`StateManager`). `SessionStateManager` is a class whose fields are the store keys it manages, plus the keys the pages write directly. Every method states the whole new store.
- **Records** (`Models`, `Config`). Validation of `Asset` with the `to_dict`/`from_dict` round trip, `AllocationSettings`, `DeploymentAction`, the configuration defaults and `_validate`.
- **Risk** (`RiskManagement`). True range and ATR over daily bars, and ATR-based stop-loss/take-profit with position sizing.
- **Loans** (`LoanService`). The fixed-payment amortisation loop with its month rollover, and the loan plan that stores it.
- **Main script** (`App`). The choice of currency code and symbol, the flag-driven decision when to recompute the valuation table, and the once-per-session auto-update with its status.

`modules/ui_manager.py` repeats several functions of the other page modules, and the same members model both copies:
- `check_is_outdated` (ui_manager.py:17-24) → `AssetManagement.CheckIsOutdated`;
- `calculate_base_suggestions` (48-81) → `UiTools.BaseSuggestions`;
- buying (122-141) → `AssetManagement.Buy`;
- selling (156-165) → `AssetManagement.Sell`;
- deleting (359-363) → `AssetManagement.Delete`;
- `commit_draft_actions` (788-837) → `UiTools.CommitDraftActions`.

The representation choices:
- Money is `real`.
- A portfolio entry is the typed record `Holdings.Holding`. The Python dicts carry each field under a legacy and a new key; here the two are one field.
- Python dicts with an order (allocation targets, budgets) are sequences of pairs.
- Yahoo Finance, the clock, `numpy_financial.pmt`, Python's `round` and `float()` of a string are parameters of the members that use them.
- `auto_update_portfolio` works in place on an `array<Holding>`. Its thread pool is a sequential loop: each task writes only its own index.

## Model

| member | source | states |
|---|---|---|
| Timestamps.IsOutdated | modules/market_service.py:158-168 | "", "N/A" and any unparseable stamp are outdated; otherwise outdated iff now − stamp is strictly more than the threshold in days |
| Timestamps.ParseStamp | modules/market_service.py:162 | a parsed stamp is a valid date and time with zero seconds, and comes from exactly 16 characters |
| Timestamps.FormatStamp | modules/market_service.py:221 | the written stamp has the 16-character layout |
| Timestamps.ToMinute | modules/market_service.py:221 | writing a stamp drops less than one minute from the time |
| Timestamps.StampRoundTrip | modules/market_service.py:221 | a stamp written for a time parses back to that time truncated to the minute |
| Timestamps.ParseDate | modules/loan_service.py:41 | a parsed "%Y-%m-%d" date is a valid calendar date |
| Timestamps.FormatDate | modules/loan_service.py:78 | the written date has 10 characters |
| Timestamps.DateRoundTrip | modules/loan_service.py:78 | a written date parses back to itself |
| Timestamps.FreshWhenJustStamped | modules/market_service.py:219-222 | a holding stamped now is not outdated for any threshold of at least one day |
| Timestamps.ThresholdIsStrict | modules/market_service.py:164 | exactly the threshold counts as fresh; one microsecond more is outdated |
| Timestamps.StaleStaysStale | modules/market_service.py:164 | an outdated stamp stays outdated as the clock advances |
| Timestamps.PaddedRoundTrip | modules/loan_service.py:78 | a zero-padded number field reads back as the number |
| MarketService.ExchangeRate | modules/market_service.py:34-45 | the last close when there are rows; the default rate when the history is empty or the call fails |
| MarketService.FetchSinglePrice | modules/market_service.py:123-145 | the last close when there are rows; otherwise the last price only when it is positive; a failed call gives no price |
| MarketService.Candidates | modules/market_service.py:184-194 | exactly the indices of non-cash, non-debt holdings with an outdated stamp, in increasing order |
| MarketService.CollectCandidates | modules/market_service.py:184-194 | the loop collects exactly the candidates |
| MarketService.Refreshed | modules/market_service.py:196-232 | the refreshed list has the length of the original |
| MarketService.CountQuoted | modules/market_service.py:218-229 | the success count is at most the number of candidates |
| MarketService.Quoted | modules/market_service.py:218-222 | a successful quote sets the cached price to the quote and the stamp to the given time; a failed one leaves the holding as it was; no other field ever changes |
| MarketService.AutoUpdatePortfolio | modules/market_service.py:171-232 | the array becomes the refreshed portfolio in place; success counts the quotes obtained; success + fail is the number of candidates |
| MarketService.QuoteAll | modules/market_service.py:207-229 | each candidate index is re-quoted and every other entry is untouched; success + fail is the number of candidates |
| MarketService.RefreshWithoutCandidates | modules/market_service.py:196-198 | without candidates the portfolio is returned unchanged |
| MarketService.QuotingAllCandidatesRefreshes | modules/market_service.py:207-229 | re-quoting exactly the candidates, each at its own index, yields the refreshed portfolio, whatever the order of completion |
| MarketService.RefreshLeavesOnlyFailures | modules/market_service.py:219-226 | after a refresh, an entry is still a candidate iff it was one and its quote failed |
| MarketService.RefreshSkipsNonCandidates | modules/market_service.py:185-194 | cash, debt and fresh holdings are left exactly as they were |
| MarketService.RefreshOnlyTouchesPriceAndStamp | modules/market_service.py:219-222 | a refresh changes no field of an entry except its manual price and its stamp |
| MarketService.Flat | modules/market_service.py:284-285 | the placeholder history is 30 copies of the price |
| MarketService.Price | modules/market_service.py:274-325 | cash and debt use the manual price if positive, else 1.0. A fresh investment with a positive manual price uses it without fetching. Any other investment whose history has rows gets the live last close, with that history and the daily change (last − prev)/prev, which is 0 when prev ≤ 0. Only with an empty history does it fall back to the manual price, then to the average cost. Every non-live price has zero daily change and a flat history |
| MarketService.DailyChange | modules/market_service.py:305-308 | previous close·change = last − previous close when the previous close (the last one, for a single row) is positive; otherwise 0 |
| MarketService.LiveCloseFirst | modules/market_service.py:299-325 | an investment that is not cached and whose history has rows is priced live at its last close |
| MarketService.BaseCurrency | modules/market_service.py:259 | the aggregation currency is never "Auto": "Auto" aggregates in TWD, any other choice is its own base |
| MarketService.Multiplier | modules/market_service.py:329-333 | the rate for a USD holding aggregated in TWD; 1/rate for a TWD holding aggregated in USD (1.0 when the rate is not positive); 1.0 for every other pair, equal currencies included; positive for a positive rate |
| MarketService.MultipliersAreInverse | modules/market_service.py:329-333 | for a positive rate the USD→TWD and TWD→USD multipliers are inverse |
| MarketService.SignedPl | modules/market_service.py:343-356 | P/L is positive iff an asset gained value or a debt balance shrank; zero iff value equals cost; its size is \|value − cost\| |
| MarketService.RowOf | modules/market_service.py:327-410 | the row keeps the holding's type, ticker, quantity, currency, stamp and account, and carries the price's status, sparkline and daily change in percent; the display currency is the holding's own under "Auto", else the chosen one |
| MarketService.ValueRow | modules/market_service.py:274-410 | the row keeps the holding's identity columns; its status is "manual" iff the holding is cash or debt; a price that was not fetched shows no daily change and a 30-point sparkline |
| MarketService.GetMarketData | modules/market_service.py:251-413 | one row per holding, in list order, each the valuation of that holding; an empty portfolio gives an empty table |
| MarketService.RowSignRules | modules/market_service.py:343-356 | a debt's net value is minus its market value and its P/L is cost − value; other rows are the reverse. ROI·cost = P/L·100 when cost > 0, else ROI is 0 |
| MarketService.RowBaseColumns | modules/market_service.py:336-340 | market value = price·multiplier·quantity and total cost = average cost·multiplier·quantity |
| MarketService.AutoDisplayIsNative | modules/market_service.py:343-379 | in "Auto" mode the display columns are the native amounts in the holding's currency, whatever the rate: the resolved price, the average cost, their products with the quantity and the signed P/L of those |
| MarketService.AutoDisplayConvertsToBase | modules/market_service.py:360-372 | in "Auto" mode the display currency is the holding's own, and the multiplier turns each display column into its base column |
| MarketService.FixedDisplayIsBase | modules/market_service.py:373-379 | with a fixed display currency the display columns equal the base columns |
| MarketService.NoFetchForFaceValueOrCached | modules/market_service.py:274-299 | the row of a cash, debt or freshly cached holding does not depend on the quote service |
| MarketService.DailyChangeRecoversPreviousClose | modules/market_service.py:305-308 | for a live price with a positive previous close, previous·(1 + change) is the last close |
| Dashboard.TypeSplitsTheSum | modules/ui_dashboard.py:39-40 | the rows of one type and the rows of all other types add up to the whole column |
| Dashboard.Roi | modules/ui_dashboard.py:51 | ROI·cost = P/L·100 when cost > 0, else 0; the ROI is positive (negative) iff cost > 0 and P/L is positive (negative) |
| Dashboard.DashboardKpis | modules/ui_dashboard.py:39-51 | the total ROI is positive (negative) iff some cost is invested and the total P/L is positive (negative); an empty table gives all zeros |
| Dashboard.NetWorth | app.py:540-546 | the net worth is the net values of the non-debt rows plus those of the debt rows; an empty table is worth 0 |
| Dashboard.KpisSplitTheTable | modules/ui_dashboard.py:39-51 | assets plus liabilities is the total market value, and the total ROI relates P/L to invested cost |
| Dashboard.NetWorthIsAssetsMinusLiabilities | modules/ui_dashboard.py:37-47 | on a table obeying the sign rules, the sum of net values is assets − liabilities |
| Dashboard.PlIsGainLessDebtGrowth | modules/ui_dashboard.py:49-50 | total P/L is (assets − invested cost) + (debt principal − debt balance) |
| Dashboard.ValuationNetWorth | modules/ui_dashboard.py:34-40 | the table of any portfolio has net worth = assets − liabilities |
| Dashboard.CurrentPct | modules/ui_dashboard.py:80-81 | current%·total = type value·100 when total ≠ 0; with a zero total the unguarded division gives ±inf, or 0 after fillna |
| Dashboard.Classify | modules/ui_dashboard.py:112-119 | "under" iff diff < −2.0, "over" iff diff > 2.0 (infinities included), "accurate" otherwise |
| Dashboard.AllocationOf | modules/ui_dashboard.py:80-119 | the merged row has the type's target (0 when absent) and current share; diff = current − target, an infinite share stays infinite; the advice is "accurate" iff the diff is finite and within ±2.0 |
| Dashboard.Rebalancing | modules/ui_dashboard.py:84-88 | the merged table has exactly the target types together with the held types |
| Dashboard.AbsentTypeSumsToZero | modules/ui_dashboard.py:87 | a type without rows has value 0 |
| Dashboard.MissingSideCountsAsZero | modules/ui_dashboard.py:87-88 | a target type that is not held is short by its whole target; a held type without a target has its whole share as diff |
| Dashboard.WithinToleranceIsAccurate | modules/ui_dashboard.py:112-119 | a diff inside the ±2.0 band is "accurate" |
| Dashboard.ZeroTotalFlagsHeldTypes | modules/ui_dashboard.py:81 | with a zero total, a type of positive value is "over" whatever its target |
| Dashboard.Share | modules/ui_dashboard.py:181 | share·whole = part·100 when whole > 0, else 0 |
| Dashboard.CategoryOf | modules/ui_dashboard.py:157-181 | category ROI·cost = P/L·100 when cost > 0, else 0; the weight is 0 when the total is not positive |
| Dashboard.Weights | modules/ui_dashboard.py:259-260 | one weight per row of the table, in table order |
| Dashboard.WeightOf | modules/ui_dashboard.py:259-260 | weight·category value = value·100 for a row of the category; a row of another type gets 0 |
| Dashboard.WeightsScale | modules/ui_dashboard.py:243-260 | the weights of a category, times its value, add up to its value·100 |
| Dashboard.WeightsInCategorySumTo100 | modules/ui_dashboard.py:243-260 | the weights within a category of positive value add up to 100 |
| Holdings.PctOf | modules/ui_tools.py:42 | a missing type has target 0; a present key gives its own percentage |
| UiTools.GapOf | modules/ui_tools.py:41-46 | the gap is max(0, (total + fund)·pct/100 − current value of the type) |
| UiTools.Gaps | modules/ui_tools.py:41-46 | one gap per target, in target order |
| UiTools.Suggest | modules/ui_tools.py:51-59 | one suggestion per gap, by the scale or the spread rule |
| UiTools.SuggestedOf | modules/ui_tools.py:51-59 | when the gaps exceed the fund, suggestion·total gap = gap·fund; otherwise the suggestion is at least the gap for a non-negative target |
| UiTools.Labelled | modules/ui_tools.py:61 | the suggestions are keyed by the target types, in order |
| UiTools.BaseSuggestions | modules/ui_tools.py:35-61 | exactly the target types, in order; no result for empty targets |
| UiTools.LabelsKeepTotal | modules/ui_tools.py:61 | keying by type keeps the total |
| UiTools.ScaledSum | modules/ui_tools.py:51-54 | scaled suggestions times the total gap sum to fund·(sum of gaps) |
| UiTools.ScaledSplit | modules/ui_tools.py:51-54 | scaled suggestions sum to the fund and none exceeds its gap |
| UiTools.ScaledBelowGaps | modules/ui_tools.py:51-54 | each scaled suggestion is at most its gap, and non-negative for a non-negative fund |
| UiTools.ScaledSuggestionsFillTheFund | modules/ui_tools.py:51-54 | when the total gap exceeds the fund, the suggestions sum to the fund, none exceeds its gap, and all are ≥ 0 for a non-negative fund |
| UiTools.SpreadSum | modules/ui_tools.py:55-59 | spread suggestions sum to the gaps plus (fund − total gap)·Σpct/100 |
| UiTools.SpreadSuggestionsFillTheFund | modules/ui_tools.py:55-59 | otherwise the suggestions sum to the fund when the targets sum to 100, and each is at least its gap for a non-negative fund |
| UiTools.BudgetOf | modules/ui_tools.py:176 | a category without a budget entry has budget 0 |
| UiTools.ActiveCategories | modules/ui_tools.py:171 | exactly the categories with a positive budget are offered |
| UiTools.PlannedIn | modules/ui_tools.py:178-180 | no draft in the category plans 0; drafts of non-negative total plan a non-negative amount |
| UiTools.Remaining | modules/ui_tools.py:176-181 | without drafts in the category the whole budget remains; with drafts of non-negative total, never more than the budget |
| UiTools.AddDraft | modules/ui_tools.py:325-343 | refused when price·qty ≤ 0 or the ticker is empty; otherwise appends exactly one draft holding the category, ticker, price, quantity, total price·qty and the new-ticker flag |
| UiTools.AddingDraftSpendsBudget | modules/ui_tools.py:178-181 | adding a draft lowers the remaining budget of its category by its total and leaves other categories alone |
| UiTools.CurrencyGuess | modules/ui_tools.py:389 | "TWD" iff the ticker contains ".TW", else "USD" |
| UiTools.FirstWithSymbol | modules/ui_tools.py:364-371 | the first index with the ticker, or −1 when none has it |
| UiTools.FindSymbol | modules/ui_tools.py:364-371 | the search loop finds that first index |
| UiTools.Merged | modules/ui_tools.py:375-386 | the quantity grows by the added quantity; quantity·average grows by the added total; the average is 0 at zero quantity |
| UiTools.NewHolding | modules/ui_tools.py:388-403 | a new holding from a draft: quantity, price as average, guessed currency, no manual price, "N/A" stamp, the main account |
| UiTools.Applied | modules/ui_tools.py:362-403 | a draft merges into the first holding with its ticker, or is appended when there is none |
| UiTools.Committed | modules/ui_tools.py:362-403 | committing never removes a holding and adds at most one per draft |
| UiTools.CommitAll | modules/ui_tools.py:362-403 | the loop applies every draft in order |
| UiTools.CommitDraftActions | modules/ui_tools.py:361-413 | the portfolio becomes the committed one, the drafts are emptied and a refresh is requested; nothing else changes |
| UiTools.CommitKeepsOtherHoldings | modules/ui_tools.py:362-386 | the list never shrinks, and holdings no draft names are untouched |
| UiTools.SecondDraftMergesIntoFirst | modules/ui_tools.py:387-403 | a second draft of a new ticker merges into the entry the first one appended |
| AssetManagement.CheckIsOutdated | modules/ui_asset_management.py:19-28 | "", "N/A" and unparseable stamps are outdated; otherwise outdated iff strictly older than one day |
| AssetManagement.OneDayOldIsFresh | modules/ui_asset_management.py:26 | a stamp exactly one day old is fresh |
| AssetManagement.Bought | modules/ui_asset_management.py:71-78 | the quantity grows by the bought quantity; quantity·average is conserved plus the new cost; the average is 0 at zero quantity |
| AssetManagement.BuyingAtAverageKeepsAverage | modules/ui_asset_management.py:72-76 | buying at the current average leaves the average unchanged |
| AssetManagement.Sold | modules/ui_asset_management.py:103-105 | the quantity is max(0, quantity − sold); no other field changes |
| AssetManagement.SellingWhatWasBoughtRestoresQuantity | modules/ui_asset_management.py:70-105 | selling what was just bought restores the quantity |
| AssetManagement.Refreshing | modules/ui_asset_management.py:85 | an action's refresh request sets the force-refresh key and no other key |
| AssetManagement.Buy | modules/ui_asset_management.py:70-89 | with a positive quantity, only the entry at the index is bought into and a refresh is requested; otherwise nothing changes |
| AssetManagement.Sell | modules/ui_asset_management.py:102-114 | with a positive quantity, only the entry at the index is sold from and a refresh is requested; otherwise nothing changes |
| AssetManagement.NamedAccounts | modules/ui_asset_management.py:128 | every account name is an option |
| AssetManagement.LastAccountWins | modules/ui_asset_management.py:128 | a repeated name maps to the id of its last account, and every option comes from some account |
| AssetManagement.AccountOptions | modules/ui_asset_management.py:127-128 | without accounts the only option is the main account; otherwise the name-to-id map |
| AssetManagement.CurrentAccount | modules/ui_asset_management.py:130 | the entry's account id, or "default_main" when empty |
| AssetManagement.TransferTargets | modules/ui_asset_management.py:162 | exactly the accounts whose id differs from the current account id |
| AssetManagement.Edit | modules/ui_asset_management.py:140-152 | sets quantity, average cost and account of the entry at the index and requests a refresh |
| AssetManagement.Move | modules/ui_asset_management.py:158-177 | sets the chosen target account, and the current account really changes |
| AssetManagement.RiskPrice | modules/ui_asset_management.py:187-191 | the manual price, or the average cost when it is 0 |
| AssetManagement.UnpricedEntryShowsNoGain | modules/ui_asset_management.py:187-191 | an entry without a manual price shows 0% unrealised P/L |
| AssetManagement.SaveRiskLevels | modules/ui_asset_management.py:281-289 | stores the suggested stop-loss and take-profit on the entry and nothing else |
| AssetManagement.Delete | modules/ui_asset_management.py:293-297 | removes exactly the entry at the index and requests a refresh |
| AssetManagement.NewEntry | modules/ui_asset_management.py:375-403 | an investment needs a ticker. Cash is "CASH-cur" and debt "DEBT-cur", each with quantity = amount and average 1.0. Every entry gets id "ast_"+stamp, no manual price and "N/A" |
| AssetManagement.NewFaceValueEntryIsAtPar | modules/ui_asset_management.py:391-399 | a new cash or debt entry is valued at its amount, with zero P/L |
| AssetManagement.AddAssetDialog | modules/ui_asset_management.py:375-431 | a refused entry changes nothing; an accepted one is appended; a debt with a plan also appends the loan plan of years·12 months; a refresh is requested on success |
| AssetManagement.EditedHolding | modules/ui_asset_management.py:573-602 | numbers change only by more than 0.0001; ticker and type follow the row; the account changes only to a known, different id; unchanged when nothing is reported |
| AssetManagement.EditIsIdempotent | modules/ui_asset_management.py:573-587 | re-applying the same row reports no change |
| AssetManagement.NudgeWithinToleranceIsIgnored | modules/ui_asset_management.py:579 | a nudge within 0.0001 is neither written nor reported |
| AssetManagement.TableEdits | modules/ui_asset_management.py:565-605 | the portfolio keeps its length |
| AssetManagement.EntryEdits | modules/ui_asset_management.py:565-605 | the successive `update_if_changed` edits of the rows pointing at one entry: with no change reported, or no row pointing at it, the entry is untouched |
| AssetManagement.TableEditsPerEntry | modules/ui_asset_management.py:484-605 | for any table, duplicate tickers included, each entry ends as the successive edits of its rows in table order, and a change is reported iff some entry's edits report one |
| AssetManagement.LastRowWins | modules/ui_asset_management.py:484-605 | when rows share an entry, the last of them decides its ticker and type |
| AssetManagement.TableEditsWriteEachRow | modules/ui_asset_management.py:565-605 | when no two rows share an entry, each entry a row points at becomes `update_if_changed`'s edit of the original entry |
| AssetManagement.TableEditsReportAnyChange | modules/ui_asset_management.py:565-605 | when no two rows share an entry, a change is reported iff some row changes a field of the entry it was built from |
| AssetManagement.TableEditsTouchOnlyEditedEntries | modules/ui_asset_management.py:565-605 | no change reported means the same portfolio, and entries no row points at are untouched |
| AssetManagement.ApplyTableEdits | modules/ui_asset_management.py:565-605 | the loop computes the edited portfolio and whether anything changed |
| AssetManagement.SaveTableEdits | modules/ui_asset_management.py:562-611 | on a change the edited portfolio is stored and a refresh requested; otherwise nothing changes |
| Manager.FormTypes | modules/ui_manager.py:434-435 | the form shows the four standard types and the held types, and nothing else |
| Manager.TotalPctAppend | modules/ui_manager.py:447 | the running total adds each entered percentage |
| Manager.FormTotal | modules/ui_manager.py:440-447 | the loop total is the sum of the entered percentages |
| Manager.SaveAllocation | modules/ui_manager.py:468-475 | saved iff the total is ≤ 100, and then exactly the entered targets are stored |
| Manager.SavableFormValidates | modules/ui_manager.py:468-475 | targets the form lets through pass the AllocationSettings validator |
| StateManager.Removed | modules/state_manager.py:128-131 | an in-range index is removed, shifting the rest down; otherwise the list is unchanged |
| StateManager.Replaced | modules/state_manager.py:141-144 | only the in-range index is replaced |
| StateManager.RemoveUndoesAdd | modules/state_manager.py:110-131 | removing the entry just added gives the list back |
| StateManager.ReplaceWithSameIsIdentity | modules/state_manager.py:141-144 | writing back the same entry changes nothing |
| StateManager.RemovedKeepsOthers | modules/state_manager.py:128-131 | removal keeps every other entry (as a multiset) |
| StateManager.SessionStateManager.constructor | modules/state_manager.py:37-39 | a fresh session has no keys |
| StateManager.SessionStateManager.SetGoogleCreds | modules/state_manager.py:48-51 | stores the credentials; authenticated iff they are present |
| StateManager.SessionStateManager.ClearGoogleCreds | modules/state_manager.py:53-56 | deletes the credentials; no longer authenticated |
| StateManager.SessionStateManager.SetUserInfo | modules/state_manager.py:63-66 | stores the user info and nothing else |
| StateManager.SessionStateManager.IsAuthenticated | modules/state_manager.py:69-71 | authenticated iff credentials are stored |
| StateManager.SessionStateManager.Portfolio | modules/state_manager.py:75-85 | returns the stored list; an absent list is initialised to [] |
| StateManager.SessionStateManager.SetPortfolio | modules/state_manager.py:87-90 | stores the list and nothing else |
| StateManager.SessionStateManager.AddAsset | modules/state_manager.py:110-119 | appends exactly one entry at the end |
| StateManager.SessionStateManager.RemoveAsset | modules/state_manager.py:121-131 | removes the in-range index, otherwise leaves the list unchanged |
| StateManager.SessionStateManager.UpdateAsset | modules/state_manager.py:133-144 | replaces only the in-range index |
| StateManager.SessionStateManager.ClearPortfolio | modules/state_manager.py:146-148 | the list becomes empty |
| StateManager.SessionStateManager.AllocationTargets | modules/state_manager.py:152-162 | returns the stored targets; absent targets are initialised with the defaults |
| StateManager.SessionStateManager.SetAllocationTargets | modules/state_manager.py:164-167 | stores the targets and nothing else |
| StateManager.SessionStateManager.AllocationSettings | modules/state_manager.py:169-176 | the stored (or default) targets run through the validator, and come back unchanged when accepted |
| StateManager.SessionStateManager.HasAutoUpdated | modules/state_manager.py:189-192 | false until set |
| StateManager.SessionStateManager.SetHasAutoUpdated | modules/state_manager.py:194-197 | the flag reads back as set |
| StateManager.SessionStateManager.LoadPortfolio | modules/state_manager.py:201-204 | false until set |
| StateManager.SessionStateManager.SetLoadPortfolio | modules/state_manager.py:206-209 | the flag reads back as set |
| StateManager.SessionStateManager.LoadAllocationTargets | modules/state_manager.py:211-214 | false until set |
| StateManager.SessionStateManager.SetLoadAllocationTargets | modules/state_manager.py:216-219 | the flag reads back as set |
| StateManager.SessionStateManager.DraftActions | modules/state_manager.py:223-228 | returns the stored drafts; absent drafts are initialised to [] |
| StateManager.SessionStateManager.ClearDraftActions | modules/state_manager.py:235-237 | the drafts become empty |
| StateManager.SessionStateManager.SetPageKeys | app.py:530-568 | the main script's own keys change and the managed keys do not |
| StateManager.SessionStateManager.ClearAll | modules/state_manager.py:266-284 | the eleven managed keys are deleted, every other key survives; logged out, flags false |
| StateManager.SessionStateManager.Initialize | modules/state_manager.py:286-295 | portfolio and targets exist afterwards, existing values kept |
| Models.Or | models.py:101-107 | Python `or`: the first value when truthy, else the second |
| Models.ToFloat | models.py:103-106 | a number converts to itself and None does not convert |
| Models.StripLeft | models.py:28 | the result is a suffix of s, every dropped character is whitespace, and no leading whitespace remains |
| Models.StripRight | models.py:28 | the result is a prefix of s, every dropped character is whitespace, and no trailing whitespace remains |
| Models.Strip | models.py:28 | the result is stripped |
| Models.StripIsSurroundedInfix | models.py:28 | the stripped string stands in s with only whitespace before and after it |
| Models.StripKeepsStripped | models.py:28 | stripping a stripped string changes nothing |
| Models.UpperChar | models.py:42-46 | a-z becomes the matching letter of A-Z; every other character is kept |
| Models.Upper | models.py:42-46 | same length, and each character is upper-cased at its own position |
| Models.UpperKeepsUpper | models.py:42-46 | upper-casing an upper-case string changes nothing |
| Models.UpperOfStripped | models.py:27-46 | the stored ticker is both stripped and upper-case |
| Models.NewAsset | models.py:27-57 | accepted iff no field fails; all failing fields are reported; the stored ticker is stripped and upper-cased; an unknown type is only warned about |
| Models.ToDict | models.py:59-76 | every CSV key is present |
| Models.ParseOptionalFloat | models.py:91-98 | the first truthy of the two keys decides: a number is kept; missing, "", "N/A" give None; any other string gives what the parser gives, so an unparseable one gives None |
| Models.FromDict | models.py:79-110 | whatever it builds is a valid Asset |
| Models.ReadFields | models.py:100-110 | for type, ticker, currency and stamp a truthy capitalised key wins, else the lower-case key or its default ("USD", "N/A"); a non-zero numeric quantity, cost or manual price is read as itself; SL and TP go through parse_optional_float; an empty record gives the defaults: quantity, cost and price 0, "USD", "N/A", no SL/TP |
| Models.Reloaded | models.py:59-110 | no zero SL/TP and no empty stamp remains; no other field changes; an asset without these is its own reload |
| Models.DictRoundTrip | models.py:59-110 | from_dict(to_dict(a)) gives a back, except that a zero SL/TP becomes None and an empty stamp "N/A" |
| Models.RebuildReloaded | models.py:100-110 | the reloaded asset passes the validators unchanged |
| Models.ToDictReadsBack | models.py:66-110 | the fields from_dict reads from to_dict's output, key by key |
| Models.EmptyTypeDoesNotRoundTrip | models.py:101 | an asset with an empty type does not survive the round trip |
| Models.ValidateTargets | models.py:184-193 | accepted iff every percentage is in [0, 100]; otherwise the first entry out of range is reported, as negative when its percentage is below 0 and as over 100 otherwise |
| Holdings.TotalPct | models.py:195-197 | the sum of the target percentages, 0 for no targets; `Manager.TotalPctAppend` and `UiTools.PctsAddUp` tie it to a running total and to a plain sum of the percentages |
| UiTools.PctsAddUp | models.py:195-197 | the total equals the plain sum of the percentages taken in order |
| Holdings.TotalWithinHundredPerEntry | models.py:195-197 | targets each within 100 sum to at most 100 per entry |
| Models.IsValidAllocation | models.py:199-202 | valid iff the targets sum to 100 within 0.01, that is strictly between 99.99 and 100.01 |
| Models.ValidAllocationBoundsEachTarget | models.py:195-202 | in a valid allocation without negative entries no target exceeds 100.01 |
| Models.TotalBoundsEachTarget | models.py:195-197 | with non-negative targets, each is at most the total |
| Models.NonNegativeTotal | models.py:195-197 | non-negative targets have a non-negative total |
| Models.NewDeploymentAction | models.py:243-260 | accepted iff price, qty and total are > 0 and the total is within 0.01 of price·qty |
| Models.ExactTotalIsAccepted | models.py:252-260 | a total of exactly price·qty is accepted |
| Config.Validate | config.py:170-186 | raises for a negative threshold, then for fewer than one worker; otherwise it only reports whether the targets warn |
| Config.WarnsAboutTargets | config.py:172-179 | the warning is issued iff the targets sum to less than 99.99 or more than 100.01 |
| Config.DefaultsAreAccepted | config.py:166-186 | the shipped defaults pass without a warning, and the default targets sum to exactly 100 |
| Config.TargetsNeverBlockStartUp | config.py:172-179 | the targets never decide whether start-up succeeds |
| RiskManagement.TrueRange | modules/risk_management.py:42-51 | the maximum of high − low, \|high − previous close\| and \|low − previous close\| |
| RiskManagement.Atr | modules/risk_management.py:36-54 | no ATR iff there are fewer than period + 1 bars; otherwise period·ATR is the sum of the last period true ranges, so the ATR is their mean |
| RiskManagement.AtrWithinWindow | modules/risk_management.py:47-54 | the ATR lies between the smallest and the largest true range of its window |
| RiskManagement.SumTrueRangeNonNegative | modules/risk_management.py:47-51 | true ranges after the first bar add up to ≥ 0 |
| RiskManagement.AtrNonNegative | modules/risk_management.py:42-57 | the ATR is never negative |
| RiskManagement.SumTrueRangeOfSuffix | modules/risk_management.py:45-51 | true ranges depend only on a bar and the one before it |
| RiskManagement.AtrUsesOnlyRecentBars | modules/risk_management.py:53-54 | the ATR depends only on the last period + 1 bars |
| RiskManagement.EntryLevels | modules/risk_management.py:94-107 | with a positive 1R the stop is below the entry, the target above it for a positive ratio, and the size is non-negative for a non-negative loss budget |
| RiskManagement.SuggestForEntry | modules/risk_management.py:94-118 | each figure is the exact entry level rounded, the R distance to 4 places and the rest to 2; with exact rounding it is the entry plan itself |
| RiskManagement.EntryRiskMatchesBudget | modules/risk_management.py:93-107 | 1R = ATR·multiplier, SL = entry − 1R, TP = entry + 1R·ratio; with 1R > 0 the risk is the maximum loss, otherwise the quantity is 0; reward = risk·ratio |
| RiskManagement.SuggestForHolding | modules/risk_management.py:155-184 | no suggestion iff the ATR is unavailable; otherwise the holding levels at that ATR, rounded: SL, TP, risk, reward and P/L% to 2 places, ATR and 1R to 4; with exact rounding, the levels themselves |
| RiskManagement.HoldingLevels | modules/risk_management.py:162-174 | with a positive 1R the stop is below the average cost and the target above it for a positive ratio; for a positive cost the P/L percentage is positive (negative) iff the price is above (below) the cost |
| RiskManagement.HoldingRiskIsOneR | modules/risk_management.py:162-174 | the current risk is 1R and the reward 1R·ratio; the P/L percentage recovers the current price from the average cost, and is 0 without a cost |
| RiskManagement.HoldingLevelsAreEntryLevelsAtCost | modules/risk_management.py:163-167 | a holding's SL/TP are the entry levels at its average cost |
| LoanService.PeriodFrom | modules/loan_service.py:44-60 | interest = balance·rate; a regular period pays the level payment; the last period pays the whole balance plus interest and closes the loan; the balance is never negative |
| LoanService.MonthlyRate | modules/loan_service.py:30 | the monthly rate·1200 is the annual percentage, and it is positive iff the annual rate is |
| LoanService.LevelPayment | modules/loan_service.py:35-38 | with interest, the magnitude of the annuity payment; without, the equal share that times the months gives the principal |
| LoanService.NextMonth | modules/loan_service.py:70-73 | for a valid month, exactly one calendar month later (December rolls into January), on the same day capped at 28 |
| LoanService.AmortizationStep | modules/loan_service.py:44-60 | the loop body computes that period |
| LoanService.DateAfterShape | modules/loan_service.py:70-74 | each step advances one month (December rolls into January of the next year); the day is capped at 28 |
| LoanService.YearsNondecreasing | modules/loan_service.py:70 | the years of the payment dates never decrease |
| LoanService.Rows | modules/loan_service.py:43-85 | the first m rows, all with dates inside the calendar |
| LoanService.Schedule | modules/loan_service.py:11-86 | a schedule exists iff the payment is defined, the start date parses and the last payment date is within the year 9999; it then has max(0, months) rows |
| LoanService.CalculateAmortizationSchedule | modules/loan_service.py:11-86 | the method computes the schedule, including its error cases |
| LoanService.AmortizationLoop | modules/loan_service.py:40-86 | the loop builds exactly the scheduled rows |
| LoanService.ItemIsRow | modules/loan_service.py:76-83 | the row the loop appends is the scheduled row |
| LoanService.CreateLoanPlan | modules/loan_service.py:88-107 | the plan stores its inputs with the computed schedule; a schedule error propagates |
| LoanService.RowsAreNumbered | modules/loan_service.py:76-77 | row j is payment number j + 1 |
| LoanService.ScheduleShape | modules/loan_service.py:43-85 | exactly period_months rows, numbered from 1, with the rounded amounts of each period |
| LoanService.ScheduleDates | modules/loan_service.py:70-78 | row j is dated j + 1 months after the start |
| LoanService.ScheduleErrors | modules/loan_service.py:35-73 | a zero division iff the rate is ≤ 0 and there are no months; a bad start date; a date past year 9999 |
| LoanService.LastPeriodClosesLoan | modules/loan_service.py:51-55 | the last period pays exactly the remaining balance plus interest and ends at 0 |
| LoanService.BalanceNeverNegative | modules/loan_service.py:56-60 | the remaining balance is never negative |
| LoanService.RepaidSoFar | modules/loan_service.py:43-57 | without clamping, the principal repaid so far is the principal minus the balance |
| LoanService.ScheduleRepaysPrincipal | modules/loan_service.py:43-57 | without clamping, the principal parts add up to the principal |
| App.TrimLeft | app.py:522 | only leading spaces are dropped |
| App.FirstWord | app.py:522 | the longest space-free prefix |
| App.CurrencyCode | app.py:522 | a display without a space is the code itself; otherwise the code is the first word after the leading spaces, ending at a space or the end; no code when it is all spaces |
| App.CodeOfLabel | app.py:522 | a label "code description" and a bare code both give the code back |
| App.CurrencySymbol | app.py:525-526 | the configured symbol of the base currency ("Auto" counts as TWD), else "$" |
| App.Valuation | app.py:540-546 | one row per holding, and the total is the net worth = assets − liabilities; an empty portfolio gives an empty table with total 0 |
| App.Decide | app.py:530-568 | a first fetch iff unfetched; a forced fetch iff the flag is set; a recompute iff the currency changed; otherwise the cache is reused |
| App.KeysAfter | app.py:530-568 | after a recompute the keys record the table, its total and the currency and mark the data fetched; a reuse changes no key; a refresh request survives only a first fetch |
| App.CacheSettles | app.py:530-568 | after a recompute, the next run reuses the cache (two runs when the first run was also forced) |
| App.RefreshRequestIsHonoured | app.py:534-536 | a set refresh flag always causes a recompute |
| App.LoadValuation | app.py:528-568 | recomputes and records the table, total and currency unless the cache is reused; then nothing changes |
| App.StatusOf | app.py:271-288 | error iff some quote failed, synced iff none failed and some succeeded, up to date otherwise |
| App.RefreshStatus | app.py:259-288 | "up to date" iff there was no candidate; "error" iff some candidate's quote failed |
| App.EveryQuoteCounts | app.py:277-282 | the count of quotes obtained equals the number of candidates iff every candidate's quote succeeded |
| App.SyncedLeavesNothingStale | app.py:277-282 | after a synced update no holding is stale |
| App.RefreshCopy | app.py:262-263 | the updated list is the refreshed portfolio, with its counts |
| App.AutoUpdateOnce | app.py:259-289 | runs once per session on a non-empty portfolio, marks the session, and requests a recompute iff something was quoted; up to date leaves the portfolio unchanged |

## Left out

- Yahoo Finance calls, `search_yahoo_ticker` and `fetch_historical_data` are parameters: a quote function, a close history and OHLC bars. An empty history stands for "no rows" and for an exception alike.
- Retries and back-off: only declared in the configuration; no code uses them.
- The thread pool of `auto_update_portfolio` is a sequential loop. Each task writes only its own index, so the order of completion does not matter (`QuotingAllCandidatesRefreshes`).
- Streamlit caching, widgets, charts, CSS and messages are not modelled; a user's input is a parameter of the member it reaches.
- `save_all_data`, Drive/Excel/CSV I/O, the dev-mode file loading, OAuth and encryption are left out. They are I/O or foreign libraries.
- The legacy/new key pairs of a portfolio dict are one field. So the rule "update a legacy key only when it is present" has no counterpart, and neither has the key mismatch between `get_market_data` (legacy keys) and the pages (new keys).
- `get_portfolio_assets`/`set_portfolio_assets` and `set_allocation_settings` are left out. They only convert between dicts and records, which `Models.ToDict`/`Models.FromDict` cover.
- The clock is a parameter (`now`, or the `stamp` string written from it).
- ParseStamp, ParseDate: only the zero-padded layout is accepted, with ASCII digits and exactly one space between date and time. `strptime` also takes single-digit fields, runs of whitespace and non-ASCII digits. Such stamps count as unparseable here, and so `IsOutdated` treats them as outdated.
- FormatDate, FormatStamp: years below 1000 are zero-padded, and the round trips need year ≥ 1000.
- IEEE floating point, NaN and rounding are not modelled: money is `real`. Python's `round` and `numpy_financial.pmt` are uninterpreted parameters. The only pandas infinity modelled is the unguarded division of `render_rebalancing` (`Dashboard.Extended`).
- SuggestForHolding: Python's `round` is a parameter, so the relations of `HoldingRiskIsOneR` hold for the returned figures only up to that rounding.
- SuggestForEntry: Python's `round` is a parameter, so the budget and ordering properties are proved for the exact levels (`EntryLevels`, `EntryRiskMatchesBudget`) and hold for the returned figures only up to that rounding.
- Atr: requires a period of at least 1. The pages' sliders offer 7 to 30 (modules/ui_risk_analysis.py:215-221, modules/ui_tools.py:575-581), so no caller passes less. `calculate_atr` turns every exception into None; here a failed history fetch is an empty bar list, which gives None through the "too few bars" case.
- BaseSuggestions: empty targets give no result, where the Python raises a KeyError on the missing "Gap" column.
- SpreadSuggestionsFillTheFund: the lower bound on each suggestion needs non-negative target percentages. The form only accepts those.
- Upper: only the ASCII letters a-z are upper-cased. Python's `str.upper` covers all of Unicode, so a ticker with other lower-case letters is stored differently.
- CurrencyCode: only ' ' counts as a separator. Python's `split()` also splits on tabs and newlines, which the radio labels never contain.
- EditIsIdempotent: needs non-empty account ids. An empty id reads as "default_main" and would be re-reported.
- AddAssetDialog: when the loan schedule raises, the entry stays appended and no refresh is requested. The Python exception ends the run at that point.
- LastAccountWins: account dicts are (name, id) pairs; the id is `account_id`, or `id` when that is falsy.
- TransferTargets: a set; the order of the selectbox is not modelled.
- The `LoanScheduleItem` and `LoanPlan` classes are not part of this model; their fields are taken from their use in the loan service.
- App.CacheSettles: when the auto-update sets the refresh flag on the very first run, the valuation is computed on two consecutive runs. This is stated, not treated as a fault.
- The column order of the valuation table, its `History` series index, and the status labels' emoji are not modelled; `Status` is an enumeration.
