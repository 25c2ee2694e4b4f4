/** Quotes, the staleness-driven price refresh, and the valuation table.

    Yahoo Finance is outside the model: a daily-close history is a parameter
    (`seq<real>`, empty when the call returns no rows or raises) and a quote
    is a parameter `string -> Option<real>`. */
module MarketService {
  import opened Wrappers
  import opened Holdings
  import opened Timestamps
  import opened Config

  // ---------------------------------------------------------------------
  // Quotes
  // ---------------------------------------------------------------------

  /** `get_exchange_rate`: the last close of the one-day "TWD=X" history, or
      the configured default when the history is empty (`Some([])`) or the
      call raised (`None`). */
  function ExchangeRate(closes: Option<seq<real>>): (rate: real)
    ensures closes.Some? && closes.value != [] ==> rate == closes.value[|closes.value| - 1]
    ensures closes.None? || closes.value == [] ==> rate == DefaultMarketData.defaultExchangeRate
  {
    if closes.Some? && closes.value != [] then closes.value[|closes.value| - 1]
    else DefaultMarketData.defaultExchangeRate
  }

  /** `fetch_single_price`: the last close of the one-day history; when that
      is empty, the `fast_info` last price if it is positive; otherwise no
      price. A history call that raises (`None`) fails outright. */
  function FetchSinglePrice(closes: Option<seq<real>>, lastPrice: Option<real>): (r: Option<real>)
    ensures closes.None? ==> r.None?
    ensures closes.Some? && closes.value != [] ==> r == Some(closes.value[|closes.value| - 1])
    ensures closes == Some([]) ==> (r.Some? <==> lastPrice.Some? && lastPrice.value > 0.0)
    ensures closes == Some([]) && r.Some? ==> r == lastPrice && r.value > 0.0
  {
    match closes
    case None => None
    case Some(c) =>
      if c != [] then Some(c[|c| - 1])
      else if lastPrice.Some? && lastPrice.value > 0.0 then lastPrice
      else None
  }

  // ---------------------------------------------------------------------
  // auto_update_portfolio
  // ---------------------------------------------------------------------

  /** A holding the refresh will try to quote: not cash or debt, and stale. */
  predicate IsCandidate(h: Holding, now: DateTime, thresholdDays: int)
    requires Valid(now)
  {
    !IsFaceValue(h) && IsOutdated(h.lastUpdate, now, thresholdDays)
  }

  /** The indices of the candidates, in list order (`outdated_items`). */
  function Candidates(p: seq<Holding>, now: DateTime, thresholdDays: int): (r: seq<nat>)
    requires Valid(now)
    ensures forall k :: 0 <= k < |r| ==> r[k] < |p| && IsCandidate(p[r[k]], now, thresholdDays)
    ensures forall j :: 0 <= j < |p| && IsCandidate(p[j], now, thresholdDays) ==> j in r
    ensures forall x, y :: 0 <= x < y < |r| ==> r[x] < r[y]
  {
    if p == [] then []
    else
      var rest := Candidates(p[..|p| - 1], now, thresholdDays);
      var last := if IsCandidate(p[|p| - 1], now, thresholdDays) then [|p| - 1] else [];
      CandidatesExtend(p, rest, last, now, thresholdDays);
      rest + last
  }

  /** The candidates of all but the last holding, followed by the last
      index when it is a candidate, are the candidates of the whole list. */
  lemma CandidatesExtend(p: seq<Holding>, rest: seq<nat>, last: seq<nat>, now: DateTime, thresholdDays: int)
    requires Valid(now) && p != []
    requires forall k :: 0 <= k < |rest| ==> rest[k] < |p| - 1 && IsCandidate(p[..|p| - 1][rest[k]], now, thresholdDays)
    requires forall j :: 0 <= j < |p| - 1 && IsCandidate(p[..|p| - 1][j], now, thresholdDays) ==> j in rest
    requires forall x, y :: 0 <= x < y < |rest| ==> rest[x] < rest[y]
    requires last == if IsCandidate(p[|p| - 1], now, thresholdDays) then [|p| - 1] else []
    ensures forall k :: 0 <= k < |rest + last| ==> (rest + last)[k] < |p| && IsCandidate(p[(rest + last)[k]], now, thresholdDays)
    ensures forall j :: 0 <= j < |p| && IsCandidate(p[j], now, thresholdDays) ==> j in rest + last
    ensures forall x, y :: 0 <= x < y < |rest + last| ==> (rest + last)[x] < (rest + last)[y]
  {
    var init := p[..|p| - 1];
    assert forall k :: 0 <= k < |rest| ==> p[rest[k]] == init[rest[k]];
    assert forall j :: 0 <= j < |p| - 1 ==> p[j] == init[j];
  }

  /** A holding after one quote attempt: on success its cached price becomes
      the quote and its stamp the current time; on failure it is untouched. */
  function Quoted(h: Holding, fetch: string -> Option<real>, stamp: string): (q: Holding)
    ensures fetch(h.symbol).Some? ==> q.manualPrice == fetch(h.symbol).value && q.lastUpdate == stamp
    ensures fetch(h.symbol).None? ==> q == h
    ensures q == h.(manualPrice := q.manualPrice, lastUpdate := q.lastUpdate)
  {
    match fetch(h.symbol)
    case Some(price) => h.(manualPrice := price, lastUpdate := stamp)
    case None => h
  }

  /** The portfolio after the refresh: every candidate quoted, every other
      holding as it was. */
  function Refreshed(p: seq<Holding>, now: DateTime, thresholdDays: int,
                     fetch: string -> Option<real>): (r: seq<Holding>)
    requires Valid(now)
    ensures |r| == |p|
  {
    seq(|p|, j requires 0 <= j < |p| =>
      if IsCandidate(p[j], now, thresholdDays) then Quoted(p[j], fetch, FormatStamp(now)) else p[j])
  }

  /** How many of the given holdings get a quote. */
  function CountQuoted(p: seq<Holding>, idx: seq<nat>, fetch: string -> Option<real>): (n: nat)
    requires forall k :: 0 <= k < |idx| ==> idx[k] < |p|
    ensures n <= |idx|
  {
    if idx == [] then 0
    else CountQuoted(p, idx[..|idx| - 1], fetch)
         + (if fetch(p[idx[|idx| - 1]].symbol).Some? then 1 else 0)
  }

  /** The first pass of `auto_update_portfolio`: collect the candidates. */
  method CollectCandidates(portfolio: array<Holding>, now: DateTime, thresholdDays: int)
      returns (outdated: seq<nat>)
    requires Valid(now)
    ensures outdated == Candidates(portfolio[..], now, thresholdDays)
  {
    outdated := [];
    var i := 0;
    while i < portfolio.Length
      invariant 0 <= i <= portfolio.Length
      invariant outdated == Candidates(portfolio[..i], now, thresholdDays)
    {
      assert portfolio[..i + 1][..i] == portfolio[..i];
      if !IsFaceValue(portfolio[i]) && IsOutdated(portfolio[i].lastUpdate, now, thresholdDays) {
        outdated := outdated + [i];
      }
      i := i + 1;
    }
    assert portfolio[..portfolio.Length] == portfolio[..];
  }

  /** `auto_update_portfolio`, updating the list in place. Returns the success
      and failure counts; with no candidates nothing is quoted and the list
      is left as it was. */
  method AutoUpdatePortfolio(portfolio: array<Holding>, fetch: string -> Option<real>,
                             now: DateTime, thresholdDays: int)
      returns (success: nat, fail: nat)
    requires Valid(now)
    modifies portfolio
    ensures portfolio[..] == Refreshed(old(portfolio[..]), now, thresholdDays, fetch)
    ensures success == CountQuoted(old(portfolio[..]), Candidates(old(portfolio[..]), now, thresholdDays), fetch)
    ensures success + fail == |Candidates(old(portfolio[..]), now, thresholdDays)|
  {
    ghost var p := portfolio[..];
    var outdated := CollectCandidates(portfolio, now, thresholdDays);
    if outdated == [] {
      RefreshWithoutCandidates(p, now, thresholdDays, fetch);
      return 0, 0;
    }
    success, fail := QuoteAll(portfolio, outdated, fetch, FormatStamp(now));
    QuotingAllCandidatesRefreshes(p, portfolio[..], now, thresholdDays, fetch, outdated);
  }

  /** The second pass of `auto_update_portfolio`: quote each collected index
      once and count the outcomes. Each index is written by its own task, so
      the thread pool's completion order does not matter and a sequential
      pass gives the same list. */
  method QuoteAll(portfolio: array<Holding>, outdated: seq<nat>, fetch: string -> Option<real>,
                  stamp: string)
      returns (success: nat, fail: nat)
    requires forall k :: 0 <= k < |outdated| ==> outdated[k] < portfolio.Length
    requires forall x, y :: 0 <= x < y < |outdated| ==> outdated[x] < outdated[y]
    modifies portfolio
    ensures forall j :: 0 <= j < portfolio.Length ==>
              portfolio[j] == (if j in outdated then Quoted(old(portfolio[j]), fetch, stamp) else old(portfolio[j]))
    ensures success == CountQuoted(old(portfolio[..]), outdated, fetch)
    ensures success + fail == |outdated|
  {
    ghost var p := portfolio[..];
    success, fail := 0, 0;
    var k := 0;
    while k < |outdated|
      invariant 0 <= k <= |outdated|
      invariant success == CountQuoted(p, outdated[..k], fetch)
      invariant success + fail == k
      invariant portfolio[..] == QuotedAt(p, outdated[..k], fetch, stamp)
    {
      var index := outdated[k];
      FreshIndex(outdated, k);
      PrefixExtends(outdated, k);
      CountQuotedStep(p, outdated, k, fetch);
      QuotedAtStep(p, outdated[..k], index, fetch, stamp);
      assert portfolio[index] == portfolio[..][index] == p[index];
      var quote := fetch(portfolio[index].symbol);
      if quote.Some? {
        portfolio[index] := portfolio[index].(manualPrice := quote.value, lastUpdate := stamp);
        success := success + 1;
      } else {
        fail := fail + 1;
      }
      k := k + 1;
    }
    assert outdated[..|outdated|] == outdated;
  }

  /** The list with the holdings at the given indices quoted. */
  function QuotedAt(p: seq<Holding>, idx: seq<nat>, fetch: string -> Option<real>, stamp: string): (q: seq<Holding>)
    ensures |q| == |p|
    ensures forall j :: 0 <= j < |p| ==> q[j] == if j in idx then Quoted(p[j], fetch, stamp) else p[j]
  {
    seq(|p|, j requires 0 <= j < |p| => if j in idx then Quoted(p[j], fetch, stamp) else p[j])
  }

  /** Quoting one index more changes that entry only. */
  lemma QuotedAtStep(p: seq<Holding>, idx: seq<nat>, x: nat, fetch: string -> Option<real>, stamp: string)
    requires x < |p| && x !in idx
    ensures QuotedAt(p, idx + [x], fetch, stamp) == QuotedAt(p, idx, fetch, stamp)[x := Quoted(p[x], fetch, stamp)]
  {
    var a := QuotedAt(p, idx + [x], fetch, stamp);
    var b := QuotedAt(p, idx, fetch, stamp)[x := Quoted(p[x], fetch, stamp)];
    forall j | 0 <= j < |p|
      ensures a[j] == b[j]
    {
      assert j in idx + [x] <==> j in idx || j == x;
    }
  }

  /** In an increasing list no index repeats an earlier one. */
  lemma FreshIndex(s: seq<nat>, k: int)
    requires 0 <= k < |s|
    requires forall x, y :: 0 <= x < y < |s| ==> s[x] < s[y]
    ensures s[k] !in s[..k]
  {
  }

  /** Counting one index more adds that index's outcome. */
  lemma CountQuotedStep(p: seq<Holding>, idx: seq<nat>, k: int, fetch: string -> Option<real>)
    requires 0 <= k < |idx| && forall j :: 0 <= j < |idx| ==> idx[j] < |p|
    ensures CountQuoted(p, idx[..k + 1], fetch)
            == CountQuoted(p, idx[..k], fetch) + (if fetch(p[idx[k]].symbol).Some? then 1 else 0)
  {
    assert idx[..k + 1][..k] == idx[..k];
  }

  lemma PrefixExtends(s: seq<nat>, k: int)
    requires 0 <= k < |s|
    ensures s[..k + 1] == s[..k] + [s[k]]
  {
  }

  lemma RefreshWithoutCandidates(p: seq<Holding>, now: DateTime, thresholdDays: int,
                                 fetch: string -> Option<real>)
    requires Valid(now) && Candidates(p, now, thresholdDays) == []
    ensures p == Refreshed(p, now, thresholdDays, fetch)
  {
    assert forall j :: 0 <= j < |p| ==> !IsCandidate(p[j], now, thresholdDays);
  }

  lemma QuotingAllCandidatesRefreshes(p: seq<Holding>, q: seq<Holding>, now: DateTime, thresholdDays: int,
                                      fetch: string -> Option<real>, outdated: seq<nat>)
    requires Valid(now) && outdated == Candidates(p, now, thresholdDays) && |q| == |p|
    requires forall j :: 0 <= j < |q| ==>
               q[j] == (if j in outdated then Quoted(p[j], fetch, FormatStamp(now)) else p[j])
    ensures q == Refreshed(p, now, thresholdDays, fetch)
  {
  }

  /** Every quoted candidate is fresh afterwards under any threshold of a day
      or more, so right after a refresh the only candidates left are the
      ones whose quote failed. */
  lemma RefreshLeavesOnlyFailures(p: seq<Holding>, now: DateTime, thresholdDays: int,
                                  fetch: string -> Option<real>, j: int)
    requires Valid(now) && now.year >= 1000 && thresholdDays >= 1 && 0 <= j < |p|
    ensures IsCandidate(Refreshed(p, now, thresholdDays, fetch)[j], now, thresholdDays)
            <==> IsCandidate(p[j], now, thresholdDays) && fetch(p[j].symbol).None?
  {
    if IsCandidate(p[j], now, thresholdDays) && fetch(p[j].symbol).Some? {
      FreshWhenJustStamped(now, thresholdDays);
    }
  }

  /** Cash, debt and fresh holdings are never quoted and never change. */
  lemma RefreshSkipsNonCandidates(p: seq<Holding>, now: DateTime, thresholdDays: int,
                                  fetch: string -> Option<real>, j: int)
    requires Valid(now) && 0 <= j < |p|
    requires IsFaceValue(p[j]) || !IsOutdated(p[j].lastUpdate, now, thresholdDays)
    ensures Refreshed(p, now, thresholdDays, fetch)[j] == p[j]
  {
  }

  /** A refresh changes at most the cached price and the stamp of a holding. */
  lemma RefreshOnlyTouchesPriceAndStamp(p: seq<Holding>, now: DateTime, thresholdDays: int,
                                        fetch: string -> Option<real>, j: int)
    requires Valid(now) && 0 <= j < |p|
    ensures Refreshed(p, now, thresholdDays, fetch)[j].(manualPrice := 0.0, lastUpdate := "")
            == p[j].(manualPrice := 0.0, lastUpdate := "")
  {
  }

  // ---------------------------------------------------------------------
  // get_market_data
  // ---------------------------------------------------------------------

  datatype Status =
    | Manual     // "✅ 手動": cash or debt at face value
    | Cached     // "💾 快取 (24h內)": a fresh cached price
    | Live       // "✅ 即時": the last close of the month's history
    | Stale      // "⚠️ 手動/舊資料": no history, the old cached price
    | CostOnly   // "⚠️ 僅顯示成本": no history and no cached price, the average cost

  /** The resolved price of one holding, its daily change as a fraction, the
      close series shown as its sparkline, and where the price came from. */
  datatype Priced = Priced(price: real, dailyChange: real, history: seq<real>, status: Status)

  /** The 30-day flat series drawn for a price that was not fetched. */
  function Flat(price: real): (s: seq<real>)
    ensures |s| == 30 && forall k :: 0 <= k < |s| ==> s[k] == price
  {
    seq(30, _ => price)
  }

  /** The price of one holding. `history` is the one-month close series of a
      ticker, empty when the call fails; it is consulted only for a stale or
      uncached investment. */
  function Price(h: Holding, history: string -> seq<real>, now: DateTime, thresholdDays: int): (r: Priced)
    requires Valid(now)
    ensures IsFaceValue(h) ==> r.status == Manual
    ensures r.status == Manual ==> IsFaceValue(h) && r.price == (if h.manualPrice > 0.0 then h.manualPrice else 1.0)
    ensures r.status == Cached <==>
              !IsFaceValue(h) && !IsOutdated(h.lastUpdate, now, thresholdDays) && h.manualPrice > 0.0
    ensures r.status == Cached || r.status == Stale ==> r.price == h.manualPrice && h.manualPrice > 0.0
    ensures r.status == Live ==> history(h.symbol) != [] && r.price == history(h.symbol)[|history(h.symbol)| - 1]
    ensures r.status == CostOnly ==> r.price == h.avgCost && h.manualPrice <= 0.0
    ensures r.status != Live ==> r.dailyChange == 0.0 && r.history == Flat(r.price)
    ensures r.status == Stale || r.status == CostOnly ==> history(h.symbol) == []
    ensures r.status == Live ==> r.history == history(h.symbol) && r.dailyChange == DailyChange(history(h.symbol))
  {
    if IsFaceValue(h) then
      var price := if h.manualPrice > 0.0 then h.manualPrice else 1.0;
      Priced(price, 0.0, Flat(price), Manual)
    else if !IsOutdated(h.lastUpdate, now, thresholdDays) && h.manualPrice > 0.0 then
      Priced(h.manualPrice, 0.0, Flat(h.manualPrice), Cached)
    else
      var closes := history(h.symbol);
      if closes != [] then
        Priced(closes[|closes| - 1], DailyChange(closes), closes, Live)
      else if h.manualPrice > 0.0 then
        Priced(h.manualPrice, 0.0, Flat(h.manualPrice), Stale)
      else
        Priced(h.avgCost, 0.0, Flat(h.avgCost), CostOnly)
  }

  /** The close before the last one, or the last one when there is only one. */
  function PreviousClose(closes: seq<real>): real
    requires closes != []
  {
    if |closes| > 1 then closes[|closes| - 2] else closes[|closes| - 1]
  }

  /** The change of the last close against the previous one, as a fraction;
      0 when the previous close is not positive. */
  function DailyChange(closes: seq<real>): (c: real)
    requires closes != []
    ensures PreviousClose(closes) > 0.0 ==> PreviousClose(closes) * c == closes[|closes| - 1] - PreviousClose(closes)
    ensures PreviousClose(closes) <= 0.0 ==> c == 0.0
  {
    var prev := PreviousClose(closes);
    if prev > 0.0 then (closes[|closes| - 1] - prev) / prev else 0.0
  }

  /** "Auto" aggregates in TWD; any other display currency is its own base. */
  function BaseCurrency(target: string): (b: string)
    ensures b != "Auto"
    ensures target == "Auto" ==> b == "TWD"
    ensures target != "Auto" ==> b == target
  {
    if target == "Auto" then "TWD" else target
  }

  /** The factor that takes an amount in `assetCurrency` to `base`, for a
      rate of TWD per USD. */
  function Multiplier(base: string, assetCurrency: string, rate: real): (m: real)
    ensures base == "TWD" && assetCurrency == "USD" ==> m == rate
    ensures base == "USD" && assetCurrency == "TWD" ==> if rate > 0.0 then m == 1.0 / rate else m == 1.0
    ensures !(base == "TWD" && assetCurrency == "USD") && !(base == "USD" && assetCurrency == "TWD") ==> m == 1.0
    ensures base == assetCurrency ==> m == 1.0
    ensures rate > 0.0 ==> m > 0.0
  {
    if base == "TWD" && assetCurrency == "USD" then rate
    else if base == "USD" && assetCurrency == "TWD" then (if rate > 0.0 then 1.0 / rate else 1.0)
    else 1.0
  }

  /** One row of the valuation table. Base columns are in the base currency;
      display columns in the holding's own currency under "Auto" and in the
      base currency otherwise. */
  datatype Row = Row(
    assetType: string, ticker: string, quantity: real,
    currentPrice: real, marketValue: real, netValue: real, totalCost: real, unrealizedPl: real,
    displayPrice: real, displayCostBasis: real, displayMarketValue: real,
    displayTotalCost: real, displayPl: real, displayCurrency: string,
    roi: real, dailyChangePct: real, history: seq<real>, status: Status,
    avgCost: real, currency: string, lastUpdate: string, accountId: string)

  /** P/L with the liability sign rule: for debt a growing balance is a loss. */
  function SignedPl(h: Holding, marketValue: real, totalCost: real): (pl: real)
    ensures pl > 0.0 <==> if IsLiability(h) then marketValue < totalCost else marketValue > totalCost
    ensures pl == 0.0 <==> marketValue == totalCost
    ensures pl * pl == (marketValue - totalCost) * (marketValue - totalCost)
  {
    if IsLiability(h) then totalCost - marketValue else marketValue - totalCost
  }

  /** The row `get_market_data` builds for one holding. */
  function ValueRow(h: Holding, target: string, rate: real, history: string -> seq<real>,
                    now: DateTime, thresholdDays: int): (r: Row)
    requires Valid(now)
    ensures r.assetType == h.assetType && r.ticker == h.symbol && r.quantity == h.quantity
    ensures r.currency == h.currency && r.lastUpdate == h.lastUpdate && r.accountId == h.accountId
    ensures r.status == Manual <==> IsFaceValue(h)
    ensures r.status != Live ==> r.dailyChangePct == 0.0 && |r.history| == 30
  {
    RowOf(h, Price(h, history, now, thresholdDays), target, rate)
  }

  /** A valuation row is the row of the holding at its resolved price. */
  lemma ValueRowOfPrice(h: Holding, target: string, rate: real, history: string -> seq<real>,
                        now: DateTime, thresholdDays: int)
    requires Valid(now)
    ensures ValueRow(h, target, rate, history, now, thresholdDays)
            == RowOf(h, Price(h, history, now, thresholdDays), target, rate)
  {
  }

  /** The row of a holding once its price is resolved. */
  function RowOf(h: Holding, priced: Priced, target: string, rate: real): (r: Row)
    ensures r.assetType == h.assetType && r.ticker == h.symbol && r.quantity == h.quantity
    ensures r.currency == h.currency && r.lastUpdate == h.lastUpdate && r.accountId == h.accountId
    ensures r.status == priced.status && r.history == priced.history
    ensures r.dailyChangePct == priced.dailyChange * 100.0
    ensures r.displayCurrency == if target == "Auto" then h.currency else target
  {
    var m := Multiplier(BaseCurrency(target), h.currency, rate);
    var basePrice := priced.price * m;
    var baseAvg := h.avgCost * m;
    var marketValue := basePrice * h.quantity;
    var totalCost := baseAvg * h.quantity;
    var pl := SignedPl(h, marketValue, totalCost);
    var auto := target == "Auto";
    var nativeValue := priced.price * h.quantity;
    var nativeCost := h.avgCost * h.quantity;
    Row(h.assetType, h.symbol, h.quantity,
        basePrice, marketValue, if IsLiability(h) then -marketValue else marketValue, totalCost, pl,
        if auto then priced.price else basePrice,
        if auto then h.avgCost else baseAvg,
        if auto then nativeValue else marketValue,
        if auto then nativeCost else totalCost,
        if auto then SignedPl(h, nativeValue, nativeCost) else pl,
        if auto then h.currency else BaseCurrency(target),
        if totalCost > 0.0 then pl / totalCost * 100.0 else 0.0,
        priced.dailyChange * 100.0, priced.history, priced.status,
        baseAvg, h.currency, h.lastUpdate, h.accountId)
  }

  /** `get_market_data`: one row per holding, in list order; an empty
      portfolio gives an empty table. */
  method GetMarketData(portfolio: seq<Holding>, target: string, rate: real,
                       history: string -> seq<real>, now: DateTime, thresholdDays: int)
      returns (rows: seq<Row>)
    requires Valid(now)
    ensures |rows| == |portfolio|
    ensures forall i :: 0 <= i < |rows| ==> rows[i] == ValueRow(portfolio[i], target, rate, history, now, thresholdDays)
  {
    rows := [];
    for i := 0 to |portfolio|
      invariant |rows| == i
      invariant forall k :: 0 <= k < i ==> rows[k] == ValueRow(portfolio[k], target, rate, history, now, thresholdDays)
    {
      var row := ValueRow(portfolio[i], target, rate, history, now, thresholdDays);
      assert forall k :: 0 <= k < i ==> (rows + [row])[k] == rows[k];
      rows := rows + [row];
    }
  }

  /** Net value counts debt against net worth, and P/L follows the liability
      sign rule; ROI is P/L per unit of cost, in percent. */
  lemma RowSignRules(h: Holding, target: string, rate: real, history: string -> seq<real>,
                     now: DateTime, thresholdDays: int)
    requires Valid(now)
    ensures var r := ValueRow(h, target, rate, history, now, thresholdDays);
      && (IsLiability(h) ==> r.netValue == -r.marketValue && r.unrealizedPl == r.totalCost - r.marketValue)
      && (!IsLiability(h) ==> r.netValue == r.marketValue && r.unrealizedPl == r.marketValue - r.totalCost)
      && (r.totalCost > 0.0 ==> r.roi * r.totalCost == r.unrealizedPl * 100.0)
      && (r.totalCost <= 0.0 ==> r.roi == 0.0)
  {
    var priced := Price(h, history, now, thresholdDays);
    ValueRowOfPrice(h, target, rate, history, now, thresholdDays);
    RowOfSignRules(h, priced, target, rate);
  }

  /** The sign rules hold whatever the resolved price. */
  lemma RowOfSignRules(h: Holding, priced: Priced, target: string, rate: real)
    ensures var r := RowOf(h, priced, target, rate);
      && (IsLiability(h) ==> r.netValue == -r.marketValue && r.unrealizedPl == r.totalCost - r.marketValue)
      && (!IsLiability(h) ==> r.netValue == r.marketValue && r.unrealizedPl == r.marketValue - r.totalCost)
      && (r.totalCost > 0.0 ==> r.roi * r.totalCost == r.unrealizedPl * 100.0)
      && (r.totalCost <= 0.0 ==> r.roi == 0.0)
  {
    var r := RowOf(h, priced, target, rate);
    if r.totalCost > 0.0 {
      assert r.roi == r.unrealizedPl / r.totalCost * 100.0;
    }
  }

  /** Base columns are price and cost converted with the multiplier and
      multiplied by the quantity. */
  lemma RowBaseColumns(h: Holding, target: string, rate: real, history: string -> seq<real>,
                       now: DateTime, thresholdDays: int)
    requires Valid(now)
    ensures var r := ValueRow(h, target, rate, history, now, thresholdDays);
      var m := Multiplier(BaseCurrency(target), h.currency, rate);
      && r.marketValue == Price(h, history, now, thresholdDays).price * m * h.quantity
      && r.totalCost == h.avgCost * m * h.quantity
      && r.currentPrice == Price(h, history, now, thresholdDays).price * m && r.avgCost == h.avgCost * m
  {
    var priced := Price(h, history, now, thresholdDays);
    var m := Multiplier(BaseCurrency(target), h.currency, rate);
    var r := ValueRow(h, target, rate, history, now, thresholdDays);
    ValueRowOfPrice(h, target, rate, history, now, thresholdDays);
    RowOfBaseColumns(h, priced, target, rate);
    assert r.marketValue == priced.price * m * h.quantity && r.totalCost == h.avgCost * m * h.quantity;
    assert r.currentPrice == priced.price * m && r.avgCost == h.avgCost * m;
  }

  lemma RowOfBaseColumns(h: Holding, priced: Priced, target: string, rate: real)
    ensures var r := RowOf(h, priced, target, rate);
      var m := Multiplier(BaseCurrency(target), h.currency, rate);
      && r.marketValue == priced.price * m * h.quantity
      && r.totalCost == h.avgCost * m * h.quantity
      && r.currentPrice == priced.price * m && r.avgCost == h.avgCost * m
  {
  }

  /** Under "Auto" the display columns are the native amounts in the
      holding's currency, with the sign rule. */
  lemma AutoDisplayIsNative(h: Holding, rate: real, history: string -> seq<real>,
                            now: DateTime, thresholdDays: int)
    requires Valid(now)
    ensures var r := ValueRow(h, "Auto", rate, history, now, thresholdDays);
      && r.displayPrice == Price(h, history, now, thresholdDays).price && r.displayCostBasis == h.avgCost
      && r.displayMarketValue == r.displayPrice * h.quantity && r.displayTotalCost == h.avgCost * h.quantity
      && r.displayPl == SignedPl(h, r.displayMarketValue, r.displayTotalCost)
  {
    var priced := Price(h, history, now, thresholdDays);
    ValueRowOfPrice(h, "Auto", rate, history, now, thresholdDays);
    RowOfAutoNative(h, priced, rate);
  }

  /** Converting the "Auto" display columns with the multiplier gives the
      base columns back. */
  lemma AutoDisplayConvertsToBase(h: Holding, rate: real, history: string -> seq<real>,
                                  now: DateTime, thresholdDays: int)
    requires Valid(now)
    ensures var r := ValueRow(h, "Auto", rate, history, now, thresholdDays);
      var m := Multiplier("TWD", h.currency, rate);
      && r.displayCurrency == h.currency
      && r.displayPrice * m == r.currentPrice
      && r.displayMarketValue * m == r.marketValue
      && r.displayTotalCost * m == r.totalCost
      && r.displayPl * m == r.unrealizedPl
  {
    var priced := Price(h, history, now, thresholdDays);
    ValueRowOfPrice(h, "Auto", rate, history, now, thresholdDays);
    RowOfAutoDisplay(h, priced, rate);
  }

  lemma RowOfAutoNative(h: Holding, priced: Priced, rate: real)
    ensures var r := RowOf(h, priced, "Auto", rate);
      && r.displayPrice == priced.price && r.displayCostBasis == h.avgCost
      && r.displayMarketValue == priced.price * h.quantity && r.displayTotalCost == h.avgCost * h.quantity
      && r.displayPl == SignedPl(h, priced.price * h.quantity, h.avgCost * h.quantity)
  {
  }

  lemma RowOfAutoDisplay(h: Holding, priced: Priced, rate: real)
    ensures var r := RowOf(h, priced, "Auto", rate);
      var m := Multiplier("TWD", h.currency, rate);
      && r.displayCurrency == h.currency
      && r.displayPrice * m == r.currentPrice
      && r.displayMarketValue * m == r.marketValue
      && r.displayTotalCost * m == r.totalCost
      && r.displayPl * m == r.unrealizedPl
  {
    assert BaseCurrency("Auto") == "TWD";
    ScaleNativeColumns(priced.price, h.avgCost, h.quantity, Multiplier("TWD", h.currency, rate));
  }

  /** Converting a native value, cost or their difference is converting the
      price and the average cost first. */
  lemma ScaleNativeColumns(price: real, avgCost: real, quantity: real, m: real)
    ensures (price * quantity) * m == (price * m) * quantity
    ensures (avgCost * quantity) * m == (avgCost * m) * quantity
    ensures (price * quantity - avgCost * quantity) * m == (price * m) * quantity - (avgCost * m) * quantity
    ensures (avgCost * quantity - price * quantity) * m == (avgCost * m) * quantity - (price * m) * quantity
  {
  }

  /** With a fixed display currency the display columns are the base columns. */
  lemma FixedDisplayIsBase(h: Holding, target: string, rate: real, history: string -> seq<real>,
                           now: DateTime, thresholdDays: int)
    requires Valid(now) && target != "Auto"
    ensures var r := ValueRow(h, target, rate, history, now, thresholdDays);
      && r.displayCurrency == target
      && r.displayPrice == r.currentPrice && r.displayMarketValue == r.marketValue
      && r.displayTotalCost == r.totalCost && r.displayPl == r.unrealizedPl
  {
  }

  /** Converting USD to TWD and back is the identity for a positive rate. */
  lemma MultipliersAreInverse(rate: real)
    requires rate > 0.0
    ensures Multiplier("TWD", "USD", rate) * Multiplier("USD", "TWD", rate) == 1.0
  {
  }

  /** Cash, debt and fresh cached holdings are valued without a fetch: the
      history source does not matter to their rows. */
  lemma NoFetchForFaceValueOrCached(h: Holding, target: string, rate: real,
                                    history1: string -> seq<real>, history2: string -> seq<real>,
                                    now: DateTime, thresholdDays: int)
    requires Valid(now)
    requires IsFaceValue(h) || (!IsOutdated(h.lastUpdate, now, thresholdDays) && h.manualPrice > 0.0)
    ensures ValueRow(h, target, rate, history1, now, thresholdDays)
            == ValueRow(h, target, rate, history2, now, thresholdDays)
  {
    assert Price(h, history1, now, thresholdDays) == Price(h, history2, now, thresholdDays);
  }

  /** The live close comes first: an investment that is not cached and
      whose history has rows is priced live, at its last close. */
  lemma LiveCloseFirst(h: Holding, history: string -> seq<real>, now: DateTime, thresholdDays: int)
    requires Valid(now)
    requires !IsFaceValue(h) && history(h.symbol) != []
    requires Price(h, history, now, thresholdDays).status != Cached
    ensures Price(h, history, now, thresholdDays).status == Live
    ensures Price(h, history, now, thresholdDays).price == history(h.symbol)[|history(h.symbol)| - 1]
  {
  }

  /** A live price with a positive previous close reproduces that close from
      the reported daily change. */
  lemma DailyChangeRecoversPreviousClose(h: Holding, history: string -> seq<real>,
                                         now: DateTime, thresholdDays: int)
    requires Valid(now)
    requires Price(h, history, now, thresholdDays).status == Live
    requires |history(h.symbol)| > 1 && history(h.symbol)[|history(h.symbol)| - 2] > 0.0
    ensures var r := Price(h, history, now, thresholdDays);
      var prev := history(h.symbol)[|history(h.symbol)| - 2];
      prev * (1.0 + r.dailyChange) == r.price
  {
  }
}
