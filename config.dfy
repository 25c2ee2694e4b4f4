/** The application settings that the core reads, and the start-up check
    `AppConfig._validate`. */
module Config {
  import opened Wrappers
  import opened Numeric
  import opened Holdings

  datatype MarketDataConfig = MarketDataConfig(
    exchangeRateCacheTtl: int,     // seconds
    defaultExchangeRate: real,     // TWD per USD when no quote is available
    priceUpdateThresholdDays: int,
    maxConcurrentUpdates: int,
    maxRetries: int,
    retryDelay: real)              // seconds

  const DefaultMarketData: MarketDataConfig :=
    MarketDataConfig(3600, 32.5, 1, 10, 3, 1.0)

  /** The symbol shown next to totals, by currency code. */
  const CurrencySymbols: map<string, string> := map["USD" := "$", "TWD" := "NT$"]

  /** The band, in percentage points, inside which an asset type counts as
      on target. */
  const AllocationTolerancePct: real := 2.0

  const DefaultTargets: Targets :=
    [Target("美股", 40.0), Target("台股", 40.0), Target("虛擬貨幣", 10.0), Target("稀有金屬", 10.0)]

  datatype ConfigError = NegativeThreshold | NoWorkers

  /** The targets warrant the "do not sum to 100%" warning. */
  predicate WarnsAboutTargets(targets: Targets)
    ensures WarnsAboutTargets(targets) <==> TotalPct(targets) < 99.99 || TotalPct(targets) > 100.01
  {
    Abs(TotalPct(targets) - 100.0) > 0.01
  }

  /** `_validate`: Ok(w) when the configuration is accepted, where w says
      whether the allocation warning was issued; Err for the first check
      that raises. */
  function Validate(market: MarketDataConfig, targets: Targets): (r: Result<bool, ConfigError>)
    ensures r == Err(NegativeThreshold) <==> market.priceUpdateThresholdDays < 0
    ensures r == Err(NoWorkers) <==>
              market.priceUpdateThresholdDays >= 0 && market.maxConcurrentUpdates < 1
    ensures r.Ok? ==> (r.value <==> WarnsAboutTargets(targets))
  {
    var warned := WarnsAboutTargets(targets);
    if market.priceUpdateThresholdDays < 0 then Err(NegativeThreshold)
    else if market.maxConcurrentUpdates < 1 then Err(NoWorkers)
    else Ok(warned)
  }

  /** The shipped defaults are accepted without a warning. */
  lemma DefaultsAreAccepted()
    ensures Validate(DefaultMarketData, DefaultTargets) == Ok(false)
    ensures DistinctKeys(DefaultTargets) && TotalPct(DefaultTargets) == 100.0
  {
    assert TotalPct(DefaultTargets) == 100.0;
  }

  /** Only the market settings decide acceptance; the targets only decide the
      warning. */
  lemma TargetsNeverBlockStartUp(market: MarketDataConfig, t1: Targets, t2: Targets)
    ensures Validate(market, t1).Ok? <==> Validate(market, t2).Ok?
  {
  }
}
