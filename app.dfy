/** The main script's own logic: the once-per-session price refresh and
    its status line, the display currency and its symbol, and the decision
    whether to recompute the valuation table or reuse the one cached in the
    session. */
module App {
  import opened Wrappers
  import opened Holdings
  import opened Config
  import opened Timestamps
  import opened MarketService
  import opened Dashboard
  import opened StateManager
  import opened AssetManagement

  // ---------------------------------------------------------------------
  // The display currency
  // ---------------------------------------------------------------------

  /** `s` without its leading spaces. */
  function TrimLeft(s: string): (r: string)
    ensures |r| <= |s| && r == s[|s| - |r|..]
    ensures forall i :: 0 <= i < |s| - |r| ==> s[i] == ' '
    ensures r != [] ==> r[0] != ' '
  {
    if s != [] && s[0] == ' ' then TrimLeft(s[1..]) else s
  }

  /** The characters of `s` before its first space. */
  function FirstWord(s: string): (w: string)
    ensures |w| <= |s| && w == s[..|w|]
    ensures ' ' !in w
    ensures |w| < |s| ==> s[|w|] == ' '
  {
    if s == [] || s[0] == ' ' then [] else [s[0]] + FirstWord(s[1..])
  }

  /** `w` stands in `s` after n leading spaces and ends at a space or at the
      end of `s`. */
  predicate LeadingWord(s: string, n: int, w: string)
  {
    && 0 <= n && n + |w| <= |s|
    && (forall i :: 0 <= i < n ==> s[i] == ' ')
    && s[n..n + |w|] == w
    && (n + |w| == |s| || s[n + |w|] == ' ')
  }

  /** The currency code of the chosen display option: the option itself, or
      its first word when it contains a space; an option of spaces only has
      no first word, which stops the script. */
  function CurrencyCode(display: string): (code: Option<string>)
    ensures ' ' !in display ==> code == Some(display)
    ensures ' ' in display && code.Some? ==> code.value != [] && ' ' !in code.value
    ensures code.None? <==> ' ' in display && forall i :: 0 <= i < |display| ==> display[i] == ' '
    ensures ' ' in display && code.Some? ==> exists n :: LeadingWord(display, n, code.value)
  {
    if ' ' !in display then Some(display)
    else
      var rest := TrimLeft(display);
      if rest == [] then None
      else
        var w := FirstWord(rest);
        var n := |display| - |rest|;
        assert display[n..n + |w|] == rest[..|w|];
        assert LeadingWord(display, n, w);
        Some(w)
  }

  /** An option written as a code, a space and a description selects that
      code; a bare code selects itself. */
  lemma CodeOfLabel(w: string, description: string)
    requires w != [] && ' ' !in w
    ensures CurrencyCode(w + " " + description) == Some(w)
    ensures CurrencyCode(w) == Some(w)
  {
    var display := w + " " + description;
    assert display[|w|] == ' ';
    var code := CurrencyCode(display);
    assert code.Some? by {
      assert display[0] == w[0];
    }
    var n :| LeadingWord(display, n, code.value);
    assert n == 0;
    var c := code.value;
    assert c == display[..|c|];
    assert |c| == |w|;
    assert c == display[..|w|] == w;
  }

  /** The symbol next to totals: that of the code, "Auto" counting as TWD,
      and "$" for a code without one. It is the symbol of the currency the
      valuation adds up in. */
  function CurrencySymbol(code: string): (symbol: string)
    ensures var base := BaseCurrency(code);
      && (base in CurrencySymbols ==> symbol == CurrencySymbols[base])
      && (base !in CurrencySymbols ==> symbol == "$")
    ensures code == "Auto" ==> symbol == "NT$"
  {
    var key := if code != "Auto" then code else "TWD";
    if key in CurrencySymbols then CurrencySymbols[key] else "$"
  }

  // ---------------------------------------------------------------------
  // The valuation table and its cache
  // ---------------------------------------------------------------------

  datatype Table = Table(rows: seq<Row>, total: real)

  /** The table and the net worth computed from the session's list: one row
      per holding, and the sum of the net values, which is assets less
      liabilities. */
  function Valuation(p: seq<Holding>, code: string, rate: real, history: string -> seq<real>,
                     now: DateTime, thresholdDays: int): (t: Table)
    requires Valid(now)
    ensures |t.rows| == |p|
    ensures forall i :: 0 <= i < |p| ==> t.rows[i] == ValueRow(p[i], code, rate, history, now, thresholdDays)
    ensures t.total == NetWorth(t.rows)
    ensures t.total == DashboardKpis(t.rows).assets - DashboardKpis(t.rows).liabilities
    ensures p == [] ==> t == Table([], 0.0)
  {
    var rows := seq(|p|, i requires 0 <= i < |p| => ValueRow(p[i], code, rate, history, now, thresholdDays));
    ValuationNetWorth(p, rows, code, rate, history, now, thresholdDays);
    Table(rows, NetWorth(rows))
  }

  datatype Decision = FirstFetch | ForcedFetch | CurrencyChanged | ReuseCache

  /** Whether this run recomputes the table: on the session's first run, on
      a refresh request, or when the display currency changed since the
      table was cached. */
  function Decide(k: PageKeys, code: string): (d: Decision)
    ensures d == FirstFetch <==> k.marketDataFetched.None?
    ensures d == ForcedFetch <==> k.marketDataFetched.Some? && k.forceRefresh == Some(true)
    ensures d == CurrencyChanged <==>
              k.marketDataFetched.Some? && k.forceRefresh != Some(true) && k.lastCurrency.Some? && k.lastCurrency.value != code
  {
    if k.marketDataFetched.None? then FirstFetch
    else if k.forceRefresh == Some(true) then ForcedFetch
    else if k.lastCurrency.Some? && k.lastCurrency.value != code then CurrencyChanged
    else ReuseCache
  }

  /** The keys after a run that produced table `t`. */
  function KeysAfter(k: PageKeys, code: string, t: Table): (r: PageKeys)
    ensures Decide(k, code) == ReuseCache ==> r == k
    ensures Decide(k, code) != ReuseCache ==>
              && r.marketDataFetched.Some? && r.lastMarketData == Some(t.rows)
              && r.lastTotalVal == Some(t.total) && r.lastCurrency == Some(code)
    ensures Decide(k, code) != FirstFetch ==> r.forceRefresh != Some(true)
  {
    var cached := (k0: PageKeys) => k0.(lastMarketData := Some(t.rows), lastTotalVal := Some(t.total),
                                        lastCurrency := Some(code));
    match Decide(k, code)
    case FirstFetch => cached(k.(marketDataFetched := Some(true)))
    case ForcedFetch => cached(k.(forceRefresh := Some(false)))
    case CurrencyChanged => cached(k)
    case ReuseCache => k
  }

  /** A run recomputes at most twice without a new request: the cache is
      reused from the second run on, or from the third when a refresh was
      already requested before the first table existed. */
  lemma CacheSettles(k: PageKeys, code: string, t1: Table, t2: Table)
    ensures var k1 := KeysAfter(k, code, t1);
      || Decide(k1, code) == ReuseCache
      || (Decide(k, code) == FirstFetch && k.forceRefresh == Some(true) && Decide(k1, code) == ForcedFetch)
    ensures Decide(KeysAfter(KeysAfter(k, code, t1), code, t2), code) == ReuseCache
  {
  }

  /** Every action that asks for a refresh gets a recomputed table on the
      next run. */
  lemma RefreshRequestIsHonoured(k: PageKeys, code: string)
    ensures Decide(Refreshing(k), code) == FirstFetch || Decide(Refreshing(k), code) == ForcedFetch
  {
  }

  /** The valuation block of the script. */
  method LoadValuation(s: SessionStateManager, code: string, rate: real, history: string -> seq<real>,
                       now: DateTime, thresholdDays: int)
      returns (t: Table)
    requires Valid(now)
    modifies s
    ensures var k := old(s.pageKeys);
      var p := old(s.portfolio).GetOr([]);
      && (Decide(k, code) != ReuseCache ==>
            t == Valuation(p, code, rate, history, now, thresholdDays)
            && s.State() == old(s.State()).(portfolio := Some(p), pageKeys := KeysAfter(k, code, t)))
      && (Decide(k, code) == ReuseCache ==>
            t == Table(k.lastMarketData.GetOr([]), k.lastTotalVal.GetOr(0.0)) && s.State() == old(s.State()))
  {
    var k := s.pageKeys;
    var d := Decide(k, code);
    if d == ReuseCache {
      return Table(k.lastMarketData.GetOr([]), k.lastTotalVal.GetOr(0.0));
    }
    if d == FirstFetch {
      s.SetPageKeys(k.(marketDataFetched := Some(true)));
    } else if d == ForcedFetch {
      s.SetPageKeys(k.(forceRefresh := Some(false)));
    }
    var p := s.Portfolio();
    if p != [] {
      var rows := GetMarketData(p, code, rate, history, now, thresholdDays);
      assert rows == Valuation(p, code, rate, history, now, thresholdDays).rows;
      t := Table(rows, NetWorth(rows));
    } else {
      t := Table([], 0.0);
    }
    s.SetPageKeys(s.pageKeys.(lastMarketData := Some(t.rows), lastTotalVal := Some(t.total), lastCurrency := Some(code)));
  }

  // ---------------------------------------------------------------------
  // The once-per-session price refresh
  // ---------------------------------------------------------------------

  datatype UpdateStatus = SomeFailed | Synced | UpToDate

  /** The status line of the refresh. */
  function StatusOf(success: nat, fail: nat): (status: UpdateStatus)
    ensures status == SomeFailed <==> fail > 0
    ensures status == Synced <==> fail == 0 && success > 0
    ensures status == UpToDate <==> fail == 0 && success == 0
  {
    if fail > 0 then SomeFailed else if success > 0 then Synced else UpToDate
  }

  /** The status the refresh of `p` reports. */
  function RefreshStatus(p: seq<Holding>, now: DateTime, thresholdDays: int, fetch: string -> Option<real>): (status: UpdateStatus)
    requires Valid(now)
    ensures status == UpToDate <==> Candidates(p, now, thresholdDays) == []
    ensures status == SomeFailed <==>
              exists k :: 0 <= k < |Candidates(p, now, thresholdDays)|
                && fetch(p[Candidates(p, now, thresholdDays)[k]].symbol).None?
  {
    var candidates := Candidates(p, now, thresholdDays);
    var success := CountQuoted(p, candidates, fetch);
    EveryQuoteCounts(p, candidates, fetch);
    StatusOf(success, |candidates| - success)
  }

  /** All candidates are counted exactly when every quote succeeded. */
  lemma {:induction false} EveryQuoteCounts(p: seq<Holding>, idx: seq<nat>, fetch: string -> Option<real>)
    requires forall k :: 0 <= k < |idx| ==> idx[k] < |p|
    ensures CountQuoted(p, idx, fetch) == |idx| <==> forall k :: 0 <= k < |idx| ==> fetch(p[idx[k]].symbol).Some?
  {
    if idx != [] {
      var init := idx[..|idx| - 1];
      assert forall k :: 0 <= k < |init| ==> init[k] == idx[k];
      EveryQuoteCounts(p, init, fetch);
    }
  }

  /** When no quote failed, nothing is left stale after the refresh. */
  lemma SyncedLeavesNothingStale(p: seq<Holding>, now: DateTime, thresholdDays: int, fetch: string -> Option<real>)
    requires Valid(now) && now.year >= 1000 && thresholdDays >= 1
    requires CountQuoted(p, Candidates(p, now, thresholdDays), fetch) == |Candidates(p, now, thresholdDays)|
    ensures var q := Refreshed(p, now, thresholdDays, fetch);
      forall j :: 0 <= j < |q| ==> !IsCandidate(q[j], now, thresholdDays)
  {
    var candidates := Candidates(p, now, thresholdDays);
    var q := Refreshed(p, now, thresholdDays, fetch);
    EveryQuoteCounts(p, candidates, fetch);
    forall j | 0 <= j < |q|
      ensures !IsCandidate(q[j], now, thresholdDays)
    {
      RefreshLeavesOnlyFailures(p, now, thresholdDays, fetch, j);
      if IsCandidate(p[j], now, thresholdDays) {
        var k :| 0 <= k < |candidates| && candidates[k] == j;
      }
    }
  }

  /** The refresh of a copy of the list, as `auto_update_portfolio` does it
      in place. */
  method RefreshCopy(p: seq<Holding>, fetch: string -> Option<real>, now: DateTime, thresholdDays: int)
      returns (q: seq<Holding>, success: nat, fail: nat)
    requires Valid(now)
    ensures q == Refreshed(p, now, thresholdDays, fetch)
    ensures success == CountQuoted(p, Candidates(p, now, thresholdDays), fetch)
    ensures success + fail == |Candidates(p, now, thresholdDays)|
  {
    var a := new Holding[|p|](i requires 0 <= i < |p| => p[i]);
    assert a[..] == p;
    success, fail := AutoUpdatePortfolio(a, fetch, now, thresholdDays);
    q := a[..];
  }

  /** The refresh block: it runs once per session, on a non-empty list.
      The list is replaced by the refreshed one, a refresh of the table is
      requested only when some price came in, and the session is marked as
      refreshed. "Up to date" means the list did not change; "synced" means
      no holding is left stale. */
  method AutoUpdateOnce(s: SessionStateManager, fetch: string -> Option<real>, now: DateTime, thresholdDays: int)
      returns (status: Option<UpdateStatus>)
    requires Valid(now)
    modifies s
    ensures var p := old(s.portfolio).GetOr([]);
      (p == [] || old(s.HasAutoUpdated())) ==>
        status == None && s.State() == old(s.State()).(portfolio := Some(p))
    ensures var p := old(s.portfolio).GetOr([]);
      p != [] && !old(s.HasAutoUpdated()) ==>
        var candidates := Candidates(p, now, thresholdDays);
        var success := CountQuoted(p, candidates, fetch);
        && status == Some(RefreshStatus(p, now, thresholdDays, fetch))
        && s.State() == old(s.State()).(portfolio := Some(Refreshed(p, now, thresholdDays, fetch)),
                                         hasAutoUpdatedFlag := Some(true),
                                         pageKeys := if success > 0 then Refreshing(old(s.pageKeys)) else old(s.pageKeys))
    ensures status == Some(UpToDate) ==> s.portfolio == old(s.portfolio)
    ensures status == Some(Synced) && now.year >= 1000 && thresholdDays >= 1 ==>
              forall j :: 0 <= j < |s.portfolio.value| ==> !IsCandidate(s.portfolio.value[j], now, thresholdDays)
  {
    var p := s.Portfolio();
    if p == [] || s.HasAutoUpdated() {
      return None;
    }
    var q, success, fail := RefreshCopy(p, fetch, now, thresholdDays);
    assert StatusOf(success, fail) == RefreshStatus(p, now, thresholdDays, fetch);
    if fail == 0 && success == 0 {
      RefreshWithoutCandidates(p, now, thresholdDays, fetch);
    }
    if fail == 0 && success > 0 && now.year >= 1000 && thresholdDays >= 1 {
      SyncedLeavesNothingStale(p, now, thresholdDays, fetch);
    }
    s.SetPortfolio(q);
    if success > 0 {
      s.SetPageKeys(Refreshing(s.pageKeys));
    }
    status := Some(StatusOf(success, fail));
    s.SetHasAutoUpdated(true);
  }
}
