/** `SessionStateManager`: typed access to the per-browser-session store.
    Each key the manager knows is a field; `None` means the key is absent
    from the store. The keys the main script and the pages set directly,
    past the manager, are grouped in `pageKeys`; `clear_all` does not touch
    them. */
module StateManager {
  import opened Wrappers
  import opened Holdings
  import opened Config
  import opened MarketService
  import opened LoanService
  import opened Models

  /** The list operations of the manager, as functions on the list. */

  /** `portfolio.pop(index)` behind the range check. */
  function Removed(s: seq<Holding>, index: int): (r: seq<Holding>)
    ensures 0 <= index < |s| ==>
              && |r| == |s| - 1
              && (forall k :: 0 <= k < index ==> r[k] == s[k])
              && (forall k :: index <= k < |r| ==> r[k] == s[k + 1])
    ensures !(0 <= index < |s|) ==> r == s
  {
    if 0 <= index < |s| then s[..index] + s[index + 1..] else s
  }

  /** `portfolio[index] = asset` behind the range check. */
  function Replaced(s: seq<Holding>, index: int, h: Holding): (r: seq<Holding>)
    ensures |r| == |s|
    ensures forall k :: 0 <= k < |s| && k != index ==> r[k] == s[k]
    ensures 0 <= index < |s| ==> r[index] == h
  {
    if 0 <= index < |s| then s[index := h] else s
  }

  /** Removing the entry just appended gives the list back. */
  lemma RemoveUndoesAdd(s: seq<Holding>, h: Holding)
    ensures Removed(s + [h], |s|) == s
  {
    assert (s + [h])[..|s|] == s;
  }

  /** Writing back the entry already at an index changes nothing. */
  lemma ReplaceWithSameIsIdentity(s: seq<Holding>, index: int)
    requires 0 <= index < |s|
    ensures Replaced(s, index, s[index]) == s
  {
  }

  /** Removal keeps exactly the other entries, in order. */
  lemma {:induction false} RemovedKeepsOthers(s: seq<Holding>, index: int)
    requires 0 <= index < |s|
    ensures multiset(Removed(s, index)) + multiset{s[index]} == multiset(s)
  {
    assert s == s[..index] + [s[index]] + s[index + 1..];
  }

  /** The store keys of the valuation cache and its refresh flags, which
      `app.py` and the pages read and write directly. */
  datatype PageKeys = PageKeys(
    marketDataFetched: Option<bool>,   // "market_data_fetched"
    forceRefresh: Option<bool>,        // "force_refresh_market_data"
    lastMarketData: Option<seq<Row>>,  // "last_market_data"
    lastTotalVal: Option<real>,        // "last_total_val"
    lastCurrency: Option<string>,      // "last_currency"
    loanPlans: Option<seq<LoanPlan>>)  // "loan_plans"

  const NoPageKeys := PageKeys(None, None, None, None, None, None)

  /** The whole store, as one value. */
  datatype Store = Store(
    googleCreds: Option<string>, userInfo: Option<string>, portfolio: Option<seq<Holding>>,
    allocationTargets: Option<Targets>, hasAutoUpdatedFlag: Option<bool>,
    draftActions: Option<seq<DraftAction>>, calcBaseSuggestions: Option<seq<Budget>>,
    calcManualAdjust: Option<seq<Budget>>, lastCalcFund: Option<real>,
    loadPortfolioFlag: Option<bool>, loadAllocationTargetsFlag: Option<bool>,
    pageKeys: PageKeys)

  class SessionStateManager {
    var googleCreds: Option<string>          // an OAuth token, opaque here
    var userInfo: Option<string>
    var portfolio: Option<seq<Holding>>
    var allocationTargets: Option<Targets>
    var hasAutoUpdatedFlag: Option<bool>
    var draftActions: Option<seq<DraftAction>>
    var calcBaseSuggestions: Option<seq<Budget>>
    var calcManualAdjust: Option<seq<Budget>>
    var lastCalcFund: Option<real>
    var loadPortfolioFlag: Option<bool>
    var loadAllocationTargetsFlag: Option<bool>
    var pageKeys: PageKeys

    /** A fresh session: the store is empty. */
    constructor ()
      ensures googleCreds == None && userInfo == None && portfolio == None
      ensures allocationTargets == None && hasAutoUpdatedFlag == None && draftActions == None
      ensures calcBaseSuggestions == None && calcManualAdjust == None && lastCalcFund == None
      ensures loadPortfolioFlag == None && loadAllocationTargetsFlag == None && pageKeys == NoPageKeys
    {
      googleCreds, userInfo, portfolio := None, None, None;
      allocationTargets, hasAutoUpdatedFlag, draftActions := None, None, None;
      calcBaseSuggestions, calcManualAdjust, lastCalcFund := None, None, None;
      loadPortfolioFlag, loadAllocationTargetsFlag := None, None;
      pageKeys := NoPageKeys;
    }

    function State(): Store
      reads this
    {
      Store(googleCreds, userInfo, portfolio, allocationTargets, hasAutoUpdatedFlag, draftActions,
            calcBaseSuggestions, calcManualAdjust, lastCalcFund, loadPortfolioFlag,
            loadAllocationTargetsFlag, pageKeys)
    }

    method SetUserInfo(info: Option<string>)
      modifies this
      ensures State() == old(State()).(userInfo := info)
    {
      userInfo := info;
    }

    /** `is_authenticated`: credentials are stored. */
    predicate IsAuthenticated()
      reads this
      ensures IsAuthenticated() <==> State().googleCreds.Some?
    {
      googleCreds.Some?
    }

    method SetGoogleCreds(creds: Option<string>)
      modifies this
      ensures State() == old(State()).(googleCreds := creds)
      ensures IsAuthenticated() <==> creds.Some?
    {
      googleCreds := creds;
    }

    method ClearGoogleCreds()
      modifies this
      ensures State() == old(State()).(googleCreds := None)
      ensures !IsAuthenticated()
    {
      googleCreds := None;
    }

    /** The `portfolio` property: reading it when absent stores and returns
        an empty list. */
    method Portfolio() returns (p: seq<Holding>)
      modifies this
      ensures old(portfolio).Some? ==> p == old(portfolio).value
      ensures old(portfolio).None? ==> p == []
      ensures State() == old(State()).(portfolio := Some(p))
    {
      if portfolio.None? {
        portfolio := Some([]);
      }
      p := portfolio.value;
    }

    method SetPortfolio(p: seq<Holding>)
      modifies this
      ensures State() == old(State()).(portfolio := Some(p))
    {
      portfolio := Some(p);
    }

    /** `add_asset`: one entry more, at the end. */
    method AddAsset(h: Holding)
      modifies this
      ensures State() == old(State()).(portfolio := Some(old(portfolio).GetOr([]) + [h]))
    {
      var p := Portfolio();
      portfolio := Some(p + [h]);
    }

    /** `remove_asset`: an out-of-range index leaves the list as it was. */
    method RemoveAsset(index: int)
      modifies this
      ensures State() == old(State()).(portfolio := Some(Removed(old(portfolio).GetOr([]), index)))
    {
      var p := Portfolio();
      if 0 <= index < |p| {
        portfolio := Some(p[..index] + p[index + 1..]);
      }
    }

    /** `update_asset`: only the entry at an in-range index is replaced. */
    method UpdateAsset(index: int, h: Holding)
      modifies this
      ensures State() == old(State()).(portfolio := Some(Replaced(old(portfolio).GetOr([]), index, h)))
    {
      var p := Portfolio();
      if 0 <= index < |p| {
        portfolio := Some(p[index := h]);
      }
    }

    method ClearPortfolio()
      modifies this
      ensures State() == old(State()).(portfolio := Some([]))
    {
      portfolio := Some([]);
    }

    /** The `allocation_targets` property: absent targets are initialised
        with a copy of the configured defaults. */
    method AllocationTargets() returns (t: Targets)
      modifies this
      ensures old(allocationTargets).Some? ==> t == old(allocationTargets).value
      ensures old(allocationTargets).None? ==> t == DefaultTargets
      ensures State() == old(State()).(allocationTargets := Some(t))
    {
      if allocationTargets.None? {
        allocationTargets := Some(DefaultTargets);
      }
      t := allocationTargets.value;
    }

    method SetAllocationTargets(t: Targets)
      modifies this
      ensures State() == old(State()).(allocationTargets := Some(t))
    {
      allocationTargets := Some(t);
    }

    /** `get_allocation_settings`: the stored targets (initialised when
        absent) run through the `AllocationSettings` validator. */
    method AllocationSettings() returns (r: Result<Targets, TargetError>)
      modifies this
      ensures var t := old(allocationTargets).GetOr(DefaultTargets);
              && r == ValidateTargets(t)
              && State() == old(State()).(allocationTargets := Some(t))
      ensures r.Ok? ==> r.value == old(allocationTargets).GetOr(DefaultTargets)
    {
      var t := AllocationTargets();
      r := ValidateTargets(t);
    }

    /** `has_auto_updated`, false until set. */
    function HasAutoUpdated(): (b: bool)
      reads this
      ensures hasAutoUpdatedFlag == None ==> !b
    {
      hasAutoUpdatedFlag.GetOr(false)
    }

    method SetHasAutoUpdated(b: bool)
      modifies this
      ensures State() == old(State()).(hasAutoUpdatedFlag := Some(b))
      ensures HasAutoUpdated() == b
    {
      hasAutoUpdatedFlag := Some(b);
    }

    /** `load_portfolio`, false until set. */
    function LoadPortfolio(): (b: bool)
      reads this
      ensures loadPortfolioFlag == None ==> !b
    {
      loadPortfolioFlag.GetOr(false)
    }

    method SetLoadPortfolio(b: bool)
      modifies this
      ensures State() == old(State()).(loadPortfolioFlag := Some(b))
      ensures LoadPortfolio() == b
    {
      loadPortfolioFlag := Some(b);
    }

    /** `load_allocation_targets`, false until set. */
    function LoadAllocationTargets(): (b: bool)
      reads this
      ensures loadAllocationTargetsFlag == None ==> !b
    {
      loadAllocationTargetsFlag.GetOr(false)
    }

    method SetLoadAllocationTargets(b: bool)
      modifies this
      ensures State() == old(State()).(loadAllocationTargetsFlag := Some(b))
      ensures LoadAllocationTargets() == b
    {
      loadAllocationTargetsFlag := Some(b);
    }

    /** The `draft_actions` property: absent drafts become an empty list. */
    method DraftActions() returns (d: seq<DraftAction>)
      modifies this
      ensures old(draftActions).Some? ==> d == old(draftActions).value
      ensures old(draftActions).None? ==> d == []
      ensures State() == old(State()).(draftActions := Some(d))
    {
      if draftActions.None? {
        draftActions := Some([]);
      }
      d := draftActions.value;
    }

    method ClearDraftActions()
      modifies this
      ensures State() == old(State()).(draftActions := Some([]))
    {
      draftActions := Some([]);
    }

    /** Direct writes of the main script and the pages to their own keys. */
    method SetPageKeys(k: PageKeys)
      modifies this
      ensures State() == old(State()).(pageKeys := k)
    {
      pageKeys := k;
    }

    /** `clear_all` (logout): the eleven managed keys are deleted; every
        other key survives. */
    method ClearAll()
      modifies this
      ensures State() == Store(None, None, None, None, None, None, None, None, None, None, None, old(pageKeys))
      ensures !IsAuthenticated() && !HasAutoUpdated() && !LoadPortfolio() && !LoadAllocationTargets()
    {
      googleCreds, userInfo, portfolio := None, None, None;
      allocationTargets, hasAutoUpdatedFlag, draftActions := None, None, None;
      calcBaseSuggestions, calcManualAdjust, lastCalcFund := None, None, None;
      loadPortfolioFlag, loadAllocationTargetsFlag := None, None;
    }

    /** `initialize`: the portfolio and the targets exist afterwards, and
        existing values are kept. */
    method Initialize()
      modifies this
      ensures State() == old(State()).(portfolio := Some(old(portfolio).GetOr([])),
                                       allocationTargets := Some(old(allocationTargets).GetOr(DefaultTargets)))
    {
      var _ := Portfolio();
      var _ := AllocationTargets();
    }
  }
}
