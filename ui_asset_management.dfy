/** The asset-management page: the buy, sell, edit, move, risk and delete
    actions of the per-asset dialog, the construction of a new entry in the
    add dialog, and the change detection of the editable holdings table.
    Every action works on the session's portfolio list at the index of the
    selected entry and, except for saving risk levels, asks the main script
    to recompute the valuation. */
module AssetManagement {
  import opened Wrappers
  import opened Numeric
  import opened Holdings
  import opened Timestamps
  import opened StateManager
  import opened UiTools
  import opened LoanService
  import opened MarketService
  import opened RiskManagement

  /** The page's own staleness test: the valuation rule with a fixed one-day
      threshold. */
  function CheckIsOutdated(stamp: string, now: DateTime): (r: bool)
    requires Valid(now)
    ensures stamp == "" || stamp == NotAvailable ==> r
    ensures ParseStamp(stamp).None? ==> r
    ensures ParseStamp(stamp).Some? && stamp != "" && stamp != NotAvailable ==>
              (r <==> Micros(now) - Micros(ParseStamp(stamp).value) > MicrosPerDay)
  {
    IsOutdated(stamp, now, 1)
  }

  /** A stamp exactly one day old is still fresh on this page. */
  lemma OneDayOldIsFresh(stamp: string, now: DateTime)
    requires Valid(now) && stamp != "" && stamp != NotAvailable
    requires ParseStamp(stamp).Some? && Micros(now) - Micros(ParseStamp(stamp).value) == MicrosPerDay
    ensures !CheckIsOutdated(stamp, now)
  {
  }

  // ---------------------------------------------------------------------
  // The per-asset dialog
  // ---------------------------------------------------------------------

  /** The selected entry exists in the session's list. */
  predicate HasEntry(s: SessionStateManager, index: int)
    reads s
  {
    s.portfolio.Some? && 0 <= index < |s.portfolio.value|
  }

  /** The page keys after an action asked for a fresh valuation. */
  function Refreshing(k: PageKeys): (r: PageKeys)
    ensures r.forceRefresh == Some(true)
    ensures r == k.(forceRefresh := r.forceRefresh)
  {
    k.(forceRefresh := Some(true))
  }

  /** A buy of `addQty` units at `addPrice`: the quantity grows and the
      average cost is re-weighted so that the book cost grows by exactly the
      amount paid. */
  function Bought(h: Holding, addQty: real, addPrice: real): (r: Holding)
    ensures r == h.(quantity := h.quantity + addQty, avgCost := r.avgCost)
    ensures r.quantity != 0.0 ==> r.quantity * r.avgCost == h.quantity * h.avgCost + addQty * addPrice
    ensures r.quantity == 0.0 ==> r.avgCost == 0.0
  {
    Merged(h, addQty, addQty * addPrice)
  }

  /** A sell of `sellQty` units: the quantity drops, clamped at zero, and the
      average cost stays. */
  function Sold(h: Holding, sellQty: real): (r: Holding)
    ensures r == h.(quantity := r.quantity)
    ensures r.quantity >= 0.0
    ensures sellQty <= h.quantity ==> r.quantity == h.quantity - sellQty
    ensures sellQty >= h.quantity ==> r.quantity == 0.0
  {
    h.(quantity := Max(h.quantity - sellQty, 0.0))
  }

  /** Buying more at the current average cost leaves the average cost as it
      was. */
  lemma {:induction false} BuyingAtAverageKeepsAverage(h: Holding, addQty: real)
    requires h.quantity + addQty != 0.0
    ensures Bought(h, addQty, h.avgCost).avgCost == h.avgCost
  {
    var r := Bought(h, addQty, h.avgCost);
    assert r.quantity * r.avgCost == r.quantity * h.avgCost;
    CancelNonZero(r.avgCost, h.avgCost, r.quantity);
  }

  lemma CancelNonZero(a: real, b: real, d: real)
    requires d != 0.0 && d * a == d * b
    ensures a == b
  {
  }

  /** Selling what was just bought gives the quantity back, at the new
      average cost. */
  lemma SellingWhatWasBoughtRestoresQuantity(h: Holding, qty: real, price: real)
    requires h.quantity >= 0.0 && qty > 0.0
    ensures Sold(Bought(h, qty, price), qty).quantity == h.quantity
  {
  }

  /** The buy tab: acts only for a positive quantity. */
  method Buy(s: SessionStateManager, index: int, addQty: real, addPrice: real)
    requires HasEntry(s, index)
    modifies s
    ensures var p := old(s.portfolio.value);
      addQty > 0.0 ==> s.State() == old(s.State()).(portfolio := Some(p[index := Bought(p[index], addQty, addPrice)]),
                                                   pageKeys := Refreshing(old(s.pageKeys)))
    ensures addQty <= 0.0 ==> s.State() == old(s.State())
  {
    if addQty > 0.0 {
      var p := s.portfolio.value;
      s.SetPortfolio(p[index := Bought(p[index], addQty, addPrice)]);
      s.SetPageKeys(Refreshing(s.pageKeys));
    }
  }

  /** The sell tab: acts only for a positive quantity. */
  method Sell(s: SessionStateManager, index: int, sellQty: real)
    requires HasEntry(s, index)
    modifies s
    ensures var p := old(s.portfolio.value);
      sellQty > 0.0 ==> s.State() == old(s.State()).(portfolio := Some(p[index := Sold(p[index], sellQty)]),
                                                    pageKeys := Refreshing(old(s.pageKeys)))
    ensures sellQty <= 0.0 ==> s.State() == old(s.State())
  {
    if sellQty > 0.0 {
      var p := s.portfolio.value;
      s.SetPortfolio(p[index := Sold(p[index], sellQty)]);
      s.SetPageKeys(Refreshing(s.pageKeys));
    }
  }

  /** An entry of the accounts list. */
  datatype Account = Account(name: string, id: string)

  /** The name offered when no account is defined. */
  const MainAccountName: string := "主要帳戶"

  /** No later account carries the name of the account at `i`. */
  predicate LastNamed(accounts: seq<Account>, i: int)
    requires 0 <= i < |accounts|
  {
    forall j :: i < j < |accounts| ==> accounts[j].name != accounts[i].name
  }

  /** The name-to-id dict built from the accounts list: every name is a key,
      every key is the name of an account; `LastAccountWins` says which id a
      name shared by several accounts maps to. */
  function NamedAccounts(accounts: seq<Account>): (m: map<string, string>)
    ensures forall i :: 0 <= i < |accounts| ==> accounts[i].name in m
    decreases |accounts|
  {
    if accounts == [] then map[]
    else
      var init := accounts[..|accounts| - 1];
      var last := accounts[|accounts| - 1];
      assert forall i :: 0 <= i < |init| ==> init[i] == accounts[i];
      NamedAccounts(init)[last.name := last.id]
  }

  /** Each name maps to the id of the last account carrying it, and every
      key comes from an account. */
  lemma {:induction false} LastAccountWins(accounts: seq<Account>)
    ensures var m := NamedAccounts(accounts);
      && (forall i :: 0 <= i < |accounts| && LastNamed(accounts, i) ==> m[accounts[i].name] == accounts[i].id)
      && (forall n :: n in m ==> exists i :: 0 <= i < |accounts| && accounts[i].name == n && accounts[i].id == m[n])
    decreases |accounts|
  {
    if accounts != [] {
      var init := accounts[..|accounts| - 1];
      var last := accounts[|accounts| - 1];
      LastAccountWins(init);
      var m0 := NamedAccounts(init);
      var m := NamedAccounts(accounts);
      assert m == m0[last.name := last.id];
      forall i | 0 <= i < |accounts| && LastNamed(accounts, i)
        ensures m[accounts[i].name] == accounts[i].id
      {
        if i < |init| {
          assert accounts[i] == init[i];
          assert accounts[i].name != last.name;
          assert LastNamed(init, i);
        }
      }
      forall n | n in m
        ensures exists i :: 0 <= i < |accounts| && accounts[i].name == n && accounts[i].id == m[n]
      {
        if n == last.name {
          assert accounts[|accounts| - 1].name == n;
        } else {
          var i :| 0 <= i < |init| && init[i].name == n && init[i].id == m0[n];
          assert accounts[i] == init[i];
        }
      }
    }
  }

  /** The account choice of the dialogs: the accounts by name, or the main
      account alone when there are none. */
  function AccountOptions(accounts: seq<Account>): (m: map<string, string>)
    ensures accounts == [] ==> m == map[MainAccountName := DefaultAccount]
    ensures accounts != [] ==> m == NamedAccounts(accounts)
    ensures accounts != [] ==> accounts[0].name in m
  {
    if accounts == [] then map[MainAccountName := DefaultAccount] else NamedAccounts(accounts)
  }

  /** The account an entry belongs to: an entry without one is in the
      default account. */
  function CurrentAccount(h: Holding): (id: string)
    ensures h.accountId != "" ==> id == h.accountId
    ensures h.accountId == "" ==> id == DefaultAccount
  {
    if h.accountId != "" then h.accountId else DefaultAccount
  }

  /** The names a move may target: the accounts other than the current one. */
  function TransferTargets(options: map<string, string>, current: string): (t: set<string>)
    ensures forall n :: n in t <==> n in options && options[n] != current
  {
    set n | n in options && options[n] != current
  }

  /** The edit tab: quantity, cost and account are overwritten as entered. */
  method Edit(s: SessionStateManager, index: int, quantity: real, avgCost: real,
              options: map<string, string>, accountName: string)
    requires HasEntry(s, index) && accountName in options
    modifies s
    ensures var p := old(s.portfolio.value);
      s.State() == old(s.State()).(portfolio := Some(p[index := p[index].(quantity := quantity, avgCost := avgCost,
                                                                              accountId := options[accountName])]),
                                   pageKeys := Refreshing(old(s.pageKeys)))
  {
    var p := s.portfolio.value;
    s.SetPortfolio(p[index := p[index].(quantity := quantity, avgCost := avgCost, accountId := options[accountName])]);
    s.SetPageKeys(Refreshing(s.pageKeys));
  }

  /** The move tab: only the account changes, and the entry lands in an
      account other than the one it was in. */
  method Move(s: SessionStateManager, index: int, options: map<string, string>, target: string)
    requires HasEntry(s, index)
    requires target in TransferTargets(options, CurrentAccount(s.portfolio.value[index]))
    modifies s
    ensures var p := old(s.portfolio.value);
      s.State() == old(s.State()).(portfolio := Some(p[index := p[index].(accountId := options[target])]),
                                   pageKeys := Refreshing(old(s.pageKeys)))
    ensures options[target] != "" ==>
              CurrentAccount(s.portfolio.value[index]) != CurrentAccount(old(s.portfolio.value[index]))
  {
    var p := s.portfolio.value;
    s.SetPortfolio(p[index := p[index].(accountId := options[target])]);
    s.SetPageKeys(Refreshing(s.pageKeys));
  }

  /** The price the risk tab measures from: the cached price, or the average
      cost when there is none. */
  function RiskPrice(h: Holding): (price: real)
    ensures h.manualPrice != 0.0 ==> price == h.manualPrice
    ensures h.manualPrice == 0.0 ==> price == h.avgCost
  {
    if h.manualPrice == 0.0 then h.avgCost else h.manualPrice
  }

  /** An entry without a cached price shows no gain on the risk tab. */
  lemma UnpricedEntryShowsNoGain(h: Holding, atr: real, atrMultiplier: real, rRatio: real)
    requires h.manualPrice == 0.0
    ensures HoldingLevels(atr, h.avgCost, RiskPrice(h), atrMultiplier, rRatio).plPct == 0.0
  {
  }

  /** The risk tab's save button: the rounded levels become the entry's
      suggestions; the valuation is not recomputed. */
  method SaveRiskLevels(s: SessionStateManager, index: int, plan: HoldingPlan)
    requires HasEntry(s, index)
    modifies s
    ensures var p := old(s.portfolio.value);
      s.State() == old(s.State()).(portfolio := Some(p[index := p[index].(suggestedSl := Some(plan.sl),
                                                                              suggestedTp := Some(plan.tp))]))
  {
    var p := s.portfolio.value;
    s.SetPortfolio(p[index := p[index].(suggestedSl := Some(plan.sl), suggestedTp := Some(plan.tp))]);
  }

  /** The delete tab: the entry at the index leaves the list. */
  method Delete(s: SessionStateManager, index: int)
    requires HasEntry(s, index)
    modifies s
    ensures s.State() == old(s.State()).(portfolio := Some(Removed(old(s.portfolio.value), index)),
                                         pageKeys := Refreshing(old(s.pageKeys)))
    ensures |s.portfolio.value| == |old(s.portfolio.value)| - 1
  {
    s.RemoveAsset(index);
    s.SetPageKeys(Refreshing(s.pageKeys));
  }

  // ---------------------------------------------------------------------
  // The add dialog
  // ---------------------------------------------------------------------

  datatype AddError = MissingTicker | PlanFailed(error: LoanError)

  /** The entry the add dialog builds. Cash and debt are entered as an
      amount at a unit cost of 1 under a synthetic symbol; an investment
      needs a ticker. `stamp` is the creation time written into the id. */
  function NewEntry(assetType: string, accountId: string, currency: string, customName: string,
                    amount: real, ticker: string, qty: real, cost: real, stamp: string)
      : (r: Result<Holding, AddError>)
    ensures r.Err? <==> assetType != Cash && assetType != Liability && ticker == ""
    ensures r.Err? ==> r.error == MissingTicker
    ensures r.Ok? ==>
              && r.value.assetId == "ast_" + stamp && r.value.assetType == assetType
              && r.value.accountId == accountId && r.value.currency == currency
              && r.value.manualPrice == 0.0 && r.value.lastUpdate == NotAvailable
              && r.value.suggestedSl == None && r.value.suggestedTp == None
    ensures r.Ok? && assetType == Cash ==> r.value.symbol == "CASH-" + currency && r.value.name == customName
    ensures r.Ok? && assetType == Liability ==> r.value.symbol == "DEBT-" + currency && r.value.name == customName
    ensures r.Ok? && IsFaceValue(r.value) ==> r.value.quantity == amount && r.value.avgCost == 1.0
    ensures r.Ok? && !IsFaceValue(r.value) ==>
              r.value.symbol == ticker && r.value.quantity == qty && r.value.avgCost == cost && r.value.name == ""
  {
    var id := "ast_" + stamp;
    if assetType == Cash || assetType == Liability then
      var prefix := if assetType == Cash then "CASH" else "DEBT";
      Ok(Holding(id, assetType, prefix + "-" + currency, customName, amount, 1.0, currency, 0.0,
                 NotAvailable, accountId, None, None))
    else if ticker == "" then
      Err(MissingTicker)
    else
      Ok(Holding(id, assetType, ticker, "", qty, cost, currency, 0.0, NotAvailable, accountId, None, None))
  }

  /** A new cash or debt entry is valued at its amount, converted to the
      base currency, and starts without gain or loss. */
  lemma NewFaceValueEntryIsAtPar(assetType: string, accountId: string, currency: string, customName: string,
                                 amount: real, stamp: string, target: string, rate: real,
                                 history: string -> seq<real>, now: DateTime, thresholdDays: int)
    requires Valid(now) && (assetType == Cash || assetType == Liability)
    ensures var h := NewEntry(assetType, accountId, currency, customName, amount, "", 0.0, 0.0, stamp).value;
      var row := ValueRow(h, target, rate, history, now, thresholdDays);
      var m := Multiplier(BaseCurrency(target), currency, rate);
      && row.marketValue == amount * m && row.totalCost == amount * m && row.unrealizedPl == 0.0
  {
    var h := NewEntry(assetType, accountId, currency, customName, amount, "", 0.0, 0.0, stamp).value;
    var priced := Price(h, history, now, thresholdDays);
    assert priced.price == 1.0;
    ValueRowOfPrice(h, target, rate, history, now, thresholdDays);
    RowAtPar(h, priced, target, rate);
  }

  /** A holding priced at 1.0 with an average cost of 1.0 is worth its
      quantity, converted, and shows no gain or loss. */
  lemma RowAtPar(h: Holding, priced: Priced, target: string, rate: real)
    requires priced.price == 1.0 && h.avgCost == 1.0
    ensures var r := RowOf(h, priced, target, rate);
      var m := Multiplier(BaseCurrency(target), h.currency, rate);
      && r.marketValue == h.quantity * m && r.totalCost == h.quantity * m && r.unrealizedPl == 0.0
  {
    RowOfBaseColumns(h, priced, target, rate);
    RowOfSignRules(h, priced, target, rate);
  }

  /** The repayment plan the add dialog can attach to a new debt. */
  datatype LoanTerms = LoanTerms(annualRate: real, years: int, startDate: string)

  /** The add dialog's confirm button. A rejected entry changes nothing.
      Otherwise the entry is appended; for a debt with a plan, the plan over
      `years * 12` months is created for the new id and stored. A plan that
      cannot be created leaves the entry appended and stops before the
      refresh request. */
  method AddAssetDialog(s: SessionStateManager, assetType: string, accountId: string, currency: string,
                        customName: string, amount: real, ticker: string, qty: real, cost: real,
                        stamp: string, plan: Option<LoanTerms>,
                        pmt: (real, int, real) -> real, round: (real, nat) -> real)
      returns (r: Result<Holding, AddError>)
    modifies s
    ensures var e := NewEntry(assetType, accountId, currency, customName, amount, ticker, qty, cost, stamp);
      e.Err? ==> r == e && s.State() == old(s.State())
    ensures var e := NewEntry(assetType, accountId, currency, customName, amount, ticker, qty, cost, stamp);
      e.Ok? && (assetType != Liability || plan.None?) ==>
        var withEntry := old(s.State()).(portfolio := Some(old(s.portfolio).GetOr([]) + [e.value]));
        r == e && s.State() == withEntry.(pageKeys := Refreshing(old(s.pageKeys)))
    ensures var e := NewEntry(assetType, accountId, currency, customName, amount, ticker, qty, cost, stamp);
      e.Ok? && assetType == Liability && plan.Some? ==>
        var withEntry := old(s.State()).(portfolio := Some(old(s.portfolio).GetOr([]) + [e.value]));
        var t := plan.value;
        var sched := Schedule(amount, t.annualRate, t.years * 12, t.startDate, pmt, round);
        && (sched.Err? ==> r == Err(PlanFailed(sched.error)) && s.State() == withEntry)
        && (sched.Ok? ==> r == e && s.State() == withEntry.(pageKeys := Refreshing(old(s.pageKeys)).(
                            loanPlans := Some(old(s.pageKeys.loanPlans).GetOr([]) +
                                              [LoanPlan(e.value.assetId, amount, t.annualRate, t.years * 12,
                                                        t.startDate, 0.0, sched.value)]))))
  {
    var e := NewEntry(assetType, accountId, currency, customName, amount, ticker, qty, cost, stamp);
    if e.Err? {
      return e;
    }
    s.AddAsset(e.value);
    if assetType == Liability && plan.Some? {
      var t := plan.value;
      var created := CreateLoanPlan(e.value.assetId, amount, t.annualRate, t.years * 12, t.startDate, 0.0, pmt, round);
      if created.Err? {
        return Err(PlanFailed(created.error));
      }
      s.SetPageKeys(s.pageKeys.(loanPlans := Some(s.pageKeys.loanPlans.GetOr([]) + [created.value])));
    }
    s.SetPageKeys(Refreshing(s.pageKeys));
    r := e;
  }

  // ---------------------------------------------------------------------
  // The editable holdings table
  // ---------------------------------------------------------------------

  /** Number cells count as edited only beyond this distance. */
  const EditTolerance: real := 0.0001

  predicate Drifted(before: real, after: real)
  {
    Abs(after - before) > EditTolerance
  }

  /** One row of the edited table, with the list index it was built from. */
  datatype EditedRow = EditedRow(originalIndex: nat, assetType: string, ticker: string,
                                 quantity: real, avgCost: real, accountName: string)

  datatype CellEdit = CellEdit(holding: Holding, changed: bool)

  /** `update_if_changed` over the five editable cells of one row: a number
      is written only when it moved by more than the tolerance, a text when
      it differs, and the account when the chosen name is known and names
      another account. */
  function EditedHolding(h: Holding, row: EditedRow, nameToId: map<string, string>): (e: CellEdit)
    ensures e.holding == h.(quantity := e.holding.quantity, avgCost := e.holding.avgCost,
                            symbol := row.ticker, assetType := row.assetType, accountId := e.holding.accountId)
    ensures Drifted(h.quantity, row.quantity) ==> e.holding.quantity == row.quantity
    ensures !Drifted(h.quantity, row.quantity) ==> e.holding.quantity == h.quantity
    ensures Drifted(h.avgCost, row.avgCost) ==> e.holding.avgCost == row.avgCost
    ensures !Drifted(h.avgCost, row.avgCost) ==> e.holding.avgCost == h.avgCost
    ensures row.accountName in nameToId && nameToId[row.accountName] != CurrentAccount(h) ==>
              e.holding.accountId == nameToId[row.accountName]
    ensures !(row.accountName in nameToId && nameToId[row.accountName] != CurrentAccount(h)) ==>
              e.holding.accountId == h.accountId
    ensures !e.changed ==> e.holding == h
    ensures e.holding != h ==> e.changed
  {
    var q := Drifted(h.quantity, row.quantity);
    var c := Drifted(h.avgCost, row.avgCost);
    var t := row.ticker != h.symbol;
    var k := row.assetType != h.assetType;
    var a := row.accountName in nameToId && nameToId[row.accountName] != CurrentAccount(h);
    CellEdit(h.(quantity := if q then row.quantity else h.quantity,
            avgCost := if c then row.avgCost else h.avgCost,
            symbol := row.ticker, assetType := row.assetType,
            accountId := if a then nameToId[row.accountName] else h.accountId),
         q || c || t || k || a)
  }

  /** Once written, the same row reports no further change, as long as the
      account ids are not empty. */
  lemma EditIsIdempotent(h: Holding, row: EditedRow, nameToId: map<string, string>)
    requires forall n :: n in nameToId ==> nameToId[n] != ""
    ensures var once := EditedHolding(h, row, nameToId).holding;
      !EditedHolding(once, row, nameToId).changed
  {
  }

  /** A number cell nudged within the tolerance is neither written nor
      reported. */
  lemma NudgeWithinToleranceIsIgnored(h: Holding, delta: real)
    requires Abs(delta) <= EditTolerance
    ensures var row := EditedRow(0, h.assetType, h.symbol, h.quantity + delta, h.avgCost - delta, "");
      EditedHolding(h, row, map[]) == CellEdit(h, false)
  {
  }

  datatype TableEdit = TableEdit(portfolio: seq<Holding>, changed: bool)

  /** The change-detection loop over the edited rows, in table order; a row
      whose index is past the end of the list is skipped. */
  function TableEdits(p: seq<Holding>, rows: seq<EditedRow>, nameToId: map<string, string>): (r: TableEdit)
    ensures |r.portfolio| == |p|
    decreases |rows|
  {
    if rows == [] then TableEdit(p, false)
    else
      var prev := TableEdits(p, rows[..|rows| - 1], nameToId);
      var row := rows[|rows| - 1];
      if row.originalIndex < |prev.portfolio| then
        var e := EditedHolding(prev.portfolio[row.originalIndex], row, nameToId);
        TableEdit(prev.portfolio[row.originalIndex := e.holding], prev.changed || e.changed)
      else
        prev
  }

  /** Nothing is written unless a change is reported, and an entry no row
      refers to keeps its value. */
  lemma {:induction false} TableEditsTouchOnlyEditedEntries(p: seq<Holding>, rows: seq<EditedRow>,
                                                          nameToId: map<string, string>)
    ensures var r := TableEdits(p, rows, nameToId);
      && (!r.changed ==> r.portfolio == p)
      && (forall k :: 0 <= k < |p| && (forall j :: 0 <= j < |rows| ==> rows[j].originalIndex != k) ==>
            r.portfolio[k] == p[k])
  {
    if rows != [] {
      var init := rows[..|rows| - 1];
      TableEditsTouchOnlyEditedEntries(p, init, nameToId);
      assert forall j :: 0 <= j < |init| ==> init[j] == rows[j];
    }
  }

  /** No two rows of the table were built from the same list entry. */
  predicate DistinctRows(rows: seq<EditedRow>)
  {
    forall a, b :: 0 <= a < b < |rows| ==> rows[a].originalIndex != rows[b].originalIndex
  }

  /** Row `j` points into the list and reports a change against the entry it
      was built from. */
  predicate RowChanges(p: seq<Holding>, rows: seq<EditedRow>, j: int, nameToId: map<string, string>)
    requires 0 <= j < |rows|
  {
    rows[j].originalIndex < |p| && EditedHolding(p[rows[j].originalIndex], rows[j], nameToId).changed
  }

  /** The edits of the rows that point at entry `k`, applied to `h` in table
      order: each such row edits the entry as the rows before it left it. */
  function EntryEdits(h: Holding, rows: seq<EditedRow>, k: nat, nameToId: map<string, string>): (e: CellEdit)
    ensures !e.changed ==> e.holding == h
    ensures (forall j :: 0 <= j < |rows| ==> rows[j].originalIndex != k) ==> e == CellEdit(h, false)
    decreases |rows|
  {
    if rows == [] then CellEdit(h, false)
    else
      var prev := EntryEdits(h, rows[..|rows| - 1], k, nameToId);
      var row := rows[|rows| - 1];
      assert forall j :: 0 <= j < |rows| - 1 ==> rows[..|rows| - 1][j] == rows[j];
      if row.originalIndex == k then
        var e := EditedHolding(prev.holding, row, nameToId);
        CellEdit(e.holding, prev.changed || e.changed)
      else
        prev
  }

  /** For any table, duplicates included, each entry of the list ends up as
      the successive edits of the rows that point at it, and a change is
      reported exactly when some entry's edits report one. Two holdings with
      the same ticker give rows that share an entry, and the later row then
      edits what the earlier one wrote. */
  lemma {:induction false} TableEditsPerEntry(p: seq<Holding>, rows: seq<EditedRow>,
                                              nameToId: map<string, string>)
    ensures var r := TableEdits(p, rows, nameToId);
      forall k :: 0 <= k < |p| ==> r.portfolio[k] == EntryEdits(p[k], rows, k, nameToId).holding
    ensures TableEdits(p, rows, nameToId).changed <==>
              exists k :: 0 <= k < |p| && EntryEdits(p[k], rows, k, nameToId).changed
    decreases |rows|
  {
    if rows != [] {
      var n := |rows| - 1;
      var init := rows[..n];
      var row := rows[n];
      TableEditsPerEntry(p, init, nameToId);
      var prev := TableEdits(p, init, nameToId);
      var r := TableEdits(p, rows, nameToId);
      assert forall k :: 0 <= k < |p| && k != row.originalIndex ==>
        EntryEdits(p[k], rows, k, nameToId) == EntryEdits(p[k], init, k, nameToId);
      if row.originalIndex < |p| {
        var i := row.originalIndex;
        var e := EditedHolding(prev.portfolio[i], row, nameToId);
        assert r == TableEdit(prev.portfolio[i := e.holding], prev.changed || e.changed);
        assert EntryEdits(p[i], rows, i, nameToId)
               == CellEdit(e.holding, EntryEdits(p[i], init, i, nameToId).changed || e.changed);
        if e.changed {
          assert EntryEdits(p[i], rows, i, nameToId).changed;
        }
        if EntryEdits(p[i], init, i, nameToId).changed {
          assert EntryEdits(p[i], rows, i, nameToId).changed;
        }
      } else {
        assert r == prev;
      }
    }
  }

  /** Rows after position `m` that do not point at entry `k` leave its edits
      as the first `m` rows made them. */
  lemma {:induction false} EntryEditsIgnoreLaterRows(h: Holding, rows: seq<EditedRow>, m: nat, k: nat,
                                                     nameToId: map<string, string>)
    requires m <= |rows|
    requires forall j :: m <= j < |rows| ==> rows[j].originalIndex != k
    ensures EntryEdits(h, rows, k, nameToId) == EntryEdits(h, rows[..m], k, nameToId)
    decreases |rows|
  {
    if m < |rows| {
      var n := |rows| - 1;
      assert rows[..n][..m] == rows[..m];
      assert forall j :: m <= j < n ==> rows[..n][j] == rows[j];
      EntryEditsIgnoreLaterRows(h, rows[..n], m, k, nameToId);
    } else {
      assert rows[..m] == rows;
    }
  }

  /** The last row that points at an entry decides its ticker and type. */
  lemma LastRowWins(p: seq<Holding>, rows: seq<EditedRow>, nameToId: map<string, string>, j: nat)
    requires j < |rows| && rows[j].originalIndex < |p|
    requires forall i :: j < i < |rows| ==> rows[i].originalIndex != rows[j].originalIndex
    ensures var k := rows[j].originalIndex;
      && TableEdits(p, rows, nameToId).portfolio[k].symbol == rows[j].ticker
      && TableEdits(p, rows, nameToId).portfolio[k].assetType == rows[j].assetType
  {
    var k := rows[j].originalIndex;
    TableEditsPerEntry(p, rows, nameToId);
    EntryEditsIgnoreLaterRows(p[k], rows, j + 1, k, nameToId);
    assert rows[..j + 1][..j] == rows[..j];
    assert rows[..j + 1][j] == rows[j];
  }

  /** When no two rows share an entry (no two holdings share a ticker), each
      entry a row points at ends up as that row's edit of the original entry. */
  lemma {:induction false} TableEditsWriteEachRow(p: seq<Holding>, rows: seq<EditedRow>,
                                                  nameToId: map<string, string>)
    requires DistinctRows(rows)
    ensures var r := TableEdits(p, rows, nameToId);
      forall j :: 0 <= j < |rows| && rows[j].originalIndex < |p| ==>
        r.portfolio[rows[j].originalIndex] == EditedHolding(p[rows[j].originalIndex], rows[j], nameToId).holding
  {
    if rows != [] {
      var n := |rows| - 1;
      var init := rows[..n];
      assert DistinctRows(init) by {
        assert forall j :: 0 <= j < n ==> init[j] == rows[j];
      }
      TableEditsWriteEachRow(p, init, nameToId);
      var prev := TableEdits(p, init, nameToId);
      var r := TableEdits(p, rows, nameToId);
      var k := rows[n].originalIndex;
      forall j | 0 <= j < |rows| && rows[j].originalIndex < |p|
        ensures r.portfolio[rows[j].originalIndex] == EditedHolding(p[rows[j].originalIndex], rows[j], nameToId).holding
      {
        if j < n {
          assert init[j] == rows[j];
          assert rows[j].originalIndex != k;
        } else {
          UnreferencedEntryKept(p, init, nameToId, k);
        }
      }
    }
  }

  /** An entry no row of `rows` points at keeps its original value. */
  lemma UnreferencedEntryKept(p: seq<Holding>, rows: seq<EditedRow>, nameToId: map<string, string>, k: nat)
    requires k < |p|
    requires forall j :: 0 <= j < |rows| ==> rows[j].originalIndex != k
    ensures TableEdits(p, rows, nameToId).portfolio[k] == p[k]
  {
    TableEditsTouchOnlyEditedEntries(p, rows, nameToId);
  }

  /** When no two rows share an entry, a change is reported exactly when
      some row changes the entry it was built from. */
  lemma {:induction false} TableEditsReportAnyChange(p: seq<Holding>, rows: seq<EditedRow>,
                                                     nameToId: map<string, string>)
    requires DistinctRows(rows)
    ensures TableEdits(p, rows, nameToId).changed <==> exists j :: 0 <= j < |rows| && RowChanges(p, rows, j, nameToId)
  {
    if rows != [] {
      var n := |rows| - 1;
      var init := rows[..n];
      assert forall j :: 0 <= j < n ==> init[j] == rows[j];
      assert DistinctRows(init);
      TableEditsReportAnyChange(p, init, nameToId);
      var prev := TableEdits(p, init, nameToId);
      var k := rows[n].originalIndex;
      if k < |p| {
        UnreferencedEntryKept(p, init, nameToId, k);
        assert TableEdits(p, rows, nameToId).changed == (prev.changed || RowChanges(p, rows, n, nameToId));
      } else {
        assert !RowChanges(p, rows, n, nameToId);
      }
      assert forall j :: 0 <= j < n ==> (RowChanges(p, init, j, nameToId) <==> RowChanges(p, rows, j, nameToId));
    }
  }

  /** The loop itself. */
  method ApplyTableEdits(p: seq<Holding>, rows: seq<EditedRow>, nameToId: map<string, string>)
      returns (q: seq<Holding>, changed: bool)
    ensures TableEdit(q, changed) == TableEdits(p, rows, nameToId)
  {
    q, changed := p, false;
    for i := 0 to |rows|
      invariant TableEdit(q, changed) == TableEdits(p, rows[..i], nameToId)
    {
      assert rows[..i + 1][..i] == rows[..i];
      var row := rows[i];
      if row.originalIndex < |q| {
        var e := EditedHolding(q[row.originalIndex], row, nameToId);
        q := q[row.originalIndex := e.holding];
        changed := changed || e.changed;
      }
    }
    assert rows[..|rows|] == rows;
  }

  /** The table's change handling: the edits land in the session's list, and
      a reported change asks for a fresh valuation. */
  method SaveTableEdits(s: SessionStateManager, rows: seq<EditedRow>, nameToId: map<string, string>)
      returns (changed: bool)
    requires s.portfolio.Some?
    modifies s
    ensures var r := TableEdits(old(s.portfolio.value), rows, nameToId);
      && changed == r.changed
      && (changed ==> s.State() == old(s.State()).(portfolio := Some(r.portfolio),
                                                   pageKeys := Refreshing(old(s.pageKeys))))
      && (!changed ==> s.State() == old(s.State()))
  {
    var p := s.portfolio.value;
    var q;
    q, changed := ApplyTableEdits(p, rows, nameToId);
    TableEditsTouchOnlyEditedEntries(p, rows, nameToId);
    if changed {
      s.SetPortfolio(q);
      s.SetPageKeys(Refreshing(s.pageKeys));
    }
  }
}
