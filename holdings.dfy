/** The vocabulary shared by every page: one typed portfolio entry, one
    planned trade, and the allocation targets.

    The Python code keeps each entry as a dict whose keys come in two
    spellings: the capitalised legacy keys ("Ticker", "Type", "Quantity",
    "Avg_Cost", "Manual_Price", "Last_Update", "Account_ID") and the lower-case
    keys written by the management pages ("symbol", "asset_class", "quantity",
    "avg_cost", "manual_price", "last_update", "account_id"). Here both
    spellings are one field of `Holding`. */
module Holdings {
  import opened Wrappers

  /** The two asset types that are carried at face value and never quoted. */
  const Cash: string := "現金"
  const Liability: string := "負債"

  /** The account every entry without one belongs to. */
  const DefaultAccount: string := "default_main"

  /** The "never updated" stamp. */
  const NotAvailable: string := "N/A"

  datatype Holding = Holding(
    assetId: string,
    assetType: string,          // "Type" / "asset_class"
    symbol: string,             // "Ticker" / "symbol"
    name: string,               // optional display name of a cash or debt entry ("" when none)
    quantity: real,
    avgCost: real,
    currency: string,           // "USD" or "TWD"
    manualPrice: real,          // 0.0 means "no cached price"
    lastUpdate: string,         // "%Y-%m-%d %H:%M" or "N/A"
    accountId: string,
    suggestedSl: Option<real>,
    suggestedTp: Option<real>)

  predicate IsLiability(h: Holding)
  {
    h.assetType == Liability
  }

  /** Cash and liabilities: valued at face value, never refreshed. */
  predicate IsFaceValue(h: Holding)
  {
    h.assetType == Cash || h.assetType == Liability
  }

  /** A row of the deployment draft list ("Type", "Ticker", "Price", "Qty",
      "Total", "Is_New"). */
  datatype DraftAction = DraftAction(
    assetType: string, ticker: string, price: real, qty: real, total: real, isNew: bool)

  /** One entry of a budget dict: asset type to an amount of money. */
  datatype Budget = Budget(assetType: string, amount: real)

  /** One entry of an allocation-target dict: asset type to percentage. */
  datatype Target = Target(assetType: string, pct: real)

  /** An allocation-target dict, in its insertion order. */
  type Targets = seq<Target>

  /** Dict keys are unique. */
  predicate DistinctKeys(t: Targets)
  {
    forall i, j :: 0 <= i < j < |t| ==> t[i].assetType != t[j].assetType
  }

  predicate HasKey(t: Targets, k: string)
  {
    exists i :: 0 <= i < |t| && t[i].assetType == k
  }

  /** `targets.get(k, 0)`. */
  function PctOf(t: Targets, k: string): (p: real)
    ensures !HasKey(t, k) ==> p == 0.0
    ensures forall i :: 0 <= i < |t| && t[i].assetType == k && DistinctKeys(t) ==> p == t[i].pct
  {
    if t == [] then 0.0
    else if t[0].assetType == k then t[0].pct
    else PctOf(t[1..], k)
  }

  /** `sum(targets.values())`: no targets sum to 0. */
  function TotalPct(t: Targets): (total: real)
    ensures t == [] ==> total == 0.0
  {
    if t == [] then 0.0 else t[0].pct + TotalPct(t[1..])
  }

  /** Targets each within 100 sum to at most 100 per entry. */
  lemma {:induction false} TotalWithinHundredPerEntry(t: Targets)
    requires forall j :: 0 <= j < |t| ==> t[j].pct <= 100.0
    ensures TotalPct(t) <= 100.0 * |t| as real
  {
    if t != [] {
      TotalWithinHundredPerEntry(t[1..]);
    }
  }
}
