/** The figures the dashboard page derives from the valuation table: the net
    worth KPIs, the allocation diff with its advice, and the per-category
    totals and weights. Everything here is a sum or a guarded division over
    the rows `get_market_data` produced. */
module Dashboard {
  import opened Holdings
  import opened Config
  import opened MarketService
  import opened Timestamps

  /** The columns of the valuation table that the dashboard adds up. */
  datatype Column = MarketValue | TotalCost | UnrealizedPl | NetValue

  function Cell(r: Row, c: Column): real
  {
    match c
    case MarketValue => r.marketValue
    case TotalCost => r.totalCost
    case UnrealizedPl => r.unrealizedPl
    case NetValue => r.netValue
  }

  /** The row filters the page uses: every row, one type, every type but one. */
  datatype Filter = All | Only(t: string) | Except(t: string)

  predicate Keeps(f: Filter, r: Row)
  {
    match f
    case All => true
    case Only(t) => r.assetType == t
    case Except(t) => r.assetType != t
  }

  /** `df[filter][column].sum()`; an empty selection sums to 0. */
  function Sum(rows: seq<Row>, c: Column, f: Filter): real
  {
    if rows == [] then 0.0
    else (if Keeps(f, rows[0]) then Cell(rows[0], c) else 0.0) + Sum(rows[1..], c, f)
  }

  /** The rows of one type, or of every type but one, add up to the whole. */
  lemma {:induction false} TypeSplitsTheSum(rows: seq<Row>, c: Column, t: string)
    ensures Sum(rows, c, Only(t)) + Sum(rows, c, Except(t)) == Sum(rows, c, All)
  {
    if rows != [] {
      TypeSplitsTheSum(rows[1..], c, t);
    }
  }

  /** A return in percent, 0 when nothing was invested. */
  function Roi(pl: real, cost: real): (r: real)
    ensures cost > 0.0 ==> r * cost == pl * 100.0
    ensures cost <= 0.0 ==> r == 0.0
    ensures r > 0.0 <==> cost > 0.0 && pl > 0.0
    ensures r < 0.0 <==> cost > 0.0 && pl < 0.0
  {
    if cost > 0.0 then pl / cost * 100.0 else 0.0
  }

  datatype Kpis = Kpis(assets: real, liabilities: real, cost: real, pl: real, roi: real)

  /** The KPI block of `render_dashboard`: assets and invested cost over the
      non-debt rows, liabilities over the debt rows, P/L over every row. */
  function DashboardKpis(rows: seq<Row>): (k: Kpis)
    ensures k.roi > 0.0 <==> k.cost > 0.0 && k.pl > 0.0
    ensures k.roi < 0.0 <==> k.cost > 0.0 && k.pl < 0.0
    ensures rows == [] ==> k == Kpis(0.0, 0.0, 0.0, 0.0, 0.0)
  {
    var cost := Sum(rows, TotalCost, Except(Liability));
    var pl := Sum(rows, UnrealizedPl, All);
    Kpis(Sum(rows, MarketValue, Except(Liability)), Sum(rows, MarketValue, Only(Liability)),
         cost, pl, Roi(pl, cost))
  }

  /** `sum(Net_Value)`, the net worth `app.py` shows in the sidebar and the
      KPI block; 0 for an empty table. */
  function NetWorth(rows: seq<Row>): (n: real)
    ensures rows == [] ==> n == 0.0
    ensures n == Sum(rows, NetValue, Except(Liability)) + Sum(rows, NetValue, Only(Liability))
  {
    TypeSplitsTheSum(rows, NetValue, Liability);
    Sum(rows, NetValue, All)
  }

  /** The valuation's sign rules, as a property of the table. */
  predicate SignedRows(rows: seq<Row>)
  {
    forall i :: 0 <= i < |rows| ==>
      && rows[i].netValue == (if rows[i].assetType == Liability then -rows[i].marketValue else rows[i].marketValue)
      && rows[i].unrealizedPl == (if rows[i].assetType == Liability then rows[i].totalCost - rows[i].marketValue
                                  else rows[i].marketValue - rows[i].totalCost)
  }

  /** Assets and liabilities together are every row's market value, and the
      return is P/L per invested unit. */
  lemma KpisSplitTheTable(rows: seq<Row>)
    ensures var k := DashboardKpis(rows);
      && k.assets + k.liabilities == Sum(rows, MarketValue, All)
      && (k.cost > 0.0 ==> k.roi * k.cost == k.pl * 100.0)
      && (k.cost <= 0.0 ==> k.roi == 0.0)
  {
    TypeSplitsTheSum(rows, MarketValue, Liability);
  }

  /** On a signed table the net worth is assets minus liabilities. */
  lemma {:induction false} NetWorthIsAssetsMinusLiabilities(rows: seq<Row>)
    requires SignedRows(rows)
    ensures NetWorth(rows) == DashboardKpis(rows).assets - DashboardKpis(rows).liabilities
  {
    if rows != [] {
      assert SignedRows(rows[1..]) by {
        forall i | 0 <= i < |rows[1..]|
          ensures rows[1..][i] == rows[i + 1]
        {
        }
      }
      NetWorthIsAssetsMinusLiabilities(rows[1..]);
    }
  }

  /** On a signed table the total P/L is the gain on assets less the growth
      of debt. */
  lemma {:induction false} PlIsGainLessDebtGrowth(rows: seq<Row>)
    requires SignedRows(rows)
    ensures DashboardKpis(rows).pl
            == (DashboardKpis(rows).assets - DashboardKpis(rows).cost)
             + (Sum(rows, TotalCost, Only(Liability)) - DashboardKpis(rows).liabilities)
  {
    if rows != [] {
      assert SignedRows(rows[1..]) by {
        forall i | 0 <= i < |rows[1..]|
          ensures rows[1..][i] == rows[i + 1]
        {
        }
      }
      PlIsGainLessDebtGrowth(rows[1..]);
    }
  }

  /** The table `get_market_data` builds is signed, so its net worth is
      assets minus liabilities. */
  lemma ValuationNetWorth(portfolio: seq<Holding>, rows: seq<Row>, target: string, rate: real,
                          history: string -> seq<real>, now: DateTime, thresholdDays: int)
    requires Valid(now) && |rows| == |portfolio|
    requires forall i :: 0 <= i < |rows| ==> rows[i] == ValueRow(portfolio[i], target, rate, history, now, thresholdDays)
    ensures NetWorth(rows) == DashboardKpis(rows).assets - DashboardKpis(rows).liabilities
  {
    forall i | 0 <= i < |rows|
      ensures rows[i].netValue == (if rows[i].assetType == Liability then -rows[i].marketValue else rows[i].marketValue)
      ensures rows[i].unrealizedPl == (if rows[i].assetType == Liability then rows[i].totalCost - rows[i].marketValue
                                       else rows[i].marketValue - rows[i].totalCost)
    {
      RowSignRules(portfolio[i], target, rate, history, now, thresholdDays);
    }
    NetWorthIsAssetsMinusLiabilities(rows);
  }

  /** A pandas float: `x / 0` is +inf or -inf for x != 0 and NaN for 0, and
      the page's `fillna(0)` turns the NaN into 0. */
  datatype Extended = Finite(value: real) | PlusInf | MinusInf

  /** `Current_Pct` of a type: its market value over `total_val`, in percent.
      The division is not guarded. A type without rows has no entry before
      the merge and becomes 0, the same value its empty sum gives. */
  function CurrentPct(rows: seq<Row>, total: real, t: string): (p: Extended)
    ensures total != 0.0 ==> p.Finite? && p.value * total == Sum(rows, MarketValue, Only(t)) * 100.0
    ensures total == 0.0 ==>
              p == (if Sum(rows, MarketValue, Only(t)) > 0.0 then PlusInf
                    else if Sum(rows, MarketValue, Only(t)) < 0.0 then MinusInf else Finite(0.0))
  {
    var held := Sum(rows, MarketValue, Only(t));
    if total != 0.0 then Finite(held / total * 100.0)
    else if held > 0.0 then PlusInf
    else if held < 0.0 then MinusInf
    else Finite(0.0)
  }

  /** `Current_Pct - Target_Pct`; infinities absorb the finite target. */
  function Minus(a: Extended, b: real): Extended
  {
    match a
    case Finite(x) => Finite(x - b)
    case PlusInf => PlusInf
    case MinusInf => MinusInf
  }

  datatype Advice = Under | Over | Accurate

  /** The advice line of `render_rebalancing`. */
  function Classify(diff: Extended): (a: Advice)
    ensures a == Under <==> diff == MinusInf || (diff.Finite? && diff.value < -AllocationTolerancePct)
    ensures a == Over <==> diff == PlusInf || (diff.Finite? && diff.value > AllocationTolerancePct)
  {
    match diff
    case PlusInf => Over
    case MinusInf => Under
    case Finite(d) => if d < -AllocationTolerancePct then Under else if d > AllocationTolerancePct then Over else Accurate
  }

  datatype Allocation = Allocation(targetPct: real, currentPct: Extended, diff: Extended, advice: Advice)

  /** The merged row of one type; a type missing from the targets has
      target 0. */
  function AllocationOf(rows: seq<Row>, targets: Targets, total: real, t: string): (a: Allocation)
    ensures a.targetPct == PctOf(targets, t) && a.currentPct == CurrentPct(rows, total, t)
    ensures a.currentPct.Finite? ==> a.diff == Finite(a.currentPct.value - a.targetPct)
    ensures !a.currentPct.Finite? ==> a.diff == a.currentPct
    ensures a.advice == Accurate <==>
              a.diff.Finite? && -AllocationTolerancePct <= a.diff.value <= AllocationTolerancePct
  {
    var current := CurrentPct(rows, total, t);
    var diff := Minus(current, PctOf(targets, t));
    Allocation(PctOf(targets, t), current, diff, Classify(diff))
  }

  /** The outer merge of the target types with the types held. */
  function Rebalancing(rows: seq<Row>, targets: Targets, total: real): (m: map<string, Allocation>)
    ensures m.Keys == (set i | 0 <= i < |targets| :: targets[i].assetType) + (set i | 0 <= i < |rows| :: rows[i].assetType)
  {
    var types := (set i | 0 <= i < |targets| :: targets[i].assetType) + (set i | 0 <= i < |rows| :: rows[i].assetType);
    map t | t in types :: AllocationOf(rows, targets, total, t)
  }

  /** A type that is not held has no market value. */
  lemma {:induction false} AbsentTypeSumsToZero(rows: seq<Row>, c: Column, t: string)
    requires forall i :: 0 <= i < |rows| ==> rows[i].assetType != t
    ensures Sum(rows, c, Only(t)) == 0.0
  {
    if rows != [] {
      assert forall i :: 0 <= i < |rows[1..]| ==> rows[1..][i].assetType != t by {
        forall i | 0 <= i < |rows[1..]|
          ensures rows[1..][i].assetType != t
        {
          assert rows[1..][i] == rows[i + 1];
        }
      }
      AbsentTypeSumsToZero(rows[1..], c, t);
    }
  }

  /** A target type with no holdings is short by its whole target, and a
      held type without a target is over by its whole share. */
  lemma MissingSideCountsAsZero(rows: seq<Row>, targets: Targets, total: real, t: string)
    requires total != 0.0
    ensures (forall i :: 0 <= i < |rows| ==> rows[i].assetType != t) ==>
              AllocationOf(rows, targets, total, t).diff == Finite(-PctOf(targets, t))
    ensures !HasKey(targets, t) ==>
              AllocationOf(rows, targets, total, t).diff == CurrentPct(rows, total, t)
  {
    if forall i :: 0 <= i < |rows| ==> rows[i].assetType != t {
      AbsentTypeSumsToZero(rows, MarketValue, t);
    }
    var c := CurrentPct(rows, total, t);
    if !HasKey(targets, t) {
      assert PctOf(targets, t) == 0.0;
      assert c.Finite?;
      assert c.value - 0.0 == c.value;
    }
  }

  /** Within the tolerance band a type is on target. */
  lemma WithinToleranceIsAccurate(rows: seq<Row>, targets: Targets, total: real, t: string)
    requires CurrentPct(rows, total, t).Finite?
    requires -AllocationTolerancePct <= CurrentPct(rows, total, t).value - PctOf(targets, t) <= AllocationTolerancePct
    ensures AllocationOf(rows, targets, total, t).advice == Accurate
  {
  }

  /** With a zero total every held type with a positive value shows as
      over-weight, whatever its target. */
  lemma ZeroTotalFlagsHeldTypes(rows: seq<Row>, targets: Targets, t: string)
    requires Sum(rows, MarketValue, Only(t)) > 0.0
    ensures AllocationOf(rows, targets, 0.0, t).advice == Over
  {
  }

  /** Share of a part in a whole, in percent, 0 when the whole is not
      positive (a category in the portfolio, a holding in its category). */
  function Share(part: real, whole: real): (r: real)
    ensures whole > 0.0 ==> r * whole == part * 100.0
    ensures whole <= 0.0 ==> r == 0.0
  {
    if whole > 0.0 then part / whole * 100.0 else 0.0
  }

  datatype Category = Category(marketValue: real, totalCost: real, pl: real, roi: real, weight: real)

  /** A card of `render_category_overview`: the type's sums, its ROI and its
      share of the portfolio. */
  function CategoryOf(rows: seq<Row>, total: real, t: string): (c: Category)
    ensures c.totalCost > 0.0 ==> c.roi * c.totalCost == c.pl * 100.0
    ensures c.totalCost <= 0.0 ==> c.roi == 0.0
    ensures total <= 0.0 ==> c.weight == 0.0
  {
    var value := Sum(rows, MarketValue, Only(t));
    var cost := Sum(rows, TotalCost, Only(t));
    var pl := Sum(rows, UnrealizedPl, Only(t));
    Category(value, cost, pl, Roi(pl, cost), Share(value, total))
  }

  /** The weight of each row within the category t of value d, as
      `render_single_category_detail` shows it (rows of other types get 0
      and are not shown). */
  function Weights(rows: seq<Row>, t: string, d: real): (w: seq<real>)
    ensures |w| == |rows|
    ensures forall i :: 0 <= i < |rows| ==> w[i] == WeightOf(rows[i], t, d)
  {
    if rows == [] then []
    else
      var tail := Weights(rows[1..], t, d);
      var w := [WeightOf(rows[0], t, d)] + tail;
      assert forall i :: 1 <= i < |rows| ==> rows[i] == rows[1..][i - 1];
      w
  }

  /** The weight of one row. */
  function WeightOf(row: Row, t: string, d: real): (x: real)
    ensures row.assetType != t ==> x == 0.0
    ensures d > 0.0 ==> x * d == (if row.assetType == t then row.marketValue * 100.0 else 0.0)
  {
    if row.assetType == t then Share(row.marketValue, d) else 0.0
  }

  function Total(w: seq<real>): real
  {
    if w == [] then 0.0 else w[0] + Total(w[1..])
  }

  lemma {:induction false} WeightsScale(rows: seq<Row>, t: string, d: real)
    requires d > 0.0
    ensures Total(Weights(rows, t, d)) * d == Sum(rows, MarketValue, Only(t)) * 100.0
  {
    if rows != [] {
      WeightsScale(rows[1..], t, d);
      var w := Weights(rows, t, d);
      assert w[1..] == Weights(rows[1..], t, d);
      assert Total(w) * d == w[0] * d + Total(w[1..]) * d;
    }
  }

  /** The holdings of a category with a positive value have weights adding
      up to 100%. */
  lemma WeightsInCategorySumTo100(rows: seq<Row>, t: string)
    requires Sum(rows, MarketValue, Only(t)) > 0.0
    ensures Total(Weights(rows, t, Sum(rows, MarketValue, Only(t)))) == 100.0
  {
    var d := Sum(rows, MarketValue, Only(t));
    WeightsScale(rows, t, d);
    var s := Total(Weights(rows, t, d));
    CancelPositive(s, 100.0, d);
  }

  /** Equal multiples of a positive real have equal factors. */
  lemma CancelPositive(a: real, b: real, d: real)
    requires d > 0.0 && a * d == b * d
    ensures a == b
  {
  }
}
