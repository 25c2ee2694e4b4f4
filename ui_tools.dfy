/** The fund deployment calculator: how a new fund is split over the asset
    types, how much of each type's budget the draft trades have used, and how
    the drafts are written into the portfolio. */
module UiTools {
  import opened Wrappers
  import opened Numeric
  import opened Holdings
  import opened MarketService
  import opened Dashboard
  import opened StateManager

  // ---------------------------------------------------------------------
  // calculate_base_suggestions

  /** What a type lacks to reach its target share of the portfolio after the
      new fund is added; never negative. */
  function GapOf(rows: seq<Row>, finalTotal: real, t: Target): (g: real)
    ensures g >= 0.0
    ensures g >= finalTotal * (t.pct / 100.0) - Sum(rows, MarketValue, Only(t.assetType))
    ensures g == 0.0 || g == finalTotal * (t.pct / 100.0) - Sum(rows, MarketValue, Only(t.assetType))
  {
    Max(finalTotal * (t.pct / 100.0) - Sum(rows, MarketValue, Only(t.assetType)), 0.0)
  }

  /** The gap of each target type, in the targets' order. */
  function Gaps(rows: seq<Row>, finalTotal: real, targets: Targets): (g: seq<real>)
    ensures |g| == |targets|
    ensures forall i :: 0 <= i < |targets| ==> g[i] == GapOf(rows, finalTotal, targets[i])
  {
    if targets == [] then [] else [GapOf(rows, finalTotal, targets[0])] + Gaps(rows, finalTotal, targets[1..])
  }

  /** The target percentages, in order. */
  function Pcts(targets: Targets): (p: seq<real>)
    ensures |p| == |targets|
    ensures forall i :: 0 <= i < |targets| ==> p[i] == targets[i].pct
  {
    if targets == [] then [] else [targets[0].pct] + Pcts(targets[1..])
  }

  function SumReal(xs: seq<real>): real
  {
    if xs == [] then 0.0 else xs[0] + SumReal(xs[1..])
  }

  lemma {:induction false} PctsAddUp(targets: Targets)
    ensures SumReal(Pcts(targets)) == TotalPct(targets)
  {
    if targets != [] {
      PctsAddUp(targets[1..]);
    }
  }

  /** The suggestion for one type: scaled down when the gaps exceed the
      fund, otherwise the gap plus a target-weighted part of what is left. */
  function SuggestedOf(gap: real, pct: real, fund: real, totalGap: real): (r: real)
    ensures totalGap > fund && totalGap > 0.0 ==> r * totalGap == gap * fund
    ensures totalGap <= fund && 0.0 <= pct ==> r >= gap
  {
    if totalGap > fund && totalGap > 0.0 then gap / totalGap * fund
    else gap + (fund - totalGap) * (pct / 100.0)
  }

  /** The "Suggested" column, from the "Gap" column and the targets. */
  function Suggest(gaps: seq<real>, pcts: seq<real>, fund: real, totalGap: real): (r: seq<real>)
    requires |gaps| == |pcts|
    ensures |r| == |gaps|
    ensures forall i :: 0 <= i < |gaps| ==> r[i] == SuggestedOf(gaps[i], pcts[i], fund, totalGap)
  {
    if gaps == [] then []
    else [SuggestedOf(gaps[0], pcts[0], fund, totalGap)] + Suggest(gaps[1..], pcts[1..], fund, totalGap)
  }

  /** `set_index("Type")["Suggested"].to_dict()`. */
  function Labelled(targets: Targets, amounts: seq<real>): (r: seq<Budget>)
    requires |amounts| == |targets|
    ensures |r| == |targets|
    ensures forall i :: 0 <= i < |targets| ==> r[i] == Budget(targets[i].assetType, amounts[i])
  {
    if targets == [] then [] else [Budget(targets[0].assetType, amounts[0])] + Labelled(targets[1..], amounts[1..])
  }

  /** `calculate_base_suggestions`: one amount per target type, in the
      targets' order. With no targets the Python code fails on the missing
      "Gap" column; that is `None` here. */
  function BaseSuggestions(rows: seq<Row>, totalVal: real, fund: real, targets: Targets)
    : (r: Option<seq<Budget>>)
    ensures r.None? <==> targets == []
    ensures r.Some? ==> |r.value| == |targets|
    ensures r.Some? ==> forall i :: 0 <= i < |targets| ==> r.value[i].assetType == targets[i].assetType
  {
    if targets == [] then None
    else
      var gaps := Gaps(rows, totalVal + fund, targets);
      Some(Labelled(targets, Suggest(gaps, Pcts(targets), fund, SumReal(gaps))))
  }

  /** `sum(amounts)`. */
  function AmountsTotal(b: seq<Budget>): real
  {
    if b == [] then 0.0 else b[0].amount + AmountsTotal(b[1..])
  }

  lemma {:induction false} LabelsKeepTotal(targets: Targets, amounts: seq<real>)
    requires |amounts| == |targets|
    ensures AmountsTotal(Labelled(targets, amounts)) == SumReal(amounts)
  {
    if targets != [] {
      LabelsKeepTotal(targets[1..], amounts[1..]);
    }
  }

  lemma {:induction false} ScaledSum(gaps: seq<real>, pcts: seq<real>, fund: real, totalGap: real)
    requires |gaps| == |pcts| && totalGap > fund && totalGap > 0.0
    ensures SumReal(Suggest(gaps, pcts, fund, totalGap)) * totalGap == fund * SumReal(gaps)
  {
    if gaps != [] {
      var r := Suggest(gaps, pcts, fund, totalGap);
      ScaledSum(gaps[1..], pcts[1..], fund, totalGap);
      ScaledShare(gaps[0], totalGap, fund);
      Distribute(r[0], SumReal(r[1..]), totalGap);
      Distribute(gaps[0], SumReal(gaps[1..]), fund);
    }
  }

  lemma ScaledShare(g: real, t: real, fund: real)
    requires t != 0.0
    ensures g / t * fund * t == fund * g
  {
  }

  lemma Distribute(a: real, b: real, c: real)
    ensures (a + b) * c == a * c + b * c
    ensures c * (a + b) == c * a + c * b
  {
  }

  /** A share g/T of a fund smaller than T stays below g. */
  lemma ScaledShareBelowGap(g: real, totalGap: real, fund: real)
    requires g >= 0.0 && totalGap > fund && totalGap > 0.0
    ensures g / totalGap * fund <= g
    ensures fund >= 0.0 ==> g / totalGap * fund >= 0.0
  {
    var q := g / totalGap;
    assert q >= 0.0;
    assert q * totalGap == g;
    assert q * fund <= q * totalGap;
  }

  /** When the gaps exceed the fund, the fund is shared in proportion to
      the gaps: the amounts add up to the fund and none exceeds its gap. */
  lemma ScaledSuggestionsFillTheFund(rows: seq<Row>, totalVal: real, fund: real, targets: Targets)
    requires targets != []
    requires var t := SumReal(Gaps(rows, totalVal + fund, targets)); t > fund && t > 0.0
    ensures var r := BaseSuggestions(rows, totalVal, fund, targets).value;
      && AmountsTotal(r) == fund
      && (forall i :: 0 <= i < |r| ==> r[i].amount <= GapOf(rows, totalVal + fund, targets[i]))
      && (fund >= 0.0 ==> forall i :: 0 <= i < |r| ==> r[i].amount >= 0.0)
  {
    var gaps := Gaps(rows, totalVal + fund, targets);
    var amounts := Suggest(gaps, Pcts(targets), fund, SumReal(gaps));
    ScaledSplit(gaps, Pcts(targets), fund);
    LabelsKeepTotal(targets, amounts);
  }

  /** The scaled branch on the gap column alone. */
  lemma ScaledSplit(gaps: seq<real>, pcts: seq<real>, fund: real)
    requires |gaps| == |pcts| && SumReal(gaps) > fund && SumReal(gaps) > 0.0
    requires forall i :: 0 <= i < |gaps| ==> gaps[i] >= 0.0
    ensures var r := Suggest(gaps, pcts, fund, SumReal(gaps));
      && SumReal(r) == fund
      && (forall i :: 0 <= i < |r| ==> r[i] <= gaps[i])
      && (fund >= 0.0 ==> forall i :: 0 <= i < |r| ==> r[i] >= 0.0)
  {
    var t := SumReal(gaps);
    ScaledSum(gaps, pcts, fund, t);
    CancelPositive(SumReal(Suggest(gaps, pcts, fund, t)), fund, t);
    ScaledBelowGaps(gaps, pcts, fund, t);
  }

  lemma ScaledBelowGaps(gaps: seq<real>, pcts: seq<real>, fund: real, t: real)
    requires |gaps| == |pcts| && t > fund && t > 0.0
    requires forall i :: 0 <= i < |gaps| ==> gaps[i] >= 0.0
    ensures var r := Suggest(gaps, pcts, fund, t);
      && (forall i :: 0 <= i < |r| ==> r[i] <= gaps[i])
      && (fund >= 0.0 ==> forall i :: 0 <= i < |r| ==> r[i] >= 0.0)
  {
    var r := Suggest(gaps, pcts, fund, t);
    forall i | 0 <= i < |r|
      ensures r[i] <= gaps[i]
      ensures fund >= 0.0 ==> r[i] >= 0.0
    {
      ScaledShareBelowGap(gaps[i], t, fund);
    }
  }

  lemma {:induction false} SpreadSum(gaps: seq<real>, pcts: seq<real>, fund: real, totalGap: real)
    requires |gaps| == |pcts| && !(totalGap > fund && totalGap > 0.0)
    ensures SumReal(Suggest(gaps, pcts, fund, totalGap))
            == SumReal(gaps) + (fund - totalGap) * (SumReal(pcts) / 100.0)
  {
    if gaps != [] {
      SpreadSum(gaps[1..], pcts[1..], fund, totalGap);
      var left := fund - totalGap;
      var r := Suggest(gaps, pcts, fund, totalGap);
      assert r[1..] == Suggest(gaps[1..], pcts[1..], fund, totalGap);
      assert r[0] == gaps[0] + left * (pcts[0] / 100.0);
      Distribute(pcts[0] / 100.0, SumReal(pcts[1..]) / 100.0, left);
    }
  }

  /** When the fund covers every gap, each gap is filled and the rest is
      spread by target weight: with targets summing to 100% the amounts add
      up to the fund, and with a non-negative fund and targets no amount is
      negative or below its gap. */
  lemma SpreadSuggestionsFillTheFund(rows: seq<Row>, totalVal: real, fund: real, targets: Targets)
    requires targets != []
    requires var t := SumReal(Gaps(rows, totalVal + fund, targets)); !(t > fund && t > 0.0)
    ensures var r := BaseSuggestions(rows, totalVal, fund, targets).value;
      && (TotalPct(targets) == 100.0 ==> AmountsTotal(r) == fund)
      && (fund >= 0.0 && (forall i :: 0 <= i < |targets| ==> targets[i].pct >= 0.0) ==>
            forall i :: 0 <= i < |r| ==> r[i].amount >= GapOf(rows, totalVal + fund, targets[i]) >= 0.0)
  {
    var gaps := Gaps(rows, totalVal + fund, targets);
    var t := SumReal(gaps);
    var amounts := Suggest(gaps, Pcts(targets), fund, t);
    SpreadSum(gaps, Pcts(targets), fund, t);
    PctsAddUp(targets);
    LabelsKeepTotal(targets, amounts);
    if fund >= 0.0 && (forall i :: 0 <= i < |targets| ==> targets[i].pct >= 0.0) {
      SpreadCoversGaps(gaps, Pcts(targets), fund, t);
    }
  }

  /** With something left to spread and no negative weight, each amount is
      at least its gap. */
  lemma SpreadCoversGaps(gaps: seq<real>, pcts: seq<real>, fund: real, totalGap: real)
    requires |gaps| == |pcts| && fund >= 0.0 && !(totalGap > fund && totalGap > 0.0)
    requires forall i :: 0 <= i < |pcts| ==> pcts[i] >= 0.0
    ensures forall i :: 0 <= i < |gaps| ==> Suggest(gaps, pcts, fund, totalGap)[i] >= gaps[i]
  {
    assert fund - totalGap >= 0.0;
    forall i | 0 <= i < |gaps|
      ensures Suggest(gaps, pcts, fund, totalGap)[i] >= gaps[i]
    {
      NonNegativeProduct(fund - totalGap, pcts[i] / 100.0);
    }
  }

  lemma NonNegativeProduct(a: real, b: real)
    requires a >= 0.0 && b >= 0.0
    ensures a * b >= 0.0
  {
  }

  // ---------------------------------------------------------------------
  // Draft budget arithmetic

  /** `current_plan.get(cat, 0)`. */
  function BudgetOf(plan: seq<Budget>, cat: string): (b: real)
    ensures (forall i :: 0 <= i < |plan| ==> plan[i].assetType != cat) ==> b == 0.0
  {
    if plan == [] then 0.0
    else if plan[0].assetType == cat then plan[0].amount
    else BudgetOf(plan[1..], cat)
  }

  /** Category c has a positive budget in the plan. */
  predicate Offered(plan: seq<Budget>, c: string)
  {
    exists b :: b in plan && b.assetType == c && b.amount > 0.0
  }

  /** The categories offered for drafting: those with a positive budget. */
  function ActiveCategories(plan: seq<Budget>): (cats: seq<string>)
    ensures |cats| <= |plan|
    ensures forall c :: c in cats <==> Offered(plan, c)
  {
    if plan == [] then []
    else
      var rest := ActiveCategories(plan[1..]);
      OfferedSplit(plan);
      if plan[0].amount > 0.0 then [plan[0].assetType] + rest else rest
  }

  /** A category is offered by a plan iff its first entry offers it or the
      rest of the plan does. */
  lemma OfferedSplit(plan: seq<Budget>)
    requires plan != []
    ensures forall c :: Offered(plan, c) <==>
              (plan[0].assetType == c && plan[0].amount > 0.0) || Offered(plan[1..], c)
  {
    assert plan == [plan[0]] + plan[1..];
    forall c | Offered(plan, c)
      ensures (plan[0].assetType == c && plan[0].amount > 0.0) || Offered(plan[1..], c)
    {
      var b :| b in plan && b.assetType == c && b.amount > 0.0;
      if b != plan[0] {
        assert b in plan[1..];
      }
    }
    forall c | Offered(plan[1..], c)
      ensures Offered(plan, c)
    {
      var b :| b in plan[1..] && b.assetType == c && b.amount > 0.0;
      assert b in plan;
    }
    assert plan[0] in plan;
  }

  /** The draft totals already planned in a category. */
  function PlannedIn(drafts: seq<DraftAction>, cat: string): (r: real)
    ensures (forall k :: 0 <= k < |drafts| ==> drafts[k].assetType != cat) ==> r == 0.0
    ensures (forall k :: 0 <= k < |drafts| ==> drafts[k].total >= 0.0) ==> r >= 0.0
  {
    if drafts == [] then 0.0
    else PlannedIn(drafts[..|drafts| - 1], cat)
         + (if drafts[|drafts| - 1].assetType == cat then drafts[|drafts| - 1].total else 0.0)
  }

  /** What is left of a category's budget. */
  function Remaining(plan: seq<Budget>, drafts: seq<DraftAction>, cat: string): (r: real)
    ensures (forall k :: 0 <= k < |drafts| ==> drafts[k].assetType != cat) ==> r == BudgetOf(plan, cat)
    ensures (forall k :: 0 <= k < |drafts| ==> drafts[k].total >= 0.0) ==> r <= BudgetOf(plan, cat)
  {
    BudgetOf(plan, cat) - PlannedIn(drafts, cat)
  }

  datatype DraftError = NothingToAdd | NoTicker

  /** The "add to list" button: disabled for a non-positive total, refused
      without a ticker, otherwise one more draft at the end. */
  function AddDraft(drafts: seq<DraftAction>, cat: string, ticker: string, price: real, qty: real,
                    isNew: bool): (r: Result<seq<DraftAction>, DraftError>)
    ensures r == Err(NothingToAdd) <==> price * qty <= 0.0
    ensures r == Err(NoTicker) <==> price * qty > 0.0 && ticker == ""
    ensures r.Ok? ==> r.value == drafts + [DraftAction(cat, ticker, price, qty, price * qty, isNew)]
    ensures r.Ok? ==> |r.value| == |drafts| + 1 && r.value[..|drafts|] == drafts
                      && r.value[|drafts|].total == price * qty > 0.0 && r.value[|drafts|].assetType == cat
  {
    if price * qty <= 0.0 then Err(NothingToAdd)
    else if ticker == "" then Err(NoTicker)
    else Ok(drafts + [DraftAction(cat, ticker, price, qty, price * qty, isNew)])
  }

  /** A new draft uses up its total from its own category's remaining
      budget and leaves every other category's as it was. */
  lemma AddingDraftSpendsBudget(plan: seq<Budget>, drafts: seq<DraftAction>, cat: string, ticker: string,
                                price: real, qty: real, isNew: bool, c: string)
    requires AddDraft(drafts, cat, ticker, price, qty, isNew).Ok?
    ensures var after := AddDraft(drafts, cat, ticker, price, qty, isNew).value;
      Remaining(plan, after, c) == Remaining(plan, drafts, c) - (if c == cat then price * qty else 0.0)
  {
    var after := AddDraft(drafts, cat, ticker, price, qty, isNew).value;
    assert after[..|after| - 1] == drafts;
  }

  // ---------------------------------------------------------------------
  // Committing the drafts

  /** `sub in s` for strings. */
  predicate Contains(s: string, sub: string)
    decreases |s|
  {
    |sub| <= |s| && (s[..|sub|] == sub || Contains(s[1..], sub))
  }

  /** The currency guessed for a new ticker: Taiwan listings end in ".TW". */
  function CurrencyGuess(ticker: string): (c: string)
    ensures c == "TWD" || c == "USD"
    ensures c == "TWD" <==> Contains(ticker, ".TW")
  {
    if Contains(ticker, ".TW") then "TWD" else "USD"
  }

  /** The first holding with the ticker, or -1. */
  function FirstWithSymbol(p: seq<Holding>, ticker: string): (i: int)
    ensures -1 <= i < |p|
    ensures i == -1 <==> forall k :: 0 <= k < |p| ==> p[k].symbol != ticker
    ensures i >= 0 ==> p[i].symbol == ticker && forall k :: 0 <= k < i ==> p[k].symbol != ticker
  {
    if p == [] then -1
    else if p[0].symbol == ticker then 0
    else
      var j := FirstWithSymbol(p[1..], ticker);
      assert forall k :: 1 <= k < |p| ==> p[k] == p[1..][k - 1];
      if j == -1 then -1 else j + 1
  }

  /** A buy of `qty` units for `total` merged into a holding: the quantity
      grows by `qty`, the cost basis by `total`, nothing else changes; a
      holding left at zero units gets average cost 0. */
  function Merged(h: Holding, qty: real, total: real): (r: Holding)
    ensures r == h.(quantity := h.quantity + qty, avgCost := r.avgCost)
    ensures r.quantity != 0.0 ==> r.quantity * r.avgCost == h.quantity * h.avgCost + total
    ensures r.quantity == 0.0 ==> r.avgCost == 0.0
  {
    var newQty := h.quantity + qty;
    h.(quantity := newQty, avgCost := if newQty != 0.0 then (h.quantity * h.avgCost + total) / newQty else 0.0)
  }

  /** The holding a draft for an unknown ticker creates; `stamp` is the
      creation time written into its id. */
  function NewHolding(a: DraftAction, stamp: string): (h: Holding)
    ensures h.symbol == a.ticker && h.assetType == a.assetType
    ensures h.quantity == a.qty && h.avgCost == a.price && h.quantity * h.avgCost == a.qty * a.price
    ensures h.currency == CurrencyGuess(a.ticker) && h.manualPrice == 0.0
    ensures h.lastUpdate == NotAvailable && h.accountId == DefaultAccount
  {
    Holding("ast_" + stamp + "_" + a.ticker, a.assetType, a.ticker, "", a.qty, a.price,
            CurrencyGuess(a.ticker), 0.0, NotAvailable, DefaultAccount, None, None)
  }

  /** One draft written into the portfolio: merged into the first holding
      of its ticker, or appended. */
  function Applied(p: seq<Holding>, a: DraftAction, stamp: string): (r: seq<Holding>)
    ensures FirstWithSymbol(p, a.ticker) >= 0 ==>
              r == p[FirstWithSymbol(p, a.ticker) := Merged(p[FirstWithSymbol(p, a.ticker)], a.qty, a.total)]
    ensures FirstWithSymbol(p, a.ticker) == -1 ==> r == p + [NewHolding(a, stamp)]
  {
    var i := FirstWithSymbol(p, a.ticker);
    if i >= 0 then p[i := Merged(p[i], a.qty, a.total)] else p + [NewHolding(a, stamp)]
  }

  /** The drafts written in order. */
  function Committed(p: seq<Holding>, drafts: seq<DraftAction>, stamp: string): (r: seq<Holding>)
    ensures |p| <= |r| <= |p| + |drafts|
  {
    if drafts == [] then p
    else Applied(Committed(p, drafts[..|drafts| - 1], stamp), drafts[|drafts| - 1], stamp)
  }

  /** The `next(...)` search for the ticker. */
  method FindSymbol(p: seq<Holding>, ticker: string) returns (idx: int)
    ensures idx == FirstWithSymbol(p, ticker)
  {
    idx := 0;
    while idx < |p| && p[idx].symbol != ticker
      invariant 0 <= idx <= |p|
      invariant forall k :: 0 <= k < idx ==> p[k].symbol != ticker
    {
      idx := idx + 1;
    }
    if idx == |p| {
      idx := -1;
    }
  }

  /** The "confirm" button: every draft is written into the session
      portfolio, a valuation refresh is requested and the drafts are
      cleared. */
  method CommitDraftActions(s: SessionStateManager, stamp: string)
    modifies s
    ensures s.State() == old(s.State()).(
              portfolio := Some(Committed(old(s.portfolio).GetOr([]), old(s.draftActions).GetOr([]), stamp)),
              draftActions := Some([]),
              pageKeys := old(s.pageKeys).(forceRefresh := Some(true)))
  {
    var drafts := s.DraftActions();
    var p := s.Portfolio();
    p := CommitAll(p, drafts, stamp);
    s.SetPortfolio(p);
    s.SetPageKeys(s.pageKeys.(forceRefresh := Some(true)));
    s.ClearDraftActions();
  }

  /** The loop over the drafts, on the portfolio list. */
  method CommitAll(p0: seq<Holding>, drafts: seq<DraftAction>, stamp: string) returns (p: seq<Holding>)
    ensures p == Committed(p0, drafts, stamp)
  {
    p := p0;
    var i := 0;
    while i < |drafts|
      invariant 0 <= i <= |drafts|
      invariant p == Committed(p0, drafts[..i], stamp)
    {
      var a := drafts[i];
      var idx := FindSymbol(p, a.ticker);
      if idx >= 0 {
        p := p[idx := Merged(p[idx], a.qty, a.total)];
      } else {
        p := p + [NewHolding(a, stamp)];
      }
      assert drafts[..i + 1][..i] == drafts[..i];
      i := i + 1;
    }
    assert drafts[..i] == drafts;
  }

  /** Holdings whose ticker no draft names come through the commit
      unchanged, and the portfolio never shrinks. */
  lemma {:induction false} CommitKeepsOtherHoldings(p: seq<Holding>, drafts: seq<DraftAction>, stamp: string)
    ensures |Committed(p, drafts, stamp)| >= |p|
    ensures forall k :: 0 <= k < |p| && (forall j :: 0 <= j < |drafts| ==> drafts[j].ticker != p[k].symbol) ==>
              Committed(p, drafts, stamp)[k] == p[k]
  {
    if drafts != [] {
      var front := drafts[..|drafts| - 1];
      CommitKeepsOtherHoldings(p, front, stamp);
      var q := Committed(p, front, stamp);
      var a := drafts[|drafts| - 1];
      forall k | 0 <= k < |p| && (forall j :: 0 <= j < |drafts| ==> drafts[j].ticker != p[k].symbol)
        ensures Committed(p, drafts, stamp)[k] == p[k]
      {
        assert forall j :: 0 <= j < |front| ==> front[j] == drafts[j];
        assert q[k] == p[k];
        assert a.ticker != q[k].symbol;
      }
    }
  }

  /** Two drafts for a ticker the portfolio lacks give one new holding
      carrying both quantities. */
  lemma SecondDraftMergesIntoFirst(p: seq<Holding>, a: DraftAction, b: DraftAction, stamp: string)
    requires forall k :: 0 <= k < |p| ==> p[k].symbol != a.ticker
    requires b.ticker == a.ticker
    ensures var r := Committed(p, [a, b], stamp);
      && |r| == |p| + 1
      && r[..|p|] == p
      && r[|p|] == Merged(NewHolding(a, stamp), b.qty, b.total)
      && r[|p|].quantity == a.qty + b.qty
  {
    assert [a, b][..1] == [a];
    assert [a][..0] == [];
    var q := p + [NewHolding(a, stamp)];
    assert Committed(p, [a], stamp) == q;
    assert q[|p|].symbol == b.ticker;
    assert forall k :: 0 <= k < |p| ==> q[k].symbol != b.ticker;
    assert FirstWithSymbol(q, b.ticker) == |p|;
  }
}
