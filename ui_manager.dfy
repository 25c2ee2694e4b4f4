/** The older management page. Its staleness test, suggestion split, buy,
    sell, delete and draft commit are the same code as on the current pages
    and are modelled there (`AssetManagement`, `UiTools`); what is its own is
    the allocation form, whose save button is enabled only while the entered
    percentages add up to at most 100. */
module Manager {
  import opened Wrappers
  import opened Holdings
  import opened StateManager
  import opened Models

  /** The types the allocation form always lists. */
  const StandardTypes: set<string> := {"美股", "台股", "虛擬貨幣", "稀有金屬"}

  /** The rows of the allocation form: every type held, and the standard
      ones. */
  function FormTypes(p: seq<Holding>): (types: set<string>)
    ensures StandardTypes <= types
    ensures forall i :: 0 <= i < |p| ==> p[i].assetType in types
    ensures forall t :: t in types && t !in StandardTypes ==> exists i :: 0 <= i < |p| && p[i].assetType == t
  {
    (set i | 0 <= i < |p| :: p[i].assetType) + StandardTypes
  }

  lemma {:induction false} TotalPctAppend(t: Targets, x: Target)
    ensures TotalPct(t + [x]) == TotalPct(t) + x.pct
  {
    if t == [] {
      assert ([x])[1..] == [];
    } else {
      assert (t + [x])[1..] == t[1..] + [x];
      TotalPctAppend(t[1..], x);
    }
  }

  /** The running total of the entered percentages. */
  method FormTotal(entries: Targets) returns (total: real)
    ensures total == TotalPct(entries)
  {
    total := 0.0;
    for i := 0 to |entries|
      invariant total == TotalPct(entries[..i])
    {
      assert entries[..i + 1] == entries[..i] + [entries[i]];
      TotalPctAppend(entries[..i], entries[i]);
      total := total + entries[i].pct;
    }
    assert entries[..|entries|] == entries;
  }

  /** The save button: the entered targets replace the stored ones only when
      they add up to at most 100; otherwise nothing changes. */
  method SaveAllocation(s: SessionStateManager, entries: Targets) returns (saved: bool)
    modifies s
    ensures saved <==> TotalPct(entries) <= 100.0
    ensures saved ==> s.State() == old(s.State()).(allocationTargets := Some(entries))
    ensures !saved ==> s.State() == old(s.State())
  {
    var total := FormTotal(entries);
    saved := total <= 100.0;
    if saved {
      s.SetAllocationTargets(entries);
    }
  }

  /** Targets that pass the gate, entered within the form's 0..100 range,
      are accepted by the allocation validator, and none exceeds the total. */
  lemma SavableFormValidates(entries: Targets)
    requires TotalPct(entries) <= 100.0
    requires forall i :: 0 <= i < |entries| ==> entries[i].pct >= 0.0
    ensures ValidateTargets(entries) == Ok(entries)
    ensures forall i :: 0 <= i < |entries| ==> entries[i].pct <= TotalPct(entries)
  {
    forall i | 0 <= i < |entries|
      ensures entries[i].pct <= TotalPct(entries)
    {
      TotalBoundsEachTarget(entries, i);
    }
  }
}
