/** The typed records of the application: `Asset` with its dict round trip,
    the allocation settings and a planned deployment action. Validation
    follows the pydantic rules the models declare: each field is checked, all
    failing fields are reported together, and no record is built unless every
    field passes. */
module Models {
  import opened Wrappers
  import opened Numeric
  import opened Holdings

  // ---------------------------------------------------------------------
  // Loose Python values, as found in a dict read from CSV or the session
  // ---------------------------------------------------------------------

  datatype Value = VNone | VNum(num: real) | VStr(str: string)

  type Dict = map<string, Value>

  /** Python truthiness: None, 0.0 and "" are false. */
  predicate Truthy(v: Value)
  {
    match v
    case VNone => false
    case VNum(x) => x != 0.0
    case VStr(s) => s != ""
  }

  /** `a or b`. */
  function Or(a: Value, b: Value): (r: Value)
    ensures Truthy(a) ==> r == a
    ensures !Truthy(a) ==> r == b
  {
    if Truthy(a) then a else b
  }

  /** `d.get(k, default)`. */
  function Get(d: Dict, k: string, default: Value := VNone): Value
  {
    if k in d then d[k] else default
  }

  /** `float(v)`; None where it raises. `numeral` is Python's parser of a
      decimal string. */
  function ToFloat(v: Value, numeral: string -> Option<real>): (r: Option<real>)
    ensures v.VNum? ==> r == Some(v.num)
    ensures v.VNone? ==> r.None?
  {
    match v
    case VNone => None
    case VNum(x) => Some(x)
    case VStr(s) => numeral(s)
  }

  // ---------------------------------------------------------------------
  // str.strip and str.upper
  // ---------------------------------------------------------------------

  /** `str.isspace` for one character. */
  predicate IsSpace(c: char)
  {
    || c == ' ' || ('\t' <= c <= '\r') || ('\U{1c}' <= c <= '\U{1f}')
    || c == '\U{85}' || c == '\U{a0}' || c == '\U{1680}'
    || ('\U{2000}' <= c <= '\U{200a}') || c == '\U{2028}' || c == '\U{2029}'
    || c == '\U{202f}' || c == '\U{205f}' || c == '\U{3000}'
  }

  predicate IsStripped(s: string)
  {
    s == [] || (!IsSpace(s[0]) && !IsSpace(s[|s| - 1]))
  }

  /** `s` without its leading whitespace. */
  function StripLeft(s: string): (r: string)
    ensures |r| <= |s| && r == s[|s| - |r|..]
    ensures forall i {:trigger IsSpace(s[i])} :: 0 <= i < |s| - |r| ==> IsSpace(s[i])
    ensures r == [] || !IsSpace(r[0])
  {
    if s != [] && IsSpace(s[0]) then StripLeft(s[1..]) else s
  }

  /** `s` without its trailing whitespace. */
  function StripRight(s: string): (r: string)
    ensures |r| <= |s| && r == s[..|r|]
    ensures forall i {:trigger IsSpace(s[i])} :: |r| <= i < |s| ==> IsSpace(s[i])
    ensures r == [] || !IsSpace(r[|r| - 1])
  {
    if s != [] && IsSpace(s[|s| - 1]) then StripRight(s[..|s| - 1]) else s
  }

  /** `r` stands in `s` from position `n` on, with only whitespace before
      and after it. */
  predicate Surrounded(s: string, n: int, r: string)
  {
    && 0 <= n && n + |r| <= |s| && s[n..n + |r|] == r
    && (forall i {:trigger IsSpace(s[i])} :: 0 <= i < n ==> IsSpace(s[i]))
    && (forall i {:trigger IsSpace(s[i])} :: n + |r| <= i < |s| ==> IsSpace(s[i]))
  }

  /** `str.strip()`: no whitespace at either end. */
  function Strip(s: string): (r: string)
    ensures IsStripped(r)
  {
    StripRight(StripLeft(s))
  }

  /** What `Strip` removes is whitespace only, from both ends: the result
      stands in `s` with whitespace before and after it. */
  lemma StripIsSurroundedInfix(s: string)
    ensures Surrounded(s, |s| - |StripLeft(s)|, Strip(s))
  {
    SurroundedInSuffix(s, StripLeft(s), Strip(s));
  }

  /** A prefix `r` of a suffix `l` of `s`, with whitespace before `l` and
      after `r`, stands in `s` surrounded by whitespace. */
  lemma SurroundedInSuffix(s: string, l: string, r: string)
    requires |l| <= |s| && l == s[|s| - |l|..]
    requires forall i {:trigger IsSpace(s[i])} :: 0 <= i < |s| - |l| ==> IsSpace(s[i])
    requires |r| <= |l| && r == l[..|r|]
    requires forall i {:trigger IsSpace(l[i])} :: |r| <= i < |l| ==> IsSpace(l[i])
    ensures Surrounded(s, |s| - |l|, r)
  {
    var n := |s| - |l|;
    assert s[n..n + |r|] == r;
    forall i | n + |r| <= i < |s|
      ensures IsSpace(s[i])
    {
      assert IsSpace(l[i - n]);
      assert s[i] == l[i - n];
    }
  }




  lemma StripKeepsStripped(s: string)
    requires IsStripped(s)
    ensures Strip(s) == s
  {
    assert StripLeft(s) == s;
    assert StripRight(s) == s;
  }

  /** A lower-case ASCII letter becomes its upper-case letter; every other
      character is kept. */
  function UpperChar(c: char): (d: char)
    ensures 'a' <= c <= 'z' ==> 'A' <= d <= 'Z' && d as int - 'A' as int == c as int - 'a' as int
    ensures !('a' <= c <= 'z') ==> d == c
  {
    if 'a' <= c <= 'z' then (c as int - 'a' as int + 'A' as int) as char else c
  }

  /** `str.upper()` on the ASCII letters. */
  function Upper(s: string): (r: string)
    ensures |r| == |s|
    ensures forall i :: 0 <= i < |s| ==> r[i] == UpperChar(s[i])
  {
    seq(|s|, i requires 0 <= i < |s| => UpperChar(s[i]))
  }

  /** No lower-case ASCII letter left. */
  predicate IsUpper(s: string)
  {
    forall i :: 0 <= i < |s| ==> !('a' <= s[i] <= 'z')
  }

  lemma UpperKeepsUpper(s: string)
    requires IsUpper(s)
    ensures Upper(s) == s
  {
  }

  /** Upper-casing leaves no lower-case letter and keeps a stripped string
      stripped, so a normalised ticker normalises to itself. */
  lemma UpperOfStripped(s: string)
    requires IsStripped(s)
    ensures IsStripped(Upper(s)) && IsUpper(Upper(s))
  {
  }

  // ---------------------------------------------------------------------
  // Asset
  // ---------------------------------------------------------------------

  datatype Asset = Asset(
    assetType: string, ticker: string, quantity: real, avgCost: real,
    currency: string, manualPrice: real, lastUpdate: string,
    suggestedSl: Option<real>, suggestedTp: Option<real>)

  datatype AssetField =
    TypeField | TickerField | QuantityField | AvgCostField | CurrencyField
    | ManualPriceField | LastUpdateField

  /** What the validators guarantee of every constructed `Asset`. */
  predicate ValidAsset(a: Asset)
  {
    && IsStripped(a.assetType)
    && IsStripped(a.ticker) && |a.ticker| >= 1 && IsUpper(a.ticker)
    && a.quantity >= 0.0 && a.avgCost >= 0.0 && a.manualPrice >= 0.0
    && (a.currency == "USD" || a.currency == "TWD")
    && IsStripped(a.lastUpdate)
  }

  const StandardTypes: seq<string> := ["美股", "台股", "虛擬貨幣", "稀有金屬"]

  /** The type validator warns about a non-standard type but keeps it. */
  predicate WarnsAboutType(t: string)
  {
    t !in StandardTypes
  }

  /** The failing fields of an `Asset(...)` call. */
  function AssetErrors(rawType: Value, rawTicker: Value, quantity: real, avgCost: real,
                       currency: Value, manualPrice: real, lastUpdate: Value): set<AssetField>
  {
    (if rawType.VStr? then {} else {TypeField})
    + (if rawTicker.VStr? && |Strip(rawTicker.str)| >= 1 then {} else {TickerField})
    + (if quantity >= 0.0 then {} else {QuantityField})
    + (if avgCost >= 0.0 then {} else {AvgCostField})
    + (if currency == VStr("USD") || currency == VStr("TWD") then {} else {CurrencyField})
    + (if manualPrice >= 0.0 then {} else {ManualPriceField})
    + (if lastUpdate.VStr? then {} else {LastUpdateField})
  }

  /** `Asset(...)`: strings are stripped, the ticker is upper-cased, every
      number must be non-negative and the currency one of the two literals. */
  function NewAsset(rawType: Value, rawTicker: Value, quantity: real, avgCost: real,
                    currency: Value, manualPrice: real, lastUpdate: Value,
                    sl: Option<real>, tp: Option<real>): (r: Result<Asset, set<AssetField>>)
    ensures r.Ok? <==> AssetErrors(rawType, rawTicker, quantity, avgCost, currency, manualPrice, lastUpdate) == {}
    ensures r.Err? ==> r.error == AssetErrors(rawType, rawTicker, quantity, avgCost, currency, manualPrice, lastUpdate)
    ensures r.Ok? ==> ValidAsset(r.value)
    ensures r.Ok? ==> r.value.ticker == Upper(Strip(rawTicker.str)) && r.value.assetType == Strip(rawType.str)
    ensures r.Ok? ==> r.value.suggestedSl == sl && r.value.suggestedTp == tp
  {
    var errors := AssetErrors(rawType, rawTicker, quantity, avgCost, currency, manualPrice, lastUpdate);
    if errors != {} then Err(errors)
    else
      assert rawType.VStr? && rawTicker.VStr? && lastUpdate.VStr?;
      UpperOfStripped(Strip(rawTicker.str));
      Ok(Asset(Strip(rawType.str), Upper(Strip(rawTicker.str)), quantity, avgCost,
               currency.str, manualPrice, Strip(lastUpdate.str), sl, tp))
  }

  function OptionalNumber(x: Option<real>): Value
  {
    if x.Some? then VNum(x.value) else VStr("")
  }

  /** `Asset.to_dict`: the capitalised CSV keys; a missing SL or TP is "". */
  function ToDict(a: Asset): (d: Dict)
    ensures "Type" in d && "Ticker" in d && "Quantity" in d && "Avg_Cost" in d
    ensures "Currency" in d && "Manual_Price" in d && "Last_Update" in d
    ensures "Suggested_SL" in d && "Suggested_TP" in d
  {
    map["Type" := VStr(a.assetType), "Ticker" := VStr(a.ticker),
        "Quantity" := VNum(a.quantity), "Avg_Cost" := VNum(a.avgCost),
        "Currency" := VStr(a.currency), "Manual_Price" := VNum(a.manualPrice),
        "Last_Update" := VStr(a.lastUpdate),
        "Suggested_SL" := OptionalNumber(a.suggestedSl),
        "Suggested_TP" := OptionalNumber(a.suggestedTp)]
  }

  /** `parse_optional_float`: the first truthy of the two keys; None when it
      is missing, "", "N/A" or not a number. */
  function ParseOptionalFloat(d: Dict, key1: string, key2: string,
                              numeral: string -> Option<real>): (r: Option<real>)
    ensures Get(d, key1).VNum? && Get(d, key1).num != 0.0 ==> r == Some(Get(d, key1).num)
    ensures !Truthy(Get(d, key1)) && Get(d, key2) in {VNone, VStr(""), VStr(NotAvailable)} ==> r.None?
    ensures Get(d, key1) == VStr(NotAvailable) ==> r.None?
    ensures var v := Or(Get(d, key1), Get(d, key2));
      v.VNum? ==> r == Some(v.num)
    ensures var v := Or(Get(d, key1), Get(d, key2));
      v.VStr? && v.str != "" && v.str != NotAvailable ==> r == numeral(v.str)
  {
    var v := Or(Get(d, key1), Get(d, key2));
    if v == VNone || v == VStr("") || v == VStr("N/A") then None
    else ToFloat(v, numeral)
  }

  datatype FromDictError =
    | NotANumber(key: string)          // float() raised on this field
    | Invalid(fields: set<AssetField>) // the Asset validators rejected these

  /** The arguments `from_dict` passes to `Asset(...)`, with each `float()`
      conversion None where it raises. */
  datatype RawAsset = RawAsset(
    rawType: Value, rawTicker: Value, quantity: Option<real>, avgCost: Option<real>,
    currency: Value, manualPrice: Option<real>, lastUpdate: Value,
    sl: Option<real>, tp: Option<real>)

  /** Each field from its capitalised key, else its lower-case key, else its
      default. */
  function ReadFields(d: Dict, numeral: string -> Option<real>): (r: RawAsset)
    ensures Truthy(Get(d, "Type")) ==> r.rawType == d["Type"]
    ensures !Truthy(Get(d, "Type")) ==> r.rawType == Get(d, "type")
    ensures Truthy(Get(d, "Ticker")) ==> r.rawTicker == d["Ticker"]
    ensures !Truthy(Get(d, "Ticker")) ==> r.rawTicker == Get(d, "ticker")
    ensures Get(d, "Quantity").VNum? && Get(d, "Quantity").num != 0.0 ==> r.quantity == Some(d["Quantity"].num)
    ensures Get(d, "Avg_Cost").VNum? && Get(d, "Avg_Cost").num != 0.0 ==> r.avgCost == Some(d["Avg_Cost"].num)
    ensures Get(d, "Manual_Price").VNum? && Get(d, "Manual_Price").num != 0.0 ==>
              r.manualPrice == Some(d["Manual_Price"].num)
    ensures Truthy(Get(d, "Currency")) ==> r.currency == d["Currency"]
    ensures !Truthy(Get(d, "Currency")) ==> r.currency == Get(d, "currency", VStr("USD"))
    ensures Truthy(Get(d, "Last_Update")) ==> r.lastUpdate == d["Last_Update"]
    ensures !Truthy(Get(d, "Last_Update")) ==> r.lastUpdate == Get(d, "last_update", VStr(NotAvailable))
    ensures r.sl == ParseOptionalFloat(d, "Suggested_SL", "suggested_sl", numeral)
    ensures r.tp == ParseOptionalFloat(d, "Suggested_TP", "suggested_tp", numeral)
    ensures d == map[] ==>
              r == RawAsset(VNone, VNone, Some(0.0), Some(0.0), VStr("USD"), Some(0.0), VStr(NotAvailable), None, None)
  {
    RawAsset(
      Or(Get(d, "Type"), Get(d, "type")),
      Or(Get(d, "Ticker"), Get(d, "ticker")),
      ToFloat(Or(Get(d, "Quantity"), Get(d, "quantity", VNum(0.0))), numeral),
      ToFloat(Or(Get(d, "Avg_Cost"), Get(d, "avg_cost", VNum(0.0))), numeral),
      Or(Get(d, "Currency"), Get(d, "currency", VStr("USD"))),
      ToFloat(Or(Get(d, "Manual_Price"), Get(d, "manual_price", VNum(0.0))), numeral),
      Or(Get(d, "Last_Update"), Get(d, "last_update", VStr(NotAvailable))),
      ParseOptionalFloat(d, "Suggested_SL", "suggested_sl", numeral),
      ParseOptionalFloat(d, "Suggested_TP", "suggested_tp", numeral))
  }

  /** `Asset.from_dict`: a conversion that raises aborts before validation;
      otherwise the validators decide. */
  function FromDict(d: Dict, numeral: string -> Option<real>): (r: Result<Asset, FromDictError>)
    ensures r.Ok? ==> ValidAsset(r.value)
  {
    var f := ReadFields(d, numeral);
    if f.quantity.None? then Err(NotANumber("quantity"))
    else if f.avgCost.None? then Err(NotANumber("avg_cost"))
    else if f.manualPrice.None? then Err(NotANumber("manual_price"))
    else
      var built := NewAsset(f.rawType, f.rawTicker, f.quantity.value, f.avgCost.value,
                            f.currency, f.manualPrice.value, f.lastUpdate, f.sl, f.tp);
      if built.Err? then Err(Invalid(built.error)) else Ok(built.value)
  }

  /** What survives a CSV round trip: a zero SL or TP reads back as absent and
      an empty stamp as "N/A". */
  function Reloaded(a: Asset): (b: Asset)
    ensures b.suggestedSl != Some(0.0) && b.suggestedTp != Some(0.0) && b.lastUpdate != ""
    ensures b == a.(suggestedSl := b.suggestedSl, suggestedTp := b.suggestedTp, lastUpdate := b.lastUpdate)
    ensures a.suggestedSl != Some(0.0) && a.suggestedTp != Some(0.0) && a.lastUpdate != "" ==> b == a
  {
    a.(suggestedSl := if a.suggestedSl == Some(0.0) then None else a.suggestedSl,
       suggestedTp := if a.suggestedTp == Some(0.0) then None else a.suggestedTp,
       lastUpdate := if a.lastUpdate == "" then NotAvailable else a.lastUpdate)
  }

  /** Writing an asset with `to_dict` and reading it with `from_dict` gives it
      back, up to the normalisations of `Reloaded`, whatever the numeral
      parser. */
  lemma DictRoundTrip(a: Asset, numeral: string -> Option<real>)
    requires ValidAsset(a) && a.assetType != ""
    ensures FromDict(ToDict(a), numeral) == Ok(Reloaded(a))
  {
    ToDictReadsBack(a, numeral);
    RebuildReloaded(a);
  }

  /** Stripping and upper-casing leave the text fields of a valid asset, and
      its reloaded stamp, as they are. */
  lemma NormalisedFieldsKept(a: Asset)
    requires ValidAsset(a)
    ensures Strip(a.assetType) == a.assetType && Upper(Strip(a.ticker)) == a.ticker
    ensures Strip(Reloaded(a).lastUpdate) == Reloaded(a).lastUpdate
  {
    StripKeepsStripped(a.assetType);
    NormalisedTickerKept(a.ticker);
    ReloadedStampKept(a);
  }

  lemma ReloadedStampKept(a: Asset)
    requires IsStripped(a.lastUpdate)
    ensures Strip(Reloaded(a).lastUpdate) == Reloaded(a).lastUpdate
  {
    if a.lastUpdate == "" {
      assert IsStripped(NotAvailable);
      StripKeepsStripped(NotAvailable);
    } else {
      StripKeepsStripped(a.lastUpdate);
    }
  }

  lemma NormalisedTickerKept(t: string)
    requires IsStripped(t) && IsUpper(t)
    ensures Upper(Strip(t)) == t
  {
    StripKeepsStripped(t);
    UpperKeepsUpper(t);
  }


  /** The fields read back from a valid asset pass validation and rebuild it. */
  lemma RebuildReloaded(a: Asset)
    requires ValidAsset(a) && a.assetType != ""
    ensures var b := Reloaded(a);
      NewAsset(VStr(a.assetType), VStr(a.ticker), a.quantity, a.avgCost, VStr(a.currency),
               a.manualPrice, VStr(b.lastUpdate), b.suggestedSl, b.suggestedTp) == Ok(b)
  {
    var b := Reloaded(a);
    NormalisedFieldsKept(a);
    NewAssetOfNormalised(a.assetType, a.ticker, a.quantity, a.avgCost, a.currency,
                         a.manualPrice, b.lastUpdate, b.suggestedSl, b.suggestedTp);
  }

  /** Fields that stripping and upper-casing leave alone, and numbers and a
      currency the validators accept, are stored as given. */
  lemma NewAssetOfNormalised(t: string, k: string, quantity: real, avgCost: real, currency: string,
                             manualPrice: real, stamp: string, sl: Option<real>, tp: Option<real>)
    requires Strip(t) == t && Upper(Strip(k)) == k && |k| >= 1 && Strip(stamp) == stamp
    requires quantity >= 0.0 && avgCost >= 0.0 && manualPrice >= 0.0
    requires currency == "USD" || currency == "TWD"
    ensures NewAsset(VStr(t), VStr(k), quantity, avgCost, VStr(currency), manualPrice, VStr(stamp), sl, tp)
            == Ok(Asset(t, k, quantity, avgCost, currency, manualPrice, stamp, sl, tp))
  {
    assert |Strip(k)| >= 1;
    NoAssetErrors(VStr(t), VStr(k), quantity, avgCost, VStr(currency), manualPrice, VStr(stamp));
  }

  /** Every check of `Asset(...)` passes on such fields. */
  lemma NoAssetErrors(rawType: Value, rawTicker: Value, quantity: real, avgCost: real,
                      currency: Value, manualPrice: real, lastUpdate: Value)
    requires rawType.VStr? && rawTicker.VStr? && |Strip(rawTicker.str)| >= 1 && lastUpdate.VStr?
    requires quantity >= 0.0 && avgCost >= 0.0 && manualPrice >= 0.0
    requires currency == VStr("USD") || currency == VStr("TWD")
    ensures AssetErrors(rawType, rawTicker, quantity, avgCost, currency, manualPrice, lastUpdate) == {}
  {
  }


  /** Field by field, `from_dict` reads back what `to_dict` wrote. */
  lemma ToDictReadsBack(a: Asset, numeral: string -> Option<real>)
    ensures ReadFields(ToDict(a), numeral) ==
      RawAsset(if a.assetType == "" then VNone else VStr(a.assetType),
               if a.ticker == "" then VNone else VStr(a.ticker),
               Some(a.quantity), Some(a.avgCost),
               if a.currency == "" then VStr("USD") else VStr(a.currency),
               Some(a.manualPrice), VStr(Reloaded(a).lastUpdate),
               Reloaded(a).suggestedSl, Reloaded(a).suggestedTp)
  {
    ToDictLookups(a);
    ToDictLacksLowerKeys(a);
  }

  /** What each key of `to_dict`'s output holds, and which keys it lacks. */
  lemma ToDictLookups(a: Asset)
    ensures var d := ToDict(a);
      && Get(d, "Type") == VStr(a.assetType) && Get(d, "Ticker") == VStr(a.ticker)
      && Get(d, "Quantity") == VNum(a.quantity) && Get(d, "Avg_Cost") == VNum(a.avgCost)
      && Get(d, "Currency") == VStr(a.currency) && Get(d, "Manual_Price") == VNum(a.manualPrice)
      && Get(d, "Last_Update") == VStr(a.lastUpdate)
      && Get(d, "Suggested_SL") == OptionalNumber(a.suggestedSl)
      && Get(d, "Suggested_TP") == OptionalNumber(a.suggestedTp)
  {
  }

  /** `to_dict` writes none of the lower-case keys. */
  lemma ToDictLacksLowerKeys(a: Asset)
    ensures var d := ToDict(a);
      && "type" !in d && "ticker" !in d && "quantity" !in d && "avg_cost" !in d && "currency" !in d
      && "manual_price" !in d && "last_update" !in d && "suggested_sl" !in d && "suggested_tp" !in d
  {
    CapitalKeys(a);
  }

  /** Every key `to_dict` writes starts with a capital letter. */
  lemma CapitalKeys(a: Asset)
    ensures forall k :: k in ToDict(a) ==> |k| > 0 && 'A' <= k[0] <= 'Z'
  {
    var d := ToDict(a);
    assert d.Keys == {"Type", "Ticker", "Quantity", "Avg_Cost", "Currency", "Manual_Price",
                      "Last_Update", "Suggested_SL", "Suggested_TP"};
  }

  /** An asset with an empty type cannot be read back: the empty string is
      falsy, the lower-case key is absent, and None is not a string. */
  lemma EmptyTypeDoesNotRoundTrip(a: Asset, numeral: string -> Option<real>)
    requires ValidAsset(a) && a.assetType == ""
    ensures FromDict(ToDict(a), numeral) == Err(Invalid({TypeField}))
  {
    var b := Reloaded(a);
    ToDictReadsBack(a, numeral);
    assert ReadFields(ToDict(a), numeral) ==
      RawAsset(VNone, VStr(a.ticker), Some(a.quantity), Some(a.avgCost), VStr(a.currency),
               Some(a.manualPrice), VStr(b.lastUpdate), b.suggestedSl, b.suggestedTp);
    StripKeepsStripped(a.ticker);
    OnlyTypeMissing(a.ticker, a.quantity, a.avgCost, a.currency, a.manualPrice, b.lastUpdate);
  }

  /** Without a type, fields that are otherwise valid fail on the type alone. */
  lemma OnlyTypeMissing(ticker: string, quantity: real, avgCost: real, currency: string,
                        manualPrice: real, stamp: string)
    requires |Strip(ticker)| >= 1
    requires quantity >= 0.0 && avgCost >= 0.0 && manualPrice >= 0.0
    requires currency == "USD" || currency == "TWD"
    ensures AssetErrors(VNone, VStr(ticker), quantity, avgCost, VStr(currency), manualPrice, VStr(stamp)) == {TypeField}
  {
  }

  // ---------------------------------------------------------------------
  // Allocation settings
  // ---------------------------------------------------------------------

  datatype TargetError = NegativePct(assetType: string) | Over100(assetType: string)

  /** Entry i is the first whose percentage lies outside [0, 100]. */
  predicate FirstOutOfRange(t: Targets, i: int)
  {
    && 0 <= i < |t|
    && (forall j :: 0 <= j < i ==> 0.0 <= t[j].pct <= 100.0)
    && !(0.0 <= t[i].pct <= 100.0)
  }

  /** `validate_percentages`: the first entry, in dict order, below 0 or
      above 100 is reported, as negative when below 0. */
  function ValidateTargets(t: Targets): (r: Result<Targets, TargetError>)
    ensures r.Ok? <==> forall i :: 0 <= i < |t| ==> 0.0 <= t[i].pct <= 100.0
    ensures r.Ok? ==> r.value == t
    ensures r.Err? ==>
              exists i :: FirstOutOfRange(t, i) &&
                r.error == (if t[i].pct < 0.0 then NegativePct(t[i].assetType) else Over100(t[i].assetType))
  {
    if t == [] then Ok(t)
    else if t[0].pct < 0.0 then
      assert FirstOutOfRange(t, 0);
      Err(NegativePct(t[0].assetType))
    else if t[0].pct > 100.0 then
      assert FirstOutOfRange(t, 0);
      Err(Over100(t[0].assetType))
    else
      var rest := ValidateTargets(t[1..]);
      if rest.Err? then
        FirstBadShifts(t, rest.error);
        rest
      else
        assert forall i :: 1 <= i < |t| ==> t[i] == t[1..][i - 1];
        Ok(t)
  }

  /** The entry the tail reports is the first bad entry of the whole list
      when the head is in range. */
  lemma FirstBadShifts(t: Targets, e: TargetError)
    requires t != [] && 0.0 <= t[0].pct <= 100.0
    requires exists i :: FirstOutOfRange(t[1..], i) &&
               e == (if t[1..][i].pct < 0.0 then NegativePct(t[1..][i].assetType) else Over100(t[1..][i].assetType))
    ensures exists i :: FirstOutOfRange(t, i) &&
              e == (if t[i].pct < 0.0 then NegativePct(t[i].assetType) else Over100(t[i].assetType))
  {
    var i :| FirstOutOfRange(t[1..], i) &&
             e == (if t[1..][i].pct < 0.0 then NegativePct(t[1..][i].assetType) else Over100(t[1..][i].assetType));
    assert t[i + 1] == t[1..][i];
    assert forall j :: 1 <= j < i + 1 ==> t[j] == t[1..][j - 1];
    assert FirstOutOfRange(t, i + 1);
  }

  /** `AllocationSettings.is_valid`: the targets sum to 100 within 0.01. */
  function IsValidAllocation(t: Targets): (valid: bool)
    ensures valid <==> 99.99 < TotalPct(t) < 100.01
  {
    Abs(TotalPct(t) - 100.0) < 0.01
  }

  /** In an allocation that `is_valid` accepts and that has no negative
      entry, no single target exceeds 100.01. */
  lemma ValidAllocationBoundsEachTarget(t: Targets, i: int)
    requires IsValidAllocation(t)
    requires forall j :: 0 <= j < |t| ==> t[j].pct >= 0.0
    requires 0 <= i < |t|
    ensures t[i].pct < 100.01
  {
    TotalBoundsEachTarget(t, i);
  }

  /** With no negative entry, no single target exceeds the total. */
  lemma {:induction false} TotalBoundsEachTarget(t: Targets, i: int)
    requires forall j :: 0 <= j < |t| ==> t[j].pct >= 0.0
    requires 0 <= i < |t|
    ensures t[i].pct <= TotalPct(t)
  {
    if i > 0 {
      TotalBoundsEachTarget(t[1..], i - 1);
    } else {
      NonNegativeTotal(t[1..]);
    }
  }

  lemma {:induction false} NonNegativeTotal(t: Targets)
    requires forall j :: 0 <= j < |t| ==> t[j].pct >= 0.0
    ensures TotalPct(t) >= 0.0
  {
    if t != [] {
      NonNegativeTotal(t[1..]);
    }
  }

  // ---------------------------------------------------------------------
  // Deployment action
  // ---------------------------------------------------------------------

  datatype ActionField = ActionType | ActionTicker | ActionPrice | ActionQty | ActionTotal

  function ActionErrors(rawType: Value, rawTicker: Value, price: real, qty: real, total: real): set<ActionField>
  {
    (if rawType.VStr? then {} else {ActionType})
    + (if rawTicker.VStr? then {} else {ActionTicker})
    + (if price > 0.0 then {} else {ActionPrice})
    + (if qty > 0.0 then {} else {ActionQty})
    + (if total <= 0.0 || (price > 0.0 && qty > 0.0 && Abs(total - price * qty) > 0.01)
       then {ActionTotal} else {})
  }

  /** `DeploymentAction(...)`: price, quantity and total must be positive and
      the total must match price × quantity within 0.01 (checked only when
      price and quantity themselves passed). */
  function NewDeploymentAction(rawType: Value, rawTicker: Value, price: real, qty: real,
                               total: real, isNew: bool): (r: Result<DraftAction, set<ActionField>>)
    ensures r.Ok? <==> ActionErrors(rawType, rawTicker, price, qty, total) == {}
    ensures r.Err? ==> r.error == ActionErrors(rawType, rawTicker, price, qty, total)
    ensures r.Ok? ==> r.value.price > 0.0 && r.value.qty > 0.0 && r.value.total > 0.0
    ensures r.Ok? ==> Abs(r.value.total - r.value.price * r.value.qty) <= 0.01
  {
    var errors := ActionErrors(rawType, rawTicker, price, qty, total);
    if errors != {} then Err(errors)
    else Ok(DraftAction(rawType.str, rawTicker.str, price, qty, total, isNew))
  }

  /** An action whose total is exactly price × quantity is accepted whenever
      price and quantity are positive. */
  lemma ExactTotalIsAccepted(ty: string, ticker: string, price: real, qty: real, isNew: bool)
    requires price > 0.0 && qty > 0.0
    ensures NewDeploymentAction(VStr(ty), VStr(ticker), price, qty, price * qty, isNew)
            == Ok(DraftAction(ty, ticker, price, qty, price * qty, isNew))
  {
    assert price * qty > 0.0;
  }
}
