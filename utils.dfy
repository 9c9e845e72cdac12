/** The stock tracker's helpers: input validators, and the read-side
    analytics over a snapshot of the catalog and the stock data (product
    summary, stock valuation, low-stock alerts). None of them changes its
    inputs. */
module Utils {
  import opened Dicts
  import opened Records

  // ---------------------------------------------------------------------
  // Column lookup

  /** The first of `columns`, in their order, that is one of `possibleNames`;
      None when no column is. */
  method FindColumn(columns: seq<string>, possibleNames: seq<string>) returns (found: Option<string>)
    ensures found.None? <==> forall i :: 0 <= i < |columns| ==> columns[i] !in possibleNames
    ensures found.Some? ==>
      exists i :: 0 <= i < |columns| && columns[i] == found.value && found.value in possibleNames
        && forall j :: 0 <= j < i ==> columns[j] !in possibleNames
  {
    for i := 0 to |columns|
      invariant forall j :: 0 <= j < i ==> columns[j] !in possibleNames
    {
      if columns[i] in possibleNames {
        return Some(columns[i]);
      }
    }
    return None;
  }

  // ---------------------------------------------------------------------
  // ASIN format

  /** The characters Python's `str.isspace` accepts, which `str.strip`
      removes. */
  predicate IsSpace(c: char)
  {
    || c == ' ' || '\t' <= c <= '\r' || '\U{1C}' <= c <= '\U{1F}'
    || c == '\U{85}' || c == '\U{A0}' || c == '\U{1680}' || '\U{2000}' <= c <= '\U{200A}'
    || c == '\U{2028}' || c == '\U{2029}' || c == '\U{202F}' || c == '\U{205F}' || c == '\U{3000}'
  }

  /** A letter or a digit. */
  predicate IsAlnum(c: char)
  {
    'a' <= c <= 'z' || 'A' <= c <= 'Z' || '0' <= c <= '9'
  }

  function StripStart(s: string): (r: string)
    ensures |r| <= |s| && r == s[|s| - |r|..]
    ensures forall i :: 0 <= i < |s| - |r| ==> IsSpace(s[i])
    ensures r == [] || !IsSpace(r[0])
  {
    if s != [] && IsSpace(s[0]) then
      var r := StripStart(s[1..]);
      assert s[1..][|s| - 1 - |r|..] == s[|s| - |r|..];
      assert forall i :: 1 <= i < |s| - |r| ==> s[i] == s[1..][i - 1];
      r
    else s
  }

  function StripEnd(s: string): (r: string)
    ensures |r| <= |s| && r == s[..|r|]
    ensures forall i :: |r| <= i < |s| ==> IsSpace(s[i])
    ensures r == [] || !IsSpace(r[|r| - 1])
  {
    if s != [] && IsSpace(s[|s| - 1]) then
      var r := StripEnd(s[..|s| - 1]);
      assert s[..|s| - 1][..|r|] == s[..|r|];
      assert forall i :: |r| <= i < |s| - 1 ==> s[i] == s[..|s| - 1][i];
      r
    else s
  }

  /** `r` is the stretch of `s` starting at `i`, with only whitespace before
      and after it. */
  ghost predicate SliceAmidSpaces(s: string, r: string, i: int)
  {
    && 0 <= i <= |s| - |r|
    && r == s[i..i + |r|]
    && (forall k :: 0 <= k < i ==> IsSpace(s[k]))
    && (forall k :: i + |r| <= k < |s| ==> IsSpace(s[k]))
  }

  /** `str.strip()`: the part of `s` left once the whitespace at both ends is
      removed. */
  function Strip(s: string): (r: string)
    ensures r == [] || (!IsSpace(r[0]) && !IsSpace(r[|r| - 1]))
  {
    var t := StripStart(s);
    var r := StripEnd(t);
    assert r != [] ==> r[0] == t[0];
    r
  }

  /** What `Strip` keeps is the stretch of the input after its leading
      whitespace, and only whitespace follows it. */
  lemma StripIsSlice(s: string)
    ensures SliceAmidSpaces(s, Strip(s), |s| - |StripStart(s)|)
  {
    var t := StripStart(s);
    TrimmedSlice(s, t, StripEnd(t));
  }

  /** Cutting leading whitespace off `s` to get `t`, then trailing
      whitespace off `t` to get `r`, leaves `r` amid whitespace in `s`. */
  lemma TrimmedSlice(s: string, t: string, r: string)
    requires |t| <= |s| && t == s[|s| - |t|..]
    requires forall k :: 0 <= k < |s| - |t| ==> IsSpace(s[k])
    requires |r| <= |t| && r == t[..|r|]
    requires forall k :: |r| <= k < |t| ==> IsSpace(t[k])
    ensures SliceAmidSpaces(s, r, |s| - |t|)
  {
    var i := |s| - |t|;
    assert r == s[i..i + |r|];
    forall k | i + |r| <= k < |s|
      ensures IsSpace(s[k])
    {
      assert s[k] == t[k - i];
    }
  }

  const AsinEmpty := "ASIN cannot be empty"
  const AsinWrongLength := "ASIN must be 10 characters long"
  const AsinNotAlphanumeric := "ASIN must contain only letters and numbers"
  const AsinValid := "Valid ASIN"

  /** The ASIN check: empty input is refused first, then an input whose
      stripped form is not 10 characters long, then one with a character that
      is not a letter or a digit. Exactly the inputs whose stripped form is ten
      letters and digits are accepted. */
  function ValidateAsinFormat(asin: string): (r: (bool, string))
    ensures r.0 <==> |Strip(asin)| == 10 && forall c :: c in Strip(asin) ==> IsAlnum(c)
    ensures r.0 <==> r.1 == AsinValid
    ensures asin == [] ==> r.1 == AsinEmpty
    ensures asin != [] && |Strip(asin)| != 10 ==> r.1 == AsinWrongLength
    ensures asin != [] && |Strip(asin)| == 10 && !r.0 ==> r.1 == AsinNotAlphanumeric
  {
    if asin == [] then (false, AsinEmpty)
    else
      var stripped := Strip(asin);
      if |stripped| != 10 then (false, AsinWrongLength)
      else if !(forall c :: c in stripped ==> IsAlnum(c)) then (false, AsinNotAlphanumeric)
      else (true, AsinValid)
  }

  /** Leading whitespace is dropped by stripping. */
  lemma {:induction false} StripStartPadded(pre: string, s: string)
    requires forall k :: 0 <= k < |pre| ==> IsSpace(pre[k])
    ensures StripStart(pre + s) == StripStart(s)
  {
    if pre == [] {
      assert pre + s == s;
    } else {
      assert (pre + s)[0] == pre[0];
      assert (pre + s)[1..] == pre[1..] + s;
      StripStartPadded(pre[1..], s);
    }
  }

  /** Trailing whitespace is dropped by stripping. */
  lemma {:induction false} StripEndPadded(s: string, post: string)
    requires forall k :: 0 <= k < |post| ==> IsSpace(post[k])
    ensures StripEnd(s + post) == StripEnd(s)
  {
    if post == [] {
      assert s + post == s;
    } else {
      assert (s + post)[|s + post| - 1] == post[|post| - 1];
      assert (s + post)[..|s + post| - 1] == s + post[..|post| - 1];
      StripEndPadded(s, post[..|post| - 1]);
    }
  }

  /** Stripping the start of `s + post` strips the start of `s` and keeps
      `post`, unless `s` is all whitespace. */
  lemma {:induction false} StripStartAppend(s: string, post: string)
    requires StripStart(s) != []
    ensures StripStart(s + post) == StripStart(s) + post
  {
    assert (s + post)[0] == s[0];
    if IsSpace(s[0]) {
      assert StripStart(s) == StripStart(s[1..]);
      assert (s + post)[1..] == s[1..] + post;
      StripStartAppend(s[1..], post);
      assert StripStart(s + post) == StripStart(s[1..] + post);
    } else {
      assert StripStart(s) == s;
    }
  }

  /** Stripping ignores whitespace added around the input. */
  lemma StripPadded(pre: string, s: string, post: string)
    requires forall k :: 0 <= k < |pre| ==> IsSpace(pre[k])
    requires forall k :: 0 <= k < |post| ==> IsSpace(post[k])
    ensures Strip(pre + s + post) == Strip(s)
  {
    assert pre + s + post == pre + (s + post);
    StripStartPadded(pre, s + post);
    if StripStart(s) == [] {
      assert forall k :: 0 <= k < |s + post| ==> IsSpace((s + post)[k]);
      StripStartPadded(s + post, []);
      assert s + post + [] == s + post;
    } else {
      StripStartAppend(s, post);
      StripEndPadded(StripStart(s), post);
    }
  }

  /** The ASIN check gives the same verdict for a non-empty ASIN whatever
      whitespace surrounds it. */
  lemma AsinPaddingIgnored(pre: string, asin: string, post: string)
    requires asin != []
    requires forall k :: 0 <= k < |pre| ==> IsSpace(pre[k])
    requires forall k :: 0 <= k < |post| ==> IsSpace(post[k])
    ensures ValidateAsinFormat(pre + asin + post) == ValidateAsinFormat(asin)
  {
    StripPadded(pre, asin, post);
  }

  // ---------------------------------------------------------------------
  // Transaction validation

  /** The fields a transaction form may carry; a missing field is None. */
  datatype TransactionData = TransactionData(
    parentId: Option<string>, asin: Option<string>,
    quantity: Option<real>, weight: Option<real>)

  /** A field is given when it is present and not the empty string. */
  predicate Given(field: Option<string>)
  {
    field.Some? && field.value != []
  }

  /** A number is positive when it is present and greater than 0. */
  predicate Positive(field: Option<real>)
  {
    field.Some? && field.value > 0.0
  }

  predicate StartsWith(s: string, prefix: string)
  {
    |prefix| <= |s| && s[..|prefix|] == prefix
  }

  /** `sub in s` on strings. */
  predicate Contains(s: string, sub: string)
    decreases |s|
  {
    StartsWith(s, sub) || (s != [] && Contains(s[1..], sub))
  }

  const StockInward := "Stock Inward"
  const Packing := "Packing"

  /** Packing and every sale type check the product, the ASIN and the
      quantity. */
  predicate ChecksPacket(transactionType: string)
  {
    transactionType != StockInward && (transactionType == Packing || Contains(transactionType, "Sale"))
  }

  const ProductRequired := "Product selection is required"
  const AsinRequired := "ASIN selection is required"
  const QuantityPositive := "Quantity must be greater than 0"
  const WeightPositive := "Weight must be greater than 0"

  /** What a transaction of the given type needs to be valid. */
  predicate RequirementsMet(transactionType: string, data: TransactionData)
  {
    if transactionType == StockInward then Given(data.parentId) && Positive(data.weight)
    else if ChecksPacket(transactionType) then Given(data.parentId) && Given(data.asin) && Positive(data.quantity)
    else true
  }

  /** The position of a message in the order the checks run. */
  function Rank(message: string): nat
  {
    if message == ProductRequired then 0
    else if message == AsinRequired || message == WeightPositive then 1
    else 2
  }

  /** A type that is neither "Stock Inward", "Packing" nor a sale, such as
      "Return", is checked for nothing. */
  lemma ReturnIsUnchecked(data: TransactionData)
    ensures RequirementsMet("Return", data)
  {
    if Contains("Return", "Sale") {
      ContainsFirstChar("Return", "Sale");
      assert false;
    }
  }

  /** A string contains a substring only if it contains the substring's first
      character. */
  lemma {:induction false} ContainsFirstChar(s: string, sub: string)
    requires sub != [] && Contains(s, sub)
    ensures sub[0] in s
  {
    if StartsWith(s, sub) {
      assert s[..|sub|][0] == s[0];
    } else {
      ContainsFirstChar(s[1..], sub);
      assert sub[0] in s[1..];
    }
  }

  /** Collects one message per failed check, in the order the checks run;
      the data is valid exactly when no message was collected. */
  method ValidateTransactionData(transactionType: string, data: TransactionData)
    returns (valid: bool, errors: seq<string>)
    ensures valid <==> errors == []
    ensures valid <==> RequirementsMet(transactionType, data)
    ensures ProductRequired in errors <==>
      (transactionType == StockInward || ChecksPacket(transactionType)) && !Given(data.parentId)
    ensures AsinRequired in errors <==> ChecksPacket(transactionType) && !Given(data.asin)
    ensures QuantityPositive in errors <==> ChecksPacket(transactionType) && !Positive(data.quantity)
    ensures WeightPositive in errors <==> transactionType == StockInward && !Positive(data.weight)
    ensures forall e :: e in errors ==> e in [ProductRequired, AsinRequired, QuantityPositive, WeightPositive]
    ensures forall i, j :: 0 <= i < j < |errors| ==> Rank(errors[i]) < Rank(errors[j])
  {
    errors := [];
    if transactionType == StockInward {
      if !Given(data.parentId) {
        errors := errors + [ProductRequired];
      }
      if !Positive(data.weight) {
        errors := errors + [WeightPositive];
      }
    } else if transactionType == Packing {
      errors := PacketErrors(data);
    } else if Contains(transactionType, "Sale") {
      errors := PacketErrors(data);
    }
    valid := |errors| == 0;
  }

  /** The three checks shared by Packing and the sale types. */
  method PacketErrors(data: TransactionData) returns (errors: seq<string>)
    ensures ProductRequired in errors <==> !Given(data.parentId)
    ensures AsinRequired in errors <==> !Given(data.asin)
    ensures QuantityPositive in errors <==> !Positive(data.quantity)
    ensures forall e :: e in errors ==> e in [ProductRequired, AsinRequired, QuantityPositive]
    ensures errors == [] <==> Given(data.parentId) && Given(data.asin) && Positive(data.quantity)
    ensures forall i, j :: 0 <= i < j < |errors| ==> Rank(errors[i]) < Rank(errors[j])
  {
    errors := [];
    if !Given(data.parentId) {
      errors := errors + [ProductRequired];
    }
    if !Given(data.asin) {
      errors := errors + [AsinRequired];
    }
    if !Positive(data.quantity) {
      errors := errors + [QuantityPositive];
    }
  }

  // ---------------------------------------------------------------------
  // Product summary

  /** One row of the dashboard summary. */
  datatype SummaryEntry = SummaryEntry(
    parentId: ProductId, productName: string, category: string,
    looseStock: real, packedUnits: int, packedWeight: real, totalWeight: real,
    lastUpdated: string)

  /** A packed entry counts toward the summary and the value when its ASIN is
      a catalog variation of the product and it holds units. */
  predicate Counted(variants: Dict<Asin, Variant>, entry: (Asin, int))
  {
    Get(variants, entry.0).Some? && entry.1 > 0
  }

  /** The packed units that count. */
  function PackedUnits(packed: Dict<Asin, int>, variants: Dict<Asin, Variant>): (units: int)
    ensures units >= 0
  {
    if packed == [] then 0
    else
      var last := packed[|packed| - 1];
      PackedUnits(packed[..|packed| - 1], variants) + (if Counted(variants, last) then last.1 else 0)
  }

  /** The weight of the packed units that count. */
  function PackedWeight(packed: Dict<Asin, int>, variants: Dict<Asin, Variant>): real
  {
    if packed == [] then 0.0
    else
      var last := packed[|packed| - 1];
      PackedWeight(packed[..|packed| - 1], variants)
        + (if Counted(variants, last) then last.1 as real * Get(variants, last.0).value.weight else 0.0)
  }

  /** All packed units, whatever their ASIN. */
  function TotalUnits(packed: Dict<Asin, int>): int
  {
    if packed == [] then 0 else TotalUnits(packed[..|packed| - 1]) + packed[|packed| - 1].1
  }

  /** The summary row of one record of a catalog product. */
  function EntryFor(pid: ProductId, item: ParentItem, stock: StockRecord, variants: Dict<Asin, Variant>): SummaryEntry
  {
    var weight := PackedWeight(stock.packedStock, variants);
    SummaryEntry(pid, item.name, item.category, stock.looseStock,
      PackedUnits(stock.packedStock, variants), weight, stock.looseStock + weight, stock.lastUpdated)
  }

  /** The summary rows of the records whose product is in the catalog, in
      stock-data order. */
  function Summary(stockData: StockData, parentItems: ParentItems, packetVariations: PacketVariations)
    : (summary: seq<SummaryEntry>)
    ensures |summary| <= |stockData|
  {
    if stockData == [] then []
    else
      var (pid, stock) := stockData[|stockData| - 1];
      Summary(stockData[..|stockData| - 1], parentItems, packetVariations)
        + match Get(parentItems, pid)
          case None => []
          case Some(item) => [EntryFor(pid, item, stock, VariantsOf(packetVariations, pid))]
  }

  /** The packed units and packed weight of one record that count. */
  method PackedTotals(packed: Dict<Asin, int>, variants: Dict<Asin, Variant>)
    returns (totalPackedUnits: int, totalPackedWeight: real)
    ensures totalPackedUnits == PackedUnits(packed, variants)
    ensures totalPackedWeight == PackedWeight(packed, variants)
  {
    totalPackedUnits, totalPackedWeight := 0, 0.0;
    for j := 0 to |packed|
      invariant totalPackedUnits == PackedUnits(packed[..j], variants)
      invariant totalPackedWeight == PackedWeight(packed[..j], variants)
    {
      var (asin, units) := packed[j];
      assert packed[..j + 1][..j] == packed[..j];
      var variant := Get(variants, asin);
      if variant.Some? && units > 0 {
        totalPackedUnits := totalPackedUnits + units;
        totalPackedWeight := totalPackedWeight + units as real * variant.value.weight;
      }
    }
    assert packed[..|packed|] == packed;
  }

  method GetProductSummary(stockData: StockData, parentItems: ParentItems, packetVariations: PacketVariations)
    returns (summary: seq<SummaryEntry>)
    ensures summary == Summary(stockData, parentItems, packetVariations)
  {
    summary := [];
    for i := 0 to |stockData|
      invariant summary == Summary(stockData[..i], parentItems, packetVariations)
    {
      var (parentId, stock) := stockData[i];
      assert stockData[..i + 1][..i] == stockData[..i];
      var item := Get(parentItems, parentId);
      if item.Some? {
        var totalPackedUnits, totalPackedWeight := PackedTotals(stock.packedStock, VariantsOf(packetVariations, parentId));
        summary := summary + [SummaryEntry(parentId, item.value.name, item.value.category, stock.looseStock,
          totalPackedUnits, totalPackedWeight, stock.looseStock + totalPackedWeight, stock.lastUpdated)];
      }
    }
    assert stockData[..|stockData|] == stockData;
  }

  /** Every row is of a catalog product, carries its name and category,
      counts no negative units, and its total weight is its loose stock plus
      its packed weight. */
  lemma {:induction false} SummaryRows(stockData: StockData, parentItems: ParentItems, packetVariations: PacketVariations)
    ensures forall e :: e in Summary(stockData, parentItems, packetVariations) ==>
      && Get(parentItems, e.parentId).Some?
      && e.productName == Get(parentItems, e.parentId).value.name
      && e.category == Get(parentItems, e.parentId).value.category
      && e.packedUnits >= 0
      && e.totalWeight == e.looseStock + e.packedWeight
  {
    if stockData != [] {
      SummaryRows(stockData[..|stockData| - 1], parentItems, packetVariations);
    }
  }

  /** The summary is built record by record: the summary of two stretches of
      stock data is the summary of the first followed by that of the second. */
  lemma {:induction false} SummaryConcat(a: StockData, b: StockData, parentItems: ParentItems, packetVariations: PacketVariations)
    ensures Summary(a + b, parentItems, packetVariations)
      == Summary(a, parentItems, packetVariations) + Summary(b, parentItems, packetVariations)
  {
    if b == [] {
      assert a + b == a;
    } else {
      assert (a + b)[..|a + b| - 1] == a + b[..|b| - 1];
      SummaryConcat(a, b[..|b| - 1], parentItems, packetVariations);
    }
  }

  /** The ids of the records whose product is in the catalog, in stock-data
      order. */
  function KnownIds(stockData: StockData, parentItems: ParentItems): seq<ProductId>
  {
    if stockData == [] then []
    else
      var pid := stockData[|stockData| - 1].0;
      KnownIds(stockData[..|stockData| - 1], parentItems) + if Get(parentItems, pid).Some? then [pid] else []
  }

  /** The summary has one row per record of a catalog product, in stock-data
      order, and none for any other record. */
  lemma {:induction false} SummaryIds(stockData: StockData, parentItems: ParentItems, packetVariations: PacketVariations)
    ensures |Summary(stockData, parentItems, packetVariations)| == |KnownIds(stockData, parentItems)|
    ensures forall i :: 0 <= i < |KnownIds(stockData, parentItems)| ==>
      Summary(stockData, parentItems, packetVariations)[i].parentId == KnownIds(stockData, parentItems)[i]
  {
    if stockData != [] {
      var init := stockData[..|stockData| - 1];
      SummaryIds(init, parentItems, packetVariations);
      var summary, before := Summary(stockData, parentItems, packetVariations), Summary(init, parentItems, packetVariations);
      var ids, beforeIds := KnownIds(stockData, parentItems), KnownIds(init, parentItems);
      forall i | 0 <= i < |ids| ensures summary[i].parentId == ids[i] {
        if i < |beforeIds| {
          assert summary[i] == before[i] && ids[i] == beforeIds[i];
        }
      }
    }
  }

  /** The row the summary holds for the i-th record, when its product is in
      the catalog. */
  function RowOf(stockData: StockData, parentItems: ParentItems, packetVariations: PacketVariations, i: nat): SummaryEntry
    requires i < |stockData| && Get(parentItems, stockData[i].0).Some?
  {
    EntryFor(stockData[i].0, Get(parentItems, stockData[i].0).value, stockData[i].1,
             VariantsOf(packetVariations, stockData[i].0))
  }

  /** When every record's product is in the catalog, nothing is skipped: the
      i-th row is the i-th record's. */
  lemma {:induction false} SummaryOfKnown(stockData: StockData, parentItems: ParentItems, packetVariations: PacketVariations)
    requires forall i :: 0 <= i < |stockData| ==> Get(parentItems, stockData[i].0).Some?
    ensures |Summary(stockData, parentItems, packetVariations)| == |stockData|
    ensures forall i :: 0 <= i < |stockData| ==>
      Summary(stockData, parentItems, packetVariations)[i] == RowOf(stockData, parentItems, packetVariations, i)
  {
    if stockData != [] {
      var n := |stockData| - 1;
      var init := stockData[..n];
      forall i | 0 <= i < |init| ensures Get(parentItems, init[i].0).Some? {
        assert init[i] == stockData[i];
      }
      SummaryOfKnown(init, parentItems, packetVariations);
      var summary, before := Summary(stockData, parentItems, packetVariations), Summary(init, parentItems, packetVariations);
      assert summary == before + [RowOf(stockData, parentItems, packetVariations, n)];
      forall i | 0 <= i < |stockData| ensures summary[i] == RowOf(stockData, parentItems, packetVariations, i) {
        if i < n {
          assert init[i] == stockData[i];
          assert summary[i] == before[i] == RowOf(init, parentItems, packetVariations, i);
        }
      }
    }
  }

  /** With every packed ASIN a catalog variation and no negative count, the
      counted units are all the units. */
  lemma {:induction false} PackedUnitsAllCounted(packed: Dict<Asin, int>, variants: Dict<Asin, Variant>)
    requires forall q :: q in packed ==> q.0 in Keys(variants) && q.1 >= 0
    ensures PackedUnits(packed, variants) == TotalUnits(packed)
  {
    if packed != [] {
      var init := packed[..|packed| - 1];
      assert forall q :: q in init ==> q in packed;
      PackedUnitsAllCounted(init, variants);
    }
  }

  /** In a consistent state the summary has a row for every stock record, in
      order, and each row's packed units are all the record's units. */
  lemma SummaryOfConsistent(parentItems: ParentItems, packetVariations: PacketVariations, stockData: StockData)
    requires Consistent(parentItems, packetVariations, stockData)
    ensures |Summary(stockData, parentItems, packetVariations)| == |stockData|
    ensures forall i :: 0 <= i < |stockData| ==>
      var row := Summary(stockData, parentItems, packetVariations)[i];
      && row.parentId == stockData[i].0
      && row.looseStock == stockData[i].1.looseStock
      && row.packedUnits == TotalUnits(stockData[i].1.packedStock)
  {
    forall i | 0 <= i < |stockData| ensures Get(parentItems, stockData[i].0).Some? {
      assert stockData[i] in stockData;
    }
    SummaryOfKnown(stockData, parentItems, packetVariations);
    forall i | 0 <= i < |stockData|
      ensures PackedUnits(stockData[i].1.packedStock, VariantsOf(packetVariations, stockData[i].0))
              == TotalUnits(stockData[i].1.packedStock)
    {
      assert stockData[i] in stockData;
      PackedUnitsAllCounted(stockData[i].1.packedStock, VariantsOf(packetVariations, stockData[i].0));
    }
  }

  // ---------------------------------------------------------------------
  // Stock valuation

  /** The value of a product's packed units that count, at MRP. */
  function PackedValue(packed: Dict<Asin, int>, variants: Dict<Asin, Variant>): real
  {
    if packed == [] then 0.0
    else
      var last := packed[|packed| - 1];
      PackedValue(packed[..|packed| - 1], variants)
        + (if Counted(variants, last) then last.1 as real * Get(variants, last.0).value.mrp else 0.0)
  }

  /** The value of all stock: packed units at MRP, over the records whose
      product is in the catalog. Loose stock has no price. */
  function StockValue(stockData: StockData, parentItems: ParentItems, packetVariations: PacketVariations): real
  {
    if stockData == [] then 0.0
    else
      var (pid, stock) := stockData[|stockData| - 1];
      StockValue(stockData[..|stockData| - 1], parentItems, packetVariations)
        + (if Get(parentItems, pid).Some? then PackedValue(stock.packedStock, VariantsOf(packetVariations, pid)) else 0.0)
  }

  /** The value of one record's packed units that count. */
  method PackedStockValue(packed: Dict<Asin, int>, variants: Dict<Asin, Variant>) returns (value: real)
    ensures value == PackedValue(packed, variants)
  {
    value := 0.0;
    for j := 0 to |packed|
      invariant value == PackedValue(packed[..j], variants)
    {
      var (asin, units) := packed[j];
      assert packed[..j + 1][..j] == packed[..j];
      var variant := Get(variants, asin);
      if variant.Some? && units > 0 {
        value := value + units as real * variant.value.mrp;
      }
    }
    assert packed[..|packed|] == packed;
  }

  method CalculateStockValue(stockData: StockData, parentItems: ParentItems, packetVariations: PacketVariations)
    returns (totalValue: real)
    ensures totalValue == StockValue(stockData, parentItems, packetVariations)
  {
    totalValue := 0.0;
    for i := 0 to |stockData|
      invariant totalValue == StockValue(stockData[..i], parentItems, packetVariations)
    {
      var (parentId, stock) := stockData[i];
      assert stockData[..i + 1][..i] == stockData[..i];
      if Get(parentItems, parentId).Some? {
        var value := PackedStockValue(stock.packedStock, VariantsOf(packetVariations, parentId));
        totalValue := totalValue + value;
      }
    }
    assert stockData[..|stockData|] == stockData;
  }

  /** Every catalog variation has a price that is not negative. */
  ghost predicate PricesNonNegative(packetVariations: PacketVariations)
  {
    forall p, q :: p in packetVariations && q in p.1 ==> q.1.mrp >= 0.0
  }

  lemma {:induction false} PackedValueNonNegative(packed: Dict<Asin, int>, variants: Dict<Asin, Variant>)
    requires forall q :: q in variants ==> q.1.mrp >= 0.0
    ensures PackedValue(packed, variants) >= 0.0
  {
    if packed != [] {
      var last := packed[|packed| - 1];
      PackedValueNonNegative(packed[..|packed| - 1], variants);
      if Counted(variants, last) {
        var v := Get(variants, last.0).value;
        assert (last.0, v) in variants;
        ProductNonNegative(last.1 as real, v.mrp);
      }
    }
  }

  lemma ProductNonNegative(x: real, y: real)
    requires x >= 0.0 && y >= 0.0
    ensures x * y >= 0.0
  {
  }

  /** With no negative price the stock value is not negative. */
  lemma {:induction false} StockValueNonNegative(stockData: StockData, parentItems: ParentItems, packetVariations: PacketVariations)
    requires PricesNonNegative(packetVariations)
    ensures StockValue(stockData, parentItems, packetVariations) >= 0.0
  {
    if stockData != [] {
      var pid := stockData[|stockData| - 1].0;
      StockValueNonNegative(stockData[..|stockData| - 1], parentItems, packetVariations);
      PackedValueNonNegative(stockData[|stockData| - 1].1.packedStock, VariantsOf(packetVariations, pid));
    }
  }

  /** Loose stock is not valued: two stock snapshots that differ only in
      loose stock (or opening stock, or timestamps) have the same value. */
  lemma {:induction false} StockValueIgnoresLoose(a: StockData, b: StockData, parentItems: ParentItems, packetVariations: PacketVariations)
    requires |a| == |b|
    requires forall i :: 0 <= i < |a| ==> a[i].0 == b[i].0 && a[i].1.packedStock == b[i].1.packedStock
    ensures StockValue(a, parentItems, packetVariations) == StockValue(b, parentItems, packetVariations)
  {
    if a != [] {
      StockValueIgnoresLoose(a[..|a| - 1], b[..|b| - 1], parentItems, packetVariations);
    }
  }

  // ---------------------------------------------------------------------
  // Low-stock alerts

  datatype AlertKind = LowLooseStock | LowPackedStock

  datatype Alert = Alert(kind: AlertKind, product: string, currentStock: real, threshold: real, unit: string)

  /** The loose-stock threshold used when the caller gives none. */
  const DefaultLowStockThreshold: real := 10.0

  /** The packed-stock threshold, fixed. */
  const PackedStockThreshold: int := 5

  /** The alert for the loose stock of a product, if it is below the
      threshold. */
  function LooseAlert(productName: string, stock: StockRecord, threshold: real): (alerts: seq<Alert>)
    ensures alerts == [] <==> stock.looseStock >= threshold
  {
    if stock.looseStock < threshold then [Alert(LowLooseStock, productName, stock.looseStock, threshold, "kg")] else []
  }

  /** The alert for one packed entry: raised when it is a catalog variation
      with fewer than five units, and labelled with the variation's
      description. */
  function PackedAlert(productName: string, entry: (Asin, int), variants: Dict<Asin, Variant>): (alerts: seq<Alert>)
    ensures alerts == [] <==> Get(variants, entry.0).None? || entry.1 >= PackedStockThreshold
    ensures |alerts| <= 1
    ensures alerts != [] ==>
      && alerts[0].kind == LowPackedStock && alerts[0].currentStock < alerts[0].threshold
      && alerts[0].threshold == PackedStockThreshold as real && alerts[0].unit == "units"
  {
    match Get(variants, entry.0)
    case Some(v) =>
      if entry.1 < PackedStockThreshold
      then [Alert(LowPackedStock, productName + " (" + v.description + ")", entry.1 as real, PackedStockThreshold as real, "units")]
      else []
    case None => []
  }

  /** One alert per packed entry that is a catalog variation with fewer than
      five units, in packed-stock order. */
  function PackedAlerts(productName: string, packed: Dict<Asin, int>, variants: Dict<Asin, Variant>): (alerts: seq<Alert>)
    ensures |alerts| <= |packed|
  {
    if packed == [] then []
    else PackedAlerts(productName, packed[..|packed| - 1], variants) + PackedAlert(productName, packed[|packed| - 1], variants)
  }

  /** Every packed-stock alert reports fewer than five units. */
  lemma {:induction false} PackedAlertsBelowThreshold(productName: string, packed: Dict<Asin, int>, variants: Dict<Asin, Variant>)
    ensures forall a :: a in PackedAlerts(productName, packed, variants) ==>
      a.kind == LowPackedStock && a.currentStock < a.threshold && a.threshold == PackedStockThreshold as real && a.unit == "units"
  {
    if packed != [] {
      PackedAlertsBelowThreshold(productName, packed[..|packed| - 1], variants);
    }
  }

  /** The alerts of one record: none for a product outside the catalog,
      otherwise its loose-stock alert and then its packed-stock alerts. */
  function RecordAlerts(entry: (ProductId, StockRecord), parentItems: ParentItems, packetVariations: PacketVariations, threshold: real)
    : seq<Alert>
  {
    match Get(parentItems, entry.0)
    case None => []
    case Some(item) =>
      LooseAlert(item.name, entry.1, threshold) + PackedAlerts(item.name, entry.1.packedStock, VariantsOf(packetVariations, entry.0))
  }

  /** All alerts, record by record in stock-data order. */
  function LowStockAlerts(stockData: StockData, parentItems: ParentItems, packetVariations: PacketVariations, threshold: real)
    : seq<Alert>
  {
    if stockData == [] then []
    else
      LowStockAlerts(stockData[..|stockData| - 1], parentItems, packetVariations, threshold)
        + RecordAlerts(stockData[|stockData| - 1], parentItems, packetVariations, threshold)
  }

  /** The packed-stock alerts of one record. */
  method PackedStockAlerts(productName: string, packed: Dict<Asin, int>, variants: Dict<Asin, Variant>)
    returns (alerts: seq<Alert>)
    ensures alerts == PackedAlerts(productName, packed, variants)
  {
    alerts := [];
    for j := 0 to |packed|
      invariant alerts == PackedAlerts(productName, packed[..j], variants)
    {
      var (asin, units) := packed[j];
      assert packed[..j + 1][..j] == packed[..j];
      assert packed[..j + 1][j] == packed[j];
      var variant := Get(variants, asin);
      if variant.Some? && units < PackedStockThreshold {
        alerts := alerts + [Alert(LowPackedStock, productName + " (" + variant.value.description + ")",
          units as real, PackedStockThreshold as real, "units")];
      }
    }
    assert packed[..|packed|] == packed;
  }

  method GetLowStockAlerts(stockData: StockData, parentItems: ParentItems, packetVariations: PacketVariations,
    threshold: real := DefaultLowStockThreshold)
    returns (alerts: seq<Alert>)
    ensures alerts == LowStockAlerts(stockData, parentItems, packetVariations, threshold)
  {
    alerts := [];
    for i := 0 to |stockData|
      invariant alerts == LowStockAlerts(stockData[..i], parentItems, packetVariations, threshold)
    {
      assert stockData[..i + 1][..i] == stockData[..i];
      var recordAlerts := RecordStockAlerts(stockData[i], parentItems, packetVariations, threshold);
      alerts := alerts + recordAlerts;
    }
    assert stockData[..|stockData|] == stockData;
  }

  /** The alerts of one record: skipped when its product is not in the
      catalog, otherwise the loose-stock check and then the packed-stock
      checks. */
  method RecordStockAlerts(entry: (ProductId, StockRecord), parentItems: ParentItems, packetVariations: PacketVariations, threshold: real)
    returns (alerts: seq<Alert>)
    ensures alerts == RecordAlerts(entry, parentItems, packetVariations, threshold)
  {
    var (parentId, stock) := entry;
    alerts := [];
    var item := Get(parentItems, parentId);
    if item.Some? {
      var productName := item.value.name;
      if stock.looseStock < threshold {
        alerts := alerts + [Alert(LowLooseStock, productName, stock.looseStock, threshold, "kg")];
      }
      var packedAlerts := PackedStockAlerts(productName, stock.packedStock, VariantsOf(packetVariations, parentId));
      alerts := alerts + packedAlerts;
    }
  }

  /** Every alert reports stock below its threshold: the given threshold in
      kg for loose stock, five units for packed stock. */
  lemma {:induction false} AlertsBelowThreshold(stockData: StockData, parentItems: ParentItems, packetVariations: PacketVariations, threshold: real)
    ensures forall a :: a in LowStockAlerts(stockData, parentItems, packetVariations, threshold) ==>
      && a.currentStock < a.threshold
      && (a.kind == LowLooseStock ==> a.threshold == threshold && a.unit == "kg")
      && (a.kind == LowPackedStock ==> a.threshold == PackedStockThreshold as real && a.unit == "units")
  {
    if stockData != [] {
      var last := stockData[|stockData| - 1];
      AlertsBelowThreshold(stockData[..|stockData| - 1], parentItems, packetVariations, threshold);
      match Get(parentItems, last.0) {
        case None =>
        case Some(item) => PackedAlertsBelowThreshold(item.name, last.1.packedStock, VariantsOf(packetVariations, last.0));
      }
    }
  }

  /** Every catalog variation among the packed entries holds at least five
      units. */
  ghost predicate PackedQuiet(packed: Dict<Asin, int>, variants: Dict<Asin, Variant>)
  {
    forall j :: 0 <= j < |packed| && Get(variants, packed[j].0).Some? ==> packed[j].1 >= PackedStockThreshold
  }

  /** A record raises no alert: its product is outside the catalog, or it has
      at least the threshold in loose stock and nothing low in packed stock. */
  ghost predicate RecordQuiet(entry: (ProductId, StockRecord), parentItems: ParentItems, packetVariations: PacketVariations, threshold: real)
  {
    Get(parentItems, entry.0).Some? ==>
      entry.1.looseStock >= threshold && PackedQuiet(entry.1.packedStock, VariantsOf(packetVariations, entry.0))
  }

  /** A product's packed entries raise no alert exactly when every entry that
      is a catalog variation holds at least five units. */
  lemma {:induction false} NoPackedAlertsIff(productName: string, packed: Dict<Asin, int>, variants: Dict<Asin, Variant>)
    ensures PackedAlerts(productName, packed, variants) == [] <==> PackedQuiet(packed, variants)
  {
    if packed != [] {
      NoPackedAlertsIff(productName, packed[..|packed| - 1], variants);
      PackedQuietSnoc(packed, variants);
    }
  }

  /** Packed entries are quiet exactly when all but the last are and the
      last is. */
  lemma PackedQuietSnoc(packed: Dict<Asin, int>, variants: Dict<Asin, Variant>)
    requires packed != []
    ensures var last := packed[|packed| - 1];
      PackedQuiet(packed, variants) <==>
        PackedQuiet(packed[..|packed| - 1], variants) && (Get(variants, last.0).None? || last.1 >= PackedStockThreshold)
  {
    var init := packed[..|packed| - 1];
    assert forall j :: 0 <= j < |init| ==> init[j] == packed[j];
  }

  /** Every record is quiet. */
  ghost predicate AllQuiet(stockData: StockData, parentItems: ParentItems, packetVariations: PacketVariations, threshold: real)
  {
    forall i :: 0 <= i < |stockData| ==> RecordQuiet(stockData[i], parentItems, packetVariations, threshold)
  }

  /** There are no alerts exactly when every record is quiet. */
  lemma {:induction false} NoAlertsIff(stockData: StockData, parentItems: ParentItems, packetVariations: PacketVariations, threshold: real)
    ensures LowStockAlerts(stockData, parentItems, packetVariations, threshold) == []
      <==> AllQuiet(stockData, parentItems, packetVariations, threshold)
  {
    if stockData != [] {
      NoAlertsIff(stockData[..|stockData| - 1], parentItems, packetVariations, threshold);
      RecordQuietIff(stockData[|stockData| - 1], parentItems, packetVariations, threshold);
      AllQuietSnoc(stockData, parentItems, packetVariations, threshold);
    }
  }

  lemma AllQuietSnoc(stockData: StockData, parentItems: ParentItems, packetVariations: PacketVariations, threshold: real)
    requires stockData != []
    ensures AllQuiet(stockData, parentItems, packetVariations, threshold) <==>
      && AllQuiet(stockData[..|stockData| - 1], parentItems, packetVariations, threshold)
      && RecordQuiet(stockData[|stockData| - 1], parentItems, packetVariations, threshold)
  {
    var init := stockData[..|stockData| - 1];
    assert forall i :: 0 <= i < |init| ==> init[i] == stockData[i];
  }

  /** A record raises no alert exactly when it is quiet. */
  lemma RecordQuietIff(entry: (ProductId, StockRecord), parentItems: ParentItems, packetVariations: PacketVariations, threshold: real)
    ensures RecordAlerts(entry, parentItems, packetVariations, threshold) == []
      <==> RecordQuiet(entry, parentItems, packetVariations, threshold)
  {
    match Get(parentItems, entry.0) {
      case None =>
      case Some(item) => NoPackedAlertsIff(item.name, entry.1.packedStock, VariantsOf(packetVariations, entry.0));
    }
  }

  /** Raising the loose-stock threshold never removes an alert. */
  lemma {:induction false} AlertsMonotone(stockData: StockData, parentItems: ParentItems, packetVariations: PacketVariations, low: real, high: real)
    requires low <= high
    ensures |LowStockAlerts(stockData, parentItems, packetVariations, low)|
         <= |LowStockAlerts(stockData, parentItems, packetVariations, high)|
  {
    if stockData != [] {
      AlertsMonotone(stockData[..|stockData| - 1], parentItems, packetVariations, low, high);
    }
  }
}
