/** The session state of the stock tracker and the two operations that write
    it in place: the sample-data initialiser and "Add Product". */
module App {
  import opened Dicts
  import opened Records

  /** A ledger entry, with the fields `record_transaction` is called with.
      Only the empty ledger of a fresh seed is modelled. */
  datatype Transaction = Transaction(
    kind: string, parentId: ProductId, asin: Asin,
    quantity: real, weight: real, notes: string, date: string)

  /** What the "Add Product" form submits. */
  datatype ProductForm = ProductForm(
    productName: string, category: string, unit: string,
    asin: Asin, weight: real, mrp: real, description: string)

  /** `str.upper` on one character (ASCII letters). */
  function UpperChar(c: char): char
  {
    if 'a' <= c <= 'z' then (c as int - 32) as char else c
  }

  function Upper(s: string): (r: string)
    ensures |r| == |s|
    ensures forall i :: 0 <= i < |s| ==> r[i] == UpperChar(s[i])
  {
    seq(|s|, i requires 0 <= i < |s| => UpperChar(s[i]))
  }

  /** `s.replace(" ", "_")`. */
  function ReplaceSpaces(s: string): (r: string)
    ensures |r| == |s|
    ensures forall i :: 0 <= i < |s| ==> r[i] == if s[i] == ' ' then '_' else s[i]
  {
    seq(|s|, i requires 0 <= i < |s| => if s[i] == ' ' then '_' else s[i])
  }

  /** The product id derived from a product name: upper-cased, spaces
      replaced by underscores. */
  function ProductIdOf(name: string): (id: ProductId)
    ensures |id| == |name|
    ensures ' ' !in id
    ensures forall i :: 0 <= i < |id| ==> !('a' <= id[i] <= 'z')
    ensures forall i :: 0 <= i < |name| && name[i] != ' ' && !('a' <= name[i] <= 'z') ==> id[i] == name[i]
  {
    ReplaceSpaces(Upper(name))
  }

  /** An id is its own id: deriving twice changes nothing. */
  lemma ProductIdIdempotent(name: string)
    ensures ProductIdOf(ProductIdOf(name)) == ProductIdOf(name)
  {
    var id := ProductIdOf(name);
    forall i | 0 <= i < |id| ensures ProductIdOf(id)[i] == id[i] {
      assert id[i] != ' ' && !('a' <= id[i] <= 'z');
    }
  }

  /** Names that differ only in letter case, or in a space against an
      underscore, collide on one id. */
  lemma ProductIdCollision(a: string, b: string)
    requires |a| == |b|
    requires forall i :: 0 <= i < |a| ==> UpperChar(a[i]) == UpperChar(b[i]) || (a[i] in " _" && b[i] in " _")
    ensures ProductIdOf(a) == ProductIdOf(b)
  {
    forall i | 0 <= i < |a| ensures ProductIdOf(a)[i] == ProductIdOf(b)[i] {
      assert Upper(a)[i] == UpperChar(a[i]) && Upper(b)[i] == UpperChar(b[i]);
    }
  }

  /** The description stored for the form's variation: the one typed in, or
      "<weight>kg <name>" when it is empty (`weightText` is the rendering of
      the weight). */
  function DescriptionOf(form: ProductForm, weightText: string): string
  {
    if form.description != [] then form.description else weightText + "kg " + form.productName
  }

  /** The stock record a product is (re)started with by "Add Product". */
  function FreshRecord(asin: Asin, now: string): StockRecord
  {
    StockRecord(0.0, [(asin, 0)], 0.0, now)
  }

  /** The record the initialiser gives a product: no loose stock and a zero
      count for each of its catalog variations, in catalog order. */
  function SeedRecord(vars: PacketVariations, pid: ProductId, now: string): StockRecord
  {
    StockRecord(0.0, ZeroPacked(VariantsOf(vars, pid)), 0.0, now)
  }

  /** A zero packed count for every variation, in catalog order. */
  function ZeroPacked(vs: Dict<Asin, Variant>): (packed: Dict<Asin, int>)
    ensures forall q :: q in packed ==> q.1 == 0
  {
    if vs == [] then []
    else
      PutMembers(ZeroPacked(vs[..|vs| - 1]), vs[|vs| - 1].0, 0);
      Put(ZeroPacked(vs[..|vs| - 1]), vs[|vs| - 1].0, 0)
  }

  /** The packed map of a seeded record has exactly the catalog's ASINs, once
      each, in catalog order. */
  lemma {:induction false} ZeroPackedKeys(vs: Dict<Asin, Variant>)
    ensures forall a :: a in Keys(ZeroPacked(vs)) <==> a in Keys(vs)
    ensures DistinctKeys(ZeroPacked(vs))
    ensures DistinctKeys(vs) ==> Keys(ZeroPacked(vs)) == Keys(vs)
  {
    if vs != [] {
      var init, last := vs[..|vs| - 1], vs[|vs| - 1];
      ZeroPackedKeys(init);
      PutKeys(ZeroPacked(init), last.0, 0);
      PutDistinct(ZeroPacked(init), last.0, 0);
      KeysSnoc(vs);
    }
  }

  /** The stock data the initialiser builds, one record per parent item. */
  function SeedStock(parents: ParentItems, vars: PacketVariations, now: string): (stock: StockData)
    ensures forall p :: p in stock ==> p.1 == SeedRecord(vars, p.0, now)
  {
    if parents == [] then []
    else
      var last := parents[|parents| - 1];
      PutMembers(SeedStock(parents[..|parents| - 1], vars, now), last.0, SeedRecord(vars, last.0, now));
      Put(SeedStock(parents[..|parents| - 1], vars, now), last.0, SeedRecord(vars, last.0, now))
  }

  /** The seeded stock data has exactly the parent items' ids, once each, in
      the order of the parent items. */
  lemma {:induction false} SeedStockKeys(parents: ParentItems, vars: PacketVariations, now: string)
    ensures forall pid :: pid in Keys(SeedStock(parents, vars, now)) <==> pid in Keys(parents)
    ensures DistinctKeys(SeedStock(parents, vars, now))
    ensures DistinctKeys(parents) ==> Keys(SeedStock(parents, vars, now)) == Keys(parents)
  {
    if parents != [] {
      var init, last := parents[..|parents| - 1], parents[|parents| - 1];
      var rec := SeedRecord(vars, last.0, now);
      SeedStockKeys(init, vars, now);
      PutKeys(SeedStock(init, vars, now), last.0, rec);
      PutDistinct(SeedStock(init, vars, now), last.0, rec);
      KeysSnoc(parents);
    }
  }

  /** A catalog lookup yields a well-formed set of variations. */
  lemma VariantsOfWellFormed(vars: PacketVariations, pid: ProductId)
    requires forall p :: p in vars ==> VariantsWellFormed(p.1)
    ensures VariantsWellFormed(VariantsOf(vars, pid))
  {
  }

  /** One pass of the initialiser's inner loop: writing a zero count for the
      next variation into the record extends its packed map by that ASIN. */
  lemma SeedStep(base: StockData, pid: ProductId, vs: Dict<Asin, Variant>, j: nat, now: string)
    requires j < |vs|
    ensures var rec := StockRecord(0.0, ZeroPacked(vs[..j]), 0.0, now);
      Put(Put(base, pid, rec), pid, rec.(packedStock := Put(rec.packedStock, vs[j].0, 0)))
      == Put(base, pid, StockRecord(0.0, ZeroPacked(vs[..j + 1]), 0.0, now))
  {
    var rec := StockRecord(0.0, ZeroPacked(vs[..j]), 0.0, now);
    assert vs[..j + 1][..j] == vs[..j];
    PutPut(base, pid, rec, rec.(packedStock := Put(rec.packedStock, vs[j].0, 0)));
  }

  /** One pass of the initialiser's outer loop: the finished record of the
      next parent item extends the seeded stock data. */
  lemma SeedRecordStep(parents: ParentItems, vars: PacketVariations, i: nat, now: string)
    requires i < |parents|
    ensures var vs := VariantsOf(vars, parents[i].0);
      SeedStock(parents[..i + 1], vars, now)
      == Put(SeedStock(parents[..i], vars, now), parents[i].0, StockRecord(0.0, ZeroPacked(vs[..|vs|]), 0.0, now))
  {
    assert parents[..i + 1][..i] == parents[..i];
    var vs := VariantsOf(vars, parents[i].0);
    assert vs[..|vs|] == vs;
  }

  /** Creating an empty variation map for a product that has none, then
      storing a variation in it, is the same as storing the variation in
      the product's (possibly empty) map. */
  lemma VariationMapCreated(vars: PacketVariations, id: ProductId, asin: Asin, variant: Variant)
    ensures var vars1 := if id !in Keys(vars) then Put(vars, id, []) else vars;
      && Get(vars1, id) == Some(VariantsOf(vars, id))
      && Put(vars1, id, Put(VariantsOf(vars, id), asin, variant))
         == Put(vars, id, Put(VariantsOf(vars, id), asin, variant))
  {
    if id !in Keys(vars) {
      PutPut(vars, id, [], Put(VariantsOf(vars, id), asin, variant));
    }
  }

  /** The state "Add Product" leaves behind is consistent whenever the state
      before it was: the new variation is well formed, the new record counts
      only that variation, and every other record keeps the variations it
      counted. */
  lemma AddPreservesConsistency(parents: ParentItems, vars: PacketVariations, stock: StockData,
                                id: ProductId, item: ParentItem, variant: Variant, now: string,
                                parents': ParentItems, vars': PacketVariations, stock': StockData)
    requires Consistent(parents, vars, stock)
    requires variant.weight > 0.0 && variant.mrp >= 0.0
    requires parents' == Put(parents, id, item)
    requires vars' == Put(vars, id, Put(VariantsOf(vars, id), variant.asin, variant))
    requires stock' == Put(stock, id, FreshRecord(variant.asin, now))
    ensures Consistent(parents', vars', stock')
  {
    var vs := Put(VariantsOf(vars, id), variant.asin, variant);
    PutDistinct(parents, id, item);
    PutDistinct(vars, id, vs);
    PutDistinct(stock, id, FreshRecord(variant.asin, now));
    AddKeepsVariantsWellFormed(vars, id, variant);
    AddKeepsRecordsWellFormed(parents, vars, stock, id, item, variant, now);
  }

  /** Storing a well-formed variation under its ASIN keeps every variation
      map well formed. */
  lemma AddKeepsVariantsWellFormed(vars: PacketVariations, id: ProductId, variant: Variant)
    requires DistinctKeys(vars) && forall p :: p in vars ==> VariantsWellFormed(p.1)
    requires variant.weight > 0.0 && variant.mrp >= 0.0
    ensures forall p :: p in Put(vars, id, Put(VariantsOf(vars, id), variant.asin, variant)) ==> VariantsWellFormed(p.1)
  {
    var vs := Put(VariantsOf(vars, id), variant.asin, variant);
    PutMembers(vars, id, vs);
    PutMembers(VariantsOf(vars, id), variant.asin, variant);
    VariantsOfWellFormed(vars, id);
    PutDistinct(VariantsOf(vars, id), variant.asin, variant);
    assert VariantsWellFormed(vs);
  }

  /** After "Add Product" every stock record is of a catalog product and
      counts only variations its product has: the new record counts only the
      new variation, and the others keep theirs. */
  lemma AddKeepsRecordsWellFormed(parents: ParentItems, vars: PacketVariations, stock: StockData,
                                  id: ProductId, item: ParentItem, variant: Variant, now: string)
    requires Consistent(parents, vars, stock)
    ensures var parents', vars' := Put(parents, id, item), Put(vars, id, Put(VariantsOf(vars, id), variant.asin, variant));
      forall p :: p in Put(stock, id, FreshRecord(variant.asin, now)) ==>
        p.0 in Keys(parents') && RecordWellFormed(p.1, VariantsOf(vars', p.0))
  {
    var vs := Put(VariantsOf(vars, id), variant.asin, variant);
    var parents', vars', stock' := Put(parents, id, item), Put(vars, id, vs), Put(stock, id, FreshRecord(variant.asin, now));
    PutKeys(parents, id, item);
    PutMembers(stock, id, FreshRecord(variant.asin, now));
    PutOther(vars, id, vs);
    PutKeys(VariantsOf(vars, id), variant.asin, variant);
    assert VariantsOf(vars', id) == vs;
    forall p | p in stock' ensures p.0 in Keys(parents') && RecordWellFormed(p.1, VariantsOf(vars', p.0)) {
      if p == (id, FreshRecord(variant.asin, now)) {
        assert variant.asin in Keys(vs);
      } else {
        assert p in stock;
        if p.0 == id {
          RecordWidened(p.1, VariantsOf(vars, id), vs);
        } else {
          assert VariantsOf(vars', p.0) == VariantsOf(vars, p.0);
        }
      }
    }
  }

  /** A well-formed record stays well formed against a variation map with
      more ASINs. */
  lemma RecordWidened(rec: StockRecord, vs: Dict<Asin, Variant>, vs': Dict<Asin, Variant>)
    requires RecordWellFormed(rec, vs)
    requires forall a :: a in Keys(vs) ==> a in Keys(vs')
    ensures RecordWellFormed(rec, vs')
  {
  }

  /** What "Add Product" does, read entry by entry: the product's parent
      item, variation and stock record are the new ones, the product's other
      variations stay, and every other product is untouched. */
  lemma AddEffects(parents: ParentItems, vars: PacketVariations, stock: StockData,
                   id: ProductId, item: ParentItem, variant: Variant, now: string)
    ensures var vs := Put(VariantsOf(vars, id), variant.asin, variant);
      var parents', vars', stock' := Put(parents, id, item), Put(vars, id, vs), Put(stock, id, FreshRecord(variant.asin, now));
      && Get(parents', id) == Some(item)
      && Get(VariantsOf(vars', id), variant.asin) == Some(variant)
      && (forall a :: a != variant.asin ==> Get(VariantsOf(vars', id), a) == Get(VariantsOf(vars, id), a))
      && Get(stock', id) == Some(StockRecord(0.0, [(variant.asin, 0)], 0.0, now))
      && (forall pid :: pid != id ==> Get(parents', pid) == Get(parents, pid))
      && (forall pid :: pid != id ==> Get(vars', pid) == Get(vars, pid))
      && (forall pid :: pid != id ==> Get(stock', pid) == Get(stock, pid))
  {
    var vs := Put(VariantsOf(vars, id), variant.asin, variant);
    assert VariantsOf(Put(vars, id, vs), id) == vs;
    PutOther(VariantsOf(vars, id), variant.asin, variant);
    PutOther(parents, id, item);
    PutOther(vars, id, vs);
    PutOther(stock, id, FreshRecord(variant.asin, now));
  }

  /** Seeding stock for a well-formed catalog gives a consistent state. */
  lemma SeedStockConsistent(parents: ParentItems, vars: PacketVariations, now: string)
    requires DistinctKeys(parents) && DistinctKeys(vars)
    requires forall p :: p in vars ==> VariantsWellFormed(p.1)
    ensures Consistent(parents, vars, SeedStock(parents, vars, now))
  {
    var stock := SeedStock(parents, vars, now);
    SeedStockKeys(parents, vars, now);
    forall p | p in stock ensures p.0 in Keys(parents) && RecordWellFormed(p.1, VariantsOf(vars, p.0)) {
      assert p.0 in Keys(stock);
      var packed := ZeroPacked(VariantsOf(vars, p.0));
      ZeroPackedKeys(VariantsOf(vars, p.0));
      forall q | q in packed ensures q.0 in Keys(VariantsOf(vars, p.0)) && q.1 >= 0 {
        assert q.0 in Keys(packed);
      }
    }
  }

  const SampleParentItems: ParentItems := [
    ("RICE_BASMATI", ParentItem("Basmati Rice Premium", "Rice", "kg")),
    ("RICE_JASMINE", ParentItem("Jasmine Rice Fragrant", "Rice", "kg")),
    ("WHEAT_FLOUR", ParentItem("Wheat Flour Organic", "Flour", "kg")),
    ("PULSES_TOOR", ParentItem("Toor Dal Premium", "Pulses", "kg"))
  ]

  const SamplePacketVariations: PacketVariations := [
    ("RICE_BASMATI", [
      ("B07BASMATI1KG", Variant(1.0, "B07BASMATI1KG", "1kg Basmati Rice Pack", 120.0)),
      ("B07BASMATI5KG", Variant(5.0, "B07BASMATI5KG", "5kg Basmati Rice Pack", 580.0))]),
    ("RICE_JASMINE", [
      ("B07JASMINE1KG", Variant(1.0, "B07JASMINE1KG", "1kg Jasmine Rice Pack", 110.0))]),
    ("WHEAT_FLOUR", [
      ("B07WHEAT1KG", Variant(1.0, "B07WHEAT1KG", "1kg Wheat Flour Pack", 45.0)),
      ("B07WHEAT5KG", Variant(5.0, "B07WHEAT5KG", "5kg Wheat Flour Pack", 220.0))]),
    ("PULSES_TOOR", [
      ("B07TOOR1KG", Variant(1.0, "B07TOOR1KG", "1kg Toor Dal Pack", 85.0)),
      ("B07TOOR2KG", Variant(2.0, "B07TOOR2KG", "2kg Toor Dal Pack", 165.0))])
  ]

  /** The sample catalog is well formed. */
  lemma SampleCatalogWellFormed()
    ensures DistinctKeys(SampleParentItems) && DistinctKeys(SamplePacketVariations)
    ensures forall p :: p in SamplePacketVariations ==> VariantsWellFormed(p.1)
  {
    SampleProductIdsDistinct();
    SampleVariantsWellFormed();
  }

  lemma SampleProductIdsDistinct()
    ensures DistinctKeys(SampleParentItems) && DistinctKeys(SamplePacketVariations)
  {
    assert "RICE_BASMATI"[5] != "RICE_JASMINE"[5];
    assert "WHEAT_FLOUR"[0] != "PULSES_TOOR"[0];
  }

  lemma SampleVariantsWellFormed()
    ensures forall p :: p in SamplePacketVariations ==> VariantsWellFormed(p.1)
  {
    var vars := SamplePacketVariations;
    assert "B07BASMATI1KG"[10] != "B07BASMATI5KG"[10];
    PacketPairWellFormed(vars[0].1);
    assert VariantsWellFormed(vars[1].1);
    assert "B07WHEAT1KG"[8] != "B07WHEAT5KG"[8];
    PacketPairWellFormed(vars[2].1);
    assert "B07TOOR1KG"[7] != "B07TOOR2KG"[7];
    PacketPairWellFormed(vars[3].1);
    forall p | p in vars ensures VariantsWellFormed(p.1) {
      assert p == vars[0] || p == vars[1] || p == vars[2] || p == vars[3];
    }
  }

  /** Two well-formed packet sizes under different ASINs make a well-formed
      variation map. */
  lemma PacketPairWellFormed(vs: Dict<Asin, Variant>)
    requires |vs| == 2 && vs[0].0 != vs[1].0
    requires forall i :: 0 <= i < 2 ==> vs[i].1.asin == vs[i].0 && vs[i].1.weight > 0.0 && vs[i].1.mrp >= 0.0
    ensures VariantsWellFormed(vs)
  {
  }

  /** `st.session_state`: the catalog, the stock data and the ledger. */
  class SessionState {
    var parentItems: ParentItems
    var packetVariations: PacketVariations
    var stockData: StockData
    var transactions: seq<Transaction>

    ghost predicate Valid()
      reads this
    {
      Consistent(parentItems, packetVariations, stockData)
    }

    /** A session before any data is loaded. */
    constructor ()
      ensures Valid()
      ensures parentItems == [] && packetVariations == [] && stockData == [] && transactions == []
    {
      parentItems, packetVariations, stockData, transactions := [], [], [], [];
    }

    /** Installs the sample catalog and gives every product an empty stock
        record; the ledger starts empty. */
    method InitializeSampleData(now: string)
      modifies this
      ensures parentItems == SampleParentItems && packetVariations == SamplePacketVariations
      ensures stockData == SeedStock(parentItems, packetVariations, now)
      ensures transactions == []
      ensures Valid()
    {
      SampleCatalogWellFormed();
      InitializeCatalog(SampleParentItems, SamplePacketVariations, now);
    }

    method InitializeCatalog(parents: ParentItems, vars: PacketVariations, now: string)
      requires DistinctKeys(parents) && DistinctKeys(vars)
      requires forall p :: p in vars ==> VariantsWellFormed(p.1)
      modifies this
      ensures parentItems == parents && packetVariations == vars
      ensures stockData == SeedStock(parentItems, packetVariations, now)
      ensures transactions == []
      ensures Valid()
    {
      parentItems := parents;
      packetVariations := vars;
      InitializeStockData(now);
      transactions := [];
      SeedStockConsistent(parentItems, packetVariations, now);
    }

    /** The nested loop of the initialiser: a record per parent item, then a
        zero packed count per variation written into that record. */
    method InitializeStockData(now: string)
      modifies this`stockData
      ensures stockData == SeedStock(parentItems, packetVariations, now)
    {
      stockData := [];
      var i := 0;
      while i < |parentItems|
        invariant 0 <= i <= |parentItems|
        invariant stockData == SeedStock(parentItems[..i], packetVariations, now)
      {
        var pid := parentItems[i].0;
        var base := stockData;
        stockData := Put(stockData, pid, StockRecord(0.0, [], 0.0, now));
        var variants := VariantsOf(packetVariations, pid);
        var j := 0;
        while j < |variants|
          invariant 0 <= j <= |variants|
          invariant stockData == Put(base, pid, StockRecord(0.0, ZeroPacked(variants[..j]), 0.0, now))
        {
          SeedStep(base, pid, variants, j, now);
          var rec := Get(stockData, pid).value;
          stockData := Put(stockData, pid, rec.(packedStock := Put(rec.packedStock, variants[j].0, 0)));
          j := j + 1;
        }
        SeedRecordStep(parentItems, packetVariations, i, now);
        i := i + 1;
      }
      assert parentItems[..i] == parentItems;
    }

    /** "Add Product": when the form was submitted with a product name and an
        ASIN, registers the product under the id derived from its name,
        creates its variation map if it has none, stores the form's variation
        under its ASIN, and restarts the product's stock record with a zero
        count for that ASIN alone. Otherwise nothing changes. */
    method AddProduct(submitted: bool, form: ProductForm, weightText: string, now: string)
      requires Valid()
      requires form.weight >= 0.1 && form.mrp >= 0.0
      modifies this
      ensures Valid()
      ensures transactions == old(transactions)
      ensures !(submitted && form.productName != [] && form.asin != []) ==>
        parentItems == old(parentItems) && packetVariations == old(packetVariations) && stockData == old(stockData)
      ensures submitted && form.productName != [] && form.asin != [] ==>
        var id := ProductIdOf(form.productName);
        var variant := Variant(form.weight, form.asin, DescriptionOf(form, weightText), form.mrp);
        && parentItems == Put(old(parentItems), id, ParentItem(form.productName, form.category, form.unit))
        && packetVariations == Put(old(packetVariations), id, Put(VariantsOf(old(packetVariations), id), form.asin, variant))
        && stockData == Put(old(stockData), id, FreshRecord(form.asin, now))
    {
      if submitted && form.productName != [] && form.asin != [] {
        var productId := ProductIdOf(form.productName);
        var variant := Variant(form.weight, form.asin, DescriptionOf(form, weightText), form.mrp);
        RegisterProduct(productId, ParentItem(form.productName, form.category, form.unit), variant, now);
      }
    }

    /** The three writes of "Add Product" for an id already derived and a
        variation already built. */
    method RegisterProduct(productId: ProductId, item: ParentItem, variant: Variant, now: string)
      requires Valid()
      requires variant.weight > 0.0 && variant.mrp >= 0.0
      modifies this
      ensures Valid()
      ensures transactions == old(transactions)
      ensures parentItems == Put(old(parentItems), productId, item)
      ensures packetVariations == Put(old(packetVariations), productId,
        Put(VariantsOf(old(packetVariations), productId), variant.asin, variant))
      ensures stockData == Put(old(stockData), productId, FreshRecord(variant.asin, now))
    {
      WriteProduct(productId, item, variant, now);
      AddPreservesConsistency(old(parentItems), old(packetVariations), old(stockData), productId, item, variant, now,
        parentItems, packetVariations, stockData);
    }

    /** The parent item, the variation and the stock record written in turn. */
    method WriteProduct(productId: ProductId, item: ParentItem, variant: Variant, now: string)
      modifies this`parentItems, this`packetVariations, this`stockData
      ensures parentItems == Put(old(parentItems), productId, item)
      ensures packetVariations == Put(old(packetVariations), productId,
        Put(VariantsOf(old(packetVariations), productId), variant.asin, variant))
      ensures stockData == Put(old(stockData), productId, FreshRecord(variant.asin, now))
    {
      SetParentItem(productId, item);
      AddVariation(productId, variant.asin, variant);
      ResetStock(productId, variant.asin, now);
    }

    /** `parent_items[product_id] = {...}`. */
    method SetParentItem(productId: ProductId, item: ParentItem)
      modifies this`parentItems
      ensures parentItems == Put(old(parentItems), productId, item)
    {
      parentItems := Put(parentItems, productId, item);
    }

    /** Creates the product's variation map if it is absent, then stores the
        variation under its ASIN in it. */
    method AddVariation(productId: ProductId, asin: Asin, variant: Variant)
      modifies this`packetVariations
      ensures packetVariations == Put(old(packetVariations), productId, Put(VariantsOf(old(packetVariations), productId), asin, variant))
    {
      VariationMapCreated(packetVariations, productId, asin, variant);
      if productId !in Keys(packetVariations) {
        packetVariations := Put(packetVariations, productId, []);
      }
      var variants := Get(packetVariations, productId).value;
      packetVariations := Put(packetVariations, productId, Put(variants, asin, variant));
    }

    /** `stock_data[product_id] = {...}`: a fresh record counting only the
        new ASIN, whatever the product held before. */
    method ResetStock(productId: ProductId, asin: Asin, now: string)
      modifies this`stockData
      ensures stockData == Put(old(stockData), productId, FreshRecord(asin, now))
    {
      stockData := Put(stockData, productId, FreshRecord(asin, now));
    }
  }
}
