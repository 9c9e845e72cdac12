/** The three collections the stock tracker keeps for each product: its catalog
    entry (a parent item), its packet variations keyed by ASIN, and its stock
    record. */
module Records {
  import opened Dicts

  type ProductId = string
  type Asin = string

  /** An entry of `parent_items`. */
  datatype ParentItem = ParentItem(name: string, category: string, unit: string)

  /** An entry of `packet_variations[product_id]`: one packet size, with its
      weight per packet (kg) and its MRP (rupees). */
  datatype Variant = Variant(weight: real, asin: Asin, description: string, mrp: real)

  /** An entry of `stock_data`: loose stock in kg, packed units per ASIN. */
  datatype StockRecord = StockRecord(
    looseStock: real,
    packedStock: Dict<Asin, int>,
    openingStock: real,
    lastUpdated: string)

  type ParentItems = Dict<ProductId, ParentItem>
  type PacketVariations = Dict<ProductId, Dict<Asin, Variant>>
  type StockData = Dict<ProductId, StockRecord>

  /** `packet_variations.get(product_id, {})`. */
  function VariantsOf(vars: PacketVariations, pid: ProductId): (vs: Dict<Asin, Variant>)
    ensures Get(vars, pid).None? ==> vs == []
    ensures Get(vars, pid).Some? ==> (pid, vs) in vars
  {
    match Get(vars, pid)
    case None => []
    case Some(vs) => vs
  }

  /** Each variation is stored under its own ASIN, weighs something and has a
      price that is not negative. */
  ghost predicate VariantsWellFormed(vs: Dict<Asin, Variant>)
  {
    && DistinctKeys(vs)
    && forall p :: p in vs ==> p.1.asin == p.0 && p.1.weight > 0.0 && p.1.mrp >= 0.0
  }

  /** A stock record holds no negative balance and counts packets only of
      variations the catalog knows for its product. */
  ghost predicate RecordWellFormed(rec: StockRecord, vs: Dict<Asin, Variant>)
  {
    && rec.looseStock >= 0.0
    && DistinctKeys(rec.packedStock)
    && forall q :: q in rec.packedStock ==> q.0 in Keys(vs) && q.1 >= 0
  }

  /** The invariant the session state keeps: every dict has distinct keys,
      every variation is well formed, and stock is kept only for catalog
      products, in well-formed records. */
  ghost predicate Consistent(parents: ParentItems, vars: PacketVariations, stock: StockData)
  {
    && DistinctKeys(parents)
    && DistinctKeys(vars)
    && DistinctKeys(stock)
    && (forall p :: p in vars ==> VariantsWellFormed(p.1))
    && (forall p :: p in stock ==> p.0 in Keys(parents) && RecordWellFormed(p.1, VariantsOf(vars, p.0)))
  }
}
