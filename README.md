# Stock tracker core, modelled in Dafny

This project models the bookkeeping core of a small stock tracker for
packaged food products (rice, flour, pulses). The tracker keeps three
dictionaries in its session state:

- `parent_items`: product id → name, category and unit;
- `packet_variations`: product id → ASIN → packet variation (weight per
  packet, ASIN, description, MRP);
- `stock_data`: product id → stock record (loose stock in kg, packed units
  per ASIN, opening stock, last-updated timestamp).

Two operations write these dictionaries in place. The sample-data
initialiser seeds the catalog and gives every product a zero stock record.
"Add Product" registers a product and one packet variation, then restarts
the product's stock record. Around them sit read-only helpers: the ASIN
format check, the per-transaction-type form validation, the
first-matching-column lookup, and three folds over the stock data (the
dashboard summary, the stock valuation and the low-stock alerts).

Layout:

- `dicts.dfy` (module `Dicts`): Python's insertion-ordered dict as a
  sequence of (key, value) pairs. `Get` is lookup. `Put` is assignment, which
  keeps a present key in place and appends a new one. Lemmas cover what an
  assignment changes and what it keeps.
- `records.dfy` (module `Records`): the entities (`ParentItem`, `Variant`,
  `StockRecord`) and `Consistent`, the invariant the session state keeps.
  It requires distinct keys, well-formed variations, and stock only for
  catalog products, counting only their catalog variations.
- `app.dfy` (module `App`): the session state as a class with the three
  dictionaries and the ledger as fields. It holds the initialiser (nested
  loops, proved equal to `SeedStock`) and "Add Product" (three in-place
  writes, with the exact new state and the preserved invariant). The
  product-id derivation and its lemmas are here too.
- `utils.dfy` (module `Utils`): the helpers. The validators are functions or
  methods whose contracts give the exact accept/reject conditions and the
  order of the messages. Each fold is a recursive specification function,
  plus a loop method proved equal to it, plus lemmas about the
  specification.

Quantities are exact: loose stock, weights and MRPs are `real`, and packed
units are `int`. Timestamps from the clock are a `now` parameter. The
rendering of the weight in the default description is a `weightText`
parameter.

## Model

| member | source | states |
|---|---|---|
| Dicts.Get | utils.py:129-132 | A lookup finds nothing exactly when the key is absent; otherwise it finds a value stored under that key |
| Dicts.Put | app.py:238-242 | After `d[k] = v` the key `k` holds `v` |
| Dicts.PutOther | app.py:238-261 | Assigning one key leaves every other key's lookup unchanged |
| Dicts.PutKeys | app.py:238-261 | Assignment keeps key order: a present key stays in place, a new key goes last |
| Dicts.PutDistinct | app.py:238-261 | Assignment never duplicates a key |
| Dicts.PutPut | app.py:57-58 | Two assignments to one key leave only the second |
| Records.VariantsOf | app.py:57 | `packet_variations.get(pid, {})`: empty when the product has no variation map, else that product's map |
| App.ProductIdOf | app.py:235 | The id has the name's length, contains no space and no lower-case letter, and keeps every other character of the name in place |
| App.ProductIdIdempotent | app.py:235 | Deriving an id from an id gives the same id |
| App.ProductIdCollision | app.py:235 | Names that differ only in letter case, or in space against underscore, get the same id (the later product overwrites the earlier) |
| App.ZeroPacked | app.py:57-58 | Every packed count of a seeded record is zero |
| App.ZeroPackedKeys | app.py:57-58 | A seeded record's packed map has exactly the product's catalog ASINs, once each, in catalog order |
| App.SeedStock | app.py:49-58 | Every seeded record is loose 0, opening 0 and zero counts for the product's catalog variations |
| App.SeedStockKeys | app.py:49-50 | The seeded stock data has exactly the parent items' ids, once each, in parent-item order |
| App.SeedStockConsistent | app.py:49-58 | Seeding a well-formed catalog gives a consistent state |
| App.SeedStep | app.py:57-58 | One pass of the inner loop extends the record's packed map by the next ASIN |
| App.SeedRecordStep | app.py:50-58 | One pass of the outer loop appends the next product's finished record |
| App.SampleCatalogWellFormed | app.py:23-46 | The sample catalog has distinct ids and well-formed variations stored under their own ASINs |
| App.SampleProductIdsDistinct | app.py:23-28 | The four sample product ids are distinct |
| App.SampleVariantsWellFormed | app.py:30-46 | Every sample variation map has distinct ASINs, positive weights and non-negative MRPs |
| App.SessionState.InitializeSampleData | app.py:21-60 | The state becomes the sample catalog, the stock data seeded from it, and an empty ledger, and it is consistent |
| App.SessionState.InitializeCatalog | app.py:23-60 | For any well-formed catalog, the state is that catalog, the seeded stock and an empty ledger, and it is consistent |
| App.SessionState.InitializeStockData | app.py:49-58 | The nested loops leave exactly `SeedStock` of the catalog in `stock_data` |
| App.VariationMapCreated | app.py:245-253 | Creating an empty variation map when absent, then storing the variation, equals storing it into the product's existing or empty map |
| App.AddPreservesConsistency | app.py:233-261 | "Add Product" takes a consistent state to a consistent state |
| App.AddKeepsVariantsWellFormed | app.py:245-253 | Storing a valid variation under its ASIN keeps every variation map well formed |
| App.AddKeepsRecordsWellFormed | app.py:238-261 | After the add, every stock record is of a catalog product and counts only that product's variations |
| App.AddEffects | app.py:233-261 | Entry by entry after the add: the new parent item, the new variation, the product's other variations kept, the fresh record `{asin: 0}` with loose and opening 0, and every other product untouched in all three dicts |
| App.SessionState.AddProduct | app.py:233-261 | Nothing changes unless the form was submitted with a non-empty name and ASIN. Otherwise the parent item is (re)written, the variation (with its description defaulting to "<weight>kg <name>") is stored in the product's map, the stock record is replaced by a fresh one, and the state stays consistent |
| App.SessionState.RegisterProduct | app.py:238-261 | The three writes for a derived id and a built variation, keeping the state consistent |
| App.SessionState.WriteProduct | app.py:238-261 | The three writes in order give exactly the three assigned dicts |
| App.SessionState.SetParentItem | app.py:238-242 | `parent_items[id]` is set to the given item |
| App.SessionState.AddVariation | app.py:245-253 | The product's map is created if absent and the variation stored under its ASIN, keeping the product's other variations |
| App.SessionState.ResetStock | app.py:256-261 | `stock_data[id]` is replaced by a record counting only the new ASIN, at zero |
| Utils.FindColumn | utils.py:11-16 | Returns None exactly when no column is a possible name; otherwise the first such column in column order |
| Utils.StripStart | utils.py:23 | Removes exactly the leading whitespace |
| Utils.StripEnd | utils.py:23 | Removes exactly the trailing whitespace |
| Utils.Strip | utils.py:23 | The result neither starts nor ends with whitespace |
| Utils.StripIsSlice | utils.py:23 | The result is the stretch of the input that starts after its leading whitespace, with only whitespace after it |
| Utils.ValidateAsinFormat | utils.py:18-31 | Accepts exactly the inputs whose stripped form is 10 letters or digits. Rejects empty input first, then a wrong stripped length, then a non-alphanumeric character, each with its own message |
| Utils.StripPadded | utils.py:23 | Whitespace added around a string does not change its stripped form |
| Utils.AsinPaddingIgnored | utils.py:18-31 | The ASIN check gives the same verdict and message whatever whitespace surrounds a non-empty ASIN |
| Utils.ValidateTransactionData | utils.py:96-122 | Valid exactly when no message was collected, exactly when the type's requirements are met. Each message appears exactly when its check fails, no other message appears, and the messages come in check order, so the list is exactly the failed checks' messages. "Stock Inward" checks product and weight; Packing and sale types check product, ASIN and quantity; other types check nothing |
| Utils.PacketErrors | utils.py:107-120 | The three checks shared by Packing and sale types: each message is present exactly when its check fails, no other message appears, and they come in check order |
| Utils.ReturnIsUnchecked | utils.py:96-122 | A "Return" transaction is valid whatever its data |
| Utils.ContainsFirstChar | utils.py:114 | A string contains a substring only if it contains the substring's first character |
| Utils.PackedUnits | utils.py:139-143 | The counted packed units are never negative |
| Utils.PackedTotals | utils.py:136-143 | The inner loop's two accumulators equal the counted units and weight over catalog variations with units > 0 |
| Utils.GetProductSummary | utils.py:124-156 | The loop's output equals the `Summary` specification |
| Utils.SummaryRows | utils.py:132-154 | Every row is of a catalog product, with its catalog name and category, non-negative packed units, and total weight = loose + packed weight |
| Utils.SummaryIds | utils.py:128-145 | One row per stock record whose product is in the catalog, in stock-data order, and no other rows |
| Utils.SummaryConcat | utils.py:128-156 | The summary of two stretches of stock data is the concatenation of their summaries |
| Utils.SummaryOfKnown | utils.py:128-154 | When every record's product is in the catalog, the i-th row is the i-th record's row |
| Utils.PackedUnitsAllCounted | utils.py:139-143 | When every packed ASIN is a catalog variation and no count is negative, the counted units are all the units |
| Utils.SummaryOfConsistent | utils.py:124-156 | In a consistent state the summary has a row per record, in order, with its id, its loose stock and all its packed units |
| Utils.PackedStockValue | utils.py:167-170 | The inner loop's total equals the value of the record's counted packed units at MRP |
| Utils.CalculateStockValue | utils.py:158-172 | The loop's total equals the `StockValue` specification |
| Utils.PackedValueNonNegative | utils.py:167-170 | With no negative MRP, a record's packed value is not negative |
| Utils.StockValueNonNegative | utils.py:158-172 | With no negative MRP, the stock value is not negative |
| Utils.StockValueIgnoresLoose | utils.py:158-172 | Snapshots that differ only in loose stock, opening stock or timestamps have the same value |
| Utils.LooseAlert | utils.py:185-193 | A loose-stock alert is raised exactly when loose stock is below the threshold |
| Utils.PackedAlert | utils.py:197-205 | A packed entry raises an alert exactly when it is a catalog variation with fewer than 5 units. The alert reports a value below its threshold of 5, in units |
| Utils.PackedStockAlerts | utils.py:196-205 | The inner loop's alerts equal `PackedAlerts` |
| Utils.RecordStockAlerts | utils.py:178-205 | One record's alerts: none outside the catalog, else the loose alert first and then the packed alerts |
| Utils.GetLowStockAlerts | utils.py:174-207 | The loop's alerts equal the `LowStockAlerts` specification; the loose-stock threshold defaults to 10 kg |
| Utils.PackedAlertsBelowThreshold | utils.py:196-205 | Every packed alert reports fewer than 5 units against threshold 5, unit "units" |
| Utils.AlertsBelowThreshold | utils.py:174-207 | Every alert reports stock below its threshold: the given threshold in kg for loose stock, 5 units for packed stock |
| Utils.NoPackedAlertsIff | utils.py:196-205 | A record's packed entries raise no alert exactly when every catalog variation among them has at least 5 units |
| Utils.RecordQuietIff | utils.py:178-205 | A record raises no alert exactly when it is outside the catalog, or has at least the threshold loose and nothing low packed |
| Utils.NoAlertsIff | utils.py:174-207 | There are no alerts exactly when every record is quiet |
| Utils.AlertsMonotone | utils.py:174-186 | Raising the loose-stock threshold never lowers the number of alerts |

## Left out

- Streamlit page setup, dashboards, tabs, forms and charts (app.py:10-16, 100-231). These are UI. The form's own bounds (weight at least 0.1, MRP at least 0) become the requires of `App.SessionState.AddProduct`.
- `save_data`/`load_data` (app.py:62-98), including the fallback to sample data. This is file I/O.
- The inward, packing and sale ledger operations. The fragment at app.py:124-142 calls `record_transaction` and stock checks that neither app.py nor utils.py defines; `record_transaction` is not part of this model. The ledger is modelled only as the list the initialiser empties.
- `format_currency`, `get_date_range_options`, `export_to_excel` and `clean_excel_data` (utils.py:33-94). These are float formatting, the current date, and pandas/openpyxl calls.
- config.py holds only constants, and no modelled operation reads it.
- `datetime.now()` (app.py:55, 260) is the `now` parameter. `App.SessionState.InitializeStockData` stamps every seeded record with one reading, where the source reads the clock once per product.
- The float-to-string rendering of the weight in the default description (app.py:251) is the `weightText` parameter of `App.SessionState.AddProduct`.
- App.ProductIdOf: upper-cases ASCII letters only; Python's `str.upper` also maps non-ASCII letters (and can change the length, e.g. "ß" → "SS").
- Utils.ValidateAsinFormat: `isalnum` is modelled on ASCII letters and digits; Python also accepts other Unicode letters and digits. The `str(asin)` conversion of non-string input is not modelled, since inputs are strings.
- The `.get(key, default)` reads (loose stock 0, packed stock {}, weight 0, MRP 0, category "General", description = ASIN, last updated "") are modelled as required fields. Every record the modelled operations write has them.
- Utils.ValidateTransactionData: the form data is a record of optional fields, not an arbitrary dict, and quantities and weights are numbers, so a non-numeric value is not modelled.
- App.SessionState.InitializeStockData: the seeded record is written into `stock_data` before its packed counts are added, as in the source. The model states the state after each pass, not the sharing of the inner dict between `stock_data` and the loop.
