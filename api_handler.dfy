/** Enrichment of the sales records with catalogue data: an id-to-product
    table built from the fetched catalogue, and a copy of every record
    annotated with the catalogue's category, brand and rating when its
    product id names a catalogue entry. */
module ApiHandler {
  import opened Wrappers
  import opened Seqs
  import opened OrderedDict
  import opened Text
  import opened Records

  /** One product of the fetched catalogue; the price is in hundredths. */
  datatype CatalogProduct = CatalogProduct(id: int, title: string, category: string, brand: string, price: int, rating: real)

  /** What the table stores for a product. */
  datatype ProductInfo = ProductInfo(title: string, category: string, brand: string, rating: real)

  function InfoOf(p: CatalogProduct): ProductInfo
  {
    ProductInfo(p.title, p.category, p.brand, p.rating)
  }

  /** The catalogue's ids, in order. */
  function Ids(ps: seq<CatalogProduct>): (ids: seq<int>)
    ensures |ids| == |ps|
    ensures forall i :: 0 <= i < |ps| ==> ids[i] == ps[i].id
  {
    seq(|ps|, i requires 0 <= i < |ps| => ps[i].id)
  }

  /** The table after storing every product in turn, `mapping[p.id] = ...`. */
  function ProductMapping(ps: seq<CatalogProduct>): Dict<int, ProductInfo>
  {
    if ps == [] then []
    else
      var last := ps[|ps| - 1];
      Put(ProductMapping(ps[..|ps| - 1]), last.id, InfoOf(last))
  }

  lemma ProductMappingSnoc(ps: seq<CatalogProduct>, p: CatalogProduct, ps': seq<CatalogProduct>)
    requires ps' == ps + [p]
    ensures ProductMapping(ps') == Put(ProductMapping(ps), p.id, InfoOf(p))
  {
    assert ps'[..|ps|] == ps;
  }

  /** `create_product_mapping`. */
  method CreateProductMapping(apiProducts: seq<CatalogProduct>) returns (mapping: Dict<int, ProductInfo>)
    ensures mapping == ProductMapping(apiProducts)
  {
    mapping := [];
    for i := 0 to |apiProducts|
      invariant mapping == ProductMapping(apiProducts[..i])
    {
      var p := apiProducts[i];
      PrefixSnoc(apiProducts, i);
      ProductMappingSnoc(apiProducts[..i], p, apiProducts[..i + 1]);
      mapping := Put(mapping, p.id, ProductInfo(p.title, p.category, p.brand, p.rating));
    }
    assert apiProducts[..|apiProducts|] == apiProducts;
  }

  /** The table holds each id of the catalogue once, in the order the ids
      were first seen, and no other key. */
  lemma {:induction false} ProductMappingKeys(ps: seq<CatalogProduct>)
    ensures Valid(ProductMapping(ps))
    ensures Keys(ProductMapping(ps)) == Dedup(Ids(ps))
  {
    if ps != [] {
      var init := ps[..|ps| - 1];
      ProductMappingKeys(init);
      assert Ids(ps)[..|ps| - 1] == Ids(init);
    }
  }

  /** A later product with the same id overwrites an earlier one: the table
      holds the last product listed under each id. */
  lemma {:induction false} ProductMappingLastWins(ps: seq<CatalogProduct>, i: nat)
    requires i < |ps|
    requires forall j :: i < j < |ps| ==> ps[j].id != ps[i].id
    ensures Get(ProductMapping(ps), ps[i].id) == Some(InfoOf(ps[i]))
  {
    var init, last := ps[..|ps| - 1], ps[|ps| - 1];
    ProductMappingKeys(init);
    GetPut(ProductMapping(init), last.id, InfoOf(last), ps[i].id);
    if i < |ps| - 1 {
      ProductMappingLastWins(init, i);
    }
  }

  /** An id is found in the table exactly when some product carries it. */
  lemma ProductMappingHas(ps: seq<CatalogProduct>, k: int)
    ensures Get(ProductMapping(ps), k).Some? <==> k in Ids(ps)
  {
    ProductMappingKeys(ps);
    DedupHas(Ids(ps), k);
  }

  /** A record with its catalogue annotations: `API_Category`, `API_Brand`,
      `API_Rating` (absent when there is no match) and `API_Match`. */
  datatype EnrichedRecord = EnrichedRecord(
    base: Transaction,
    apiCategory: Option<string>,
    apiBrand: Option<string>,
    apiRating: Option<real>,
    apiMatch: bool)

  /** `int(product_id.replace("P", ""))`, or nothing when that fails. */
  function NumericId(productId: string): Option<int>
  {
    ParseInt(RemoveAll(productId, 'P'))
  }

  /** A product id written as `P` and a number yields that number. */
  lemma NumericIdOf(n: int)
    ensures NumericId("P" + IntToString(n)) == Some(n)
  {
    IntToStringHasNo(n, 'P');
    RemoveLeading(IntToString(n), 'P', "P" + IntToString(n));
    ParseIntToString(n);
  }

  /** The annotated copy of one record. */
  function Enrich(t: Transaction, mapping: Dict<int, ProductInfo>): EnrichedRecord
  {
    var info := if NumericId(t.productId).Some? then Get(mapping, NumericId(t.productId).value) else None;
    match info
    case Some(p) => EnrichedRecord(t, Some(p.category), Some(p.brand), Some(p.rating), true)
    case None => EnrichedRecord(t, None, None, None, false)
  }

  /** The copy keeps the record; it is matched exactly when the numeric id
      parses and is a key of the table, and then carries that entry's
      category, brand and rating; otherwise all three are absent. */
  lemma EnrichFields(t: Transaction, mapping: Dict<int, ProductInfo>)
    ensures var r := Enrich(t, mapping);
      && r.base == t
      && (r.apiMatch <==> NumericId(t.productId).Some? && NumericId(t.productId).value in Keys(mapping))
      && (r.apiMatch ==>
            var info := Get(mapping, NumericId(t.productId).value).value;
            r.apiCategory == Some(info.category) && r.apiBrand == Some(info.brand) && r.apiRating == Some(info.rating))
      && (!r.apiMatch ==> r.apiCategory.None? && r.apiBrand.None? && r.apiRating.None?)
  {
  }

  /** A record whose numeric id is the id of a catalogue product is matched,
      and carries the category, brand and rating of the last product listed
      with that id. */
  lemma EnrichFromCatalog(t: Transaction, ps: seq<CatalogProduct>, i: nat)
    requires i < |ps| && NumericId(t.productId) == Some(ps[i].id)
    requires forall j :: i < j < |ps| ==> ps[j].id != ps[i].id
    ensures var r := Enrich(t, ProductMapping(ps));
      && r.apiMatch
      && r.apiCategory == Some(ps[i].category)
      && r.apiBrand == Some(ps[i].brand)
      && r.apiRating == Some(ps[i].rating)
  {
    ProductMappingLastWins(ps, i);
    EnrichFields(t, ProductMapping(ps));
  }

  /** A record whose product id does not parse, or names no catalogue
      product, is unmatched with no annotations; in particular every record
      is unmatched when the catalogue is empty. */
  lemma EnrichWithoutCatalog(t: Transaction, ps: seq<CatalogProduct>)
    requires NumericId(t.productId).None? || NumericId(t.productId).value !in Ids(ps)
    ensures var r := Enrich(t, ProductMapping(ps));
      !r.apiMatch && r.apiCategory.None? && r.apiBrand.None? && r.apiRating.None?
  {
    if NumericId(t.productId).Some? {
      ProductMappingHas(ps, NumericId(t.productId).value);
    }
    EnrichFields(t, ProductMapping(ps));
  }

  /** Where the enriched records are written: the file's rows, replaced by
      each save. */
  class EnrichedDataStore {
    var rows: seq<EnrichedRecord>

    constructor ()
      ensures rows == []
    {
      rows := [];
    }

    /** `save_enriched_data`: the file now holds exactly these records. */
    method Save(enriched: seq<EnrichedRecord>)
      modifies this
      ensures rows == enriched
    {
      rows := enriched;
    }
  }

  /** `enrich_sales_data`: one annotated copy per record, in order, then saved. */
  method EnrichSalesData(ts: seq<Transaction>, productMapping: Dict<int, ProductInfo>, store: EnrichedDataStore)
    returns (enriched: seq<EnrichedRecord>)
    modifies store
    ensures |enriched| == |ts|
    ensures forall i :: 0 <= i < |ts| ==> enriched[i] == Enrich(ts[i], productMapping)
    ensures store.rows == enriched
  {
    enriched := EnrichEach(ts, productMapping);
    store.Save(enriched);
  }

  /** The loop of `enrich_sales_data`: the annotated copies, in order. */
  method EnrichEach(ts: seq<Transaction>, productMapping: Dict<int, ProductInfo>) returns (enriched: seq<EnrichedRecord>)
    ensures |enriched| == |ts|
    ensures forall i :: 0 <= i < |ts| ==> enriched[i] == Enrich(ts[i], productMapping)
  {
    enriched := [];
    for i := 0 to |ts|
      invariant |enriched| == i
      invariant forall k :: 0 <= k < i ==> enriched[k] == Enrich(ts[k], productMapping)
    {
      var newT := AnnotateRecord(ts[i], productMapping);
      enriched := enriched + [newT];
    }
  }

  /** The body of the loop of `enrich_sales_data`: copy the record, then set
      the four annotations from the table entry of its numeric id, if any.
      The method follows the loop's statements; `Enrich` is the
      specification it is proved against, and `EnrichFields`,
      `EnrichFromCatalog` and `EnrichWithoutCatalog` are stated about it. */
  method AnnotateRecord(t: Transaction, productMapping: Dict<int, ProductInfo>) returns (newT: EnrichedRecord)
    ensures newT == Enrich(t, productMapping)
  {
    var numericId := NumericId(t.productId);
    var info := if numericId.Some? then Get(productMapping, numericId.value) else None;
    if info.Some? {
      newT := EnrichedRecord(t, Some(info.value.category), Some(info.value.brand), Some(info.value.rating), true);
    } else {
      newT := EnrichedRecord(t, None, None, None, false);
    }
  }
}
