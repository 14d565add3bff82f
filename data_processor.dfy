/** The analytics over the cleaned transactions: total revenue, and six
    reports that each fold the records into a keyed accumulator
    (`Grouping.GroupBy`) and then sort or filter its entries. Amounts are in
    hundredths; percentages and averages are exact reals. */
module DataProcessor {
  import opened Wrappers
  import opened Seqs
  import opened OrderedDict
  import opened Sorting
  import opened Records
  import opened Grouping

  /* ---------------------------------------------------------------- */
  /* calculate_total_revenue                                           */

  /** The sum of Quantity × UnitPrice over all records (0 for none). */
  method CalculateTotalRevenue(ts: seq<Transaction>) returns (total: int)
    ensures total == SumOf(ts, Amount)
  {
    total := 0;
    for i := 0 to |ts|
      invariant total == SumOf(ts[..i], Amount)
    {
      PrefixSnoc(ts, i);
      SumOfSnoc(ts[..i], ts[i], Amount);
      total := total + ts[i].quantity * ts[i].unitPrice;
    }
    assert ts[..|ts|] == ts;
  }

  /* ---------------------------------------------------------------- */
  /* region_wise_sales                                                 */

  datatype RegionStats = RegionStats(totalSales: int, transactionCount: nat, percentage: real)

  /** Dividing by a zero total raises. */
  datatype ArithmeticError = DivisionByZero

  /** `part / total * 100`, unrounded. */
  function Percentage(part: int, total: int): real
    requires total != 0
  {
    part as real / total as real * 100.0
  }

  /** A share times the whole is a hundred times the part. */
  lemma PercentageOfTotal(part: int, total: int)
    requires total != 0
    ensures Percentage(part, total) * total as real == 100.0 * part as real
  {
  }

  /** A region entry once its percentage of `total` is added. */
  function RegionEntry(e: (string, Stats), total: int): (string, RegionStats)
    requires total != 0
  {
    (e.0, RegionStats(e.1.amount, e.1.count, Percentage(e.1.amount, total)))
  }

  function RegionRows(groups: Dict<string, Stats>, total: int): Dict<string, RegionStats>
    requires total != 0 || groups == []
  {
    seq(|groups|, j requires 0 <= j < |groups| => RegionEntry(groups[j], total))
  }

  function RegionTotal(e: (string, RegionStats)): int { e.1.totalSales }
  function RegionCount(e: (string, RegionStats)): int { e.1.transactionCount }

  /** The report: per-region totals, counts and share of revenue, highest
      total first; computing a share raises when there are regions but the
      revenue is zero. */
  function RegionWise(ts: seq<Transaction>): Result<Dict<string, RegionStats>, ArithmeticError>
  {
    var total := SumOf(ts, Amount);
    var groups := GroupsOf(ts, ByRegion, None);
    if groups != [] && total == 0 then Err(DivisionByZero)
    else Ok(SortDesc(RegionRows(groups, total), RegionTotal))
  }

  /** `region_wise_sales`: total the revenue, accumulate per region, add the
      percentages entry by entry, then sort by total sales, descending. */
  method RegionWiseSales(ts: seq<Transaction>) returns (r: Result<Dict<string, RegionStats>, ArithmeticError>)
    ensures r == RegionWise(ts)
  {
    var totalSales := CalculateTotalRevenue(ts);
    var regionData := GroupBy(ts, ByRegion, None);
    if regionData != [] && totalSales == 0 {
      return Err(DivisionByZero);
    }
    var withPercentage: Dict<string, RegionStats> := [];
    for j := 0 to |regionData|
      invariant |withPercentage| == j
      invariant forall k :: 0 <= k < j ==> withPercentage[k] == RegionEntry(regionData[k], totalSales)
    {
      withPercentage := withPercentage + [RegionEntry(regionData[j], totalSales)];
    }
    assert withPercentage == RegionRows(regionData, totalSales);
    r := Ok(SortDesc(withPercentage, RegionTotal));
  }

  /** The report fails exactly when there are records but no revenue. */
  lemma RegionWiseFails(ts: seq<Transaction>)
    ensures RegionWise(ts).Err? <==> ts != [] && SumOf(ts, Amount) == 0
  {
    KeysOfEmpty(ts, ByRegion);
  }

  /** Each region of the input appears exactly once. */
  lemma RegionWiseKeys(ts: seq<Transaction>, v: string)
    requires RegionWise(ts).Ok?
    ensures Valid(RegionWise(ts).value)
    ensures v in Keys(RegionWise(ts).value) <==> v in Project(ts, ByRegion)
  {
    var total := SumOf(ts, Amount);
    var groups := GroupsOf(ts, ByRegion, None);
    var rows := RegionRows(groups, total);
    GroupsOfTotals(ts, ByRegion, None);
    assert Keys(rows) == Keys(groups);
    PermutationValid(rows, RegionWise(ts).value);
    PermutationKeys(rows, RegionWise(ts).value, v);
    KeysOfHas(ts, ByRegion, v);
  }

  /** Each entry holds the total and count of its region's records and its
      share of the revenue. */
  lemma RegionWiseStats(ts: seq<Transaction>, j: nat)
    requires RegionWise(ts).Ok? && j < |RegionWise(ts).value|
    ensures var e := RegionWise(ts).value[j];
      var sel := Select(ts, ByRegion, e.0);
      && e.1.totalSales == SumOf(sel, Amount)
      && e.1.transactionCount == |sel|
      && SumOf(ts, Amount) != 0
      && e.1.percentage == Percentage(e.1.totalSales, SumOf(ts, Amount))
  {
    var total := SumOf(ts, Amount);
    var groups := GroupsOf(ts, ByRegion, None);
    var rows := RegionRows(groups, total);
    var e := RegionWise(ts).value[j];
    PermutationFrom(rows, RegionWise(ts).value, j);
    var i :| 0 <= i < |rows| && rows[i] == e;
    assert e == RegionEntry(groups[i], total);
    assert groups[i].1 == StatsOf(ts, ByRegion, None, e.0);
  }

  /** Highest total first. */
  lemma RegionWiseSorted(ts: seq<Transaction>)
    requires RegionWise(ts).Ok?
    ensures NonIncreasing(RegionWise(ts).value, RegionTotal)
  {
    var total := SumOf(ts, Amount);
    SortDescNonIncreasing(RegionRows(GroupsOf(ts, ByRegion, None), total), RegionTotal);
  }

  /** Regions with equal totals keep the order in which they were first seen. */
  lemma RegionWiseStable(ts: seq<Transaction>)
    requires RegionWise(ts).Ok?
    ensures TiesOrderedBy(RegionWise(ts).value, RegionTotal, SeenOrder(Project(ts, ByRegion)))
  {
    var total := SumOf(ts, Amount);
    var groups := GroupsOf(ts, ByRegion, None);
    var rows := RegionRows(groups, total);
    assert Keys(rows) == Keys(groups);
    FirstSeenIncreasing(rows, Project(ts, ByRegion));
    SortDescStable(rows, RegionTotal, SeenOrder(Project(ts, ByRegion)));
  }

  /** The region totals add up to the total revenue and the counts to the
      number of records. */
  lemma RegionWiseSums(ts: seq<Transaction>)
    requires RegionWise(ts).Ok?
    ensures SumOf(RegionWise(ts).value, RegionTotal) == SumOf(ts, Amount)
    ensures SumOf(RegionWise(ts).value, RegionCount) == |ts|
  {
    var total := SumOf(ts, Amount);
    var groups := GroupsOf(ts, ByRegion, None);
    var rows := RegionRows(groups, total);
    GroupsOfTotals(ts, ByRegion, None);
    RegionRowsSums(groups, total);
    var sorted := RegionWise(ts).value;
    assert sorted == SortDesc(rows, RegionTotal);
    assert SumOf(sorted, RegionTotal) == SumOf(rows, RegionTotal) by {
      SumOfPermutation(rows, sorted, RegionTotal);
    }
    assert SumOf(sorted, RegionCount) == SumOf(rows, RegionCount) by {
      SumOfPermutation(rows, sorted, RegionCount);
    }
  }

  lemma RegionRowsSums(groups: Dict<string, Stats>, total: int)
    requires total != 0 || groups == []
    ensures SumOf(RegionRows(groups, total), RegionTotal) == SumOf(groups, GroupAmount)
    ensures SumOf(RegionRows(groups, total), RegionCount) == SumOf(groups, GroupCount)
  {
    var rows := RegionRows(groups, total);
    SumOfPointwise(rows, RegionTotal, groups, GroupAmount);
    SumOfPointwise(rows, RegionCount, groups, GroupCount);
  }

  /** The sum of a report's percentages. */
  function PercentSum(rows: Dict<string, RegionStats>): real
  {
    if rows == [] then 0.0 else rows[0].1.percentage + PercentSum(rows[1..])
  }

  lemma {:induction false} PercentSumScaled(rows: Dict<string, RegionStats>, total: int)
    requires total != 0
    requires forall k :: 0 <= k < |rows| ==> rows[k].1.percentage == Percentage(rows[k].1.totalSales, total)
    ensures PercentSum(rows) * total as real == 100.0 * SumOf(rows, RegionTotal) as real
  {
    if rows != [] {
      PercentSumScaled(rows[1..], total);
      PercentageOfTotal(rows[0].1.totalSales, total);
      var p, rest, t := rows[0].1.percentage, PercentSum(rows[1..]), total as real;
      assert (p + rest) * t == p * t + rest * t;
    }
  }

  /** The percentages of a report over some records add up to exactly 100
      (before rounding). */
  lemma RegionWisePercentages(ts: seq<Transaction>)
    requires RegionWise(ts).Ok? && ts != []
    ensures PercentSum(RegionWise(ts).value) == 100.0
  {
    var r := RegionWise(ts).value;
    var total := SumOf(ts, Amount);
    RegionWiseFails(ts);
    RegionWiseSums(ts);
    forall k | 0 <= k < |r|
      ensures r[k].1.percentage == Percentage(r[k].1.totalSales, total)
    {
      RegionWiseStats(ts, k);
    }
    PercentSumHundred(r, total);
  }

  /** Shares of a total that the parts add up to sum to 100. */
  lemma PercentSumHundred(rows: Dict<string, RegionStats>, total: int)
    requires total != 0 && SumOf(rows, RegionTotal) == total
    requires forall k :: 0 <= k < |rows| ==> rows[k].1.percentage == Percentage(rows[k].1.totalSales, total)
    ensures PercentSum(rows) == 100.0
  {
    PercentSumScaled(rows, total);
    CancelFactor(PercentSum(rows), 100.0, total as real);
  }

  lemma CancelFactor(x: real, y: real, t: real)
    requires t != 0.0 && x * t == y * t
    ensures x == y
  {
    assert (x - y) * t == 0.0;
  }

  /* ---------------------------------------------------------------- */
  /* top_selling_products and low_performing_products                  */

  /** The figures of a `(ProductName, TotalQuantity, TotalRevenue)` row. */
  datatype Sold = Sold(quantity: int, revenue: int)

  function ProductEntry(e: (string, Stats)): (string, Sold)
  {
    (e.0, Sold(e.1.quantity, e.1.amount))
  }

  /** One row per product, in dictionary order. */
  function ProductRows(groups: Dict<string, Stats>): Dict<string, Sold>
  {
    seq(|groups|, j requires 0 <= j < |groups| => ProductEntry(groups[j]))
  }

  function SoldQuantity(e: (string, Sold)): int { e.1.quantity }

  /** The key of an ascending sort on quantity. */
  function FewestFirst(e: (string, Sold)): int { -e.1.quantity }

  /** The per-product totals of the input. */
  function ProductTotals(ts: seq<Transaction>): Dict<string, Sold>
  {
    ProductRows(GroupsOf(ts, ByProductName, None))
  }

  /** What the product totals of `v` should be. */
  function SoldOf(ts: seq<Transaction>, v: string): Sold
  {
    var sel := Select(ts, ByProductName, v);
    Sold(SumOf(sel, Quantity), SumOf(sel, Amount))
  }

  lemma ProductTotalsFacts(ts: seq<Transaction>)
    ensures Keys(ProductTotals(ts)) == KeysOf(ts, ByProductName)
    ensures Valid(ProductTotals(ts))
    ensures forall j :: 0 <= j < |ProductTotals(ts)| ==> ProductTotals(ts)[j].1 == SoldOf(ts, ProductTotals(ts)[j].0)
  {
    var groups := GroupsOf(ts, ByProductName, None);
    GroupsOfTotals(ts, ByProductName, None);
    assert Keys(ProductTotals(ts)) == Keys(groups);
  }

  /** The product rows by total quantity, highest first. */
  function ByQuantity(ts: seq<Transaction>): Dict<string, Sold>
  {
    SortDesc(ProductTotals(ts), SoldQuantity)
  }

  /** The best `n` products by quantity (`result[:n]`). */
  function TopSelling(ts: seq<Transaction>, n: int): Dict<string, Sold>
  {
    Take(ByQuantity(ts), n)
  }

  /** `top_selling_products`: accumulate per product, list the rows in
      dictionary order, sort them by quantity, descending, and keep `n`. */
  method TopSellingProducts(ts: seq<Transaction>, n: int := 5) returns (result: Dict<string, Sold>)
    ensures result == TopSelling(ts, n)
  {
    var productData := GroupBy(ts, ByProductName, None);
    result := [];
    for j := 0 to |productData|
      invariant |result| == j
      invariant forall k :: 0 <= k < j ==> result[k] == ProductEntry(productData[k])
    {
      var name, data := productData[j].0, productData[j].1;
      result := result + [(name, Sold(data.quantity, data.amount))];
    }
    assert result == ProductRows(productData);
    result := SortDesc(result, SoldQuantity);
    result := Take(result, n);
  }

  /** Every row of the sorted list holds its product's totals, and the
      products are exactly those of the input, each once. */
  lemma ByQuantityFacts(ts: seq<Transaction>, v: string)
    ensures Valid(ByQuantity(ts))
    ensures v in Keys(ByQuantity(ts)) <==> v in Project(ts, ByProductName)
    ensures forall j :: 0 <= j < |ByQuantity(ts)| ==> ByQuantity(ts)[j].1 == SoldOf(ts, ByQuantity(ts)[j].0)
  {
    var rows := ProductTotals(ts);
    var sorted := ByQuantity(ts);
    ProductTotalsFacts(ts);
    PermutationValid(rows, sorted);
    PermutationKeys(rows, sorted, v);
    KeysOfHas(ts, ByProductName, v);
    forall j | 0 <= j < |sorted|
      ensures sorted[j].1 == SoldOf(ts, sorted[j].0)
    {
      PermutationFrom(rows, sorted, j);
    }
  }

  /** `result[:n]` keeps `n` rows, or all of them when there are fewer; a
      negative `n` drops that many from the end. */
  lemma TopSellingLength(ts: seq<Transaction>, n: int)
    ensures var m := |KeysOf(ts, ByProductName)|;
      |TopSelling(ts, n)| == if n >= 0 then (if n < m then n else m) else (if m + n > 0 then m + n else 0)
  {
    ProductTotalsFacts(ts);
  }

  /** Each row holds the total quantity and revenue of its product, and no
      product is listed twice. */
  lemma TopSellingTotals(ts: seq<Transaction>, n: int)
    ensures Valid(TopSelling(ts, n))
    ensures forall k :: 0 <= k < |TopSelling(ts, n)| ==>
      TopSelling(ts, n)[k].0 in Project(ts, ByProductName) && TopSelling(ts, n)[k].1 == SoldOf(ts, TopSelling(ts, n)[k].0)
  {
    var sorted := ByQuantity(ts);
    var top := TopSelling(ts, n);
    ByQuantityFacts(ts, "");
    assert top == sorted[..|top|];
    assert Keys(top) == Keys(sorted)[..|top|];
    forall k | 0 <= k < |top|
      ensures top[k].0 in Project(ts, ByProductName) && top[k].1 == SoldOf(ts, top[k].0)
    {
      assert top[k] == sorted[k];
      assert top[k].0 == Keys(sorted)[k];
      ByQuantityFacts(ts, top[k].0);
    }
  }

  /** Highest quantity first. */
  lemma TopSellingSorted(ts: seq<Transaction>, n: int)
    ensures NonIncreasing(TopSelling(ts, n), SoldQuantity)
  {
    SortDescNonIncreasing(ProductTotals(ts), SoldQuantity);
    TakeNonIncreasing(ByQuantity(ts), SoldQuantity, n);
  }

  /** Products with equal quantities keep the order in which they were first seen. */
  lemma TopSellingStable(ts: seq<Transaction>, n: int)
    ensures TiesOrderedBy(TopSelling(ts, n), SoldQuantity, SeenOrder(Project(ts, ByProductName)))
  {
    var rows := ProductTotals(ts);
    var sorted := ByQuantity(ts);
    ProductTotalsFacts(ts);
    FirstSeenIncreasing(rows, Project(ts, ByProductName));
    SortDescStable(rows, SoldQuantity, SeenOrder(Project(ts, ByProductName)));
    TakeTiesOrdered(sorted, SoldQuantity, SeenOrder(Project(ts, ByProductName)), n);
  }

  /** A product of the input left out of the result sold no more than any
      product listed. */
  lemma TopSellingIsTop(ts: seq<Transaction>, n: int, v: string)
    requires v in Project(ts, ByProductName) && v !in Keys(TopSelling(ts, n))
    ensures forall k :: 0 <= k < |TopSelling(ts, n)| ==> SoldOf(ts, v).quantity <= TopSelling(ts, n)[k].1.quantity
  {
    var sorted := ByQuantity(ts);
    var top := TopSelling(ts, n);
    ByQuantityFacts(ts, v);
    SortDescNonIncreasing(ProductTotals(ts), SoldQuantity);
    var p := FirstIndex(Keys(sorted), v);
    assert sorted[p].0 == v;
    OutsidePrefix(sorted, SoldQuantity, |top|, p);
  }


  /** The rows whose quantity is below `threshold`, in order. */
  function Below(rows: Dict<string, Sold>, threshold: int): Dict<string, Sold>
  {
    if rows == [] then []
    else
      var last := rows[|rows| - 1];
      Below(rows[..|rows| - 1], threshold) + if last.1.quantity < threshold then [last] else []
  }

  /** `rows'` is `rows` followed by `e`. */
  lemma BelowSnoc(rows: Dict<string, Sold>, e: (string, Sold), rows': Dict<string, Sold>, threshold: int)
    requires rows' == rows + [e]
    ensures Below(rows', threshold) == Below(rows, threshold) + if e.1.quantity < threshold then [e] else []
  {
    assert rows'[..|rows|] == rows;
  }

  /** An entry passes the filter exactly when it is below the threshold. */
  lemma {:induction false} BelowHas(rows: Dict<string, Sold>, threshold: int, e: (string, Sold))
    ensures e in Below(rows, threshold) <==> e in rows && e.1.quantity < threshold
  {
    if rows != [] {
      var init := rows[..|rows| - 1];
      BelowHas(init, threshold, e);
      assert rows == init + [rows[|rows| - 1]];
    }
  }

  /** Filtering keeps keys distinct and keeps an increasing order. */
  lemma {:induction false} BelowKeepsOrder(rows: Dict<string, Sold>, threshold: int, tag: ((string, Sold)) -> int)
    requires Valid(rows) && IncreasingBy(rows, tag)
    ensures Valid(Below(rows, threshold)) && IncreasingBy(Below(rows, threshold), tag)
  {
    if rows != [] {
      var init, last := rows[..|rows| - 1], rows[|rows| - 1];
      assert Keys(init) == Keys(rows)[..|rows| - 1];
      BelowKeepsOrder(init, threshold, tag);
      var b := Below(init, threshold);
      forall k | 0 <= k < |b|
        ensures b[k].0 != last.0 && tag(b[k]) < tag(last)
      {
        BelowHas(init, threshold, b[k]);
        var i :| 0 <= i < |init| && init[i] == b[k];
        assert Keys(rows)[i] == b[k].0 && Keys(rows)[|rows| - 1] == last.0;
      }
      assert Keys(Below(rows, threshold)) == Keys(b) + if last.1.quantity < threshold then [last.0] else [];
    }
  }

  /** The products sold fewer than `threshold` times, fewest first. */
  function LowPerforming(ts: seq<Transaction>, threshold: int): Dict<string, Sold>
  {
    SortDesc(Below(ProductTotals(ts), threshold), FewestFirst)
  }

  /** `low_performing_products`: accumulate per product, keep the rows below
      the threshold in dictionary order, then sort them by quantity, ascending. */
  method LowPerformingProducts(ts: seq<Transaction>, threshold: int := 10) returns (result: Dict<string, Sold>)
    ensures result == LowPerforming(ts, threshold)
  {
    var productData := GroupBy(ts, ByProductName, None);
    ghost var rows := ProductRows(productData);
    result := [];
    for j := 0 to |productData|
      invariant result == Below(rows[..j], threshold)
    {
      PrefixSnoc(rows, j);
      BelowSnoc(rows[..j], rows[j], rows[..j + 1], threshold);
      var name, data := productData[j].0, productData[j].1;
      if data.quantity < threshold {
        result := result + [(name, Sold(data.quantity, data.amount))];
      }
    }
    assert rows[..|productData|] == rows;
    result := SortDesc(result, FewestFirst);
  }

  /** A row of the filtered, unsorted list holds its product's totals. */
  lemma BelowRow(ts: seq<Transaction>, threshold: int, e: (string, Sold))
    requires e in Below(ProductTotals(ts), threshold)
    ensures e.1 == SoldOf(ts, e.0) && e.1.quantity < threshold && e.0 in Project(ts, ByProductName)
  {
    var rows := ProductTotals(ts);
    ProductTotalsFacts(ts);
    BelowHas(rows, threshold, e);
    var i :| 0 <= i < |rows| && rows[i] == e;
    assert Keys(rows)[i] == e.0;
    KeysOfHas(ts, ByProductName, e.0);
  }

  /** Each row holds its product's totals, below the threshold, and no
      product is listed twice. */
  lemma LowPerformingTotals(ts: seq<Transaction>, threshold: int)
    ensures Valid(LowPerforming(ts, threshold))
    ensures forall k :: 0 <= k < |LowPerforming(ts, threshold)| ==>
      var e := LowPerforming(ts, threshold)[k];
      e.1 == SoldOf(ts, e.0) && e.1.quantity < threshold && e.0 in Project(ts, ByProductName)
  {
    var rows := ProductTotals(ts);
    var below := Below(rows, threshold);
    var low := LowPerforming(ts, threshold);
    ProductTotalsFacts(ts);
    FirstSeenIncreasing(rows, Project(ts, ByProductName));
    BelowKeepsOrder(rows, threshold, SeenOrder(Project(ts, ByProductName)));
    PermutationValid(below, low);
    forall k | 0 <= k < |low|
      ensures low[k].1 == SoldOf(ts, low[k].0) && low[k].1.quantity < threshold && low[k].0 in Project(ts, ByProductName)
    {
      PermutationFrom(below, low, k);
      BelowRow(ts, threshold, low[k]);
    }
  }

  /** Every product of the input that sold fewer than `threshold` is listed. */
  lemma LowPerformingComplete(ts: seq<Transaction>, threshold: int, v: string)
    requires v in Project(ts, ByProductName) && SoldOf(ts, v).quantity < threshold
    ensures v in Keys(LowPerforming(ts, threshold))
  {
    var rows := ProductTotals(ts);
    var below := Below(rows, threshold);
    var low := LowPerforming(ts, threshold);
    ProductTotalsFacts(ts);
    KeysOfHas(ts, ByProductName, v);
    var i := FirstIndex(Keys(rows), v);
    assert rows[i] == (v, SoldOf(ts, v));
    BelowHas(rows, threshold, rows[i]);
    assert rows[i] in multiset(below);
    assert rows[i] in low;
    var k :| 0 <= k < |low| && low[k] == rows[i];
    assert Keys(low)[k] == v;
  }

  /** Fewest sold first. */
  lemma LowPerformingSorted(ts: seq<Transaction>, threshold: int)
    ensures var low := LowPerforming(ts, threshold);
      forall i, j :: 0 <= i < j < |low| ==> low[i].1.quantity <= low[j].1.quantity
  {
    var low := LowPerforming(ts, threshold);
    SortDescNonIncreasing(Below(ProductTotals(ts), threshold), FewestFirst);
    forall i, j | 0 <= i < j < |low|
      ensures low[i].1.quantity <= low[j].1.quantity
    {
      assert FewestFirst(low[i]) >= FewestFirst(low[j]);
    }
  }

  /** Products with equal quantities keep the order in which they were first seen. */
  lemma LowPerformingStable(ts: seq<Transaction>, threshold: int)
    ensures TiesOrderedBy(LowPerforming(ts, threshold), FewestFirst, SeenOrder(Project(ts, ByProductName)))
  {
    var rows := ProductTotals(ts);
    var tag := SeenOrder(Project(ts, ByProductName));
    ProductTotalsFacts(ts);
    FirstSeenIncreasing(rows, Project(ts, ByProductName));
    BelowKeepsOrder(rows, threshold, tag);
    SortDescStable(Below(rows, threshold), FewestFirst, tag);
  }

  /* ---------------------------------------------------------------- */
  /* customer_analysis                                                 */

  /** One customer's figures. The average is the exact quotient. */
  datatype CustomerStats = CustomerStats(totalSpent: int, purchaseCount: nat, avgOrderValue: real, productsBought: seq<string>)

  /** The average order value `total / count`. */
  function Average(total: int, count: nat): (avg: real)
    requires count != 0
    ensures avg * count as real == total as real
  {
    total as real / count as real
  }

  function CustomerEntry(e: (string, Stats)): (string, CustomerStats)
    requires e.1.count != 0
  {
    (e.0, CustomerStats(e.1.amount, e.1.count, Average(e.1.amount, e.1.count), e.1.seen))
  }

  /** The entries once their averages are filled in, in dictionary order. */
  function CustomerRows(groups: Dict<string, Stats>): Dict<string, CustomerStats>
    requires forall j :: 0 <= j < |groups| ==> groups[j].1.count != 0
  {
    seq(|groups|, j requires 0 <= j < |groups| => CustomerEntry(groups[j]))
  }

  function Spent(e: (string, CustomerStats)): int { e.1.totalSpent }
  function Purchases(e: (string, CustomerStats)): int { e.1.purchaseCount }

  /** The report: per customer the amount spent, the number of purchases,
      the average order value and the distinct products bought, highest
      spender first. */
  function Customers(ts: seq<Transaction>): Dict<string, CustomerStats>
  {
    GroupsOfCountPositive(ts, ByCustomer, Some(ByProductName));
    SortDesc(CustomerRows(GroupsOf(ts, ByCustomer, Some(ByProductName))), Spent)
  }

  /** `customer_analysis`: accumulate per customer, collecting the products,
      fill in each average, then sort by amount spent, descending. */
  method CustomerAnalysis(ts: seq<Transaction>) returns (result: Dict<string, CustomerStats>)
    ensures result == Customers(ts)
  {
    var customerData := GroupBy(ts, ByCustomer, Some(ByProductName));
    GroupsOfCountPositive(ts, ByCustomer, Some(ByProductName));
    var withAverage := FillAverages(customerData);
    result := SortDesc(withAverage, Spent);
  }

  /** The second loop of `customer_analysis`: each entry gets the average of
      its purchases, in dictionary order. */
  method FillAverages(customerData: Dict<string, Stats>) returns (withAverage: Dict<string, CustomerStats>)
    requires forall j :: 0 <= j < |customerData| ==> customerData[j].1.count != 0
    ensures withAverage == CustomerRows(customerData)
  {
    withAverage := [];
    for j := 0 to |customerData|
      invariant |withAverage| == j
      invariant forall k :: 0 <= k < j ==> withAverage[k] == CustomerEntry(customerData[k])
    {
      var cid, data := customerData[j].0, customerData[j].1;
      var average := data.amount as real / data.count as real;
      withAverage := withAverage + [(cid, CustomerStats(data.amount, data.count, average, data.seen))];
    }
  }

  /** Each customer of the input appears exactly once. */
  lemma CustomersKeys(ts: seq<Transaction>, v: string)
    ensures Valid(Customers(ts))
    ensures v in Keys(Customers(ts)) <==> v in Project(ts, ByCustomer)
  {
    var groups := GroupsOf(ts, ByCustomer, Some(ByProductName));
    GroupsOfCountPositive(ts, ByCustomer, Some(ByProductName));
    var rows := CustomerRows(groups);
    GroupsOfTotals(ts, ByCustomer, Some(ByProductName));
    assert Keys(rows) == Keys(groups);
    PermutationValid(rows, Customers(ts));
    PermutationKeys(rows, Customers(ts), v);
    KeysOfHas(ts, ByCustomer, v);
  }

  /** Each entry holds the figures of its customer's records: the amount
      spent, the number of purchases (at least one), their average, and the
      products bought, each once, first bought first. */
  lemma CustomersStats(ts: seq<Transaction>, j: nat)
    requires j < |Customers(ts)|
    ensures var e := Customers(ts)[j];
      var sel := Select(ts, ByCustomer, e.0);
      && e.1.totalSpent == SumOf(sel, Amount)
      && e.1.purchaseCount == |sel| >= 1
      && e.1.avgOrderValue == Average(e.1.totalSpent, e.1.purchaseCount)
      && e.1.productsBought == Dedup(Project(sel, ByProductName))
  {
    var groups := GroupsOf(ts, ByCustomer, Some(ByProductName));
    GroupsOfCountPositive(ts, ByCustomer, Some(ByProductName));
    var rows := CustomerRows(groups);
    var e := Customers(ts)[j];
    PermutationFrom(rows, Customers(ts), j);
    var i :| 0 <= i < |rows| && rows[i] == e;
    assert e == CustomerEntry(groups[i]);
    assert groups[i].1 == StatsOf(ts, ByCustomer, Some(ByProductName), e.0);
  }

  /** A product is listed for a customer exactly when one of the customer's
      records names it; no product is listed twice, and products bought
      earlier come first. */
  lemma CustomerProducts(ts: seq<Transaction>, j: nat, p: string)
    requires j < |Customers(ts)|
    ensures var e := Customers(ts)[j];
      var names := Project(Select(ts, ByCustomer, e.0), ByProductName);
      && (p in e.1.productsBought <==> p in names)
      && Distinct(e.1.productsBought)
      && forall a, b :: 0 <= a < b < |e.1.productsBought| ==>
           FirstIndex(names, e.1.productsBought[a]) < FirstIndex(names, e.1.productsBought[b])
  {
    var e := Customers(ts)[j];
    var names := Project(Select(ts, ByCustomer, e.0), ByProductName);
    CustomersStats(ts, j);
    DedupHas(names, p);
    DedupFirstSeen(names);
  }

  /** Highest spender first. */
  lemma CustomersSorted(ts: seq<Transaction>)
    ensures NonIncreasing(Customers(ts), Spent)
  {
    GroupsOfCountPositive(ts, ByCustomer, Some(ByProductName));
    SortDescNonIncreasing(CustomerRows(GroupsOf(ts, ByCustomer, Some(ByProductName))), Spent);
  }

  /** Customers who spent the same keep the order in which they were first seen. */
  lemma CustomersStable(ts: seq<Transaction>)
    ensures TiesOrderedBy(Customers(ts), Spent, SeenOrder(Project(ts, ByCustomer)))
  {
    var groups := GroupsOf(ts, ByCustomer, Some(ByProductName));
    GroupsOfCountPositive(ts, ByCustomer, Some(ByProductName));
    var rows := CustomerRows(groups);
    assert Keys(rows) == Keys(groups);
    FirstSeenIncreasing(rows, Project(ts, ByCustomer));
    SortDescStable(rows, Spent, SeenOrder(Project(ts, ByCustomer)));
  }

  /** The amounts spent add up to the total revenue and the purchase counts
      to the number of records. */
  lemma CustomersSums(ts: seq<Transaction>)
    ensures SumOf(Customers(ts), Spent) == SumOf(ts, Amount)
    ensures SumOf(Customers(ts), Purchases) == |ts|
  {
    var groups := GroupsOf(ts, ByCustomer, Some(ByProductName));
    GroupsOfCountPositive(ts, ByCustomer, Some(ByProductName));
    var rows := CustomerRows(groups);
    GroupsOfTotals(ts, ByCustomer, Some(ByProductName));
    assert SumOf(rows, Spent) == SumOf(groups, GroupAmount) by {
      SumOfPointwise(rows, Spent, groups, GroupAmount);
    }
    assert SumOf(rows, Purchases) == SumOf(groups, GroupCount) by {
      SumOfPointwise(rows, Purchases, groups, GroupCount);
    }
    SumOfPermutation(rows, Customers(ts), Spent);
    SumOfPermutation(rows, Customers(ts), Purchases);
  }

  /* ---------------------------------------------------------------- */
  /* daily_sales_trend                                                 */

  /** One day's figures. */
  datatype DayStats = DayStats(revenue: int, transactionCount: nat, uniqueCustomers: nat)

  function DayEntry(e: (string, Stats)): (string, DayStats)
  {
    (e.0, DayStats(e.1.amount, e.1.count, |e.1.seen|))
  }

  function DayRows(groups: Dict<string, Stats>): Dict<string, DayStats>
  {
    seq(|groups|, j requires 0 <= j < |groups| => DayEntry(groups[j]))
  }

  function Revenue(e: (string, DayStats)): int { e.1.revenue }
  function DayCount(e: (string, DayStats)): int { e.1.transactionCount }

  /** The days accumulated per date (collecting the customers), in date order. */
  function DaysByDate(ts: seq<Transaction>): Dict<string, Stats>
  {
    SortByKey(GroupsOf(ts, ByDate, Some(ByCustomer)))
  }

  /** The report: per date the revenue, the number of records and the number
      of distinct customers, earliest date first. */
  function DailyTrend(ts: seq<Transaction>): Dict<string, DayStats>
  {
    DayRows(DaysByDate(ts))
  }

  /** `daily_sales_trend`: accumulate per date, then build a new dictionary
      by walking the dates in sorted order. */
  method DailySalesTrend(ts: seq<Transaction>) returns (result: Dict<string, DayStats>)
    ensures result == DailyTrend(ts)
  {
    var dailyData := GroupBy(ts, ByDate, Some(ByCustomer));
    var byDate := SortByKey(dailyData);
    result := DayRowsOf(byDate);
  }

  /** The second loop of `daily_sales_trend`: one report entry per date, in
      the given order. */
  method DayRowsOf(byDate: Dict<string, Stats>) returns (result: Dict<string, DayStats>)
    ensures result == DayRows(byDate)
  {
    result := [];
    for j := 0 to |byDate|
      invariant |result| == j
      invariant forall k :: 0 <= k < j ==> result[k] == DayEntry(byDate[k])
    {
      var date, data := byDate[j].0, byDate[j].1;
      result := result + [(date, DayStats(data.amount, data.count, |data.seen|))];
    }
  }

  /** Dates strictly ascend (so none is listed twice). */
  lemma DailyTrendAscending(ts: seq<Transaction>)
    ensures StrictlyAscending(DailyTrend(ts))
  {
    var groups := GroupsOf(ts, ByDate, Some(ByCustomer));
    GroupsOfTotals(ts, ByDate, Some(ByCustomer));
    SortByKeyAscending(groups);
    DayRowsAscending(DaysByDate(ts));
  }

  lemma DayRowsAscending(days: Dict<string, Stats>)
    requires StrictlyAscending(days)
    ensures StrictlyAscending(DayRows(days))
  {
    var rows := DayRows(days);
    assert forall k :: 0 <= k < |rows| ==> rows[k].0 == days[k].0;
  }

  /** Each date of the input appears. */
  lemma DailyTrendKeys(ts: seq<Transaction>, v: string)
    ensures v in Keys(DailyTrend(ts)) <==> v in Project(ts, ByDate)
  {
    var groups := GroupsOf(ts, ByDate, Some(ByCustomer));
    var days := DaysByDate(ts);
    assert Keys(DailyTrend(ts)) == Keys(days);
    PermutationKeys(groups, days, v);
    KeysOfHas(ts, ByDate, v);
  }

  /** Each entry holds the revenue and record count of its date and the
      number of distinct customers, which is at least one and at most the
      record count. */
  lemma DailyTrendStats(ts: seq<Transaction>, j: nat)
    requires j < |DailyTrend(ts)|
    ensures var e := DailyTrend(ts)[j];
      var sel := Select(ts, ByDate, e.0);
      && e.1.revenue == SumOf(sel, Amount)
      && e.1.transactionCount == |sel|
      && e.1.uniqueCustomers == |Dedup(Project(sel, ByCustomer))|
      && 1 <= e.1.uniqueCustomers <= e.1.transactionCount
  {
    var groups := GroupsOf(ts, ByDate, Some(ByCustomer));
    var days := DaysByDate(ts);
    var e := DailyTrend(ts)[j];
    PermutationFrom(groups, days, j);
    var i :| 0 <= i < |groups| && groups[i] == days[j];
    assert e == DayEntry(groups[i]);
    var sel := Select(ts, ByDate, e.0);
    assert groups[i].1 == StatsOf(ts, ByDate, Some(ByCustomer), e.0);
    GroupsOfCountPositive(ts, ByDate, Some(ByCustomer));
    DedupHas(Project(sel, ByCustomer), KeyOf(sel[0], ByCustomer));
  }

  /** The daily revenues add up to the total revenue and the daily counts to
      the number of records. */
  lemma DailyTrendSums(ts: seq<Transaction>)
    ensures SumOf(DailyTrend(ts), Revenue) == SumOf(ts, Amount)
    ensures SumOf(DailyTrend(ts), DayCount) == |ts|
  {
    var trend := DailyTrend(ts);
    var days := DaysByDate(ts);
    assert SumOf(days, GroupAmount) == SumOf(ts, Amount) && SumOf(days, GroupCount) == |ts| by {
      var groups := GroupsOf(ts, ByDate, Some(ByCustomer));
      GroupsOfTotals(ts, ByDate, Some(ByCustomer));
      SumOfPermutation(groups, days, GroupAmount);
      SumOfPermutation(groups, days, GroupCount);
    }
    SumOfPointwise(trend, Revenue, days, GroupAmount);
    SumOfPointwise(trend, DayCount, days, GroupCount);
  }

  /** Where a date of the input sits in the report, and its revenue there. */
  lemma DayOf(ts: seq<Transaction>, v: string) returns (k: nat)
    requires v in Project(ts, ByDate)
    ensures k < |DailyTrend(ts)| && DailyTrend(ts)[k].0 == v
    ensures DailyTrend(ts)[k].1.revenue == SumOf(Select(ts, ByDate, v), Amount)
  {
    DailyTrendKeys(ts, v);
    k := FirstIndex(Keys(DailyTrend(ts)), v);
    DailyTrendStats(ts, k);
  }

  /* ---------------------------------------------------------------- */
  /* find_peak_sales_day                                               */

  /** The scan of `find_peak_sales_day`: starting from `("", 0, 0)`, a day
      replaces the best so far only when its revenue is strictly larger. */
  function Peak(days: Dict<string, DayStats>): (string, int, nat)
  {
    if days == [] then ("", 0, 0)
    else
      var best := Peak(days[..|days| - 1]);
      var last := days[|days| - 1];
      if last.1.revenue > best.1 then (last.0, last.1.revenue, last.1.transactionCount) else best
  }

  lemma PeakSnoc(days: Dict<string, DayStats>, e: (string, DayStats), days': Dict<string, DayStats>)
    requires days' == days + [e]
    ensures Peak(days') == if e.1.revenue > Peak(days).1 then (e.0, e.1.revenue, e.1.transactionCount) else Peak(days)
  {
    assert days'[..|days|] == days;
  }

  /** `find_peak_sales_day`: the date with the highest revenue. */
  method FindPeakSalesDay(ts: seq<Transaction>) returns (peakDate: string, maxRevenue: int, count: nat)
    ensures (peakDate, maxRevenue, count) == Peak(DailyTrend(ts))
  {
    var dailyData := DailySalesTrend(ts);
    peakDate, maxRevenue, count := "", 0, 0;
    for j := 0 to |dailyData|
      invariant (peakDate, maxRevenue, count) == Peak(dailyData[..j])
    {
      PrefixSnoc(dailyData, j);
      PeakSnoc(dailyData[..j], dailyData[j], dailyData[..j + 1]);
      if dailyData[j].1.revenue > maxRevenue {
        maxRevenue := dailyData[j].1.revenue;
        peakDate := dailyData[j].0;
        count := dailyData[j].1.transactionCount;
      }
    }
    assert dailyData[..|dailyData|] == dailyData;
  }

  /** The scan finds the maximum revenue, never below zero. A positive
      maximum comes from the first day that reaches it; otherwise the
      starting value is returned. */
  lemma {:induction false} PeakIsMax(days: Dict<string, DayStats>)
    ensures var best := Peak(days);
      && best.1 >= 0
      && (forall k :: 0 <= k < |days| ==> days[k].1.revenue <= best.1)
      && (best.1 == 0 ==> best == ("", 0, 0))
      && (best.1 > 0 ==> exists j :: 0 <= j < |days| && days[j] == (best.0, DayStats(best.1, best.2, days[j].1.uniqueCustomers))
                                  && forall k :: 0 <= k < j ==> days[k].1.revenue < best.1)
  {
    if days != [] {
      var init, last := days[..|days| - 1], days[|days| - 1];
      PeakIsMax(init);
      assert days == init + [last];
      var best := Peak(init);
      if last.1.revenue > best.1 {
        var j := |days| - 1;
        assert days[j] == (Peak(days).0, DayStats(Peak(days).1, Peak(days).2, days[j].1.uniqueCustomers));
      } else if best.1 > 0 {
        var j :| 0 <= j < |init| && init[j] == (best.0, DayStats(best.1, best.2, init[j].1.uniqueCustomers))
                 && forall k :: 0 <= k < j ==> init[k].1.revenue < best.1;
        assert days[j] == init[j];
      }
    }
  }

  /** The peak day of a record list: its revenue is the largest daily revenue
      (zero when no day has positive revenue, with an empty date and no
      count); a positive peak is a date of the input with that revenue and
      its record count, and every earlier date has strictly less. */
  lemma PeakDay(ts: seq<Transaction>)
    ensures var best := Peak(DailyTrend(ts));
      && best.1 >= 0
      && (forall v :: v in Project(ts, ByDate) ==> SumOf(Select(ts, ByDate, v), Amount) <= best.1)
      && (best.1 == 0 ==> best == ("", 0, 0))
      && (best.1 > 0 ==>
           && best.0 in Project(ts, ByDate)
           && best.1 == SumOf(Select(ts, ByDate, best.0), Amount)
           && best.2 == |Select(ts, ByDate, best.0)|
           && forall v :: v in Project(ts, ByDate) && LexLess(v, best.0) ==> SumOf(Select(ts, ByDate, v), Amount) < best.1)
  {
    var days := DailyTrend(ts);
    var best := Peak(days);
    PeakIsMax(days);
    forall v | v in Project(ts, ByDate)
      ensures SumOf(Select(ts, ByDate, v), Amount) <= best.1
    {
      var k := DayOf(ts, v);
    }
    if best.1 > 0 {
      var j :| 0 <= j < |days| && days[j] == (best.0, DayStats(best.1, best.2, days[j].1.uniqueCustomers))
               && forall k :: 0 <= k < j ==> days[k].1.revenue < best.1;
      DailyTrendStats(ts, j);
      DailyTrendKeys(ts, best.0);
      assert Keys(days)[j] == best.0;
      DailyTrendAscending(ts);
      forall v | v in Project(ts, ByDate) && LexLess(v, best.0)
        ensures SumOf(Select(ts, ByDate, v), Amount) < best.1
      {
        var k := DayOf(ts, v);
        AscendingIndex(days, k, j);
      }
    }
  }
}
