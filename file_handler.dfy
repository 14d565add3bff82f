/** Reading pipe-delimited sales lines into transaction records, then
    validating the records and applying the optional region and amount
    filters while counting why each dropped record was dropped. */
module FileHandler {
  import opened Wrappers
  import opened Seqs
  import opened Text
  import opened Records

  /** The record one line yields: exactly eight `|`-separated fields, the
      commas removed from the product name, and quantity and price (commas
      removed) converted to numbers; nothing when the width is wrong or a
      number does not convert. */
  function ParseLine(line: string): (r: Option<Transaction>)
    ensures CountChar(line, '|') != 7 ==> r.None?
    ensures r.Some? ==> ',' !in r.value.productName
    ensures r.Some? <==>
      var parts := Split(line, '|');
      |parts| == 8 && ParseInt(RemoveAll(parts[4], ',')).Some? && ParsePrice(RemoveAll(parts[5], ',')).Some?
  {
    var parts := Split(line, '|');
    if |parts| != 8 then None
    else
      var quantity := ParseInt(RemoveAll(parts[4], ','));
      var price := ParsePrice(RemoveAll(parts[5], ','));
      if quantity.None? || price.None? then None
      else Some(Transaction(parts[0], parts[1], parts[2], RemoveAll(parts[3], ','),
                            quantity.value, price.value, parts[6], parts[7]))
  }

  /** The records of all lines that parse, in line order. */
  function ParseAll(lines: seq<string>): seq<Transaction>
  {
    FilterMap(lines, ParseLine)
  }

  /** `parse_transactions`: the loop that splits each line, skips it when the
      width is wrong or a number does not convert, and appends its record
      otherwise. */
  method ParseTransactions(rawLines: seq<string>) returns (transactions: seq<Transaction>)
    ensures transactions == ParseAll(rawLines)
  {
    transactions := [];
    for i := 0 to |rawLines|
      invariant transactions == ParseAll(rawLines[..i])
    {
      var line := rawLines[i];
      PrefixSnoc(rawLines, i);
      FilterMapSnoc(rawLines[..i], line, rawLines[..i + 1], ParseLine);
      var parts := Split(line, '|');
      if |parts| != 8 {
        assert ParseLine(line).None?;
        continue;
      }
      var productName := RemoveAll(parts[3], ',');
      var quantity := ParseInt(RemoveAll(parts[4], ','));
      if quantity.None? {
        assert ParseLine(line).None?;
        continue;
      }
      var price := ParsePrice(RemoveAll(parts[5], ','));
      if price.None? {
        assert ParseLine(line).None?;
        continue;
      }
      var transaction := Transaction(parts[0], parts[1], parts[2], productName,
                                     quantity.value, price.value, parts[6], parts[7]);
      assert ParseLine(line) == Some(transaction);
      transactions := transactions + [transaction];
    }
    assert rawLines[..|rawLines|] == rawLines;
  }

  /** No parsed product name holds a comma. */
  lemma ParseAllNoCommas(lines: seq<string>)
    ensures forall t :: t in ParseAll(lines) ==> ',' !in t.productName
  {
    forall t | t in ParseAll(lines)
      ensures ',' !in t.productName
    {
      var k :| 0 <= k < |ParseAll(lines)| && ParseAll(lines)[k] == t;
      FilterMapSound(lines, ParseLine, k);
    }
  }

  /** The line a record is written as, with the price in two decimals. */
  function FormatLine(t: Transaction): string
  {
    Join([t.transactionId, t.date, t.productId, t.productName,
          IntToString(t.quantity), PriceToString(t.unitPrice), t.customerId, t.region], '|')
  }

  /** The string fields a line can carry back unchanged. */
  predicate Writable(t: Transaction)
  {
    && '|' !in t.transactionId && '|' !in t.date && '|' !in t.productId
    && '|' !in t.productName && '|' !in t.customerId && '|' !in t.region
    && ',' !in t.productName
  }

  /** Parsing the line a record is written as gives the record back. */
  lemma ParseFormatLine(t: Transaction)
    requires Writable(t)
    ensures ParseLine(FormatLine(t)) == Some(t)
  {
    var q, p := IntToString(t.quantity), PriceToString(t.unitPrice);
    var parts := [t.transactionId, t.date, t.productId, t.productName, q, p, t.customerId, t.region];
    IntToStringHasNo(t.quantity, '|');
    IntToStringHasNo(t.quantity, ',');
    PriceToStringHasNo(t.unitPrice, '|');
    PriceToStringHasNo(t.unitPrice, ',');
    SplitJoin(parts, '|');
    ParseIntToString(t.quantity);
    ParsePriceToString(t.unitPrice);
    assert RemoveAll(q, ',') == q && RemoveAll(p, ',') == p;
  }

  /** `s.startswith(c)` for a one-character prefix. */
  predicate StartsWith(s: string, c: char)
  {
    |s| > 0 && s[0] == c
  }

  /** The validation rules: positive quantity and price, and the `T`, `P`
      and `C` prefixes of the transaction, product and customer ids. */
  predicate IsValid(t: Transaction)
  {
    && t.quantity > 0
    && t.unitPrice > 0
    && StartsWith(t.transactionId, 'T')
    && StartsWith(t.productId, 'P')
    && StartsWith(t.customerId, 'C')
  }

  /** The optional filters. A filter takes part only when its value is
      truthy: a region other than `""`, a bound other than 0. Bounds are in
      hundredths, like amounts. */
  datatype Filters = Filters(region: Option<string>, minAmount: Option<int>, maxAmount: Option<int>)

  predicate RegionActive(f: Filters)
  {
    f.region.Some? && f.region.value != ""
  }

  predicate MinActive(f: Filters)
  {
    f.minAmount.Some? && f.minAmount.value != 0
  }

  predicate MaxActive(f: Filters)
  {
    f.maxAmount.Some? && f.maxAmount.value != 0
  }

  /** Why a record is dropped, or that it is kept; the checks run in this order. */
  datatype Outcome = Invalid | FilteredByRegion | FilteredByAmount | Kept

  function Classify(t: Transaction, f: Filters): Outcome
  {
    if !IsValid(t) then Invalid
    else if RegionActive(f) && t.region != f.region.value then FilteredByRegion
    else if MinActive(f) && Amount(t) < f.minAmount.value then FilteredByAmount
    else if MaxActive(f) && Amount(t) > f.maxAmount.value then FilteredByAmount
    else Kept
  }

  /** How many records end with outcome `o`. */
  function CountOutcome(ts: seq<Transaction>, f: Filters, o: Outcome): nat
  {
    if ts == [] then 0
    else CountOutcome(ts[..|ts| - 1], f, o) + if Classify(ts[|ts| - 1], f) == o then 1 else 0
  }

  /** The kept records, in input order. */
  function KeptOf(ts: seq<Transaction>, f: Filters): seq<Transaction>
  {
    if ts == [] then []
    else KeptOf(ts[..|ts| - 1], f) + if Classify(ts[|ts| - 1], f) == Kept then [ts[|ts| - 1]] else []
  }

  /** The summary dictionary. */
  datatype Summary = Summary(totalInput: nat, invalid: nat, filteredByRegion: nat, filteredByAmount: nat, finalCount: nat)

  /** What `validate_and_filter` returns. */
  datatype Validated = Validated(valid: seq<Transaction>, invalidCount: nat, summary: Summary)

  /** The amount-range display takes `min` of the amounts, which raises on
      an empty list before any record is looked at. */
  datatype FilterError = EmptyAmounts

  lemma FilterStep(ts: seq<Transaction>, i: nat, f: Filters)
    requires i < |ts|
    ensures var o := Classify(ts[i], f);
      && KeptOf(ts[..i + 1], f) == KeptOf(ts[..i], f) + (if o == Kept then [ts[i]] else [])
      && CountOutcome(ts[..i + 1], f, Invalid) == CountOutcome(ts[..i], f, Invalid) + (if o == Invalid then 1 else 0)
      && CountOutcome(ts[..i + 1], f, FilteredByRegion) == CountOutcome(ts[..i], f, FilteredByRegion) + (if o == FilteredByRegion then 1 else 0)
      && CountOutcome(ts[..i + 1], f, FilteredByAmount) == CountOutcome(ts[..i], f, FilteredByAmount) + (if o == FilteredByAmount then 1 else 0)
  {
    assert ts[..i + 1][..i] == ts[..i];
  }

  /** `validate_and_filter`: one pass that counts each invalid record, counts
      each record a filter drops under that filter, and appends the rest. */
  method ValidateAndFilter(ts: seq<Transaction>, f: Filters) returns (r: Result<Validated, FilterError>)
    ensures r.Err? <==> ts == []
    ensures r.Ok? ==>
      && r.value.valid == KeptOf(ts, f)
      && r.value.invalidCount == CountOutcome(ts, f, Invalid)
      && r.value.summary == Summary(|ts|, CountOutcome(ts, f, Invalid), CountOutcome(ts, f, FilteredByRegion),
                                     CountOutcome(ts, f, FilteredByAmount), |KeptOf(ts, f)|)
  {
    if ts == [] {
      return Err(EmptyAmounts);
    }
    var valid: seq<Transaction> := [];
    var invalidCount := 0;
    var summary := Summary(|ts|, 0, 0, 0, 0);
    for i := 0 to |ts|
      invariant valid == KeptOf(ts[..i], f)
      invariant invalidCount == CountOutcome(ts[..i], f, Invalid)
      invariant summary == Summary(|ts|, 0, CountOutcome(ts[..i], f, FilteredByRegion), CountOutcome(ts[..i], f, FilteredByAmount), 0)
    {
      var t := ts[i];
      FilterStep(ts, i, f);
      if t.quantity <= 0 || t.unitPrice <= 0 || !StartsWith(t.transactionId, 'T')
         || !StartsWith(t.productId, 'P') || !StartsWith(t.customerId, 'C') {
        invalidCount := invalidCount + 1;
        continue;
      }
      var amount := t.quantity * t.unitPrice;
      if f.region.Some? && f.region.value != "" && t.region != f.region.value {
        summary := summary.(filteredByRegion := summary.filteredByRegion + 1);
        continue;
      }
      if f.minAmount.Some? && f.minAmount.value != 0 && amount < f.minAmount.value {
        summary := summary.(filteredByAmount := summary.filteredByAmount + 1);
        continue;
      }
      if f.maxAmount.Some? && f.maxAmount.value != 0 && amount > f.maxAmount.value {
        summary := summary.(filteredByAmount := summary.filteredByAmount + 1);
        continue;
      }
      valid := valid + [t];
    }
    assert ts[..|ts|] == ts;
    summary := summary.(invalid := invalidCount, finalCount := |valid|);
    return Ok(Validated(valid, invalidCount, summary));
  }

  /** Every input record is counted exactly once: as invalid, as dropped by
      one of the filters, or as kept. */
  lemma {:induction false} CountsConserved(ts: seq<Transaction>, f: Filters)
    ensures |ts| == CountOutcome(ts, f, Invalid) + CountOutcome(ts, f, FilteredByRegion)
                   + CountOutcome(ts, f, FilteredByAmount) + |KeptOf(ts, f)|
  {
    if ts != [] {
      CountsConserved(ts[..|ts| - 1], f);
    }
  }

  /** A record is kept exactly when it is in the input, passes validation,
      has the requested region, and its amount lies within the active bounds. */
  lemma {:induction false} KeptExactly(ts: seq<Transaction>, f: Filters, t: Transaction)
    ensures t in KeptOf(ts, f) <==>
      && t in ts
      && IsValid(t)
      && (RegionActive(f) ==> t.region == f.region.value)
      && (MinActive(f) ==> Amount(t) >= f.minAmount.value)
      && (MaxActive(f) ==> Amount(t) <= f.maxAmount.value)
  {
    if ts != [] {
      var init := ts[..|ts| - 1];
      KeptExactly(init, f, t);
      assert ts == init + [ts[|ts| - 1]];
    }
  }

  /** Filtering distributes over concatenation: the kept records keep their
      relative order. */
  lemma {:induction false} KeptConcat(a: seq<Transaction>, b: seq<Transaction>, f: Filters)
    ensures KeptOf(a + b, f) == KeptOf(a, f) + KeptOf(b, f)
  {
    if b == [] {
      assert a + b == a;
    } else {
      var init := b[..|b| - 1];
      KeptConcat(a, init, f);
      assert (a + b)[..|a + b| - 1] == a + init;
    }
  }

  /** Whether a record is invalid does not depend on the filters. */
  lemma {:induction false} InvalidIgnoresFilters(ts: seq<Transaction>, f: Filters, g: Filters)
    ensures CountOutcome(ts, f, Invalid) == CountOutcome(ts, g, Invalid)
  {
    if ts != [] {
      InvalidIgnoresFilters(ts[..|ts| - 1], f, g);
    }
  }

  /** With no active filter every valid record is kept. */
  lemma {:induction false} NoFiltersKeepValid(ts: seq<Transaction>, f: Filters)
    requires !RegionActive(f) && !MinActive(f) && !MaxActive(f)
    ensures |KeptOf(ts, f)| + CountOutcome(ts, f, Invalid) == |ts|
  {
    if ts != [] {
      NoFiltersKeepValid(ts[..|ts| - 1], f);
    }
  }
}
