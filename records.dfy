/** The transaction record every stage passes on, and the views of a list
    of records that the aggregations group by. */
module Records {
  import opened Seqs

  /** One parsed sales line. `unitPrice` is in hundredths of the currency
      unit, so amounts and their sums are exact. */
  datatype Transaction = Transaction(
    transactionId: string,
    date: string,
    productId: string,
    productName: string,
    quantity: int,
    unitPrice: int,
    customerId: string,
    region: string)

  /** The line amount, Quantity × UnitPrice. */
  function Amount(t: Transaction): int
  {
    t.quantity * t.unitPrice
  }

  function Quantity(t: Transaction): int
  {
    t.quantity
  }

  /** The field a dictionary of the analytics is keyed on. */
  datatype Key = ByRegion | ByProductName | ByCustomer | ByDate

  function KeyOf(t: Transaction, key: Key): string
  {
    match key
    case ByRegion => t.region
    case ByProductName => t.productName
    case ByCustomer => t.customerId
    case ByDate => t.date
  }

  /** The key of every record, in input order. */
  function Project(ts: seq<Transaction>, key: Key): (r: seq<string>)
    ensures |r| == |ts|
    ensures forall i :: 0 <= i < |ts| ==> r[i] == KeyOf(ts[i], key)
  {
    if ts == [] then [] else Project(ts[..|ts| - 1], key) + [KeyOf(ts[|ts| - 1], key)]
  }

  /** The records whose key is `v`, in input order. */
  function Select(ts: seq<Transaction>, key: Key, v: string): (r: seq<Transaction>)
    ensures |r| <= |ts|
    ensures forall i :: 0 <= i < |r| ==> KeyOf(r[i], key) == v
  {
    if ts == [] then []
    else
      var last := ts[|ts| - 1];
      Select(ts[..|ts| - 1], key, v) + if KeyOf(last, key) == v then [last] else []
  }

  /** The distinct keys, in the order a dictionary keyed on them would list
      them: first seen first. */
  function KeysOf(ts: seq<Transaction>, key: Key): seq<string>
  {
    Dedup(Project(ts, key))
  }

  lemma ProjectSnoc(ts: seq<Transaction>, t: Transaction, key: Key)
    ensures Project(ts + [t], key) == Project(ts, key) + [KeyOf(t, key)]
  {
    assert (ts + [t])[..|ts|] == ts;
  }

  lemma SelectSnoc(ts: seq<Transaction>, t: Transaction, key: Key, v: string)
    ensures Select(ts + [t], key, v) == Select(ts, key, v) + if KeyOf(t, key) == v then [t] else []
  {
    assert (ts + [t])[..|ts|] == ts;
  }

  /** A key occurs in the input exactly when some record is selected by it. */
  lemma {:induction false} SelectNonEmpty(ts: seq<Transaction>, key: Key, v: string)
    ensures v in Project(ts, key) <==> Select(ts, key, v) != []
  {
    if ts != [] {
      var init := ts[..|ts| - 1];
      SelectNonEmpty(init, key, v);
      assert ts == init + [ts[|ts| - 1]];
      ProjectSnoc(init, ts[|ts| - 1], key);
    }
  }

  /** Some key is seen exactly when there is some record. */
  lemma KeysOfEmpty(ts: seq<Transaction>, key: Key)
    ensures KeysOf(ts, key) == [] <==> ts == []
  {
    if ts != [] {
      DedupHas(Project(ts, key), KeyOf(ts[0], key));
    }
  }

  /** `v` is one of the keys exactly when some record carries it. */
  lemma KeysOfHas(ts: seq<Transaction>, key: Key, v: string)
    ensures v in KeysOf(ts, key) <==> v in Project(ts, key)
  {
    DedupHas(Project(ts, key), v);
  }
}
