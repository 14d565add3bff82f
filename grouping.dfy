/** The keyed accumulator behind every aggregation: one pass over the
    records that creates a zeroed entry the first time a key is seen and
    then adds the record's amount, quantity and count to it, optionally
    collecting the distinct values of a second field ("append if not in
    list"). */
module Grouping {
  import opened Wrappers
  import opened Seqs
  import opened OrderedDict
  import opened Records

  /** The running totals of one dictionary entry. */
  datatype Stats = Stats(amount: int, quantity: int, count: nat, seen: seq<string>)

  /** A fresh entry: every counter at zero, no value collected. */
  const Zero: Stats := Stats(0, 0, 0, [])

  /** What the accumulator holds for key `v` once every record is seen:
      totals over exactly the records with that key, and the distinct
      values of the `tracked` field among them, first seen first. */
  function StatsOf(ts: seq<Transaction>, key: Key, tracked: Option<Key>, v: string): Stats
  {
    var sel := Select(ts, key, v);
    Stats(SumOf(sel, Amount), SumOf(sel, Quantity), |sel|, Seen(sel, tracked))
  }

  /** The distinct values of the tracked field, first seen first. */
  function Seen(sel: seq<Transaction>, tracked: Option<Key>): seq<string>
  {
    match tracked
    case Some(g) => Dedup(Project(sel, g))
    case None => []
  }

  /** "if value not in lst: lst.append(value)" on the tracked field. */
  function Track(seen: seq<string>, t: Transaction, tracked: Option<Key>): seq<string>
  {
    match tracked
    case Some(g) => if KeyOf(t, g) in seen then seen else seen + [KeyOf(t, g)]
    case None => seen
  }

  /** One loop step on the entry of the record's key. */
  function Add(st: Stats, t: Transaction, tracked: Option<Key>): Stats
  {
    Stats(st.amount + Amount(t), st.quantity + t.quantity, st.count + 1, Track(st.seen, t, tracked))
  }

  lemma SeenSnoc(sel: seq<Transaction>, t: Transaction, tracked: Option<Key>)
    ensures Seen(sel + [t], tracked) == Track(Seen(sel, tracked), t, tracked)
  {
    if tracked.Some? {
      ProjectSnoc(sel, t, tracked.value);
      DedupSnoc(Project(sel, tracked.value), KeyOf(t, tracked.value));
    }
  }

  /** Adding a record to the totals of a selection is the totals of the
      selection with the record appended. */
  lemma AddSnoc(sel: seq<Transaction>, t: Transaction, tracked: Option<Key>)
    ensures Add(Stats(SumOf(sel, Amount), SumOf(sel, Quantity), |sel|, Seen(sel, tracked)), t, tracked)
         == Stats(SumOf(sel + [t], Amount), SumOf(sel + [t], Quantity), |sel + [t]|, Seen(sel + [t], tracked))
  {
    SumOfSnoc(sel, t, Amount);
    SumOfSnoc(sel, t, Quantity);
    SeenSnoc(sel, t, tracked);
  }

  lemma StatsOfSnoc(ts: seq<Transaction>, t: Transaction, key: Key, tracked: Option<Key>, v: string)
    ensures StatsOf(ts + [t], key, tracked, v)
         == if KeyOf(t, key) == v then Add(StatsOf(ts, key, tracked, v), t, tracked) else StatsOf(ts, key, tracked, v)
  {
    var sel := Select(ts, key, v);
    SelectSnoc(ts, t, key, v);
    if KeyOf(t, key) == v {
      assert Select(ts + [t], key, v) == sel + [t];
      AddSnoc(sel, t, tracked);
    } else {
      assert Select(ts + [t], key, v) == sel;
    }
  }

  lemma StatsOfAbsent(ts: seq<Transaction>, key: Key, tracked: Option<Key>, v: string)
    requires v !in Project(ts, key)
    ensures StatsOf(ts, key, tracked, v) == Zero
  {
    SelectNonEmpty(ts, key, v);
  }

  function GroupAmount(e: (string, Stats)): int { e.1.amount }
  function GroupQuantity(e: (string, Stats)): int { e.1.quantity }
  function GroupCount(e: (string, Stats)): int { e.1.count }

  /** What the accumulator holds after the records `ts` have been seen. */
  ghost predicate Accumulated(groups: Dict<string, Stats>, ts: seq<Transaction>, key: Key, tracked: Option<Key>)
  {
    && Keys(groups) == KeysOf(ts, key)
    && (forall j :: 0 <= j < |groups| ==> groups[j].1 == StatsOf(ts, key, tracked, groups[j].0))
    && SumOf(groups, GroupAmount) == SumOf(ts, Amount)
    && SumOf(groups, GroupQuantity) == SumOf(ts, Quantity)
    && SumOf(groups, GroupCount) == |ts|
  }

  /** The dictionary after `if k not in d: d[k] = zeros`. */
  function Ensure(groups: Dict<string, Stats>, k: string): (r: Dict<string, Stats>)
    ensures Find(r, k).Some?
  {
    if Find(groups, k).None? then
      assert Keys(groups + [(k, Zero)])[|groups|] == k;
      groups + [(k, Zero)]
    else groups
  }

  /** The dictionary after `d[k][...] += ...` for record `t`. */
  function Step(groups: Dict<string, Stats>, t: Transaction, key: Key, tracked: Option<Key>): Dict<string, Stats>
  {
    var k := KeyOf(t, key);
    var g := Ensure(groups, k);
    var j := Find(g, k).value;
    g[j := (k, Add(g[j].1, t, tracked))]
  }

  lemma AppendZeroKeepsStats(groups: Dict<string, Stats>, ts: seq<Transaction>, key: Key, tracked: Option<Key>, k: string)
    requires Accumulated(groups, ts, key, tracked)
    requires k !in Keys(groups)
    ensures var g := groups + [(k, Zero)];
      forall j :: 0 <= j < |g| ==> g[j].1 == StatsOf(ts, key, tracked, g[j].0)
  {
    DedupHas(Project(ts, key), k);
    StatsOfAbsent(ts, key, tracked, k);
  }

  lemma AppendZeroKeepsSums(groups: Dict<string, Stats>, ts: seq<Transaction>, key: Key, tracked: Option<Key>, k: string)
    requires Accumulated(groups, ts, key, tracked)
    ensures var g := groups + [(k, Zero)];
      && SumOf(g, GroupAmount) == SumOf(ts, Amount)
      && SumOf(g, GroupQuantity) == SumOf(ts, Quantity)
      && SumOf(g, GroupCount) == |ts|
  {
    SumOfSnoc(groups, (k, Zero), GroupAmount);
    SumOfSnoc(groups, (k, Zero), GroupQuantity);
    SumOfSnoc(groups, (k, Zero), GroupCount);
  }

  lemma EnsureKeys(groups: Dict<string, Stats>, ts: seq<Transaction>, key: Key, k: string)
    requires Keys(groups) == KeysOf(ts, key)
    ensures Keys(Ensure(groups, k)) == Dedup(Project(ts, key) + [k])
  {
    DedupSnoc(Project(ts, key), k);
    if Find(groups, k).None? {
      assert Ensure(groups, k) == groups + [(k, Zero)];
      KeysSnoc(groups, (k, Zero));
    } else {
      assert Ensure(groups, k) == groups;
    }
  }

  lemma EnsureKeepsTotals(groups: Dict<string, Stats>, ts: seq<Transaction>, key: Key, tracked: Option<Key>, k: string)
    requires Accumulated(groups, ts, key, tracked)
    ensures var g := Ensure(groups, k);
      && (forall j :: 0 <= j < |g| ==> g[j].1 == StatsOf(ts, key, tracked, g[j].0))
      && SumOf(g, GroupAmount) == SumOf(ts, Amount)
      && SumOf(g, GroupQuantity) == SumOf(ts, Quantity)
      && SumOf(g, GroupCount) == |ts|
  {
    if Find(groups, k).None? {
      AppendZeroKeepsStats(groups, ts, key, tracked, k);
      AppendZeroKeepsSums(groups, ts, key, tracked, k);
    }
  }

  lemma StepKeepsKeys(groups: Dict<string, Stats>, ts: seq<Transaction>, t: Transaction, key: Key, tracked: Option<Key>)
    requires Accumulated(groups, ts, key, tracked)
    ensures Keys(Step(groups, t, key, tracked)) == KeysOf(ts + [t], key)
  {
    var k := KeyOf(t, key);
    EnsureKeys(groups, ts, key, k);
    ProjectSnoc(ts, t, key);
    var g := Ensure(groups, k);
    assert Keys(Step(groups, t, key, tracked)) == Keys(g);
  }

  lemma StepKeepsStats(groups: Dict<string, Stats>, ts: seq<Transaction>, t: Transaction, key: Key, tracked: Option<Key>)
    requires Accumulated(groups, ts, key, tracked)
    ensures var r := Step(groups, t, key, tracked);
      forall j :: 0 <= j < |r| ==> r[j].1 == StatsOf(ts + [t], key, tracked, r[j].0)
  {
    var k := KeyOf(t, key);
    EnsureKeys(groups, ts, key, k);
    EnsureKeepsTotals(groups, ts, key, tracked, k);
    var g := Ensure(groups, k);
    var j := Find(g, k).value;
    var r := Step(groups, t, key, tracked);
    forall j' | 0 <= j' < |r|
      ensures r[j'].1 == StatsOf(ts + [t], key, tracked, r[j'].0)
    {
      StatsOfSnoc(ts, t, key, tracked, r[j'].0);
      if j' != j {
        assert Keys(g)[j'] != Keys(g)[j];
      }
    }
  }

  lemma StepKeepsSums(groups: Dict<string, Stats>, ts: seq<Transaction>, t: Transaction, key: Key, tracked: Option<Key>)
    requires Accumulated(groups, ts, key, tracked)
    ensures var r := Step(groups, t, key, tracked);
      && SumOf(r, GroupAmount) == SumOf(ts + [t], Amount)
      && SumOf(r, GroupQuantity) == SumOf(ts + [t], Quantity)
      && SumOf(r, GroupCount) == |ts + [t]|
  {
    var k := KeyOf(t, key);
    EnsureKeepsTotals(groups, ts, key, tracked, k);
    var g := Ensure(groups, k);
    var j := Find(g, k).value;
    var updated := (k, Add(g[j].1, t, tracked));
    SumOfUpdate(g, j, updated, GroupAmount);
    SumOfUpdate(g, j, updated, GroupQuantity);
    SumOfUpdate(g, j, updated, GroupCount);
    SumOfSnoc(ts, t, Amount);
    SumOfSnoc(ts, t, Quantity);
  }

  /** `ts'` is `ts` followed by `t`. */
  lemma StepKeepsAccumulated(groups: Dict<string, Stats>, ts: seq<Transaction>, t: Transaction, ts': seq<Transaction>, key: Key, tracked: Option<Key>)
    requires Accumulated(groups, ts, key, tracked)
    requires ts' == ts + [t]
    ensures Accumulated(Step(groups, t, key, tracked), ts', key, tracked)
  {
    StepKeepsKeys(groups, ts, t, key, tracked);
    StepKeepsStats(groups, ts, t, key, tracked);
    StepKeepsSums(groups, ts, t, key, tracked);
  }

  /** One more record of the input seen. */
  lemma PrefixStep(groups: Dict<string, Stats>, ts: seq<Transaction>, i: nat, key: Key, tracked: Option<Key>)
    requires i < |ts| && Accumulated(groups, ts[..i], key, tracked)
    ensures Accumulated(Step(groups, ts[i], key, tracked), ts[..i + 1], key, tracked)
  {
    assert ts[..i + 1] == ts[..i] + [ts[i]];
    StepKeepsAccumulated(groups, ts[..i], ts[i], ts[..i + 1], key, tracked);
  }

  /** Once the whole input is seen, the dictionary is valid and accumulates it. */
  lemma AccumulatedAll(groups: Dict<string, Stats>, ts: seq<Transaction>, key: Key, tracked: Option<Key>)
    requires Accumulated(groups, ts[..|ts|], key, tracked) || Accumulated(groups, ts, key, tracked)
    ensures Accumulated(groups, ts, key, tracked) && Valid(groups)
  {
    assert ts[..|ts|] == ts;
  }

  /** The body of the accumulation loop for one record `t`: create the
      zeroed entry of its key when it is new, then add the record to it.
      The method performs these two updates in turn, as the loop does;
      `Step` is the single-expression specification it is proved against,
      and the lemmas about the accumulator reason about `Step`. */
  method AddRecord(groups0: Dict<string, Stats>, t: Transaction, key: Key, tracked: Option<Key>) returns (groups: Dict<string, Stats>)
    ensures groups == Step(groups0, t, key, tracked)
  {
    groups := groups0;
    var k := KeyOf(t, key);
    if Find(groups, k).None? {
      groups := groups + [(k, Zero)];
      assert Keys(groups)[|groups| - 1] == k;
    }
    var j := Find(groups, k).value;
    groups := groups[j := (k, Add(groups[j].1, t, tracked))];
  }

  /** The dictionary the accumulation loop builds, defined per key: one
      entry per distinct key, first seen first, holding that key's totals. */
  function GroupsOf(ts: seq<Transaction>, key: Key, tracked: Option<Key>): (g: Dict<string, Stats>)
    ensures Keys(g) == KeysOf(ts, key)
  {
    var ks := KeysOf(ts, key);
    seq(|ks|, j requires 0 <= j < |ks| => (ks[j], StatsOf(ts, key, tracked, ks[j])))
  }

  /** What the loop holds is determined by the records seen. */
  lemma AccumulatedIsGroupsOf(groups: Dict<string, Stats>, ts: seq<Transaction>, key: Key, tracked: Option<Key>)
    requires Accumulated(groups, ts, key, tracked)
    ensures groups == GroupsOf(ts, key, tracked)
  {
    var g := GroupsOf(ts, key, tracked);
    assert Keys(groups) == Keys(g);
    forall j | 0 <= j < |g|
      ensures groups[j] == g[j]
    {
      assert groups[j].0 == Keys(groups)[j];
    }
  }

  lemma {:induction false} GroupsOfAccumulated(ts: seq<Transaction>, key: Key, tracked: Option<Key>)
    ensures Accumulated(GroupsOf(ts, key, tracked), ts, key, tracked)
  {
    if ts != [] {
      var init, last := ts[..|ts| - 1], ts[|ts| - 1];
      GroupsOfAccumulated(init, key, tracked);
      var g := GroupsOf(init, key, tracked);
      assert ts == init + [last];
      StepKeepsAccumulated(g, init, last, ts, key, tracked);
      AccumulatedIsGroupsOf(Step(g, last, key, tracked), ts, key, tracked);
    }
  }

  /** No key is stored twice, and the entries' amounts, quantities and counts
      add up to those of the whole input. */
  lemma GroupsOfTotals(ts: seq<Transaction>, key: Key, tracked: Option<Key>)
    ensures var g := GroupsOf(ts, key, tracked);
      && Valid(g)
      && SumOf(g, GroupAmount) == SumOf(ts, Amount)
      && SumOf(g, GroupQuantity) == SumOf(ts, Quantity)
      && SumOf(g, GroupCount) == |ts|
  {
    GroupsOfAccumulated(ts, key, tracked);
    AccumulatedAll(GroupsOf(ts, key, tracked), ts, key, tracked);
  }

  /** Every entry counts at least one record: a key only enters when a
      record carrying it is seen. */
  lemma GroupsOfCountPositive(ts: seq<Transaction>, key: Key, tracked: Option<Key>)
    ensures forall j :: 0 <= j < |GroupsOf(ts, key, tracked)| ==> GroupsOf(ts, key, tracked)[j].1.count >= 1
  {
    var ks := KeysOf(ts, key);
    forall j | 0 <= j < |ks|
      ensures |Select(ts, key, ks[j])| >= 1
    {
      DedupHas(Project(ts, key), ks[j]);
      SelectNonEmpty(ts, key, ks[j]);
    }
  }

  /** The loop `for t in transactions: if k not in d: d[k] = {...zeros}; d[k][...] += ...`,
      which builds the dictionary `GroupsOf` describes. */
  method GroupBy(ts: seq<Transaction>, key: Key, tracked: Option<Key>) returns (groups: Dict<string, Stats>)
    ensures groups == GroupsOf(ts, key, tracked)
  {
    groups := [];
    for i := 0 to |ts|
      invariant Accumulated(groups, ts[..i], key, tracked)
    {
      PrefixStep(groups, ts, i, key, tracked);
      groups := AddRecord(groups, ts[i], key, tracked);
    }
    AccumulatedAll(groups, ts, key, tracked);
    AccumulatedIsGroupsOf(groups, ts, key, tracked);
  }
}
