/** The de-duplicating append behind `addHues`, `addSongs` and `addImages` (hues.js:176-331):
    each entity is pushed onto the active list only when `indexOf` does not find it there. */
module Registry {
  import opened Wrappers

  /** The active list after adding `items` one by one, skipping any item already present. */
  function AppendNew<T(==)>(active: seq<T>, items: seq<T>): seq<T>
    decreases |items|
  {
    if items == [] then active
    else AppendNew(if items[0] in active then active else active + [items[0]], items[1..])
  }

  predicate NoDuplicates<T(==)>(s: seq<T>) {
    forall i, j :: 0 <= i < j < |s| ==> s[i] != s[j]
  }

  /** The entities an add call walks over: the whole category, or the listed indices in
      the order given (repetitions included). */
  function Pick<T>(category: seq<T>, subset: seq<int>): (r: seq<T>)
    requires forall k :: 0 <= k < |subset| ==> 0 <= subset[k] < |category|
    ensures |r| == |subset|
    ensures forall k :: 0 <= k < |r| ==> r[k] == category[subset[k]]
    ensures forall x :: x in r ==> x in category
  {
    seq(|subset|, k requires 0 <= k < |subset| => category[subset[k]])
  }

  /** Whether every listed index names an entity of the category. */
  predicate InRange<T>(category: seq<T>, subset: seq<int>) {
    forall k :: 0 <= k < |subset| ==> 0 <= subset[k] < |category|
  }

  /** What an add call offers: the listed entities when an index list is given, otherwise
      the whole category in its own order. */
  function Offered<T>(category: seq<T>, subset: Option<seq<int>>): (r: seq<T>)
    requires subset.Some? ==> InRange(category, subset.value)
    ensures subset.None? ==> r == category
    ensures subset.Some? ==> |r| == |subset.value|
    ensures forall x :: x in r ==> x in category
  {
    if subset.Some? then Pick(category, subset.value) else category
  }

  /** The earlier list survives as a prefix, nothing but the old entries and the offered
      items appears, and no duplicate is introduced. */
  lemma {:induction false} AppendNewProperties<T>(active: seq<T>, items: seq<T>)
    ensures active <= AppendNew(active, items)
    ensures forall x :: x in AppendNew(active, items) <==> x in active || x in items
    ensures NoDuplicates(active) ==> NoDuplicates(AppendNew(active, items))
    decreases |items|
  {
    if items != [] {
      var next := if items[0] in active then active else active + [items[0]];
      AppendNewProperties(next, items[1..]);
      assert forall x :: x in items <==> x == items[0] || x in items[1..];
      if NoDuplicates(active) && items[0] !in active {
        assert NoDuplicates(next);
      }
    }
  }

  /** Offering only items that are already present changes nothing. */
  lemma {:induction false} AppendNewPresent<T>(active: seq<T>, items: seq<T>)
    requires forall x :: x in items ==> x in active
    ensures AppendNew(active, items) == active
    decreases |items|
  {
    if items != [] {
      AppendNewPresent(active, items[1..]);
    }
  }

  /** Repeating an add call with the same items leaves the active list as it was. */
  lemma AppendNewIdempotent<T>(active: seq<T>, items: seq<T>)
    ensures AppendNew(AppendNew(active, items), items) == AppendNew(active, items)
  {
    AppendNewProperties(active, items);
    AppendNewPresent(AppendNew(active, items), items);
  }

  /** The `forEach` loop of an add call: push each item that `indexOf` does not find. */
  method AppendMissing<T(==)>(active: seq<T>, items: seq<T>) returns (r: seq<T>)
    ensures r == AppendNew(active, items)
  {
    r := active;
    var i := 0;
    while i < |items|
      invariant 0 <= i <= |items|
      invariant AppendNew(r, items[i..]) == AppendNew(active, items)
    {
      assert items[i..][1..] == items[i + 1..];
      if items[i] !in r {
        r := r + [items[i]];
      }
      i := i + 1;
    }
    assert items[i..] == [];
  }
}
