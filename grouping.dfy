/** Grouping of the order history by day heading (the `reduce` that fills
    `groupedOrders`, and the `Object.entries` walk that lists it).

    The locale formatter `toLocaleDateString("pt-BR", …)` is not modelled: it
    is the parameter `dateKey`, an arbitrary function from `createdAt` to text.
    Only the capitalization of its result is concrete. */
module Grouping {
  import opened OrderModel
  import Text

  /** Stands for `new Date(createdAt).toLocaleDateString("pt-BR", …)`. */
  type DateKey = string -> string

  /** The heading an order is listed under: its date key with the first
      character upper-cased, so already in capitalized form. */
  function Label(o: Order, dateKey: DateKey): (r: string)
    ensures |r| == |dateKey(o.createdAt)|
    ensures r != [] ==> r[0] == Text.UpperChar(dateKey(o.createdAt)[0]) && r[1..] == dateKey(o.createdAt)[1..]
    ensures Text.Capitalize(r) == r
  {
    Text.CapitalizeIdempotent(dateKey(o.createdAt));
    Text.Capitalize(dateKey(o.createdAt))
  }

  /** One heading with the orders listed under it. */
  datatype Bucket = Bucket(heading: string, orders: seq<Order>)

  /** What the list shows: the empty-state message, or the day buckets. */
  datatype Grouping = NoOrders | Grouped(buckets: seq<Bucket>)

  // ---------------------------------------------------------------------
  // Reference definitions

  /** The heading of every order, position by position. */
  function LabelsOf(s: seq<Order>, dateKey: DateKey): (r: seq<string>)
    ensures |r| == |s|
    ensures forall k :: 0 <= k < |s| ==> r[k] == Label(s[k], dateKey)
  {
    if s == [] then [] else LabelsOf(s[..|s| - 1], dateKey) + [Label(s[|s| - 1], dateKey)]
  }

  predicate NoDuplicates(xs: seq<string>)
  {
    forall i, j :: 0 <= i < j < |xs| ==> xs[i] != xs[j]
  }

  /** The elements of `xs` in the order in which each is first seen. */
  function Distinct(xs: seq<string>): (r: seq<string>)
    ensures NoDuplicates(r)
    ensures forall x :: x in r <==> x in xs
  {
    if xs == [] then []
    else
      var d := Distinct(xs[..|xs| - 1]);
      if xs[|xs| - 1] in d then d else d + [xs[|xs| - 1]]
  }

  /** Position of the first occurrence of `x` in `xs`. */
  function FirstIndex(xs: seq<string>, x: string): (k: nat)
    requires x in xs
    ensures k < |xs| && xs[k] == x
    ensures forall j :: 0 <= j < k ==> xs[j] != x
  {
    if xs[0] == x then 0 else 1 + FirstIndex(xs[1..], x)
  }

  /** The orders labelled `heading`, in input order: the content a bucket
      must have. Each order occurs as often as it does in `s` when its
      heading matches, and not at all otherwise. */
  function Filter(s: seq<Order>, heading: string, dateKey: DateKey): seq<Order>
  {
    if s == [] then []
    else
      var o := s[|s| - 1];
      Filter(s[..|s| - 1], heading, dateKey) + (if Label(o, dateKey) == heading then [o] else [])
  }

  /** A bucket holds exactly the orders carrying its heading: each such
      order as often as it occurs in the input, any other order not at all. */
  lemma {:induction false} FilterCount(s: seq<Order>, heading: string, dateKey: DateKey)
    ensures forall o :: multiset(Filter(s, heading, dateKey))[o]
                     == if Label(o, dateKey) == heading then multiset(s)[o] else 0
  {
    if s != [] {
      var init := s[..|s| - 1];
      assert s == init + [s[|s| - 1]];
      FilterCount(init, heading, dateKey);
    }
  }

  /** The bucket for each heading of `labels`, in that order. */
  function BucketsFor(s: seq<Order>, labels: seq<string>, dateKey: DateKey): (r: seq<Bucket>)
    ensures |r| == |labels|
  {
    if labels == [] then []
    else
      var l := labels[|labels| - 1];
      BucketsFor(s, labels[..|labels| - 1], dateKey) + [Bucket(l, Filter(s, l, dateKey))]
  }

  /** What the list must show for `s`: the empty state for no orders;
      otherwise one bucket per distinct heading, in first-seen order, each
      holding the orders with that heading in input order. */
  function GroupingOf(s: seq<Order>, dateKey: DateKey): Grouping
  {
    if s == [] then NoOrders
    else Grouped(BucketsFor(s, Distinct(LabelsOf(s, dateKey)), dateKey))
  }

  // ---------------------------------------------------------------------
  // The component's computation

  /** `Object.entries(groups)`: the buckets in key-insertion order. */
  function Entries(keys: seq<string>, groups: map<string, seq<Order>>): (r: seq<Bucket>)
    requires forall k :: k in keys ==> k in groups
    ensures |r| == |keys|
    ensures forall i :: 0 <= i < |keys| ==> r[i] == Bucket(keys[i], groups[keys[i]])
  {
    seq(|keys|, i requires 0 <= i < |keys| => Bucket(keys[i], groups[keys[i]]))
  }

  /** The component's grouping: an early return for an empty history, then
      one pass that creates a heading's bucket on first sight and appends each
      order to its bucket. `keys` records the dictionary's insertion order. */
  method GroupOrders(orders: seq<Order>, dateKey: DateKey) returns (r: Grouping)
    ensures r == GroupingOf(orders, dateKey)
  {
    if |orders| == 0 {
      return NoOrders;
    }
    var groups: map<string, seq<Order>> := map[];
    var keys: seq<string> := [];
    var i := 0;
    while i < |orders|
      invariant 0 <= i <= |orders|
      invariant keys == Distinct(LabelsOf(orders[..i], dateKey))
      invariant forall k :: k in groups <==> k in keys
      invariant forall k :: k in groups ==> groups[k] == Filter(orders[..i], k, dateKey)
    {
      var o := orders[i];
      var heading := Text.Capitalize(dateKey(o.createdAt));
      ScanStep(orders, i, dateKey);
      if heading !in groups {
        FilterOfUnseenLabel(orders[..i], heading, dateKey);
        groups := groups[heading := []];
        keys := keys + [heading];
      }
      groups := groups[heading := groups[heading] + [o]];
      i := i + 1;
    }
    assert orders[..i] == orders;
    EntriesAreBuckets(orders, keys, groups, dateKey);
    r := Grouped(Entries(keys, groups));
  }

  // ---------------------------------------------------------------------
  // Helper facts

  /** Once the scan is complete, listing the dictionary gives the buckets. */
  lemma EntriesAreBuckets(s: seq<Order>, keys: seq<string>, groups: map<string, seq<Order>>, dateKey: DateKey)
    requires forall k :: k in groups <==> k in keys
    requires forall k :: k in groups ==> groups[k] == Filter(s, k, dateKey)
    ensures Entries(keys, groups) == BucketsFor(s, keys, dateKey)
  {
    BucketsForAt(s, keys, dateKey);
  }

  /** What one more step of the scan adds to the labels and to each bucket. */
  lemma ScanStep(s: seq<Order>, i: nat, dateKey: DateKey)
    requires i < |s|
    ensures LabelsOf(s[..i + 1], dateKey) == LabelsOf(s[..i], dateKey) + [Label(s[i], dateKey)]
    ensures forall h :: Filter(s[..i + 1], h, dateKey)
                     == Filter(s[..i], h, dateKey) + (if Label(s[i], dateKey) == h then [s[i]] else [])
  {
    assert s[..i + 1][..i] == s[..i];
  }

  /** A heading that no order carries has an empty bucket. */
  lemma FilterOfUnseenLabel(s: seq<Order>, heading: string, dateKey: DateKey)
    requires heading !in LabelsOf(s, dateKey)
    ensures Filter(s, heading, dateKey) == []
  {
    var f := Filter(s, heading, dateKey);
    FilterCount(s, heading, dateKey);
    forall o | o in s
      ensures Label(o, dateKey) in LabelsOf(s, dateKey)
    {
      var k :| 0 <= k < |s| && s[k] == o;
      assert LabelsOf(s, dateKey)[k] == Label(o, dateKey);
    }
    assert multiset(f) == multiset{};
  }

  /** Bucket `i` of `BucketsFor` is the bucket of the `i`-th heading. */
  lemma {:induction false} BucketsForAt(s: seq<Order>, labels: seq<string>, dateKey: DateKey)
    ensures forall i :: 0 <= i < |labels| ==>
      BucketsFor(s, labels, dateKey)[i] == Bucket(labels[i], Filter(s, labels[i], dateKey))
  {
    if labels != [] {
      BucketsForAt(s, labels[..|labels| - 1], dateKey);
    }
  }

  /** Concatenation of the buckets' orders. */
  function Flatten(bs: seq<Bucket>): seq<Order>
  {
    if bs == [] then [] else Flatten(bs[..|bs| - 1]) + bs[|bs| - 1].orders
  }

  /** Sum of the bucket sizes. */
  function SizeSum(bs: seq<Bucket>): nat
  {
    if bs == [] then 0 else SizeSum(bs[..|bs| - 1]) + |bs[|bs| - 1].orders|
  }

  lemma {:induction false} FlattenLength(bs: seq<Bucket>)
    ensures |Flatten(bs)| == SizeSum(bs)
  {
    if bs != [] {
      FlattenLength(bs[..|bs| - 1]);
    }
  }

  /** Appending one order `o` to the input adds `o` once to the flattened
      buckets when its heading is among `labels`, and nothing otherwise. */
  lemma {:induction false} FlattenAppend(s: seq<Order>, o: Order, labels: seq<string>, dateKey: DateKey)
    requires NoDuplicates(labels)
    ensures multiset(Flatten(BucketsFor(s + [o], labels, dateKey)))
         == multiset(Flatten(BucketsFor(s, labels, dateKey)))
            + (if Label(o, dateKey) in labels then multiset{o} else multiset{})
  {
    if labels != [] {
      var init := labels[..|labels| - 1];
      var l := labels[|labels| - 1];
      assert NoDuplicates(init);
      FlattenAppend(s, o, init, dateKey);
      assert (s + [o])[..|s + [o]| - 1] == s;
      assert Label(o, dateKey) in labels <==> Label(o, dateKey) in init || Label(o, dateKey) == l;
      assert l !in init;
    }
  }

  lemma {:induction false} FlattenOfNoOrders(labels: seq<string>, dateKey: DateKey)
    ensures Flatten(BucketsFor([], labels, dateKey)) == []
  {
    if labels != [] {
      FlattenOfNoOrders(labels[..|labels| - 1], dateKey);
    }
  }

  /** Buckets over a duplicate-free list of labels that covers every order's
      heading hold, together, exactly the input orders. */
  lemma {:induction false} FlattenCovers(s: seq<Order>, labels: seq<string>, dateKey: DateKey)
    requires NoDuplicates(labels)
    requires forall k :: 0 <= k < |s| ==> Label(s[k], dateKey) in labels
    ensures multiset(Flatten(BucketsFor(s, labels, dateKey))) == multiset(s)
  {
    if s == [] {
      FlattenOfNoOrders(labels, dateKey);
    } else {
      var init := s[..|s| - 1];
      var o := s[|s| - 1];
      assert s == init + [o];
      FlattenCovers(init, labels, dateKey);
      FlattenAppend(init, o, labels, dateKey);
    }
  }

  /** `FirstIndex` is the same in a sequence and in any extension of it,
      for an element already present. */
  lemma FirstIndexExtend(xs: seq<string>, ys: seq<string>, x: string)
    requires x in xs
    ensures x in xs + ys && FirstIndex(xs + ys, x) == FirstIndex(xs, x)
  {
    assert (xs + ys)[FirstIndex(xs, x)] == x;
  }

  // ---------------------------------------------------------------------
  // Properties of the grouping

  /** An empty history gives the empty state, never an empty grouping; a
      non-empty one gives at least one bucket, and no bucket is empty. */
  lemma EmptyHistory(s: seq<Order>, dateKey: DateKey)
    ensures GroupingOf(s, dateKey) == NoOrders <==> s == []
    ensures s != [] ==> |GroupingOf(s, dateKey).buckets| >= 1
    ensures s != [] ==> forall b :: b in GroupingOf(s, dateKey).buckets ==> b.orders != []
  {
    if s != [] {
      var labels := LabelsOf(s, dateKey);
      var d := Distinct(labels);
      assert labels[0] in d;
      BucketsForAt(s, d, dateKey);
      forall b | b in GroupingOf(s, dateKey).buckets
        ensures b.orders != []
      {
        var i :| 0 <= i < |d| && BucketsFor(s, d, dateKey)[i] == b;
        assert d[i] in labels;
        var k :| 0 <= k < |s| && labels[k] == d[i];
        FilterCount(s, d[i], dateKey);
        assert multiset(b.orders)[s[k]] == multiset(s)[s[k]] > 0;
      }
    }
  }

  /** The grouping is a partition: the bucket sizes add up to the number
      of orders, and the buckets together hold exactly the input orders. */
  lemma Partition(s: seq<Order>, dateKey: DateKey)
    requires s != []
    ensures SizeSum(GroupingOf(s, dateKey).buckets) == |s|
    ensures multiset(Flatten(GroupingOf(s, dateKey).buckets)) == multiset(s)
  {
    var labels := LabelsOf(s, dateKey);
    var bs := GroupingOf(s, dateKey).buckets;
    forall k | 0 <= k < |s|
      ensures Label(s[k], dateKey) in Distinct(labels)
    {
      assert labels[k] in labels;
    }
    FlattenCovers(s, Distinct(labels), dateKey);
    FlattenLength(bs);
    assert |multiset(Flatten(bs))| == |multiset(s)|;
  }

  /** Each order lands in exactly one bucket, the one whose heading is the
      order's heading; that bucket holds exactly the orders with that heading,
      in input order (`Filter`). */
  lemma OneBucketPerOrder(s: seq<Order>, dateKey: DateKey, k: nat)
    requires k < |s|
    ensures GroupingOf(s, dateKey).Grouped?
    ensures exists b :: (0 <= b < |GroupingOf(s, dateKey).buckets|
      && GroupingOf(s, dateKey).buckets[b].heading == Label(s[k], dateKey))
    ensures forall b :: 0 <= b < |GroupingOf(s, dateKey).buckets| ==>
      (s[k] in GroupingOf(s, dateKey).buckets[b].orders <==>
       GroupingOf(s, dateKey).buckets[b].heading == Label(s[k], dateKey))
    ensures forall b :: 0 <= b < |GroupingOf(s, dateKey).buckets| ==>
      GroupingOf(s, dateKey).buckets[b].orders
        == Filter(s, GroupingOf(s, dateKey).buckets[b].heading, dateKey)
  {
    var labels := LabelsOf(s, dateKey);
    var d := Distinct(labels);
    BucketsForAt(s, d, dateKey);
    assert labels[k] in d;
    var b :| 0 <= b < |d| && d[b] == labels[k];
    assert GroupingOf(s, dateKey).buckets[b].heading == Label(s[k], dateKey);
    forall b' | 0 <= b' < |d|
      ensures s[k] in GroupingOf(s, dateKey).buckets[b'].orders <==> d[b'] == Label(s[k], dateKey)
    {
      var f := Filter(s, d[b'], dateKey);
      FilterCount(s, d[b'], dateKey);
      assert s[k] in multiset(s);
      assert s[k] in f <==> s[k] in multiset(f);
    }
  }

  /** The headings of a list of buckets, in order. */
  function Headings(bs: seq<Bucket>): (r: seq<string>)
    ensures |r| == |bs|
    ensures forall i :: 0 <= i < |bs| ==> r[i] == bs[i].heading
  {
    seq(|bs|, i requires 0 <= i < |bs| => bs[i].heading)
  }

  /** Headings are pairwise distinct, are exactly the labels of the input
      orders, and appear in the order in which each label is first seen. */
  lemma HeadingOrder(s: seq<Order>, dateKey: DateKey)
    requires s != []
    ensures NoDuplicates(Headings(GroupingOf(s, dateKey).buckets))
    ensures forall l :: l in Headings(GroupingOf(s, dateKey).buckets) <==> l in LabelsOf(s, dateKey)
    ensures forall i, j :: 0 <= i < j < |GroupingOf(s, dateKey).buckets| ==>
      var hs := Headings(GroupingOf(s, dateKey).buckets);
      hs[i] in LabelsOf(s, dateKey) && hs[j] in LabelsOf(s, dateKey)
      && FirstIndex(LabelsOf(s, dateKey), hs[i]) < FirstIndex(LabelsOf(s, dateKey), hs[j])
  {
    var labels := LabelsOf(s, dateKey);
    var d := Distinct(labels);
    BucketsForAt(s, d, dateKey);
    assert Headings(GroupingOf(s, dateKey).buckets) == d;
    FirstSeenOrder(labels);
  }

  /** `Distinct` lists each element in the order of its first occurrence. */
  lemma {:induction false} FirstSeenOrder(xs: seq<string>)
    ensures forall i, j :: 0 <= i < j < |Distinct(xs)| ==>
      Distinct(xs)[i] in xs && Distinct(xs)[j] in xs
      && FirstIndex(xs, Distinct(xs)[i]) < FirstIndex(xs, Distinct(xs)[j])
  {
    if xs != [] {
      var init := xs[..|xs| - 1];
      var x := xs[|xs| - 1];
      assert xs == init + [x];
      var d := Distinct(init);
      FirstSeenOrder(init);
      forall y | y in init
        ensures FirstIndex(xs, y) == FirstIndex(init, y)
      {
        FirstIndexExtend(init, [x], y);
      }
      forall i, j | 0 <= i < j < |d|
        ensures FirstIndex(xs, d[i]) < FirstIndex(xs, d[j])
      {
        assert d[i] in init && d[j] in init;
      }
      if x !in d {
        assert x !in init;
        assert FirstIndex(xs, x) == |init|;
        assert Distinct(xs) == d + [x];
        forall i | 0 <= i < |d|
          ensures FirstIndex(xs, d[i]) < FirstIndex(xs, x)
        {
          assert d[i] in init;
        }
      } else {
        assert Distinct(xs) == d;
      }
      var r := Distinct(xs);
      forall i, j | 0 <= i < j < |r|
        ensures r[i] in xs && r[j] in xs && FirstIndex(xs, r[i]) < FirstIndex(xs, r[j])
      {
        if j < |d| {
          assert r[i] == d[i] && r[j] == d[j];
        }
      }
    } else {
      assert Distinct(xs) == [];
    }
  }
}
