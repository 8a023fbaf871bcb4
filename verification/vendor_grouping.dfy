/** The partition of a shopping list's items by vendor that precedes the
    creation of purchase orders: a `Map` from vendor id to the lines of that
    vendor, filled item by item, so that the vendors come out in the order
    they first appear. */
module VendorGrouping {
  import opened Wrappers
  import opened Seqs

  /** A shopping-list item joined with its product's vendor and price. */
  datatype ShoppingItem = ShoppingItem(productId: int, quantityRequested: real, vendorId: int, unitPrice: real)

  /** A line of a purchase order. */
  datatype PoLine = PoLine(productId: int, quantity: real, unitPrice: real)

  /** The lines gathered for one vendor. */
  datatype VendorGroup = VendorGroup(vendorId: int, lines: seq<PoLine>)

  /** The line an item becomes: the requested quantity at the product's
      price. */
  function ToLine(x: ShoppingItem): (l: PoLine)
    ensures l.productId == x.productId && l.quantity == x.quantityRequested && l.unitPrice == x.unitPrice
  {
    PoLine(x.productId, x.quantityRequested, x.unitPrice)
  }

  function FromVendor(v: int): ShoppingItem -> bool {
    (x: ShoppingItem) => x.vendorId == v
  }

  /** The vendors that have items in `items`. */
  function VendorSet(items: seq<ShoppingItem>): set<int> {
    if items == [] then {} else VendorSet(items[..|items| - 1]) + {items[|items| - 1].vendorId}
  }

  lemma {:induction false} VendorSetMembers(items: seq<ShoppingItem>)
    ensures forall v :: v in VendorSet(items) <==> exists i :: 0 <= i < |items| && items[i].vendorId == v
  {
    if items != [] {
      var init := items[..|items| - 1];
      VendorSetMembers(init);
      assert forall i :: 0 <= i < |init| ==> init[i] == items[i];
    }
  }

  /** The lines of vendor `v`'s items, in item order. */
  function LinesOf(items: seq<ShoppingItem>, v: int): seq<PoLine> {
    if items == [] then []
    else
      var x := items[|items| - 1];
      LinesOf(items[..|items| - 1], v) + (if x.vendorId == v then [ToLine(x)] else [])
  }

  /** The lines of a vendor are its items filtered out of the list and
      turned into lines. */
  lemma {:induction false} LinesOfIsFilter(items: seq<ShoppingItem>, v: int)
    ensures LinesOf(items, v) == Map(ToLine, Filter(FromVendor(v), items))
  {
    if items != [] {
      var init := items[..|items| - 1];
      var x := items[|items| - 1];
      LinesOfIsFilter(init, v);
      assert items == init + [x];
      FilterConcat(FromVendor(v), init, [x]);
      assert Filter(FromVendor(v), [x]) == if x.vendorId == v then [x] else [];
      MapConcat(ToLine, Filter(FromVendor(v), init), Filter(FromVendor(v), [x]));
    }
  }

  /** A vendor without items has no lines. */
  lemma {:induction false} LinesOfAbsent(items: seq<ShoppingItem>, v: int)
    requires v !in VendorSet(items)
    ensures LinesOf(items, v) == []
  {
    if items != [] {
      LinesOfAbsent(items[..|items| - 1], v);
    }
  }

  /** The position of the first item of vendor `v`. */
  function FirstIndex(items: seq<ShoppingItem>, v: int): (i: nat)
    requires v in VendorSet(items)
    ensures i < |items| && items[i].vendorId == v
    ensures forall j :: 0 <= j < i ==> items[j].vendorId != v
  {
    var init := items[..|items| - 1];
    if v in VendorSet(init) then
      var i := FirstIndex(init, v);
      assert forall j :: 0 <= j <= i ==> init[j] == items[j];
      i
    else
      VendorSetMembers(init);
      assert forall j :: 0 <= j < |init| ==> init[j] == items[j];
      |items| - 1
  }

  predicate DistinctVendors(groups: seq<VendorGroup>) {
    forall a, b :: 0 <= a < b < |groups| ==> groups[a].vendorId != groups[b].vendorId
  }

  /** `groups` is the partition of `items` by vendor: one group per vendor
      that has items, holding exactly that vendor's lines in item order,
      the groups ordered by their vendor's first item. */
  predicate Grouped(items: seq<ShoppingItem>, groups: seq<VendorGroup>) {
    && DistinctVendors(groups)
    && (forall k :: 0 <= k < |groups| ==> groups[k].vendorId in VendorSet(items))
    && (forall k :: 0 <= k < |groups| ==> groups[k].lines == LinesOf(items, groups[k].vendorId))
    && (forall v :: v in VendorSet(items) ==> exists k :: 0 <= k < |groups| && groups[k].vendorId == v)
    && (forall a, b :: 0 <= a < b < |groups| ==>
          FirstIndex(items, groups[a].vendorId) < FirstIndex(items, groups[b].vendorId))
  }

  /** `byVendor.get(v)`: the position of vendor `v`'s group. */
  function GroupIndex(groups: seq<VendorGroup>, v: int): (r: Option<nat>)
    ensures r.None? <==> forall k :: 0 <= k < |groups| ==> groups[k].vendorId != v
    ensures r.Some? ==> r.value < |groups| && groups[r.value].vendorId == v
  {
    if groups == [] then None
    else if groups[|groups| - 1].vendorId == v then Some(|groups| - 1)
    else GroupIndex(groups[..|groups| - 1], v)
  }

  /** One turn of the loop: the item's line is appended to its vendor's
      group, which is created at the end when the vendor is new. */
  function AddItem(groups: seq<VendorGroup>, x: ShoppingItem): seq<VendorGroup> {
    match GroupIndex(groups, x.vendorId)
    case None => groups + [VendorGroup(x.vendorId, [ToLine(x)])]
    case Some(k) => Extend(groups, k, x)
  }

  /** The loop over `items`, one `AddItem` per item. */
  function AddAll(items: seq<ShoppingItem>): seq<VendorGroup> {
    if items == [] then [] else AddItem(AddAll(items[..|items| - 1]), items[|items| - 1])
  }

  lemma {:induction false} AddAllGroups(items: seq<ShoppingItem>)
    ensures Grouped(items, AddAll(items))
  {
    if items != [] {
      var init := items[..|items| - 1];
      AddAllGroups(init);
      assert items == init + [items[|items| - 1]];
      AddItemKeepsGrouped(init, AddAll(init), items[|items| - 1]);
    }
  }

  /** The map after the loop over `items`, as its entries in iteration
      order: the partition of the items by vendor. */
  function GroupByVendor(items: seq<ShoppingItem>): (groups: seq<VendorGroup>)
    ensures Grouped(items, groups)
  {
    AddAllGroups(items);
    AddAll(items)
  }

  /** What appending `x` to the items leaves alone and what it changes. */
  lemma Snoc(items: seq<ShoppingItem>, x: ShoppingItem)
    ensures VendorSet(items + [x]) == VendorSet(items) + {x.vendorId}
    ensures forall v :: LinesOf(items + [x], v)
                     == LinesOf(items, v) + (if x.vendorId == v then [ToLine(x)] else [])
    ensures forall v :: v in VendorSet(items) ==> FirstIndex(items + [x], v) == FirstIndex(items, v)
    ensures x.vendorId !in VendorSet(items) ==> FirstIndex(items + [x], x.vendorId) == |items|
  {
    assert (items + [x])[..|items|] == items;
  }

  /** The groups after appending `x`'s line to group `k`. */
  function Extend(groups: seq<VendorGroup>, k: nat, x: ShoppingItem): (r: seq<VendorGroup>)
    requires k < |groups|
    ensures |r| == |groups|
    ensures forall j :: 0 <= j < |r| ==> r[j].vendorId == (if j == k then x.vendorId else groups[j].vendorId)
  {
    groups[k := VendorGroup(x.vendorId, groups[k].lines + [ToLine(x)])]
  }

  /** Extending the group of `x`'s vendor keeps every group's lines those of
      its vendor. */
  lemma ExtendHoldsLines(items: seq<ShoppingItem>, groups: seq<VendorGroup>, x: ShoppingItem, k: nat)
    requires DistinctVendors(groups)
    requires forall j :: 0 <= j < |groups| ==> groups[j].lines == LinesOf(items, groups[j].vendorId)
    requires k < |groups| && groups[k].vendorId == x.vendorId
    ensures var r := Extend(groups, k, x);
      forall j :: 0 <= j < |r| ==> r[j].lines == LinesOf(items + [x], r[j].vendorId)
  {
    Snoc(items, x);
    var r := Extend(groups, k, x);
    forall j | 0 <= j < |r|
      ensures r[j].lines == LinesOf(items + [x], r[j].vendorId)
    {
      if j != k {
        assert groups[j].vendorId != x.vendorId;
      }
    }
  }

  /** Extending the group of `x`'s vendor keeps the groups covering exactly
      the vendors. */
  lemma ExtendCovers(items: seq<ShoppingItem>, groups: seq<VendorGroup>, x: ShoppingItem, k: nat)
    requires forall j :: 0 <= j < |groups| ==> groups[j].vendorId in VendorSet(items)
    requires forall v :: v in VendorSet(items) ==> exists j :: 0 <= j < |groups| && groups[j].vendorId == v
    requires k < |groups| && groups[k].vendorId == x.vendorId
    ensures var r := Extend(groups, k, x);
      && (forall j :: 0 <= j < |r| ==> r[j].vendorId in VendorSet(items + [x]))
      && (forall v :: v in VendorSet(items + [x]) ==> exists j :: 0 <= j < |r| && r[j].vendorId == v)
  {
    Snoc(items, x);
    var r := Extend(groups, k, x);
    forall v | v in VendorSet(items + [x])
      ensures exists j :: 0 <= j < |r| && r[j].vendorId == v
    {
      var j :| 0 <= j < |groups| && groups[j].vendorId == v;
      assert r[j].vendorId == v;
    }
  }

  /** Extending a group keeps the groups in the order of their vendors'
      first items. */
  lemma ExtendKeepsOrder(items: seq<ShoppingItem>, groups: seq<VendorGroup>, x: ShoppingItem, k: nat)
    requires forall j :: 0 <= j < |groups| ==> groups[j].vendorId in VendorSet(items)
    requires forall a, b :: 0 <= a < b < |groups| ==>
      FirstIndex(items, groups[a].vendorId) < FirstIndex(items, groups[b].vendorId)
    requires k < |groups| && groups[k].vendorId == x.vendorId
    ensures var r := Extend(groups, k, x);
      forall a, b :: 0 <= a < b < |r| ==>
        r[a].vendorId in VendorSet(items + [x]) && r[b].vendorId in VendorSet(items + [x]) &&
        FirstIndex(items + [x], r[a].vendorId) < FirstIndex(items + [x], r[b].vendorId)
  {
    Snoc(items, x);
  }

  /** An item of a vendor that already has a group extends that group. */
  lemma AddToExistingGroup(items: seq<ShoppingItem>, groups: seq<VendorGroup>, x: ShoppingItem, k: nat)
    requires Grouped(items, groups)
    requires k < |groups| && groups[k].vendorId == x.vendorId
    ensures Grouped(items + [x], Extend(groups, k, x))
  {
    ExtendHoldsLines(items, groups, x, k);
    ExtendCovers(items, groups, x, k);
    ExtendKeepsOrder(items, groups, x, k);
  }

  /** An item of a new vendor opens a group at the end. */
  lemma AddNewGroup(items: seq<ShoppingItem>, groups: seq<VendorGroup>, x: ShoppingItem)
    requires Grouped(items, groups)
    requires forall k :: 0 <= k < |groups| ==> groups[k].vendorId != x.vendorId
    ensures Grouped(items + [x], groups + [VendorGroup(x.vendorId, [ToLine(x)])])
  {
    NewGroupHoldsLines(items, groups, x);
    NewGroupCovers(items, groups, x);
    NewGroupKeepsOrder(items, groups, x);
  }

  /** A group opened for a new vendor holds that vendor's one line, and the
      other groups keep theirs. */
  lemma NewGroupHoldsLines(items: seq<ShoppingItem>, groups: seq<VendorGroup>, x: ShoppingItem)
    requires forall k :: 0 <= k < |groups| ==> groups[k].vendorId in VendorSet(items)
    requires forall k :: 0 <= k < |groups| ==> groups[k].lines == LinesOf(items, groups[k].vendorId)
    requires forall v :: v in VendorSet(items) ==> exists k :: 0 <= k < |groups| && groups[k].vendorId == v
    requires forall k :: 0 <= k < |groups| ==> groups[k].vendorId != x.vendorId
    ensures var r := groups + [VendorGroup(x.vendorId, [ToLine(x)])];
      forall j :: 0 <= j < |r| ==> r[j].lines == LinesOf(items + [x], r[j].vendorId)
  {
    Snoc(items, x);
    LinesOfAbsent(items, x.vendorId);
  }

  /** A group opened for a new vendor keeps the groups covering exactly the
      vendors. */
  lemma NewGroupCovers(items: seq<ShoppingItem>, groups: seq<VendorGroup>, x: ShoppingItem)
    requires forall k :: 0 <= k < |groups| ==> groups[k].vendorId in VendorSet(items)
    requires forall v :: v in VendorSet(items) ==> exists k :: 0 <= k < |groups| && groups[k].vendorId == v
    ensures var r := groups + [VendorGroup(x.vendorId, [ToLine(x)])];
      && (forall j :: 0 <= j < |r| ==> r[j].vendorId in VendorSet(items + [x]))
      && (forall v :: v in VendorSet(items + [x]) ==> exists j :: 0 <= j < |r| && r[j].vendorId == v)
  {
    Snoc(items, x);
    var r := groups + [VendorGroup(x.vendorId, [ToLine(x)])];
    assert forall j :: 0 <= j < |groups| ==> r[j] == groups[j];
    assert r[|groups|].vendorId == x.vendorId;
  }

  /** A group opened for a new vendor comes last, after every vendor seen
      before. */
  lemma NewGroupKeepsOrder(items: seq<ShoppingItem>, groups: seq<VendorGroup>, x: ShoppingItem)
    requires forall k :: 0 <= k < |groups| ==> groups[k].vendorId in VendorSet(items)
    requires forall v :: v in VendorSet(items) ==> exists k :: 0 <= k < |groups| && groups[k].vendorId == v
    requires forall a, b :: 0 <= a < b < |groups| ==>
      FirstIndex(items, groups[a].vendorId) < FirstIndex(items, groups[b].vendorId)
    requires forall k :: 0 <= k < |groups| ==> groups[k].vendorId != x.vendorId
    ensures var r := groups + [VendorGroup(x.vendorId, [ToLine(x)])];
      forall a, b :: 0 <= a < b < |r| ==>
        r[a].vendorId in VendorSet(items + [x]) && r[b].vendorId in VendorSet(items + [x]) &&
        FirstIndex(items + [x], r[a].vendorId) < FirstIndex(items + [x], r[b].vendorId)
  {
    Snoc(items, x);
    var r := groups + [VendorGroup(x.vendorId, [ToLine(x)])];
    assert forall j :: 0 <= j < |groups| ==> r[j] == groups[j];
    assert x.vendorId !in VendorSet(items);
  }

  lemma AddItemKeepsGrouped(items: seq<ShoppingItem>, groups: seq<VendorGroup>, x: ShoppingItem)
    requires Grouped(items, groups)
    ensures Grouped(items + [x], AddItem(groups, x))
  {
    match GroupIndex(groups, x.vendorId)
    case None =>
      AddNewGroup(items, groups, x);
    case Some(k) =>
      AddToExistingGroup(items, groups, x, k);
  }

  /** Every line of the concatenated groups, group after group. */
  function Flatten(groups: seq<VendorGroup>): seq<PoLine> {
    if groups == [] then [] else groups[0].lines + Flatten(groups[1..])
  }

  lemma {:induction false} FlattenSnoc(groups: seq<VendorGroup>, g: VendorGroup)
    ensures Flatten(groups + [g]) == Flatten(groups) + g.lines
  {
    if groups != [] {
      assert (groups + [g])[1..] == groups[1..] + [g];
      FlattenSnoc(groups[1..], g);
    } else {
      assert Flatten([g]) == g.lines + Flatten([]);
    }
  }

  /** Extending one group by a line adds that line to the concatenation. */
  lemma {:induction false} FlattenExtend(groups: seq<VendorGroup>, k: nat, l: PoLine)
    requires k < |groups|
    ensures multiset(Flatten(groups[k := VendorGroup(groups[k].vendorId, groups[k].lines + [l])]))
         == multiset(Flatten(groups)) + multiset{l}
  {
    var g' := groups[k := VendorGroup(groups[k].vendorId, groups[k].lines + [l])];
    var rest, rest' := Flatten(groups[1..]), Flatten(g'[1..]);
    assert Flatten(groups) == groups[0].lines + rest;
    assert Flatten(g') == g'[0].lines + rest';
    if k == 0 {
      assert g'[1..] == groups[1..];
      assert multiset(g'[0].lines) == multiset(groups[0].lines) + multiset{l};
    } else {
      assert g'[1..] == groups[1..][k - 1 := VendorGroup(groups[k].vendorId, groups[k].lines + [l])];
      FlattenExtend(groups[1..], k - 1, l);
      assert g'[0] == groups[0];
    }
  }

  /** Adding an item adds its line to the concatenated groups. */
  lemma AddItemAddsLine(groups: seq<VendorGroup>, x: ShoppingItem)
    ensures multiset(Flatten(AddItem(groups, x))) == multiset(Flatten(groups)) + multiset{ToLine(x)}
  {
    match GroupIndex(groups, x.vendorId)
    case None =>
      FlattenSnoc(groups, VendorGroup(x.vendorId, [ToLine(x)]));
    case Some(k) =>
      FlattenExtend(groups, k, ToLine(x));
  }

  lemma PermuteStep(init: seq<ShoppingItem>, x: ShoppingItem, groups: seq<VendorGroup>)
    requires multiset(Flatten(groups)) == multiset(Map(ToLine, init))
    ensures multiset(Flatten(AddItem(groups, x))) == multiset(Map(ToLine, init + [x]))
  {
    MapConcat(ToLine, init, [x]);
    AddItemAddsLine(groups, x);
  }

  lemma {:induction false} AddAllPermutes(items: seq<ShoppingItem>)
    ensures multiset(Flatten(AddAll(items))) == multiset(Map(ToLine, items))
  {
    if items != [] {
      var init := items[..|items| - 1];
      var x := items[|items| - 1];
      assert items == init + [x];
      assert AddAll(items) == AddItem(AddAll(init), x);
      AddAllPermutes(init);
      PermuteStep(init, x, AddAll(init));
    }
  }

  /** The groups hold every item's line exactly once: their concatenation
      is a rearrangement of the items' lines. */
  lemma GroupingPermutes(items: seq<ShoppingItem>)
    ensures multiset(Flatten(GroupByVendor(items))) == multiset(Map(ToLine, items))
  {
    AddAllPermutes(items);
  }

  /** `groups` partitions the items of the vendors outside `vs`. With `vs`
      empty this is `Grouped`; the uniqueness proof peels one vendor off at a
      time. */
  ghost predicate GroupedAvoiding(items: seq<ShoppingItem>, groups: seq<VendorGroup>, vs: set<int>) {
    && DistinctVendors(groups)
    && (forall k :: 0 <= k < |groups| ==> groups[k].vendorId in VendorSet(items) && groups[k].vendorId !in vs)
    && (forall k :: 0 <= k < |groups| ==> groups[k].lines == LinesOf(items, groups[k].vendorId))
    && (forall v :: v in VendorSet(items) && v !in vs ==>
          exists k :: 0 <= k < |groups| && groups[k].vendorId == v)
    && (forall a, b :: 0 <= a < b < |groups| ==>
          FirstIndex(items, groups[a].vendorId) < FirstIndex(items, groups[b].vendorId))
  }

  /** The first group's vendor is the first of the vendors it covers. */
  lemma FirstGroupIsEarliest(items: seq<ShoppingItem>, groups: seq<VendorGroup>, vs: set<int>, v: int)
    requires GroupedAvoiding(items, groups, vs) && groups != []
    requires v in VendorSet(items) && v !in vs
    ensures FirstIndex(items, groups[0].vendorId) <= FirstIndex(items, v)
  {
    var k :| 0 <= k < |groups| && groups[k].vendorId == v;
    if k > 0 {
      assert FirstIndex(items, groups[0].vendorId) < FirstIndex(items, groups[k].vendorId);
    }
  }

  /** Dropping the first group leaves a partition of the other vendors. */
  lemma RestGrouped(items: seq<ShoppingItem>, groups: seq<VendorGroup>, vs: set<int>)
    requires GroupedAvoiding(items, groups, vs) && groups != []
    ensures GroupedAvoiding(items, groups[1..], vs + {groups[0].vendorId})
  {
    RestOrdered(items, groups);
    RestCovers(items, groups, vs);
  }

  lemma RestOrdered(items: seq<ShoppingItem>, groups: seq<VendorGroup>)
    requires groups != [] && DistinctVendors(groups)
    requires forall k :: 0 <= k < |groups| ==> groups[k].vendorId in VendorSet(items)
    requires forall a, b :: 0 <= a < b < |groups| ==>
      FirstIndex(items, groups[a].vendorId) < FirstIndex(items, groups[b].vendorId)
    ensures var t := groups[1..];
      && DistinctVendors(t)
      && forall a, b :: 0 <= a < b < |t| ==> FirstIndex(items, t[a].vendorId) < FirstIndex(items, t[b].vendorId)
  {
    var t := groups[1..];
    forall a, b | 0 <= a < b < |t|
      ensures t[a].vendorId != t[b].vendorId
      ensures FirstIndex(items, t[a].vendorId) < FirstIndex(items, t[b].vendorId)
    {
      assert t[a] == groups[a + 1] && t[b] == groups[b + 1];
    }
  }

  lemma RestCovers(items: seq<ShoppingItem>, groups: seq<VendorGroup>, vs: set<int>)
    requires groups != [] && DistinctVendors(groups)
    requires forall k :: 0 <= k < |groups| ==> groups[k].vendorId in VendorSet(items) && groups[k].vendorId !in vs
    requires forall k :: 0 <= k < |groups| ==> groups[k].lines == LinesOf(items, groups[k].vendorId)
    requires forall v :: v in VendorSet(items) && v !in vs ==>
      exists k :: 0 <= k < |groups| && groups[k].vendorId == v
    ensures var t, vs' := groups[1..], vs + {groups[0].vendorId};
      && (forall k :: 0 <= k < |t| ==> t[k].vendorId in VendorSet(items) && t[k].vendorId !in vs')
      && (forall k :: 0 <= k < |t| ==> t[k].lines == LinesOf(items, t[k].vendorId))
      && (forall v :: v in VendorSet(items) && v !in vs' ==> exists k :: 0 <= k < |t| && t[k].vendorId == v)
  {
    var t := groups[1..];
    var v := groups[0].vendorId;
    forall k | 0 <= k < |t|
      ensures t[k].vendorId in VendorSet(items) && t[k].vendorId !in vs + {v}
      ensures t[k].lines == LinesOf(items, t[k].vendorId)
    {
      assert t[k] == groups[k + 1];
    }
    forall w | w in VendorSet(items) && w !in vs + {v}
      ensures exists k :: 0 <= k < |t| && t[k].vendorId == w
    {
      var k :| 0 <= k < |groups| && groups[k].vendorId == w;
      assert t[k - 1] == groups[k];
    }
  }

  /** Two partitions of the same vendors are empty together. */
  lemma EmptyAvoiding(items: seq<ShoppingItem>, g1: seq<VendorGroup>, g2: seq<VendorGroup>, vs: set<int>)
    requires GroupedAvoiding(items, g1, vs) && GroupedAvoiding(items, g2, vs)
    ensures g1 == [] <==> g2 == []
  {
    if g1 != [] {
      assert g1[0].vendorId in VendorSet(items);
    }
    if g2 != [] {
      assert g2[0].vendorId in VendorSet(items);
    }
  }

  lemma {:induction false} GroupedAvoidingUnique(items: seq<ShoppingItem>, g1: seq<VendorGroup>, g2: seq<VendorGroup>, vs: set<int>)
    requires GroupedAvoiding(items, g1, vs) && GroupedAvoiding(items, g2, vs)
    ensures g1 == g2
    decreases |g1|
  {
    EmptyAvoiding(items, g1, g2, vs);
    if g1 != [] {
      SameFirstGroup(items, g1, g2, vs);
      RestGrouped(items, g1, vs);
      RestGrouped(items, g2, vs);
      GroupedAvoidingUnique(items, g1[1..], g2[1..], vs + {g1[0].vendorId});
      SameHeadAndTail(g1, g2);
    }
  }

  lemma SameHeadAndTail(g1: seq<VendorGroup>, g2: seq<VendorGroup>)
    requires g1 != [] && g2 != [] && g1[0] == g2[0] && g1[1..] == g2[1..]
    ensures g1 == g2
  {
    assert g1 == [g1[0]] + g1[1..] && g2 == [g2[0]] + g2[1..];
  }

  /** Two partitions of the same vendors start with the same group: the
      one of the earliest vendor. */
  lemma SameFirstGroup(items: seq<ShoppingItem>, g1: seq<VendorGroup>, g2: seq<VendorGroup>, vs: set<int>)
    requires GroupedAvoiding(items, g1, vs) && GroupedAvoiding(items, g2, vs)
    requires g1 != [] && g2 != []
    ensures g1[0] == g2[0]
  {
    var a := g1[0].vendorId;
    var b := g2[0].vendorId;
    FirstGroupIsEarliest(items, g1, vs, b);
    FirstGroupIsEarliest(items, g2, vs, a);
    var i := FirstIndex(items, a);
    assert i == FirstIndex(items, b);
    assert items[i].vendorId == a && items[i].vendorId == b;
  }

  /** The partition of a list of items is unique: whatever builds one, it is
      `GroupByVendor`'s result. */
  lemma GroupedUnique(items: seq<ShoppingItem>, groups: seq<VendorGroup>)
    requires Grouped(items, groups)
    ensures groups == GroupByVendor(items)
  {
    GroupedAvoidingUnique(items, groups, GroupByVendor(items), {});
  }
}
