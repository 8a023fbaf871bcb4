/** The purchase-order routes of the server: creating draft orders from a
    shopping list (one per vendor), creating one draft order directly, and
    changing an order's status. The database is a functional store: the
    orders in insertion order and the last id handed out. */
module PurchaseOrders {
  import opened Wrappers
  import opened Seqs
  import opened VendorGrouping

  /** The statuses the server writes. */
  datatype Status = Draft | Sent | Confirmed

  /** The text stored in the `status` column. */
  function StatusName(s: Status): string {
    match s
    case Draft => "draft"
    case Sent => "sent"
    case Confirmed => "confirmed"
  }

  /** The status check of `PATCH /:id/status`: a missing value is refused,
      and so is any text other than the three status names. */
  function ParseStatus(s: Option<string>): (r: Option<Status>)
    ensures r.Some? <==> s.Some? && s.value in {"draft", "sent", "confirmed"}
    ensures r.Some? ==> StatusName(r.value) == s.value
  {
    if s == Some("draft") then Some(Draft)
    else if s == Some("sent") then Some(Sent)
    else if s == Some("confirmed") then Some(Confirmed)
    else None
  }

  /** Every status is accepted under its own name, and names are distinct. */
  lemma StatusNameRoundTrip(t: Status, u: Status)
    ensures ParseStatus(Some(StatusName(t))) == Some(t)
    ensures StatusName(t) == StatusName(u) ==> t == u
  {
  }

  /** A row of `purchase_orders` together with its rows of
      `purchase_order_items`. */
  datatype PurchaseOrder = PurchaseOrder(id: nat, vendorId: int, status: Status, lines: seq<PoLine>)

  /** The orders in insertion order, and the largest id ever handed out
      (the table's `AUTOINCREMENT` counter). */
  datatype Store = Store(orders: seq<PurchaseOrder>, lastId: nat)

  /** Ids are positive, increase in insertion order, and never exceed the
      counter. */
  predicate Valid(store: Store) {
    && (forall i :: 0 <= i < |store.orders| ==> 0 < store.orders[i].id <= store.lastId)
    && (forall i, j :: 0 <= i < j < |store.orders| ==> store.orders[i].id < store.orders[j].id)
  }

  /** The refusals of the routes (HTTP 400 and 404). */
  datatype PoError = MissingShoppingListId | EmptyShoppingList | MissingVendorOrItems | InvalidStatus | NotFound

  /** `INSERT INTO purchase_orders (vendor_id, status) VALUES (?, 'draft')`
      followed by the inserts of its lines. */
  function Insert(store: Store, vendorId: int, lines: seq<PoLine>): (r: (Store, PurchaseOrder))
    ensures r.1.vendorId == vendorId && r.1.status == Draft && r.1.lines == lines
    ensures r.0.orders == store.orders + [r.1] && r.0.lastId == r.1.id == store.lastId + 1
    ensures Valid(store) ==> Valid(r.0)
    ensures Valid(store) ==> forall i :: 0 <= i < |store.orders| ==> store.orders[i].id != r.1.id
  {
    var po := PurchaseOrder(store.lastId + 1, vendorId, Draft, lines);
    (Store(store.orders + [po], po.id), po)
  }

  /** The transaction of `from-shopping-list`: one draft order per group,
      in the groups' order. */
  function InsertAll(store: Store, groups: seq<VendorGroup>): (r: (Store, seq<PurchaseOrder>))
    ensures |r.1| == |groups|
    ensures r.0.orders == store.orders + r.1
    ensures r.0.lastId == store.lastId + |groups|
    ensures forall k :: 0 <= k < |groups| ==>
      && r.1[k].id == store.lastId + k + 1
      && r.1[k].vendorId == groups[k].vendorId
      && r.1[k].lines == groups[k].lines
      && r.1[k].status == Draft
    ensures Valid(store) ==> Valid(r.0)
    decreases |groups|
  {
    if groups == [] then (store, [])
    else
      var (s1, po) := Insert(store, groups[0].vendorId, groups[0].lines);
      var (s2, rest) := InsertAll(s1, groups[1..]);
      assert s2.orders == store.orders + ([po] + rest);
      assert forall k :: 1 <= k < |groups| ==> ([po] + rest)[k] == rest[k - 1] && groups[1..][k - 1] == groups[k];
      (s2, [po] + rest)
  }

  /** The group an order stands for. */
  function GroupOf(po: PurchaseOrder): VendorGroup {
    VendorGroup(po.vendorId, po.lines)
  }

  /** `POST /from-shopping-list` for a request carrying `shoppingListId`
      (absent as `None`), where `items` is what the query returns for that
      list: the store afterwards and the orders created. A missing or zero
      id is refused first, then a list without items; otherwise the items
      are partitioned by vendor and every group becomes a draft order. */
  function FromShoppingList(store: Store, shoppingListId: Option<int>, items: seq<ShoppingItem>)
    : (r: Result<(Store, seq<PurchaseOrder>), PoError>)
    ensures shoppingListId.None? || shoppingListId.value == 0 ==> r == Failure(MissingShoppingListId)
    ensures shoppingListId.Some? && shoppingListId.value != 0 && items == [] ==> r == Failure(EmptyShoppingList)
    ensures r.Success? <==> shoppingListId.Some? && shoppingListId.value != 0 && items != []
    ensures r.Success? ==>
      var (after, created) := r.value;
      && after.orders == store.orders + created
      && Grouped(items, Map(GroupOf, created))
      && (forall k :: 0 <= k < |created| ==> created[k].status == Draft && created[k].id == store.lastId + k + 1)
      && (Valid(store) ==> Valid(after))
  {
    if shoppingListId.None? || shoppingListId.value == 0 then Failure(MissingShoppingListId)
    else if items == [] then Failure(EmptyShoppingList)
    else
      var groups := GroupByVendor(items);
      var r := InsertAll(store, groups);
      assert Map(GroupOf, r.1) == groups;
      Success(r)
  }

  /** The orders created from a shopping list are the partition of its items
      by vendor: as many as there are vendors, and their lines together are
      the items' lines, each exactly once. */
  lemma FromShoppingListPartitions(store: Store, shoppingListId: Option<int>, items: seq<ShoppingItem>)
    requires FromShoppingList(store, shoppingListId, items).Success?
    ensures var created := FromShoppingList(store, shoppingListId, items).value.1;
      && |created| == |VendorSet(items)|
      && multiset(Flatten(Map(GroupOf, created))) == multiset(Map(ToLine, items))
  {
    var created := FromShoppingList(store, shoppingListId, items).value.1;
    var groups := Map(GroupOf, created);
    GroupedUnique(items, groups);
    GroupingPermutes(items);
    GroupCount(items, groups);
  }

  /** A partition has one group per vendor. */
  lemma GroupCount(items: seq<ShoppingItem>, groups: seq<VendorGroup>)
    requires Grouped(items, groups)
    ensures |groups| == |VendorSet(items)|
  {
    DistinctCount(groups, VendorSet(items));
  }

  function VendorOf(g: VendorGroup): int {
    g.vendorId
  }

  /** Groups of distinct vendors, covering exactly the vendors `vs`, number
      as many as the vendors. */
  lemma DistinctCount(groups: seq<VendorGroup>, vs: set<int>)
    requires DistinctVendors(groups)
    requires forall k :: 0 <= k < |groups| ==> groups[k].vendorId in vs
    requires forall v :: v in vs ==> exists k :: 0 <= k < |groups| && groups[k].vendorId == v
    ensures |groups| == |vs|
  {
    assert DistinctKeys(VendorOf, groups);
    forall v | v in vs
      ensures HasKey(VendorOf, groups, v)
    {
      var k :| 0 <= k < |groups| && groups[k].vendorId == v;
      assert VendorOf(groups[k]) == v;
    }
    SelectByKeyCount(VendorOf, groups, vs);
    FilterKeepsAll(KeyIn(VendorOf, vs), groups);
  }

  /** `POST /` with `vendorId` and `items` (each absent as `None`): a missing
      or zero vendor id, or a missing or empty item list, is refused;
      otherwise one draft order with those lines is created. */
  function CreatePo(store: Store, vendorId: Option<int>, items: Option<seq<PoLine>>)
    : (r: Result<(Store, PurchaseOrder), PoError>)
    ensures r.Failure? ==> r.error == MissingVendorOrItems
    ensures r.Success? <==> vendorId.Some? && vendorId.value != 0 && items.Some? && items.value != []
    ensures r.Success? ==>
      var (after, po) := r.value;
      && after.orders == store.orders + [po]
      && po == PurchaseOrder(store.lastId + 1, vendorId.value, Draft, items.value)
      && (Valid(store) ==> Valid(after))
  {
    if vendorId.None? || vendorId.value == 0 || items.None? || items.value == [] then
      Failure(MissingVendorOrItems)
    else
      Success(Insert(store, vendorId.value, items.value))
  }

  /** The position of the order with id `id`, if any. */
  function FindById(orders: seq<PurchaseOrder>, id: int): (r: Option<nat>)
    ensures r.None? <==> forall i :: 0 <= i < |orders| ==> orders[i].id != id
    ensures r.Some? ==> r.value < |orders| && orders[r.value].id == id
    ensures r.Some? ==> forall i :: 0 <= i < r.value ==> orders[i].id != id
  {
    if orders == [] then None
    else if orders[0].id == id then Some(0)
    else
      var r := FindById(orders[1..], id);
      if r.Some? then Some(r.value + 1) else None
  }

  /** `UPDATE purchase_orders SET status = ? WHERE id = ?`. */
  function SetStatus(orders: seq<PurchaseOrder>, id: int, t: Status): seq<PurchaseOrder> {
    Map((po: PurchaseOrder) => if po.id == id then po.(status := t) else po, orders)
  }

  /** `PATCH /:id/status` with body field `status` (absent as `None`): the
      status is checked first, whatever the order; then an id matching no
      order is refused. Otherwise that order, and nothing else, takes the
      new status, whatever its current one, and is returned. */
  function UpdateStatus(store: Store, id: int, status: Option<string>)
    : (r: Result<(Store, PurchaseOrder), PoError>)
    ensures ParseStatus(status).None? ==> r == Failure(InvalidStatus)
    ensures ParseStatus(status).Some? && FindById(store.orders, id).None? ==> r == Failure(NotFound)
    ensures r.Success? <==> ParseStatus(status).Some? && exists i :: 0 <= i < |store.orders| && store.orders[i].id == id
    ensures r.Success? ==>
      var (after, po) := r.value;
      && po.id == id && StatusName(po.status) == status.value
      && after.lastId == store.lastId
      && |after.orders| == |store.orders|
      && (forall i :: 0 <= i < |store.orders| ==>
            && after.orders[i].id == store.orders[i].id
            && after.orders[i].vendorId == store.orders[i].vendorId
            && after.orders[i].lines == store.orders[i].lines
            && (store.orders[i].id == id ==> after.orders[i].status == po.status)
            && (store.orders[i].id != id ==> after.orders[i] == store.orders[i]))
  {
    match ParseStatus(status)
    case None => Failure(InvalidStatus)
    case Some(t) =>
      match FindById(store.orders, id)
      case None => Failure(NotFound)
      case Some(i) =>
        var orders := SetStatus(store.orders, id, t);
        Success((Store(orders, store.lastId), orders[i]))
  }

  /** A status update keeps a valid store valid. */
  lemma UpdateKeepsValid(store: Store, id: int, status: Option<string>)
    requires Valid(store)
    requires UpdateStatus(store, id, status).Success?
    ensures Valid(UpdateStatus(store, id, status).value.0)
  {
  }

  /** Setting the same status twice is setting it once. */
  lemma UpdateIdempotent(store: Store, id: int, status: Option<string>)
    requires UpdateStatus(store, id, status).Success?
    ensures var once := UpdateStatus(store, id, status).value;
      UpdateStatus(once.0, id, status) == Success(once)
  {
    var t := ParseStatus(status).value;
    var i := FindById(store.orders, id).value;
    var orders := SetStatus(store.orders, id, t);
    SetStatusTwice(store.orders, id, t);
    SetStatusKeepsIds(store.orders, id, t);
    assert FindById(orders, id) == Some(i);
  }

  lemma SetStatusTwice(orders: seq<PurchaseOrder>, id: int, t: Status)
    ensures SetStatus(SetStatus(orders, id, t), id, t) == SetStatus(orders, id, t)
  {
  }

  /** Setting a status leaves every id where it was. */
  lemma {:induction false} SetStatusKeepsIds(orders: seq<PurchaseOrder>, id: int, t: Status)
    ensures FindById(SetStatus(orders, id, t), id) == FindById(orders, id)
  {
    if orders != [] {
      SetStatusKeepsIds(orders[1..], id, t);
      assert SetStatus(orders, id, t)[1..] == SetStatus(orders[1..], id, t);
    }
  }

  /** Any order can go from any status to any status, backwards included. */
  lemma AnyTransition(store: Store, i: nat, t: Status)
    requires i < |store.orders|
    ensures UpdateStatus(store, store.orders[i].id, Some(StatusName(t))).Success?
    ensures UpdateStatus(store, store.orders[i].id, Some(StatusName(t))).value.1.status == t
  {
    StatusNameRoundTrip(t, t);
  }
}
