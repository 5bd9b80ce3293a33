/**
 * The database the handlers read and write through SQLAlchemy sessions:
 * one map per table, keyed by primary key, plus the order-items table as a
 * sequence of rows in insertion order. Sessions, flushes and SQL are not
 * modelled; a method here is one committed unit of work.
 */
module Store {
  import opened Wrappers
  import opened Schema
  import Cart

  /** The lines stored for order `orderId`, in insertion order (`order.items`). */
  function LinesOf(rows: seq<OrderItem>, orderId: int): seq<Cart.Line>
  {
    if rows == [] then []
    else
      (if rows[0].orderId == orderId
       then [Cart.Line(rows[0].itemName, rows[0].quantity, rows[0].price)]
       else [])
      + LinesOf(rows[1..], orderId)
  }

  /** One `OrderItem` row per line, all for order `orderId`. */
  function Snapshot(orderId: int, lines: seq<Cart.Line>): (rows: seq<OrderItem>)
    ensures |rows| == |lines|
    ensures forall i :: 0 <= i < |rows| ==>
      rows[i] == OrderItem(orderId, lines[i].name, lines[i].quantity, lines[i].price)
  {
    if lines == [] then []
    else [OrderItem(orderId, lines[0].name, lines[0].quantity, lines[0].price)] + Snapshot(orderId, lines[1..])
  }

  lemma {:induction false} LinesOfAppend(a: seq<OrderItem>, b: seq<OrderItem>, orderId: int)
    ensures LinesOf(a + b, orderId) == LinesOf(a, orderId) + LinesOf(b, orderId)
  {
    if a != [] {
      assert (a + b)[0] == a[0] && (a + b)[1..] == a[1..] + b;
      LinesOfAppend(a[1..], b, orderId);
    } else {
      assert a + b == b;
    }
  }

  /** Reading back the rows written for an order gives exactly its lines; other orders see none of them. */
  lemma {:induction false} LinesOfSnapshot(orderId: int, lines: seq<Cart.Line>, k: int)
    ensures LinesOf(Snapshot(orderId, lines), k) == if k == orderId then lines else []
  {
    if lines != [] {
      var rows := Snapshot(orderId, lines);
      assert rows[1..] == Snapshot(orderId, lines[1..]);
      LinesOfSnapshot(orderId, lines[1..], k);
    }
  }

  lemma {:induction false} LinesOfAbsent(rows: seq<OrderItem>, orderId: int)
    requires forall i :: 0 <= i < |rows| ==> rows[i].orderId != orderId
    ensures LinesOf(rows, orderId) == []
  {
    if rows != [] {
      LinesOfAbsent(rows[1..], orderId);
    }
  }

  /** Rows appended for a fresh order read back as exactly that order's lines. */
  lemma LinesOfPlaced(rows: seq<OrderItem>, orderId: int, lines: seq<Cart.Line>)
    requires forall i :: 0 <= i < |rows| ==> rows[i].orderId != orderId
    ensures LinesOf(rows + Snapshot(orderId, lines), orderId) == lines
  {
    LinesOfAbsent(rows, orderId);
    LinesOfSnapshot(orderId, lines, orderId);
    LinesOfAppend(rows, Snapshot(orderId, lines), orderId);
    assert [] + lines == lines;
  }

  lemma SnapshotAppend(orderId: int, a: seq<Cart.Line>, b: seq<Cart.Line>)
    ensures Snapshot(orderId, a + b) == Snapshot(orderId, a) + Snapshot(orderId, b)
  {
  }

  /** Every order line belongs to an existing order. */
  predicate RowsOwned(orders: map<int, Order>, rows: seq<OrderItem>)
  {
    forall i :: 0 <= i < |rows| ==> rows[i].orderId in orders
  }

  /** Every order's recorded total is the sum of its own lines. */
  predicate TotalsMatch(orders: map<int, Order>, rows: seq<OrderItem>)
  {
    forall k :: k in orders ==> orders[k].totalPrice == Cart.LinesTotal(LinesOf(rows, k))
  }

  /**
   * Adding an order under a fresh id together with its lines keeps every
   * recorded total equal to the sum of its lines, the new one included.
   */
  lemma AddOrderKeepsTotals(orders: map<int, Order>, rows: seq<OrderItem>, id: int, order: Order, lines: seq<Cart.Line>)
    requires RowsOwned(orders, rows) && TotalsMatch(orders, rows)
    requires id !in orders
    requires order.totalPrice == Cart.LinesTotal(lines)
    ensures RowsOwned(orders[id := order], rows + Snapshot(id, lines))
    ensures TotalsMatch(orders[id := order], rows + Snapshot(id, lines))
  {
    var orders' := orders[id := order];
    var rows' := rows + Snapshot(id, lines);
    forall k | k in orders'
      ensures orders'[k].totalPrice == Cart.LinesTotal(LinesOf(rows', k))
    {
      LinesOfAppend(rows, Snapshot(id, lines), k);
      LinesOfSnapshot(id, lines, k);
      if k == id {
        LinesOfAbsent(rows, id);
        assert LinesOf(rows, id) + lines == lines;
      } else {
        assert LinesOf(rows, k) + [] == LinesOf(rows, k);
      }
    }
  }

  /** `order.status = s` for an existing order; an unknown id changes nothing. */
  function WithStatus(orders: map<int, Order>, id: int, s: string): (r: map<int, Order>)
    ensures r.Keys == orders.Keys
    ensures id in orders ==> r[id] == Order(orders[id].userId, s, orders[id].totalPrice)
    ensures forall k :: k in orders && k != id ==> r[k] == orders[k]
  {
    if id in orders then orders[id := orders[id].(status := s)] else orders
  }

  /** Two status writes to one order: the second wins, whatever the first was. */
  lemma LastStatusWins(orders: map<int, Order>, id: int, s1: string, s2: string)
    ensures WithStatus(WithStatus(orders, id, s1), id, s2) == WithStatus(orders, id, s2)
  {
  }

  /** Any status can be written over any other, a terminal one included. */
  lemma StatusWriteIsUnguarded(orders: map<int, Order>, id: int, s: string)
    requires id in orders && orders[id].status in {COMPLETED, CANCELLED}
    ensures WithStatus(orders, id, s)[id].status == s
  {
  }

  /**
   * The ids of `m` satisfying `p`, ascending: the rows of a query, in the
   * primary-key order of a plain table scan. `next` bounds the keys.
   */
  method SelectKeys<V>(m: map<int, V>, p: int -> bool, next: int) returns (ids: seq<int>)
    requires forall k :: k in m ==> 1 <= k < next
    ensures forall i, j :: 0 <= i < j < |ids| ==> ids[i] < ids[j]
    ensures forall k :: k in ids <==> k in m && p(k)
  {
    ids := [];
    var k := 1;
    while k < next
      invariant 1 <= k && (k <= next || ids == [])
      invariant forall i, j :: 0 <= i < j < |ids| ==> ids[i] < ids[j]
      invariant forall i :: 0 <= i < |ids| ==> ids[i] < k
      invariant forall j :: j in ids <==> j in m && j < k && p(j)
    {
      if k in m && p(k) {
        ids := ids + [k];
      }
      k := k + 1;
    }
  }

  /** Distinct ids listed in ascending order number exactly as many as the set they list. */
  lemma {:induction false} AscendingCount(ids: seq<int>, s: set<int>)
    requires forall i, j :: 0 <= i < j < |ids| ==> ids[i] < ids[j]
    requires forall k :: k in ids <==> k in s
    ensures |s| == |ids|
  {
    if ids == [] {
      assert forall k :: k !in s;
      assert s == {};
    } else {
      var rest := s - {ids[0]};
      forall k
        ensures k in ids[1..] <==> k in rest
      {
        if k in ids[1..] {
          var j :| 0 <= j < |ids[1..]| && ids[1..][j] == k;
          assert ids[j + 1] == k;
        }
        if k in rest {
          var j :| 0 <= j < |ids| && ids[j] == k;
          assert j != 0;
          assert ids[1..][j - 1] == k;
        }
      }
      AscendingCount(ids[1..], rest);
    }
  }

  /**
   * `.order_by(Order.created_at.desc()).limit(n)`: the last `n` of an
   * ascending id list, newest first. Ids are handed out in creation order.
   */
  function Latest(ids: seq<int>, n: nat): (r: seq<int>)
    ensures |r| == if |ids| < n then |ids| else n
    ensures forall i :: 0 <= i < |r| ==> r[i] == ids[|ids| - 1 - i]
  {
    if ids == [] || n == 0 then [] else [ids[|ids| - 1]] + Latest(ids[..|ids| - 1], n - 1)
  }

  /**
   * From an ascending list, `Latest` keeps strictly descending ids, and every
   * id it drops is older than every id it keeps.
   */
  lemma LatestAreNewest(ids: seq<int>, n: nat)
    requires forall i, j :: 0 <= i < j < |ids| ==> ids[i] < ids[j]
    ensures var r := Latest(ids, n);
            && (forall i, j :: 0 <= i < j < |r| ==> r[i] > r[j])
            && (forall k :: k in r ==> k in ids)
            && (forall k, i :: k in ids && k !in r && 0 <= i < |r| ==> k < r[i])
  {
    var r := Latest(ids, n);
    forall m | |ids| - |r| <= m < |ids|
      ensures ids[m] in r
    {
      assert r[|ids| - 1 - m] == ids[m];
    }
    forall k, i | k in ids && k !in r && 0 <= i < |r|
      ensures k < r[i]
    {
      var j :| 0 <= j < |ids| && ids[j] == k;
      assert j < |ids| - |r|;
    }
  }

  class Db {
    var categories: map<int, Category>
    var items: map<int, MenuItem>
    var users: map<int, User>
    var orders: map<int, Order>
    var orderItems: seq<OrderItem>
    /** The next free primary keys of `categories`, `menu_items` and `orders`. */
    var nextCategoryId: int
    var nextItemId: int
    var nextOrderId: int

    /**
     * Keys are positive and below the next free key, every order line belongs
     * to an existing order, and every order's total is the sum of its lines.
     * The catalog (`items`) does not occur in the last clause: later catalog
     * edits cannot change a recorded order.
     */
    ghost predicate Valid()
      reads this
    {
      && nextCategoryId >= 1 && nextItemId >= 1 && nextOrderId >= 1
      && (forall k :: k in categories ==> 1 <= k < nextCategoryId)
      && (forall k :: k in items ==> 1 <= k < nextItemId)
      && (forall k :: k in orders ==> 1 <= k < nextOrderId)
      && RowsOwned(orders, orderItems)
      && TotalsMatch(orders, orderItems)
    }

    /** A database holding a seeded catalog and nothing else. */
    constructor (categories: map<int, Category>, nextCategoryId: int, items: map<int, MenuItem>, nextItemId: int)
      requires nextCategoryId >= 1 && nextItemId >= 1
      requires forall k :: k in categories ==> 1 <= k < nextCategoryId
      requires forall k :: k in items ==> 1 <= k < nextItemId
      ensures Valid()
      ensures this.categories == categories && this.nextCategoryId == nextCategoryId
      ensures this.items == items && this.nextItemId == nextItemId
      ensures users == map[] && orders == map[] && orderItems == [] && nextOrderId == 1
    {
      this.categories := categories;
      this.nextCategoryId := nextCategoryId;
      this.items := items;
      this.nextItemId := nextItemId;
      users := map[];
      orders := map[];
      orderItems := [];
      nextOrderId := 1;
    }

    predicate HasSubcategories(id: int)
      reads this
    {
      exists k :: k in categories && categories[k].parentId == Some(id)
    }

    /** `Category.parent_id.is_(None)`: the top-level categories. */
    method RootCategories() returns (ids: seq<int>)
      requires Valid()
      ensures forall i, j :: 0 <= i < j < |ids| ==> ids[i] < ids[j]
      ensures forall k :: k in ids <==> k in categories && categories[k].parentId.None?
    {
      var cats := categories;
      ids := SelectKeys(cats, k => k in cats && cats[k].parentId.None?, nextCategoryId);
    }

    /** `category.subcategories`. */
    method Subcategories(parent: int) returns (ids: seq<int>)
      requires Valid()
      ensures forall i, j :: 0 <= i < j < |ids| ==> ids[i] < ids[j]
      ensures forall k :: k in ids <==> k in categories && categories[k].parentId == Some(parent)
    {
      var cats := categories;
      ids := SelectKeys(cats, k => k in cats && cats[k].parentId == Some(parent), nextCategoryId);
    }

    /** `category.items`. */
    method ItemsIn(category: int) returns (ids: seq<int>)
      requires Valid()
      ensures forall i, j :: 0 <= i < j < |ids| ==> ids[i] < ids[j]
      ensures forall k :: k in ids <==> k in items && items[k].categoryId == category
    {
      var its := items;
      ids := SelectKeys(its, k => k in its && its[k].categoryId == category, nextItemId);
    }

    /** `~Category.subcategories.any()`: the categories nothing hangs under. */
    method LeafCategories() returns (ids: seq<int>)
      requires Valid()
      ensures forall i, j :: 0 <= i < j < |ids| ==> ids[i] < ids[j]
      ensures forall k :: k in ids <==> k in categories && !HasSubcategories(k)
    {
      var cats := categories;
      ids := SelectKeys(cats, k => k in cats && !(exists j :: j in cats && cats[j].parentId == Some(k)), nextCategoryId);
    }

    /** `Order.status == s`. */
    method OrdersWithStatus(s: string) returns (ids: seq<int>)
      requires Valid()
      ensures forall i, j :: 0 <= i < j < |ids| ==> ids[i] < ids[j]
      ensures forall k :: k in ids <==> k in orders && orders[k].status == s
    {
      var os := orders;
      ids := SelectKeys(os, k => k in os && os[k].status == s, nextOrderId);
    }

    /** `Order.user_id == userId`. */
    method OrdersOf(userId: int) returns (ids: seq<int>)
      requires Valid()
      ensures forall i, j :: 0 <= i < j < |ids| ==> ids[i] < ids[j]
      ensures forall k :: k in ids <==> k in orders && orders[k].userId == userId
    {
      var os := orders;
      ids := SelectKeys(os, k => k in os && os[k].userId == userId, nextOrderId);
    }

    /** Every order. */
    method AllOrders() returns (ids: seq<int>)
      requires Valid()
      ensures forall i, j :: 0 <= i < j < |ids| ==> ids[i] < ids[j]
      ensures forall k :: k in ids <==> k in orders
    {
      var os := orders;
      ids := SelectKeys(os, k => k in os, nextOrderId);
    }

    /** `/start`: the user row is created on first contact and never changed afterwards. */
    method EnsureUser(id: int, username: Option<string>, firstName: string)
      requires Valid()
      modifies this
      ensures Valid()
      ensures users == if id in old(users) then old(users) else old(users)[id := User(username, firstName)]
      ensures categories == old(categories) && items == old(items) && orders == old(orders)
      ensures orderItems == old(orderItems)
      ensures nextCategoryId == old(nextCategoryId) && nextItemId == old(nextItemId) && nextOrderId == old(nextOrderId)
    {
      if id !in users {
        users := users[id := User(username, firstName)];
      }
    }

    /** `db.add(MenuItem(...))`: a new item under a fresh id. */
    method AddMenuItem(item: MenuItem) returns (id: int)
      requires Valid()
      modifies this
      ensures Valid()
      ensures id == old(nextItemId) && id !in old(items) && nextItemId == id + 1
      ensures items == old(items)[id := item]
      ensures categories == old(categories) && users == old(users) && orders == old(orders)
      ensures orderItems == old(orderItems) && nextCategoryId == old(nextCategoryId) && nextOrderId == old(nextOrderId)
    {
      id := nextItemId;
      items := items[id := item];
      nextItemId := nextItemId + 1;
    }

    /**
     * The `confirm_order` transaction: one order with status NEW and the cart
     * total, then one order line per cart line whose item still exists, copying
     * the item's current name and price, all committed together.
     */
    method PlaceOrder(userId: int, cart: seq<Cart.CartLine>) returns (id: int)
      requires Valid()
      modifies this
      ensures Valid()
      ensures id == old(nextOrderId) && id !in old(orders) && nextOrderId == id + 1
      ensures orders == old(orders)[id := Order(userId, NEW, Cart.Total(cart, old(items)))]
      ensures orderItems == old(orderItems) + Snapshot(id, Cart.Resolve(cart, old(items)))
      ensures categories == old(categories) && items == old(items) && users == old(users)
      ensures nextCategoryId == old(nextCategoryId) && nextItemId == old(nextItemId)
    {
      var total := Cart.Total(cart, items);
      id := nextOrderId;
      var rows := SnapshotRows(id, cart);
      Cart.TotalIsLinesTotal(cart, items);
      AddOrderKeepsTotals(orders, orderItems, id, Order(userId, NEW, total), Cart.Resolve(cart, items));
      orders := orders[id := Order(userId, NEW, total)];
      orderItems := orderItems + rows;
      nextOrderId := nextOrderId + 1;
    }

    /**
     * The loop of `confirm_order` that stages one `OrderItem` per cart line
     * whose item still resolves, copying its name and price.
     */
    method SnapshotRows(orderId: int, cart: seq<Cart.CartLine>) returns (rows: seq<OrderItem>)
      ensures rows == Snapshot(orderId, Cart.Resolve(cart, items))
    {
      rows := [];
      var i := 0;
      while i < |cart|
        invariant 0 <= i <= |cart|
        invariant rows == Snapshot(orderId, Cart.Resolve(cart[..i], items))
      {
        var line := cart[i];
        Cart.ResolveAppend(cart[..i], [line], items);
        assert cart[..i + 1] == cart[..i] + [line];
        if line.itemId in items {
          var item := items[line.itemId];
          SnapshotAppend(orderId, Cart.Resolve(cart[..i], items), [Cart.Line(item.name, line.quantity, item.price)]);
          rows := rows + [OrderItem(orderId, item.name, line.quantity, item.price)];
        } else {
          assert Cart.Resolve(cart[..i + 1], items) == Cart.Resolve(cart[..i], items);
        }
        i := i + 1;
      }
      assert cart[..i] == cart;
    }

    /** `order.status = s` (the `admin_status_<id>_<s>` token); reports whether the order exists. */
    method SetStatus(id: int, s: string) returns (found: bool)
      requires Valid()
      modifies this
      ensures Valid()
      ensures found == (id in old(orders))
      ensures orders == WithStatus(old(orders), id, s)
      ensures categories == old(categories) && items == old(items) && users == old(users)
      ensures orderItems == old(orderItems)
      ensures nextCategoryId == old(nextCategoryId) && nextItemId == old(nextItemId) && nextOrderId == old(nextOrderId)
    {
      found := id in orders;
      if found {
        orders := orders[id := orders[id].(status := s)];
      }
    }
  }
}
