/**
 * The callback-token vocabulary: the f-strings keyboards.py writes into
 * `callback_data`, and the way `button_handler` in bot.py reads a token back
 * (string equality, `startswith`, `split('_')` and `int()`).
 */
module Tokens {
  import opened Wrappers
  import opened Text

  function CategoryToken(id: int): string { "category_" + IntToString(id) }
  function ItemToken(id: int): string { "item_" + IntToString(id) }
  function ItemBackToken(id: int): string { "item_back_" + IntToString(id) }
  function ItemDecrToken(id: int, q: int): string { "item_decr_" + IntToString(id) + "_" + IntToString(q) }
  function ItemIncrToken(id: int, q: int): string { "item_incr_" + IntToString(id) + "_" + IntToString(q) }
  function CartAddManyToken(id: int, q: int): string { "cart_add_many_" + IntToString(id) + "_" + IntToString(q) }
  function AdminStatusToken(orderId: int, status: string): string { "admin_status_" + IntToString(orderId) + "_" + status }
  function AdminViewOrdersToken(filter: string): string { "admin_view_orders_" + filter }

  /** What `button_handler` makes of a token. */
  datatype Action =
    | AdminAddItem                           // answered and dropped before anything else
    | Start
    | StartUserMenu
    | ShowMenu
    | OpenCategory(categoryId: int)
    | ViewItem(itemId: int)
    | ItemBack(itemId: int)
    | Step(itemId: int, quantity: int)       // item_incr_ and item_decr_ alike
    | AddMany(itemId: int, quantity: int)
    | Noop
    | ShowCart
    | ClearCart
    | PlaceOrder
    | ConfirmOrder
    | MyOrders
    | AdminPanel
    | ViewOrders(filter: string)
    | SetStatus(orderId: int, status: string)
    | Malformed                              // int(), indexing or unpacking raised
    | Ignored                                // no branch does anything with it

  /** The branch of `button_handler` a token reaches, with the values it reads from it. */
  function Parse(data: string): Action
  {
    if data == "admin_add_item" then AdminAddItem
    else if data == "start" then Start
    else if data == "start_user_menu" then StartUserMenu
    else if data == "show_menu" then ShowMenu
    else if StartsWith(data, "category_") then CategoryBranch(Split(data, '_'))
    else if StartsWith(data, "item_") then ItemBranch(Split(data, '_'))
    else if StartsWith(data, "cart_") then CartBranch(Split(data, '_'))
    else if data == "noop" then Noop
    else if data == "cart" then ShowCart
    else if data == "clear_cart" then ClearCart
    else if data == "place_order" then PlaceOrder
    else if data == "confirm_order" then ConfirmOrder
    else if data == "my_orders" then MyOrders
    else if data == "admin_panel" then AdminPanel
    else if StartsWith(data, "admin_view_orders_") then ViewOrdersBranch(Split(data, '_'))
    else if StartsWith(data, "admin_status_") then StatusBranch(Split(data, '_'))
    else Ignored
  }

  /** `category_`: the second part is the category id. */
  function CategoryBranch(parts: seq<string>): Action
  {
    if |parts| < 2 then Malformed
    else
      match ParseInt(parts[1])
      case Some(id) => OpenCategory(id)
      case None => Malformed
  }

  /** `item_<id>`, `item_back_<id>`, `item_incr_<id>_<q>` and `item_decr_<id>_<q>`. */
  function ItemBranch(parts: seq<string>): Action
  {
    if |parts| == 2 then
      match ParseInt(parts[1])
      case Some(id) => ViewItem(id)
      case None => Malformed
    else if |parts| == 3 && parts[1] == "back" then
      match ParseInt(parts[2])
      case Some(id) => ItemBack(id)
      case None => Malformed
    else if |parts| == 4 && (parts[1] == "incr" || parts[1] == "decr") then
      match ParseInt(parts[2])
      case None => Malformed
      case Some(id) =>
        match ParseInt(parts[3])
        case None => Malformed
        case Some(q) => Step(id, q)
    else Ignored
  }

  /** `cart_add_many_<id>_<q>`; parts are read by index, so a short token raises. */
  function CartBranch(parts: seq<string>): Action
  {
    if |parts| < 2 || parts[1] != "add" then Ignored
    else if |parts| < 3 then Malformed
    else if parts[2] != "many" then Ignored
    else if |parts| < 5 then Malformed
    else
      match ParseInt(parts[3])
      case None => Malformed
      case Some(id) =>
        match ParseInt(parts[4])
        case None => Malformed
        case Some(q) => AddMany(id, q)
  }

  /** `admin_view_orders_<filter>`: the filter is the last part. */
  function ViewOrdersBranch(parts: seq<string>): Action
  {
    if |parts| == 0 then Malformed else ViewOrders(parts[|parts| - 1])
  }

  /** `admin_status_<id>_<status>`: the token must unpack into exactly four parts. */
  function StatusBranch(parts: seq<string>): Action
  {
    if |parts| != 4 then Malformed
    else
      match ParseInt(parts[2])
      case Some(id) => SetStatus(id, parts[3])
      case None => Malformed
  }

  /** Two strings that differ at some position are different and neither starts with the other. */
  lemma DiffersAt(t: string, p: string, i: nat)
    requires i < |t| && i < |p| && t[i] != p[i]
    ensures t != p && !StartsWith(t, p)
  {
    if |p| <= |t| {
      assert t[..|p|][i] == t[i];
    }
  }

  /** One step of `'_'.join`: the first piece, the separator, then the rest joined. */
  lemma JoinCons(head: string, rest: seq<string>)
    requires |rest| >= 1
    ensures Join([head] + rest, '_') == head + "_" + Join(rest, '_')
  {
    assert ([head] + rest)[1..] == rest;
  }

  /** Token pieces that hold no separator, so that `split('_')` finds them again. */
  lemma PiecesSplit(pieces: seq<string>, text: string)
    requires |pieces| >= 1
    requires forall i :: 0 <= i < |pieces| ==> '_' !in pieces[i]
    requires text == Join(pieces, '_')
    ensures Split(text, '_') == pieces
  {
    SplitJoin(pieces, '_');
  }

  lemma CategoryTokenSplit(id: int)
    ensures Split(CategoryToken(id), '_') == ["category", IntToString(id)]
  {
    var n := IntToString(id);
    IntToStringHasNoSeparator(id);
    JoinCons("category", [n]);
    assert ["category", n] == ["category"] + [n];
    PiecesSplit(["category", n], CategoryToken(id));
  }

  lemma {:induction false} ParseCategoryToken(id: int)
    ensures Parse(CategoryToken(id)) == OpenCategory(id)
  {
    var t := CategoryToken(id);
    CategoryTokenSplit(id);
    ParseIntRoundTrip(id);
    CategoryTokenReachesBranch(t);
  }

  /** The branches before `item_` do not catch a token with that prefix. */
  lemma ItemTokenReachesBranch(t: string)
    requires StartsWith(t, "item_")
    ensures Parse(t) == ItemBranch(Split(t, '_'))
  {
    assert t[..5] == "item_";
    DiffersAt(t, "admin_add_item", 0);
    DiffersAt(t, "start", 0);
    DiffersAt(t, "show_menu", 0);
    DiffersAt(t, "category_", 0);
  }

  lemma ItemTokenSplit(id: int)
    ensures Split(ItemToken(id), '_') == ["item", IntToString(id)]
  {
    var n := IntToString(id);
    IntToStringHasNoSeparator(id);
    JoinCons("item", [n]);
    assert ["item", n] == ["item"] + [n];
    PiecesSplit(["item", n], ItemToken(id));
  }

  lemma {:induction false} ParseItemToken(id: int)
    ensures Parse(ItemToken(id)) == ViewItem(id)
  {
    var t := ItemToken(id);
    ItemTokenSplit(id);
    ParseIntRoundTrip(id);
    ItemTokenReachesBranch(t);
  }

  lemma ItemBackTokenSplit(id: int)
    ensures Split(ItemBackToken(id), '_') == ["item", "back", IntToString(id)]
  {
    var n := IntToString(id);
    IntToStringHasNoSeparator(id);
    JoinCons("back", [n]);
    JoinCons("item", ["back", n]);
    assert ["item", "back", n] == ["item"] + ["back", n];
    assert ["back", n] == ["back"] + [n];
    PiecesSplit(["item", "back", n], ItemBackToken(id));
  }

  lemma {:induction false} ParseItemBackToken(id: int)
    ensures Parse(ItemBackToken(id)) == ItemBack(id)
  {
    var t := ItemBackToken(id);
    ItemBackTokenSplit(id);
    ParseIntRoundTrip(id);
    ItemTokenReachesBranch(t);
  }

  lemma ItemDecrTokenSplit(id: int, q: int)
    ensures Split(ItemDecrToken(id, q), '_') == ["item", "decr", IntToString(id), IntToString(q)]
  {
    var n := IntToString(id);
    var m := IntToString(q);
    IntToStringHasNoSeparator(id);
    IntToStringHasNoSeparator(q);
    JoinCons(n, [m]);
    JoinCons("decr", [n, m]);
    JoinCons("item", ["decr", n, m]);
    assert ["item", "decr", n, m] == ["item"] + ["decr", n, m];
    assert ["decr", n, m] == ["decr"] + [n, m];
    assert [n, m] == [n] + [m];
    PiecesSplit(["item", "decr", n, m], ItemDecrToken(id, q));
  }

  lemma ItemIncrTokenSplit(id: int, q: int)
    ensures Split(ItemIncrToken(id, q), '_') == ["item", "incr", IntToString(id), IntToString(q)]
  {
    var n := IntToString(id);
    var m := IntToString(q);
    IntToStringHasNoSeparator(id);
    IntToStringHasNoSeparator(q);
    JoinCons(n, [m]);
    JoinCons("incr", [n, m]);
    JoinCons("item", ["incr", n, m]);
    assert ["item", "incr", n, m] == ["item"] + ["incr", n, m];
    assert ["incr", n, m] == ["incr"] + [n, m];
    assert [n, m] == [n] + [m];
    PiecesSplit(["item", "incr", n, m], ItemIncrToken(id, q));
  }

  lemma StepperBranch(verb: string, id: int, q: int)
    requires verb == "incr" || verb == "decr"
    ensures ItemBranch(["item", verb, IntToString(id), IntToString(q)]) == Step(id, q)
  {
    ParseIntRoundTrip(id);
    ParseIntRoundTrip(q);
  }

  /** Both stepper tokens name the item and the quantity to show next. */
  lemma {:induction false} ParseStepperTokens(id: int, q: int)
    ensures Parse(ItemDecrToken(id, q)) == Step(id, q)
    ensures Parse(ItemIncrToken(id, q)) == Step(id, q)
  {
    var d := ItemDecrToken(id, q);
    ItemDecrTokenSplit(id, q);
    StepperBranch("decr", id, q);
    ItemTokenReachesBranch(d);
    var u := ItemIncrToken(id, q);
    ItemIncrTokenSplit(id, q);
    StepperBranch("incr", id, q);
    ItemTokenReachesBranch(u);
  }

  /** The branches before `cart_` do not catch a token with that prefix. */
  lemma CartTokenReachesBranch(t: string)
    requires StartsWith(t, "cart_")
    ensures Parse(t) == CartBranch(Split(t, '_'))
  {
    assert t[..5] == "cart_";
    DiffersAt(t, "admin_add_item", 0);
    DiffersAt(t, "start", 0);
    DiffersAt(t, "show_menu", 0);
    DiffersAt(t, "category_", 2);
    DiffersAt(t, "item_", 0);
  }

  lemma CartAddManyTokenSplit(id: int, q: int)
    ensures Split(CartAddManyToken(id, q), '_') == ["cart", "add", "many", IntToString(id), IntToString(q)]
  {
    var n := IntToString(id);
    var m := IntToString(q);
    IntToStringHasNoSeparator(id);
    IntToStringHasNoSeparator(q);
    JoinCons(n, [m]);
    JoinCons("many", [n, m]);
    JoinCons("add", ["many", n, m]);
    JoinCons("cart", ["add", "many", n, m]);
    assert ["cart", "add", "many", n, m] == ["cart"] + ["add", "many", n, m];
    assert ["add", "many", n, m] == ["add"] + ["many", n, m];
    assert ["many", n, m] == ["many"] + [n, m];
    assert [n, m] == [n] + [m];
    PiecesSplit(["cart", "add", "many", n, m], CartAddManyToken(id, q));
  }

  lemma {:induction false} ParseCartAddManyToken(id: int, q: int)
    ensures Parse(CartAddManyToken(id, q)) == AddMany(id, q)
  {
    var t := CartAddManyToken(id, q);
    CartAddManyTokenSplit(id, q);
    assert CartBranch(Split(t, '_')) == AddMany(id, q) by {
      ParseIntRoundTrip(id);
      ParseIntRoundTrip(q);
    }
    CartTokenReachesBranch(t);
  }

  /** An `admin_status_` token and the branches before it: none of them catches it. */
  lemma StatusTokenReachesBranch(t: string)
    requires StartsWith(t, "admin_status_")
    ensures Parse(t) == StatusBranch(Split(t, '_'))
  {
    assert t[..6] == "admin_";
    DiffersAt(t, "admin_add_item", 6);
    DiffersAt(t, "category_", 0);
    DiffersAt(t, "item_", 0);
    DiffersAt(t, "cart_", 0);
    DiffersAt(t, "admin_panel", 6);
    DiffersAt(t, "start", 0);
    DiffersAt(t, "start_user_menu", 0);
    DiffersAt(t, "show_menu", 0);
    DiffersAt(t, "noop", 0);
    DiffersAt(t, "cart", 0);
    DiffersAt(t, "clear_cart", 0);
    DiffersAt(t, "place_order", 0);
    DiffersAt(t, "confirm_order", 0);
    DiffersAt(t, "my_orders", 0);
    DiffersAt(t, "admin_view_orders_", 6);
  }

  lemma AdminStatusTokenSplit(orderId: int, status: string)
    requires '_' !in status
    ensures Split(AdminStatusToken(orderId, status), '_') == ["admin", "status", IntToString(orderId), status]
  {
    var n := IntToString(orderId);
    IntToStringHasNoSeparator(orderId);
    JoinCons(n, [status]);
    JoinCons("status", [n, status]);
    JoinCons("admin", ["status", n, status]);
    assert ["admin", "status", n, status] == ["admin"] + ["status", n, status];
    assert ["status", n, status] == ["status"] + [n, status];
    assert [n, status] == [n] + [status];
    PiecesSplit(["admin", "status", n, status], AdminStatusToken(orderId, status));
  }

  /** A text holding `_` splits into at least two pieces. */
  lemma SeparatorSplitsApart(text: string)
    requires '_' in text
    ensures |Split(text, '_')| >= 2
  {
    var parts := Split(text, '_');
    if |parts| == 1 {
      assert false;
    }
  }

  /** A status holding `_` splits into two or more pieces of its own, after the id. */
  lemma AdminStatusTokenSplitApart(orderId: int, status: string)
    requires '_' in status
    ensures |Split(status, '_')| >= 2
    ensures Split(AdminStatusToken(orderId, status), '_') == ["admin", "status", IntToString(orderId)] + Split(status, '_')
  {
    var n := IntToString(orderId);
    var rest := Split(status, '_');
    SeparatorSplitsApart(status);
    SplitFirstPiece(status, '_');
    var tail := Join(rest[1..], '_');
    StatusTokenAppend(orderId, rest[0], tail);
    AdminStatusTokenSplit(orderId, rest[0]);
    SplitAppend(AdminStatusToken(orderId, rest[0]), tail, '_');
    assert ["admin", "status", n, rest[0]] == ["admin", "status", n] + [rest[0]];
    PiecesAfterHead(["admin", "status", n], rest);
  }

  /** Appending `_<tail>` to the status appends it to the whole token. */
  lemma StatusTokenAppend(orderId: int, status: string, tail: string)
    ensures AdminStatusToken(orderId, status + "_" + tail) == AdminStatusToken(orderId, status) + "_" + tail
  {
  }

  /** Pieces after a head: the first piece, then the others, is the whole run. */
  lemma PiecesAfterHead(head: seq<string>, rest: seq<string>)
    requires |rest| >= 1
    ensures head + [rest[0]] + rest[1..] == head + rest
  {
    assert [rest[0]] + rest[1..] == rest;
  }

  /** A status token reads back as the same order and status whenever the status holds no `_`. */
  lemma {:induction false} ParseAdminStatusToken(orderId: int, status: string)
    requires '_' !in status
    ensures Parse(AdminStatusToken(orderId, status)) == SetStatus(orderId, status)
  {
    var t := AdminStatusToken(orderId, status);
    AdminStatusTokenSplit(orderId, status);
    ParseIntRoundTrip(orderId);
    StatusTokenReachesBranch(t);
  }

  /** A status containing `_` is split apart: the token no longer unpacks into four parts. */
  lemma AdminStatusTokenWithSeparator(orderId: int, status: string)
    requires '_' in status
    ensures Parse(AdminStatusToken(orderId, status)) == Malformed
  {
    var t := AdminStatusToken(orderId, status);
    AdminStatusTokenSplitApart(orderId, status);
    StatusTokenReachesBranch(t);
  }

  /** An `admin_view_orders_` token and the branches before it: none of them catches it. */
  lemma ViewOrdersTokenReachesBranch(t: string)
    requires StartsWith(t, "admin_view_orders_")
    ensures Parse(t) == ViewOrdersBranch(Split(t, '_'))
  {
    assert t[..6] == "admin_";
    DiffersAt(t, "admin_add_item", 6);
    DiffersAt(t, "start", 0);
    DiffersAt(t, "start_user_menu", 0);
    DiffersAt(t, "show_menu", 0);
    DiffersAt(t, "category_", 0);
    DiffersAt(t, "item_", 0);
    DiffersAt(t, "cart_", 0);
    DiffersAt(t, "noop", 0);
    DiffersAt(t, "cart", 0);
    DiffersAt(t, "clear_cart", 0);
    DiffersAt(t, "place_order", 0);
    DiffersAt(t, "confirm_order", 0);
    DiffersAt(t, "my_orders", 0);
    DiffersAt(t, "admin_panel", 6);
  }

  lemma ViewOrdersTokenSplit(filter: string)
    requires '_' !in filter
    ensures Split(AdminViewOrdersToken(filter), '_') == ["admin", "view", "orders", filter]
  {
    JoinCons("orders", [filter]);
    JoinCons("view", ["orders", filter]);
    JoinCons("admin", ["view", "orders", filter]);
    assert ["admin", "view", "orders", filter] == ["admin"] + ["view", "orders", filter];
    assert ["view", "orders", filter] == ["view"] + ["orders", filter];
    assert ["orders", filter] == ["orders"] + [filter];
    PiecesSplit(["admin", "view", "orders", filter], AdminViewOrdersToken(filter));
  }

  lemma {:induction false} ParseAdminViewOrdersToken(filter: string)
    requires '_' !in filter
    ensures Parse(AdminViewOrdersToken(filter)) == ViewOrders(filter)
  {
    var t := AdminViewOrdersToken(filter);
    ViewOrdersTokenSplit(filter);
    ViewOrdersTokenReachesBranch(t);
  }

  /** The branches before `category_` do not catch a token with that prefix. */
  lemma CategoryTokenReachesBranch(t: string)
    requires StartsWith(t, "category_")
    ensures Parse(t) == CategoryBranch(Split(t, '_'))
  {
    assert t[..9] == "category_";
    DiffersAt(t, "admin_add_item", 0);
    DiffersAt(t, "start", 0);
    DiffersAt(t, "start_user_menu", 0);
    DiffersAt(t, "show_menu", 0);
  }

  /** A category token whose second part is not a number raises in `int()`. */
  lemma MalformedCategoryToken(s: string)
    requires '_' !in s && ParseInt(s).None?
    ensures Parse("category_" + s) == Malformed
  {
    var t := "category_" + s;
    JoinCons("category", [s]);
    assert ["category", s] == ["category"] + [s];
    PiecesSplit(["category", s], t);
    CategoryTokenReachesBranch(t);
  }

  lemma ShortCartTokenSplit(id: int)
    ensures Split("cart_add_many_" + IntToString(id), '_') == ["cart", "add", "many", IntToString(id)]
  {
    var n := IntToString(id);
    IntToStringHasNoSeparator(id);
    JoinCons("many", [n]);
    JoinCons("add", ["many", n]);
    JoinCons("cart", ["add", "many", n]);
    assert ["cart", "add", "many", n] == ["cart"] + ["add", "many", n];
    assert ["add", "many", n] == ["add"] + ["many", n];
    assert ["many", n] == ["many"] + [n];
    PiecesSplit(["cart", "add", "many", n], "cart_add_many_" + n);
  }

  /** A `cart_add_many_` token missing its quantity raises on the missing index. */
  lemma MalformedCartToken(id: int)
    ensures Parse("cart_add_many_" + IntToString(id)) == Malformed
  {
    var t := "cart_add_many_" + IntToString(id);
    ShortCartTokenSplit(id);
    CartTokenReachesBranch(t);
  }
  /** The fixed tokens that start with none of the prefixes `button_handler` tests. */
  lemma ParsePlainTokens()
    ensures Parse("start") == Start
    ensures Parse("start_user_menu") == StartUserMenu
    ensures Parse("show_menu") == ShowMenu
    ensures Parse("noop") == Noop
    ensures Parse("place_order") == PlaceOrder
    ensures Parse("my_orders") == MyOrders
  {
    ParseLateTokens();
  }

  /** The plain tokens checked after the three prefixes. */
  lemma ParseLateTokens()
    ensures Parse("noop") == Noop
    ensures Parse("place_order") == PlaceOrder
    ensures Parse("my_orders") == MyOrders
  {
    DiffersAt("noop", "category_", 0);
    DiffersAt("noop", "item_", 0);
    DiffersAt("noop", "cart_", 0);
    DiffersAt("place_order", "category_", 0);
    DiffersAt("place_order", "item_", 0);
    DiffersAt("place_order", "cart_", 0);
    DiffersAt("my_orders", "category_", 0);
    DiffersAt("my_orders", "item_", 0);
    DiffersAt("my_orders", "cart_", 0);
  }

  /** The fixed tokens that share a first letter with a prefix `button_handler` tests. */
  lemma ParseCartTokens()
    ensures Parse("cart") == ShowCart
    ensures Parse("clear_cart") == ClearCart
    ensures Parse("confirm_order") == ConfirmOrder
  {
    DiffersAt("cart", "category_", 2);
    DiffersAt("cart", "item_", 0);
    assert !StartsWith("cart", "cart_");
    DiffersAt("clear_cart", "category_", 1);
    DiffersAt("clear_cart", "item_", 0);
    DiffersAt("clear_cart", "cart_", 1);
    DiffersAt("confirm_order", "category_", 1);
    DiffersAt("confirm_order", "item_", 0);
    DiffersAt("confirm_order", "cart_", 1);
  }

  lemma ParseAdminTokens()
    ensures Parse("admin_add_item") == AdminAddItem
    ensures Parse("admin_panel") == AdminPanel
  {
    DiffersAt("admin_panel", "admin_add_item", 6);
    DiffersAt("admin_panel", "category_", 0);
    DiffersAt("admin_panel", "item_", 0);
    DiffersAt("admin_panel", "cart_", 0);
  }

  /** `cancel_action` belongs to the add-item dialogue: no branch of `button_handler` acts on it. */
  lemma ParseCancelToken()
    ensures Parse("cancel_action") == Ignored
  {
    DiffersAt("cancel_action", "category_", 2);
    DiffersAt("cancel_action", "item_", 0);
    DiffersAt("cancel_action", "cart_", 2);
    DiffersAt("cancel_action", "admin_view_orders_", 0);
    DiffersAt("cancel_action", "admin_status_", 0);
  }
}
