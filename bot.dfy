/**
 * The handlers of bot.py: `start`, `render_cart`, `my_orders`,
 * `button_handler` with each of its branches, and `handle_details_link`.
 * A handler reads and writes the user's session and the database and answers
 * with a list of effects. The configuration and the clock are parameters.
 */
module Bot {
  import opened Wrappers
  import opened Schema
  import opened Tokens
  import opened Keyboards
  import opened Screens
  import Text
  import Markdown
  import Utils
  import Cart
  import Store
  import Session

  /** The Telegram user behind an update: id, optional @username, first name. */
  datatype Actor = Actor(id: int, username: Option<string>, firstName: string)

  predicate IsAdmin(cfg: Utils.Config, actor: Actor)
  {
    actor.id in cfg.adminIds
  }

  // ---------------------------------------------------------------- start

  const GreetingPrefix: string := "Здравствуйте, "
  const AdminMark: string := " \\(Админ\\)"

  /** The MarkdownV2 greeting of `start`. */
  function GreetingText(firstName: string, isAdmin: bool): string
  {
    GreetingPrefix + Markdown.Escape(firstName) + (if isAdmin then AdminMark else "") + "\\!"
  }

  /**
   * The greeting quotes the first name exactly (the quoted part unescapes back
   * to it), and it carries the admin mark exactly for admins.
   */
  lemma GreetingQuotesName(firstName: string, isAdmin: bool)
    ensures var t := GreetingText(firstName, isAdmin);
            var e := Markdown.Escape(firstName);
            var end := |GreetingPrefix| + |e|;
            && t[..|GreetingPrefix|] == GreetingPrefix
            && Markdown.Unescape(t[|GreetingPrefix|..end]) == firstName
            && (isAdmin <==> t[end..] == AdminMark + "\\!")
  {
    var t := GreetingText(firstName, isAdmin);
    var e := Markdown.Escape(firstName);
    var end := |GreetingPrefix| + |e|;
    var tail := (if isAdmin then AdminMark else "") + "\\!";
    assert t == GreetingPrefix + e + tail;
    assert t[|GreetingPrefix|..end] == e;
    assert t[end..] == tail;
    Markdown.UnescapeEscape(firstName);
  }

  /** The user table after a first contact: the row is added once and never overwritten. */
  function Registered(users: map<int, User>, actor: Actor): (r: map<int, User>)
    ensures r.Keys == users.Keys + {actor.id}
    ensures forall k :: k in users ==> r[k] == users[k]
    ensures actor.id !in users ==> r[actor.id] == User(actor.username, actor.firstName)
  {
    if actor.id in users then users else users[actor.id := User(actor.username, actor.firstName)]
  }

  /** `start` turns the user away: a typed /start from a customer while the café is closed. */
  predicate StartGated(cfg: Utils.Config, clock: Utils.Clock, actor: Actor, viaButton: bool)
  {
    !Utils.IsCafeOpen(cfg, clock) && !IsAdmin(cfg, actor) && !viaButton
  }

  /**
   * `start`, from the /start command or the "start" button. The user row is
   * created before the opening hours are checked, so even a turned-away
   * customer is registered.
   */
  method StartCommand(cfg: Utils.Config, clock: Utils.Clock, actor: Actor, viaButton: bool, db: Store.Db)
    returns (effects: seq<Effect>)
    requires db.Valid()
    modifies db
    ensures db.Valid()
    ensures db.users == Registered(old(db.users), actor)
    ensures db.categories == old(db.categories) && db.items == old(db.items) && db.orders == old(db.orders)
    ensures db.orderItems == old(db.orderItems)
    ensures db.nextCategoryId == old(db.nextCategoryId) && db.nextItemId == old(db.nextItemId)
    ensures db.nextOrderId == old(db.nextOrderId)
    ensures StartGated(cfg, clock, actor, viaButton) ==>
      effects == [Reply(Notice(Utils.ClosedMessage(cfg)), [])]
    ensures !StartGated(cfg, clock, actor, viaButton) ==>
      var view := Greeting(GreetingText(actor.firstName, IsAdmin(cfg, actor)));
      var kb := if IsAdmin(cfg, actor) then AdminMenuButtons(NewOrderCount(db.orders)) else MainMenuKeyboard(false);
      effects == [if viaButton then Edit(view, kb) else Reply(view, kb)]
  {
    db.EnsureUser(actor.id, actor.username, actor.firstName);
    var isAdmin := actor.id in cfg.adminIds;
    if !Utils.IsCafeOpen(cfg, clock) && !isAdmin && !viaButton {
      return [Reply(Notice(Utils.ClosedMessage(cfg)), [])];
    }
    var view := Greeting(GreetingText(actor.firstName, isAdmin));
    var kb;
    if isAdmin {
      var count;
      kb, count := AdminMenuKeyboard(db);
    } else {
      kb := MainMenuKeyboard(false);
    }
    effects := [if viaButton then Edit(view, kb) else Reply(view, kb)];
  }

  // ----------------------------------------------------------- catalog

  /** The category screen of a `category_<id>` button. */
  method CategoryScreen(db: Store.Db, id: int) returns (effects: seq<Effect>, shown: seq<int>)
    requires db.Valid()
    ensures |effects| == 1 && effects[0].Edit?
    ensures id in db.categories ==>
      var hasSubcategories := Children(db.categories, id) != {};
      && effects[0].view == CategoryPage(db.categories[id].name, hasSubcategories,
                                         !hasSubcategories && ItemsOf(db.items, id) == {})
      && MenuOf(db.categories, db.items, Some(id), shown, effects[0].keyboard)
    ensures id !in db.categories ==>
      && effects[0].view == CategoryNotFound
      && MenuOf(db.categories, db.items, None, shown, effects[0].keyboard)
  {
    if id in db.categories {
      var kb, s := MenuKeyboard(db, Some(id));
      var hasSubcategories := Children(db.categories, id) != {};
      var view := CategoryPage(db.categories[id].name, hasSubcategories,
                               !hasSubcategories && ItemsOf(db.items, id) == {});
      effects, shown := [Edit(view, kb.value)], s;
    } else {
      var kb, s := MenuKeyboard(db, None);
      effects, shown := [Edit(CategoryNotFound, kb.value)], s;
    }
  }

  const NoDescription: string := "Описание отсутствует"

  /** `item.description or 'Описание отсутствует'`: an empty description counts as none. */
  function DescriptionText(description: Option<string>): (r: string)
    ensures r != ""
    ensures description.Some? && description.value != "" ==> r == description.value
    ensures description.None? || description.value == "" ==> r == NoDescription
  {
    if description.Some? && description.value != "" then description.value else NoDescription
  }

  /** The item screen of an `item_<id>` button: nothing happens for an unknown item. */
  method ItemScreen(cfg: Utils.Config, clock: Utils.Clock, db: Store.Db, id: int, isAdmin: bool)
    returns (effects: seq<Effect>)
    ensures id !in db.items ==> effects == []
    ensures id in db.items ==>
      var item := db.items[id];
      effects == [Edit(ItemPage(item.name, item.price, DescriptionText(item.description)),
                       ItemDetailsKeyboard(cfg, clock, id, 1, isAdmin))]
  {
    effects := [];
    if id in db.items {
      var item := db.items[id];
      effects := [Edit(ItemPage(item.name, item.price, DescriptionText(item.description)),
                       ItemDetailsKeyboard(cfg, clock, id, 1, isAdmin))];
    }
  }

  /** The item exists but its category row does not, so `item.category.name` raises. */
  predicate CategoryMissing(categories: map<int, Category>, items: map<int, MenuItem>, itemId: int)
  {
    itemId in items && items[itemId].categoryId !in categories
  }

  /**
   * The screen shared by `item_back_<id>` and the end of `cart_add_many`: the
   * menu of the item's category, under "Товары в категории".
   */
  method ItemCategoryScreen(db: Store.Db, itemId: int) returns (effects: seq<Effect>, raised: bool, shown: seq<int>)
    requires db.Valid()
    ensures raised <==> CategoryMissing(db.categories, db.items, itemId)
    ensures itemId !in db.items || raised ==> effects == []
    ensures itemId in db.items && !raised ==>
      var c := db.items[itemId].categoryId;
      && |effects| == 1 && effects[0].Edit?
      && effects[0].view == CategoryItems(db.categories[c].name)
      && MenuOf(db.categories, db.items, Some(c), shown, effects[0].keyboard)
  {
    effects, raised, shown := [], false, [];
    if itemId in db.items {
      var c := db.items[itemId].categoryId;
      if c !in db.categories {
        raised := true;
      } else {
        var kb, s := MenuKeyboard(db, Some(c));
        effects, shown := [Edit(CategoryItems(db.categories[c].name), kb.value)], s;
      }
    }
  }

  // -------------------------------------------------------------- cart

  /**
   * The loop of `render_cart` and `place_order`: walks the cart in insertion
   * order, keeps the lines whose item still exists, and sums
   * `quantity * item.price` over them.
   */
  method PriceCart(cart: seq<Cart.CartLine>, items: map<int, MenuItem>) returns (lines: seq<Cart.Line>, total: int)
    ensures lines == Cart.Resolve(cart, items)
    ensures total == Cart.Total(cart, items)
    ensures total == Cart.LinesTotal(lines)
  {
    lines, total := [], 0;
    var i := 0;
    while i < |cart|
      invariant 0 <= i <= |cart|
      invariant lines == Cart.Resolve(cart[..i], items)
      invariant total == Cart.Total(cart[..i], items)
    {
      var line := cart[i];
      assert cart[..i + 1] == cart[..i] + [line];
      Cart.ResolveAppend(cart[..i], [line], items);
      Cart.TotalAppend(cart[..i], [line], items);
      assert [line][1..] == [];
      if line.itemId in items {
        var item := items[line.itemId];
        lines := lines + [Cart.Line(item.name, line.quantity, item.price)];
        total := total + line.quantity * item.price;
      }
      i := i + 1;
    }
    assert cart[..i] == cart;
    Cart.TotalIsLinesTotal(cart, items);
  }

  /** `render_cart`: an empty cart sends the user to the menu; otherwise the priced lines and their total. */
  method RenderCart(cfg: Utils.Config, clock: Utils.Clock, cart: seq<Cart.CartLine>, db: Store.Db)
    returns (effects: seq<Effect>, shown: seq<int>)
    requires db.Valid()
    ensures |effects| == 1 && effects[0].Edit?
    ensures cart == [] ==>
      effects[0].view == EmptyCart && MenuOf(db.categories, db.items, None, shown, effects[0].keyboard)
    ensures cart != [] ==>
      && effects[0].view == CartPage(Cart.Resolve(cart, db.items), Cart.Total(cart, db.items))
      && effects[0].view.total == Cart.LinesTotal(effects[0].view.lines)
      && effects[0].keyboard == CartActionsKeyboard(cfg, clock)
  {
    if cart == [] {
      var kb, s := MenuKeyboard(db, None);
      effects, shown := [Edit(EmptyCart, kb.value)], s;
    } else {
      var lines, total := PriceCart(cart, db.items);
      effects, shown := [Edit(CartPage(lines, total), CartActionsKeyboard(cfg, clock))], [];
    }
  }

  /** `place_order`: the order preview with the confirm keyboard; an empty cart goes back to the menu. */
  method OrderPreviewScreen(cart: seq<Cart.CartLine>, db: Store.Db) returns (effects: seq<Effect>, shown: seq<int>)
    requires db.Valid()
    ensures |effects| == 1 && effects[0].Edit?
    ensures cart == [] ==>
      effects[0].view == NothingToOrder && MenuOf(db.categories, db.items, None, shown, effects[0].keyboard)
    ensures cart != [] ==>
      && effects[0].view == OrderPreview(Cart.Resolve(cart, db.items), Cart.Total(cart, db.items))
      && effects[0].view.total == Cart.LinesTotal(effects[0].view.lines)
      && effects[0].keyboard == ConfirmOrderKeyboard()
  {
    if cart == [] {
      var kb, s := MenuKeyboard(db, None);
      effects, shown := [Edit(NothingToOrder, kb.value)], s;
    } else {
      var lines, total := PriceCart(cart, db.items);
      effects, shown := [Edit(OrderPreview(lines, total), ConfirmOrderKeyboard())], [];
    }
  }

  /** `username or 'N/A'`. */
  function UsernameText(username: Option<string>): (r: string)
    ensures r != ""
    ensures username.Some? && username.value != "" ==> r == username.value
    ensures username.None? || username.value == "" ==> r == "N/A"
  {
    if username.Some? && username.value != "" then username.value else "N/A"
  }

  /**
   * `confirm_order`: for a non-empty cart, one new order with the cart total
   * and one line per cart line whose item still exists; the cart is emptied,
   * the customer is told the order number, and every admin gets the order
   * with its status keyboard. An empty cart does nothing.
   */
  method Checkout(cfg: Utils.Config, actor: Actor, isAdmin: bool, ud: Session.UserData, db: Store.Db)
    returns (effects: seq<Effect>)
    requires ud.Valid() && db.Valid()
    modifies ud, db
    ensures ud.Valid() && db.Valid()
    ensures ud.newItem == old(ud.newItem)
    ensures db.categories == old(db.categories) && db.items == old(db.items) && db.users == old(db.users)
    ensures db.nextCategoryId == old(db.nextCategoryId) && db.nextItemId == old(db.nextItemId)
    ensures old(ud.cart) == [] ==>
      effects == [] && ud.cart == [] && db.orders == old(db.orders)
      && db.orderItems == old(db.orderItems) && db.nextOrderId == old(db.nextOrderId)
    ensures old(ud.cart) != [] ==>
      var id := old(db.nextOrderId);
      var lines := Cart.Resolve(old(ud.cart), old(db.items));
      var total := Cart.Total(old(ud.cart), old(db.items));
      && ud.cart == []
      && id !in old(db.orders)
      && db.orders == old(db.orders)[id := Order(actor.id, NEW, total)]
      && db.orderItems == old(db.orderItems) + Store.Snapshot(id, lines)
      && db.nextOrderId == id + 1
      && effects == [Edit(OrderAccepted(id), MainMenuKeyboard(isAdmin)),
                     Send(cfg.adminIds, NewOrderNotice(id, actor.firstName, UsernameText(actor.username), lines, total),
                          AdminOrderKeyboard(id))]
  {
    effects := [];
    var cart := ud.cart;
    if cart != [] {
      var lines, total := PriceCart(cart, db.items);
      var id := db.PlaceOrder(actor.id, cart);
      ud.cart := [];
      effects := [Edit(OrderAccepted(id), MainMenuKeyboard(isAdmin)),
                  Send(cfg.adminIds, NewOrderNotice(id, actor.firstName, UsernameText(actor.username), lines, total),
                       AdminOrderKeyboard(id))];
    }
  }

  // ------------------------------------------------------------ orders

  /** The customer's own orders, as `my_orders` lists them. */
  function Summaries(orders: map<int, Order>, ids: seq<int>): (r: seq<OrderSummary>)
    requires forall i :: 0 <= i < |ids| ==> ids[i] in orders
    ensures |r| == |ids|
    ensures forall i :: 0 <= i < |ids| ==>
      r[i] == OrderSummary(ids[i], orders[ids[i]].status, orders[ids[i]].totalPrice)
  {
    seq(|ids|, i requires 0 <= i < |ids| => OrderSummary(ids[i], orders[ids[i]].status, orders[ids[i]].totalPrice))
  }

  /** `order.user.first_name if order.user else "Удален"`. */
  function CustomerName(users: map<int, User>, userId: int): string
  {
    if userId in users then users[userId].firstName else "Удален"
  }

  /** The orders as the admin list shows them. */
  function Rows(orders: map<int, Order>, users: map<int, User>, ids: seq<int>): (r: seq<OrderRow>)
    requires forall i :: 0 <= i < |ids| ==> ids[i] in orders
    ensures |r| == |ids|
    ensures forall i :: 0 <= i < |ids| ==>
      r[i] == OrderRow(ids[i], CustomerName(users, orders[ids[i]].userId), orders[ids[i]].status, orders[ids[i]].totalPrice)
  {
    seq(|ids|, i requires 0 <= i < |ids| =>
      OrderRow(ids[i], CustomerName(users, orders[ids[i]].userId), orders[ids[i]].status, orders[ids[i]].totalPrice))
  }

  /** The orders placed by `userId`. */
  function OrdersBy(orders: map<int, Order>, userId: int): set<int>
  {
    set k | k in orders && orders[k].userId == userId
  }

  /**
   * The newest `n` ids of `s`, listed from an ascending list `ids` of it:
   * strictly descending, as many as there are up to `n`, and any id of `s`
   * left out is older than every id listed.
   */
  lemma NewestOf(ids: seq<int>, s: set<int>, n: nat)
    requires forall i, j :: 0 <= i < j < |ids| ==> ids[i] < ids[j]
    requires forall k :: k in ids <==> k in s
    ensures var r := Store.Latest(ids, n);
            && |r| == (if |s| < n then |s| else n)
            && (forall k :: k in r ==> k in s)
            && (forall i, j :: 0 <= i < j < |r| ==> r[i] > r[j])
            && (forall k, i :: k in s && k !in r && 0 <= i < |r| ==> k < r[i])
  {
    Store.AscendingCount(ids, s);
    Store.LatestAreNewest(ids, n);
  }

  /**
   * `my_orders`: the customer's ten newest orders, newest first, with the
   * main menu keyboard.
   */
  method MyOrdersScreen(cfg: Utils.Config, actor: Actor, db: Store.Db) returns (effects: seq<Effect>, listed: seq<int>)
    requires db.Valid()
    ensures forall k :: k in listed ==> k in db.orders && db.orders[k].userId == actor.id
    ensures forall i, j :: 0 <= i < j < |listed| ==> listed[i] > listed[j]
    ensures var mine := OrdersBy(db.orders, actor.id);
            && |listed| == (if |mine| < 10 then |mine| else 10)
            && (forall k, i :: k in mine && k !in listed && 0 <= i < |listed| ==> k < listed[i])
    ensures effects == [Edit(MyOrdersPage(Summaries(db.orders, listed)), MainMenuKeyboard(IsAdmin(cfg, actor)))]
  {
    var ids := db.OrdersOf(actor.id);
    NewestOf(ids, OrdersBy(db.orders, actor.id), 10);
    listed := Store.Latest(ids, 10);
    effects := [Edit(MyOrdersPage(Summaries(db.orders, listed)), MainMenuKeyboard(actor.id in cfg.adminIds))];
  }

  /**
   * `admin_view_orders_<filter>`: every order with that status, newest first;
   * for "ALL" the ten newest orders of all. Any status text is accepted as a
   * filter. The admin menu keyboard comes with it.
   */
  method OrdersScreen(db: Store.Db, filter: string) returns (effects: seq<Effect>, listed: seq<int>)
    requires db.Valid()
    ensures forall k :: k in listed ==> k in db.orders
    ensures forall i, j :: 0 <= i < j < |listed| ==> listed[i] > listed[j]
    ensures filter != "ALL" ==>
      forall k :: k in listed <==> k in db.orders && db.orders[k].status == filter
    ensures filter == "ALL" ==>
      && |listed| == (if |db.orders.Keys| < 10 then |db.orders.Keys| else 10)
      && (forall k, i :: k in db.orders && k !in listed && 0 <= i < |listed| ==> k < listed[i])
    ensures effects == [Edit(OrdersPage(filter, Rows(db.orders, db.users, listed)), AdminMenuButtons(NewOrderCount(db.orders)))]
  {
    if filter != "ALL" {
      var ids := db.OrdersWithStatus(filter);
      listed := Store.Latest(ids, |ids|);
      Store.LatestAreNewest(ids, |ids|);
      forall k | k in ids
        ensures k in listed
      {
        var j :| 0 <= j < |ids| && ids[j] == k;
        assert listed[|ids| - 1 - j] == k;
      }
    } else {
      var ids := db.AllOrders();
      NewestOf(ids, db.orders.Keys, 10);
      listed := Store.Latest(ids, 10);
    }
    var kb, _ := AdminMenuKeyboard(db);
    effects := [Edit(OrdersPage(filter, Rows(db.orders, db.users, listed)), kb)];
  }

  /**
   * `admin_status_<id>_<status>`: an existing order gets the new status, the
   * presser sees the change with the admin menu, and the customer is told,
   * with a pickup note when the status is READY. An unknown order changes
   * nothing.
   */
  method ChangeStatus(db: Store.Db, orderId: int, status: string) returns (effects: seq<Effect>)
    requires db.Valid()
    modifies db
    ensures db.Valid()
    ensures db.orders == Store.WithStatus(old(db.orders), orderId, status)
    ensures db.categories == old(db.categories) && db.items == old(db.items) && db.users == old(db.users)
    ensures db.orderItems == old(db.orderItems)
    ensures db.nextCategoryId == old(db.nextCategoryId) && db.nextItemId == old(db.nextItemId)
    ensures db.nextOrderId == old(db.nextOrderId)
    ensures orderId !in old(db.orders) ==> effects == []
    ensures orderId in old(db.orders) ==>
      effects == [Edit(StatusChanged(orderId, status), AdminMenuButtons(NewOrderCount(db.orders))),
                  Send({old(db.orders)[orderId].userId}, StatusNotice(orderId, status, status == READY), [])]
  {
    effects := [];
    var found := db.SetStatus(orderId, status);
    if found {
      var kb, _ := AdminMenuKeyboard(db);
      effects := [Edit(StatusChanged(orderId, status), kb),
                  Send({db.orders[orderId].userId}, StatusNotice(orderId, status, status == READY), [])];
    }
  }

  // ---------------------------------------------------- button_handler

  /**
   * `button_handler` acts on `a`: it is not `admin_add_item` (answered and
   * dropped), and the café is open or the presser is an admin.
   */
  predicate PassesGate(cfg: Utils.Config, clock: Utils.Clock, actor: Actor, a: Action)
  {
    a != AdminAddItem && (Utils.IsCafeOpen(cfg, clock) || IsAdmin(cfg, actor))
  }

  /**
   * The branch for `a` raises: a token whose numbers or pieces do not parse,
   * or an item whose category row is gone (`item.category` is None).
   */
  predicate Raises(categories: map<int, Category>, items: map<int, MenuItem>, a: Action)
  {
    || a.Malformed?
    || (a.ItemBack? && CategoryMissing(categories, items, a.itemId))
    || (a.AddMany? && CategoryMissing(categories, items, a.itemId))
  }

  /** `confirm_order` on a non-empty cart: the one branch that creates an order. */
  predicate Places(cart: seq<Cart.CartLine>, a: Action)
  {
    a == ConfirmOrder && cart != []
  }

  /** The cart after the branch for `a`. */
  function CartAfter(cart: seq<Cart.CartLine>, a: Action): (r: seq<Cart.CartLine>)
    ensures Cart.WellFormed(cart) ==> Cart.WellFormed(r)
    ensures a.AddMany? ==> Cart.Get(r, a.itemId) == Cart.Get(cart, a.itemId) + a.quantity
  {
    match a
    case AddMany(id, q) => Cart.AddMany(cart, id, q)
    case ClearCart => []
    case ConfirmOrder => []
    case _ => cart
  }

  /** The orders table after the branch for `a`: a new order on checkout, a new status on a status button. */
  function OrdersAfter(orders: map<int, Order>, next: int, items: map<int, MenuItem>, cart: seq<Cart.CartLine>,
                       userId: int, a: Action): (r: map<int, Order>)
    ensures r.Keys == orders.Keys + (if Places(cart, a) then {next} else {})
  {
    if Places(cart, a) then orders[next := Order(userId, NEW, Cart.Total(cart, items))]
    else if a.SetStatus? then Store.WithStatus(orders, a.orderId, a.status)
    else orders
  }

  /** The order lines after the branch for `a`: rows are only ever appended. */
  function RowsAfter(rows: seq<OrderItem>, next: int, items: map<int, MenuItem>, cart: seq<Cart.CartLine>,
                     a: Action): (r: seq<OrderItem>)
    ensures |r| >= |rows| && r[..|rows|] == rows
  {
    if Places(cart, a) then rows + Store.Snapshot(next, Cart.Resolve(cart, items)) else rows
  }

  /** The user table after the branch for `a`: only the "start" button registers. */
  function UsersAfter(users: map<int, User>, actor: Actor, a: Action): map<int, User>
  {
    if a == Start then Registered(users, actor) else users
  }

  /**
   * The session and tables `(cart', users', orders', rows', next')` are what
   * the branch for `a` leaves behind when it starts from
   * `(cart, users, orders, rows, next)`, and `raised` says whether it raised.
   */
  predicate Acted(actor: Actor, a: Action, categories: map<int, Category>, items: map<int, MenuItem>,
                  cart: seq<Cart.CartLine>, users: map<int, User>, orders: map<int, Order>, rows: seq<OrderItem>, next: int,
                  cart': seq<Cart.CartLine>, users': map<int, User>, orders': map<int, Order>, rows': seq<OrderItem>, next': int,
                  raised: bool)
  {
    && cart' == CartAfter(cart, a)
    && users' == UsersAfter(users, actor, a)
    && orders' == OrdersAfter(orders, next, items, cart, actor.id, a)
    && rows' == RowsAfter(rows, next, items, cart, a)
    && next' == next + (if Places(cart, a) then 1 else 0)
    && (raised <==> Raises(categories, items, a))
  }

  /** The branches that change the session or the tables; every other branch only answers. */
  predicate ChangesState(a: Action)
  {
    a.Start? || a.AddMany? || a.ClearCart? || a.ConfirmOrder? || a.SetStatus?
  }

  /** The answering branches that move between menus, plus the tokens that parse to nothing. */
  predicate NavigationAction(a: Action)
  {
    a.StartUserMenu? || a.ShowMenu? || a.Noop? || a.Malformed? || a.Ignored?
  }

  /** The answering branches that open a category or an item page, or step its quantity. */
  predicate CatalogAction(a: Action)
  {
    a.OpenCategory? || a.ViewItem? || a.ItemBack? || a.Step?
  }

  /** The answering branches that show the cart, the order preview or the customer's orders. */
  predicate CustomerAction(a: Action)
  {
    a.ShowCart? || a.PlaceOrder? || a.MyOrders?
  }

  /**
   * The reply of the branches that build their screen inline: the client
   * menu, the quantity stepper (only for a positive quantity), the cleared
   * cart, the admin panel (admins only) and the branches that answer nothing.
   */
  predicate InlineEffects(cfg: Utils.Config, clock: Utils.Clock, isAdmin: bool, a: Action,
                          orders: map<int, Order>, effects: seq<Effect>)
  {
    match a
    case StartUserMenu => effects == [Edit(ClientMenu, MainMenuKeyboard(isAdmin))]
    case Noop => effects == []
    case Ignored => effects == []
    case Malformed => effects == []
    case Step(id, q) =>
      effects == if q > 0 then [EditKeyboard(ItemDetailsKeyboard(cfg, clock, id, q, isAdmin))] else []
    case ClearCart => effects == [Edit(CartCleared, MainMenuKeyboard(isAdmin))]
    case AdminPanel =>
      effects == if isAdmin then [Edit(AdminPanelPage, AdminMenuButtons(NewOrderCount(orders)))] else []
    case _ => true
  }

  /** The menu branches of `button_handler` that only answer. */
  method NavigationGroup(cfg: Utils.Config, clock: Utils.Clock, actor: Actor, isAdmin: bool, a: Action,
      ud: Session.UserData, db: Store.Db) returns (effects: seq<Effect>, raised: bool)
    requires NavigationAction(a) && isAdmin == IsAdmin(cfg, actor)
    requires ud.Valid() && db.Valid()
    ensures raised <==> Raises(db.categories, db.items, a)
    ensures InlineEffects(cfg, clock, isAdmin, a, db.orders, effects)
  {
    effects, raised := [], false;
    match a {
      case StartUserMenu =>
        effects := [Edit(ClientMenu, MainMenuKeyboard(isAdmin))];
      case ShowMenu =>
        var kb, s := MenuKeyboard(db, None);
        effects := [Edit(ChooseCategory, kb.value)];
      case Noop =>
      case Malformed =>
        raised := true;
      case Ignored =>
    }
  }

  /** The category and item-page branches that only answer. */
  method CatalogGroup(cfg: Utils.Config, clock: Utils.Clock, actor: Actor, isAdmin: bool, a: Action,
      ud: Session.UserData, db: Store.Db) returns (effects: seq<Effect>, raised: bool)
    requires CatalogAction(a) && isAdmin == IsAdmin(cfg, actor)
    requires ud.Valid() && db.Valid()
    ensures raised <==> Raises(db.categories, db.items, a)
    ensures InlineEffects(cfg, clock, isAdmin, a, db.orders, effects)
  {
    effects, raised := [], false;
    var shown: seq<int>;
    match a {
      case OpenCategory(id) =>
        effects, shown := CategoryScreen(db, id);
      case ViewItem(id) =>
        effects := ItemScreen(cfg, clock, db, id, isAdmin);
      case ItemBack(id) =>
        effects, raised, shown := ItemCategoryScreen(db, id);
      case Step(id, q) =>
        if q > 0 {
          effects := [EditKeyboard(ItemDetailsKeyboard(cfg, clock, id, q, isAdmin))];
        }
    }
  }

  /** The cart, order-preview and order-list screens of a customer. */
  method CustomerGroup(cfg: Utils.Config, clock: Utils.Clock, actor: Actor, isAdmin: bool, a: Action,
      ud: Session.UserData, db: Store.Db) returns (effects: seq<Effect>, raised: bool)
    requires CustomerAction(a) && isAdmin == IsAdmin(cfg, actor)
    requires ud.Valid() && db.Valid()
    ensures raised <==> Raises(db.categories, db.items, a)
    ensures InlineEffects(cfg, clock, isAdmin, a, db.orders, effects)
  {
    effects, raised := [], false;
    var shown: seq<int>;
    match a {
      case ShowCart =>
        effects, shown := RenderCart(cfg, clock, ud.cart, db);
      case PlaceOrder =>
        effects, shown := OrderPreviewScreen(ud.cart, db);
      case MyOrders =>
        effects, shown := MyOrdersScreen(cfg, actor, db);
    }
  }

  /** The admin panel and the order lists. */
  method AdminGroup(cfg: Utils.Config, clock: Utils.Clock, actor: Actor, isAdmin: bool, a: Action,
      ud: Session.UserData, db: Store.Db) returns (effects: seq<Effect>, raised: bool)
    requires (a.AdminPanel? || a.ViewOrders?) && isAdmin == IsAdmin(cfg, actor)
    requires ud.Valid() && db.Valid()
    ensures raised <==> Raises(db.categories, db.items, a)
    ensures InlineEffects(cfg, clock, isAdmin, a, db.orders, effects)
  {
    effects, raised := [], false;
    match a {
      case AdminPanel =>
        if isAdmin {
          var kb, count := AdminMenuKeyboard(db);
          effects := [Edit(AdminPanelPage, kb)];
        }
      case ViewOrders(filter) =>
        var listed;
        effects, listed := OrdersScreen(db, filter);
    }
  }

  /** The branches that only answer: nothing is changed, and `raised` says whether one raised. */
  method AnswerBranches(cfg: Utils.Config, clock: Utils.Clock, actor: Actor, isAdmin: bool, a: Action,
      ud: Session.UserData, db: Store.Db) returns (effects: seq<Effect>, raised: bool)
    requires !ChangesState(a) && a != AdminAddItem && isAdmin == IsAdmin(cfg, actor)
    requires ud.Valid() && db.Valid()
    ensures raised <==> Raises(db.categories, db.items, a)
    ensures InlineEffects(cfg, clock, isAdmin, a, db.orders, effects)
  {
    if NavigationAction(a) {
      effects, raised := NavigationGroup(cfg, clock, actor, isAdmin, a, ud, db);
    } else if CatalogAction(a) {
      effects, raised := CatalogGroup(cfg, clock, actor, isAdmin, a, ud, db);
    } else if CustomerAction(a) {
      effects, raised := CustomerGroup(cfg, clock, actor, isAdmin, a, ud, db);
    } else {
      effects, raised := AdminGroup(cfg, clock, actor, isAdmin, a, ud, db);
    }
  }

  /**
   * The answering branches leave the session and every table as they were:
   * the only thing to report is whether the branch raised.
   */
  lemma AnsweringKeepsState(actor: Actor, a: Action, categories: map<int, Category>, items: map<int, MenuItem>,
                            cart: seq<Cart.CartLine>, users: map<int, User>, orders: map<int, Order>,
                            rows: seq<OrderItem>, next: int, raised: bool)
    requires !ChangesState(a) && (raised <==> Raises(categories, items, a))
    ensures Acted(actor, a, categories, items, cart, users, orders, rows, next,
                  cart, users, orders, rows, next, raised)
  {
    assert !Places(cart, a);
    assert CartAfter(cart, a) == cart;
    assert UsersAfter(users, actor, a) == users;
    assert OrdersAfter(orders, next, items, cart, actor.id, a) == orders;
    assert RowsAfter(rows, next, items, cart, a) == rows;
  }

  /** The branches that change the session's cart: adding from an item page and clearing. */
  method SessionGroup(cfg: Utils.Config, clock: Utils.Clock, actor: Actor, isAdmin: bool, a: Action,
      ud: Session.UserData, db: Store.Db) returns (effects: seq<Effect>, raised: bool)
    requires (a.AddMany? || a.ClearCart?) && isAdmin == IsAdmin(cfg, actor)
    requires ud.Valid() && db.Valid()
    modifies ud, db
    ensures ud.Valid() && db.Valid()
    ensures ud.newItem == old(ud.newItem)
    ensures db.categories == old(db.categories) && db.items == old(db.items)
    ensures db.nextCategoryId == old(db.nextCategoryId) && db.nextItemId == old(db.nextItemId)
    ensures Acted(actor, a, old(db.categories), old(db.items),
                  old(ud.cart), old(db.users), old(db.orders), old(db.orderItems), old(db.nextOrderId),
                  ud.cart, db.users, db.orders, db.orderItems, db.nextOrderId, raised)
    ensures InlineEffects(cfg, clock, isAdmin, a, db.orders, effects)
  {
    effects, raised := [], false;
    match a {
      case AddMany(id, q) =>
        ud.cart := Cart.AddMany(ud.cart, id, q);
        var rest, shown;
        rest, raised, shown := ItemCategoryScreen(db, id);
        effects := [Toast("✅ " + Text.IntToString(q) + " шт. добавлено в корзину!")] + rest;
      case ClearCart =>
        ud.cart := [];
        effects := [Edit(CartCleared, MainMenuKeyboard(isAdmin))];
    }
  }

  /** The "start" button: the presser is registered and greeted as by /start. */
  method StartButton(cfg: Utils.Config, clock: Utils.Clock, actor: Actor, isAdmin: bool, a: Action,
      ud: Session.UserData, db: Store.Db) returns (effects: seq<Effect>, raised: bool)
    requires a == Start && isAdmin == IsAdmin(cfg, actor)
    requires ud.Valid() && db.Valid()
    modifies ud, db
    ensures ud.Valid() && db.Valid()
    ensures ud.newItem == old(ud.newItem)
    ensures db.categories == old(db.categories) && db.items == old(db.items)
    ensures db.nextCategoryId == old(db.nextCategoryId) && db.nextItemId == old(db.nextItemId)
    ensures Acted(actor, a, old(db.categories), old(db.items),
                  old(ud.cart), old(db.users), old(db.orders), old(db.orderItems), old(db.nextOrderId),
                  ud.cart, db.users, db.orders, db.orderItems, db.nextOrderId, raised)
    ensures InlineEffects(cfg, clock, isAdmin, a, db.orders, effects)
  {
    effects := StartCommand(cfg, clock, actor, true, db);
    raised := false;
  }

  /** What `Checkout` leaves behind is what the "confirm" branch is specified to leave. */
  lemma CheckoutActed(actor: Actor, categories: map<int, Category>, items: map<int, MenuItem>,
                      cart: seq<Cart.CartLine>, users: map<int, User>, orders: map<int, Order>, rows: seq<OrderItem>,
                      next: int, orders': map<int, Order>, rows': seq<OrderItem>, next': int)
    requires cart == [] ==> orders' == orders && rows' == rows && next' == next
    requires cart != [] ==>
      && orders' == orders[next := Order(actor.id, NEW, Cart.Total(cart, items))]
      && rows' == rows + Store.Snapshot(next, Cart.Resolve(cart, items))
      && next' == next + 1
    ensures Acted(actor, ConfirmOrder, categories, items, cart, users, orders, rows, next,
                  [], users, orders', rows', next', false)
  {
    assert Places(cart, ConfirmOrder) <==> cart != [];
  }

  /** The branches that write the order tables: checkout and a status change. */
  method OrdersGroup(cfg: Utils.Config, clock: Utils.Clock, actor: Actor, isAdmin: bool, a: Action,
      ud: Session.UserData, db: Store.Db) returns (effects: seq<Effect>, raised: bool)
    requires (a.ConfirmOrder? || a.SetStatus?) && isAdmin == IsAdmin(cfg, actor)
    requires ud.Valid() && db.Valid()
    modifies ud, db
    ensures ud.Valid() && db.Valid()
    ensures ud.newItem == old(ud.newItem)
    ensures db.categories == old(db.categories) && db.items == old(db.items)
    ensures db.nextCategoryId == old(db.nextCategoryId) && db.nextItemId == old(db.nextItemId)
    ensures Acted(actor, a, old(db.categories), old(db.items),
                  old(ud.cart), old(db.users), old(db.orders), old(db.orderItems), old(db.nextOrderId),
                  ud.cart, db.users, db.orders, db.orderItems, db.nextOrderId, raised)
    ensures InlineEffects(cfg, clock, isAdmin, a, db.orders, effects)
  {
    effects, raised := [], false;
    match a {
      case ConfirmOrder =>
        effects := Checkout(cfg, actor, isAdmin, ud, db);
        CheckoutActed(actor, old(db.categories), old(db.items), old(ud.cart), old(db.users), old(db.orders),
                      old(db.orderItems), old(db.nextOrderId), db.orders, db.orderItems, db.nextOrderId);
      case SetStatus(id, s) =>
        effects := ChangeStatus(db, id, s);
    }
  }


  /**
   * `button_handler`. `admin_add_item` is only answered. A customer pressing
   * anything while the café is closed gets the closed notice as an alert and
   * nothing changes. Otherwise the branch for the parsed token runs;
   * `raised` says that it raised part-way, after the changes listed.
   */
  method ButtonHandler(cfg: Utils.Config, clock: Utils.Clock, actor: Actor, data: string,
                       ud: Session.UserData, db: Store.Db) returns (effects: seq<Effect>, raised: bool)
    requires ud.Valid() && db.Valid()
    modifies ud, db
    ensures ud.Valid() && db.Valid()
    ensures ud.newItem == old(ud.newItem)
    ensures db.categories == old(db.categories) && db.items == old(db.items)
    ensures db.nextCategoryId == old(db.nextCategoryId) && db.nextItemId == old(db.nextItemId)
    ensures Parse(data) == AdminAddItem ==> effects == [] && !raised
    ensures Parse(data) != AdminAddItem && !Utils.IsCafeOpen(cfg, clock) && !IsAdmin(cfg, actor) ==>
      effects == [Alert(Utils.ClosedMessage(cfg))] && !raised
    ensures !PassesGate(cfg, clock, actor, Parse(data)) ==>
      ud.cart == old(ud.cart) && db.users == old(db.users) && db.orders == old(db.orders)
      && db.orderItems == old(db.orderItems) && db.nextOrderId == old(db.nextOrderId)
    ensures PassesGate(cfg, clock, actor, Parse(data)) ==>
      Acted(actor, Parse(data), old(db.categories), old(db.items),
            old(ud.cart), old(db.users), old(db.orders), old(db.orderItems), old(db.nextOrderId),
            ud.cart, db.users, db.orders, db.orderItems, db.nextOrderId, raised)
    ensures PassesGate(cfg, clock, actor, Parse(data)) ==>
      InlineEffects(cfg, clock, IsAdmin(cfg, actor), Parse(data), db.orders, effects)
  {
    var a := Parse(data);
    effects, raised := [], false;
    if a == AdminAddItem {
      return;
    }
    var isAdmin := actor.id in cfg.adminIds;
    if !Utils.IsCafeOpen(cfg, clock) && !isAdmin {
      effects := [Alert(Utils.ClosedMessage(cfg))];
      return;
    }
    if a.AddMany? || a.ClearCart? {
      effects, raised := SessionGroup(cfg, clock, actor, isAdmin, a, ud, db);
    } else if a == Start {
      effects, raised := StartButton(cfg, clock, actor, isAdmin, a, ud, db);
    } else if ChangesState(a) {
      effects, raised := OrdersGroup(cfg, clock, actor, isAdmin, a, ud, db);
    } else {
      effects, raised := AnswerBranches(cfg, clock, actor, isAdmin, a, ud, db);
      AnsweringKeepsState(actor, a, db.categories, db.items, ud.cart, db.users, db.orders, db.orderItems,
                          db.nextOrderId, raised);
    }
  }

  // ------------------------------------------------- handler properties

  /**
   * Whatever button is pressed, every recorded order keeps a total equal to
   * the sum of its own lines, and every line keeps an owning order.
   */
  lemma ButtonKeepsTotals(orders: map<int, Order>, rows: seq<OrderItem>, next: int, items: map<int, MenuItem>,
                          cart: seq<Cart.CartLine>, userId: int, a: Action)
    requires next !in orders
    requires Store.RowsOwned(orders, rows) && Store.TotalsMatch(orders, rows)
    ensures var orders' := OrdersAfter(orders, next, items, cart, userId, a);
            var rows' := RowsAfter(rows, next, items, cart, a);
            Store.RowsOwned(orders', rows') && Store.TotalsMatch(orders', rows')
  {
    if Places(cart, a) {
      Cart.TotalIsLinesTotal(cart, items);
      Store.AddOrderKeepsTotals(orders, rows, next, Order(userId, NEW, Cart.Total(cart, items)), Cart.Resolve(cart, items));
    }
  }

  /**
   * An order keeps its customer and its total once placed; only its status
   * can change, and only through a status button.
   */
  lemma OrderHistoryStable(orders: map<int, Order>, next: int, items: map<int, MenuItem>,
                           cart: seq<Cart.CartLine>, userId: int, a: Action, k: int)
    requires next !in orders && k in orders
    ensures var o := OrdersAfter(orders, next, items, cart, userId, a)[k];
            && o.userId == orders[k].userId && o.totalPrice == orders[k].totalPrice
            && (!a.SetStatus? || a.orderId != k ==> o == orders[k])
  {
  }

  /**
   * What checkout stores is what the preview showed: the new order's lines
   * read back as the resolved cart lines, and its total is the preview total.
   */
  lemma CheckoutMatchesPreview(orders: map<int, Order>, rows: seq<OrderItem>, next: int, items: map<int, MenuItem>,
                               cart: seq<Cart.CartLine>, userId: int)
    requires next !in orders && Store.RowsOwned(orders, rows)
    requires cart != []
    ensures var o := OrdersAfter(orders, next, items, cart, userId, ConfirmOrder)[next];
            var rows' := RowsAfter(rows, next, items, cart, ConfirmOrder);
            && Store.LinesOf(rows', next) == Cart.Resolve(cart, items)
            && o == Order(userId, NEW, Cart.LinesTotal(Cart.Resolve(cart, items)))
            && CartAfter(cart, ConfirmOrder) == []
  {
    var lines := Cart.Resolve(cart, items);
    var placed := Store.Snapshot(next, lines);
    assert RowsAfter(rows, next, items, cart, ConfirmOrder) == rows + placed;
    Cart.TotalIsLinesTotal(cart, items);
    assert OrdersAfter(orders, next, items, cart, userId, ConfirmOrder)[next]
        == Order(userId, NEW, Cart.LinesTotal(lines));
    assert forall i :: 0 <= i < |rows| ==> rows[i].orderId != next;
    Store.LinesOfPlaced(rows, next, lines);
  }

  /**
   * An admin outside opening hours sees no checkout button on the cart
   * keyboard, yet `button_handler` still acts on "place_order" and
   * "confirm_order" from them.
   */
  lemma AdminCheckoutWhileClosed(cfg: Utils.Config, clock: Utils.Clock, actor: Actor)
    requires !Utils.IsCafeOpen(cfg, clock) && IsAdmin(cfg, actor)
    ensures var kb := CartActionsKeyboard(cfg, clock);
            forall i :: 0 <= i < |kb| ==> Parse(kb[i].token) != PlaceOrder
    ensures PassesGate(cfg, clock, actor, PlaceOrder) && PassesGate(cfg, clock, actor, ConfirmOrder)
  {
    CartActionsOfferCheckout(cfg, clock);
  }

  /**
   * The status and order-list branches check no admin rights: while the café
   * is open anyone who sends such a token is served, and the status is written.
   */
  lemma StatusButtonsUnguarded(cfg: Utils.Config, clock: Utils.Clock, actor: Actor, orders: map<int, Order>,
                               next: int, items: map<int, MenuItem>, cart: seq<Cart.CartLine>,
                               orderId: int, status: string, filter: string)
    requires Utils.IsCafeOpen(cfg, clock) && !IsAdmin(cfg, actor) && orderId in orders
    ensures PassesGate(cfg, clock, actor, SetStatus(orderId, status))
    ensures PassesGate(cfg, clock, actor, ViewOrders(filter))
    ensures OrdersAfter(orders, next, items, cart, actor.id, SetStatus(orderId, status))[orderId].status == status
  {
  }

  /**
   * "cart_add_many" changes the cart before it looks up the item: the
   * quantity is added even when the branch then raises on a missing category.
   */
  lemma AddManyBeforeRaise(categories: map<int, Category>, items: map<int, MenuItem>, cart: seq<Cart.CartLine>,
                           id: int, q: int)
    requires CategoryMissing(categories, items, id)
    ensures Raises(categories, items, AddMany(id, q))
    ensures Cart.Get(CartAfter(cart, AddMany(id, q)), id) == Cart.Get(cart, id) + q
  {
  }

  // ------------------------------------------------- handle_details_link

  /** The link the admin order list prints for an order. */
  function DetailsLink(orderId: int): string
  {
    "/details_" + Text.IntToString(orderId)
  }

  /** `order.user.username if order.user else "N/A"`; a missing username prints as "None". */
  function CustomerUsername(users: map<int, User>, userId: int): string
  {
    if userId !in users then "N/A"
    else if users[userId].username.Some? then users[userId].username.value
    else "None"
  }

  /** `text.split('_')[-1]`. */
  function LastPiece(text: string): string
  {
    var parts := Text.Split(text, '_');
    parts[|parts| - 1]
  }

  /**
   * `handle_details_link`: for an admin, the text after the last '_' must be
   * digits; the order with that number is shown with its status keyboard, or
   * reported missing.
   */
  method HandleDetailsLink(cfg: Utils.Config, actor: Actor, text: string, db: Store.Db) returns (effects: seq<Effect>)
    requires db.Valid()
    ensures !IsAdmin(cfg, actor) || !Text.IsDigitString(LastPiece(text)) ==> effects == []
    ensures IsAdmin(cfg, actor) && Text.IsDigitString(LastPiece(text)) ==>
      var idText := LastPiece(text);
      var id := Text.DigitsValue(idText);
      && (id !in db.orders ==> effects == [Reply(OrderNotFound(idText), [])])
      && (id in db.orders ==>
            var o := db.orders[id];
            effects == [Reply(OrderDetails(id, o.status, CustomerName(db.users, o.userId),
                                           CustomerUsername(db.users, o.userId), o.totalPrice,
                                           Store.LinesOf(db.orderItems, id)),
                              AdminOrderKeyboard(id))])
  {
    effects := [];
    if actor.id !in cfg.adminIds {
      return;
    }
    var idText := LastPiece(text);
    if !Text.IsDigitString(idText) {
      return;
    }
    var id := Text.DigitsValue(idText);
    if id !in db.orders {
      effects := [Reply(OrderNotFound(idText), [])];
    } else {
      var o := db.orders[id];
      effects := [Reply(OrderDetails(id, o.status, CustomerName(db.users, o.userId),
                                     CustomerUsername(db.users, o.userId), o.totalPrice,
                                     Store.LinesOf(db.orderItems, id)),
                        AdminOrderKeyboard(id))];
    }
  }

  /** The details link printed for an order leads an admin back to exactly that order. */
  lemma DetailsLinkNamesOrder(orderId: nat)
    ensures Text.IsDigitString(LastPiece(DetailsLink(orderId)))
    ensures Text.DigitsValue(LastPiece(DetailsLink(orderId))) == orderId
  {
    var n := Text.IntToString(orderId);
    Text.IntToStringHasNoSeparator(orderId);
    Text.NatToStringIsDigits(orderId);
    JoinCons("/details", [n]);
    assert ["/details", n] == ["/details"] + [n];
    PiecesSplit(["/details", n], DetailsLink(orderId));
  }
}
