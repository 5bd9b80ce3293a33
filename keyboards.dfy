/**
 * keyboards.py: the inline keyboards. A keyboard is the list of its buttons
 * in reading order (the split into rows is not modelled); each button carries
 * its caption and its callback token. The contracts say what each button does
 * once pressed, in terms of `Tokens.Parse`.
 */
module Keyboards {
  import opened Wrappers
  import opened Schema
  import opened Text
  import opened Tokens
  import Utils
  import Store

  datatype Button = Button(caption: string, token: string)

  type Keyboard = seq<Button>

  function TokensOf(kb: Keyboard): seq<string>
  {
    seq(|kb|, i requires 0 <= i < |kb| => kb[i].token)
  }

  /** Every button leads to a branch of `button_handler` that acts on it. */
  predicate Handled(kb: Keyboard)
  {
    forall i :: 0 <= i < |kb| ==> !Parse(kb[i].token).Malformed? && !Parse(kb[i].token).Ignored?
  }

  /** `main_menu_keyboard`: menu, cart and orders, plus the way back to the admin panel for admins. */
  function MainMenuKeyboard(isAdmin: bool): (kb: Keyboard)
    ensures |kb| == if isAdmin then 4 else 3
    ensures kb[0].token == "show_menu" && kb[1].token == "cart" && kb[2].token == "my_orders"
    ensures isAdmin ==> kb[3].token == "admin_panel"
  {
    var base := [Button("🍽️ Показать меню", "show_menu"), Button("🛒 Корзина", "cart"), Button("📋 Мои заказы", "my_orders")];
    base + (if isAdmin then [Button("👑 Вернуться в админ-панель", "admin_panel")] else [])
  }

  /**
   * The main menu opens the catalog, the cart and the user's orders, and leads
   * back to the admin panel exactly for admins; every button is acted on.
   */
  lemma MainMenuOffersAdminPanel(isAdmin: bool)
    ensures var kb := MainMenuKeyboard(isAdmin);
            && Parse(kb[0].token) == ShowMenu && Parse(kb[1].token) == ShowCart
            && Parse(kb[2].token) == MyOrders
            && Handled(kb)
            && (isAdmin <==> exists i :: 0 <= i < |kb| && Parse(kb[i].token) == AdminPanel)
  {
    ParsePlainTokens();
    ParseCartTokens();
    ParseAdminTokens();
    var kb := MainMenuKeyboard(isAdmin);
    forall i | 0 <= i < |kb|
      ensures Parse(kb[i].token) == [ShowMenu, ShowCart, MyOrders, AdminPanel][i]
    {
      if i == 0 {
      } else if i == 1 {
      } else if i == 2 {
      } else {
      }
    }
  }

  /** The caption of the first admin button: the number of new orders, or that there are none. */
  function NewOrdersLabel(newOrders: int): string
  {
    if newOrders > 0 then "📋 Новые заказы (" + IntToString(newOrders) + ")" else "📋 Новых заказов нет"
  }

  /** The buttons of `admin_menu_keyboard` once the new orders are counted. */
  function AdminMenuButtons(newOrders: int): (kb: Keyboard)
    ensures |kb| == 4
    ensures kb[0].caption == NewOrdersLabel(newOrders)
    ensures kb[0].token == AdminViewOrdersToken(NEW) && kb[1].token == AdminViewOrdersToken("ALL")
    ensures kb[2].token == "admin_add_item" && kb[3].token == "start_user_menu"
  {
    [ Button(NewOrdersLabel(newOrders), AdminViewOrdersToken(NEW)),
      Button("Все заказы", AdminViewOrdersToken("ALL")),
      Button("➕ Добавить новое блюдо", "admin_add_item"),
      Button("➡️ Перейти в меню клиента", "start_user_menu") ]
  }

  /**
   * The admin menu lists the new orders, then all orders, starts the add-item
   * dialogue, and opens the customer menu; every button is acted on.
   */
  lemma AdminMenuActions(newOrders: int)
    ensures var kb := AdminMenuButtons(newOrders);
            && Parse(kb[0].token) == ViewOrders(NEW)
            && Parse(kb[1].token) == ViewOrders("ALL")
            && Parse(kb[2].token) == AdminAddItem
            && Parse(kb[3].token) == StartUserMenu
            && Handled(kb)
  {
    var kb := AdminMenuButtons(newOrders);
    assert kb[0].token == AdminViewOrdersToken(NEW) && kb[1].token == AdminViewOrdersToken("ALL");
    ParseAdminViewOrdersToken(NEW);
    ParseAdminViewOrdersToken("ALL");
    ParsePlainTokens();
    ParseAdminTokens();
    assert Parse(kb[2].token) == AdminAddItem;
    assert Parse(kb[3].token) == StartUserMenu;
    forall i | 0 <= i < |kb|
      ensures !Parse(kb[i].token).Malformed? && !Parse(kb[i].token).Ignored?
    {
      if i == 0 {
      } else if i == 1 {
      } else if i == 2 {
      } else {
      }
    }
  }

  /** The number of orders whose status is NEW. */
  function NewOrderCount(orders: map<int, Order>): nat
  {
    |set k | k in orders && orders[k].status == NEW|
  }

  /** `admin_menu_keyboard`: counts the orders whose status is NEW. */
  method AdminMenuKeyboard(db: Store.Db) returns (kb: Keyboard, newOrders: int)
    requires db.Valid()
    ensures newOrders == NewOrderCount(db.orders)
    ensures kb == AdminMenuButtons(newOrders)
  {
    var ids := db.OrdersWithStatus(NEW);
    Store.AscendingCount(ids, set k | k in db.orders && db.orders[k].status == NEW);
    newOrders := |ids|;
    kb := AdminMenuButtons(newOrders);
  }

  /** One button per category, labelled with its name. */
  function CategoryButtons(categories: map<int, Category>, ids: seq<int>): (kb: Keyboard)
    requires forall i :: 0 <= i < |ids| ==> ids[i] in categories
    ensures |kb| == |ids|
    ensures forall i :: 0 <= i < |ids| ==> kb[i].caption == categories[ids[i]].name
  {
    seq(|ids|, i requires 0 <= i < |ids| => Button(categories[ids[i]].name, CategoryToken(ids[i])))
  }

  /** Each category button opens its own category. */
  lemma CategoryButtonsOpen(categories: map<int, Category>, ids: seq<int>)
    requires forall i :: 0 <= i < |ids| ==> ids[i] in categories
    ensures forall i :: 0 <= i < |ids| ==> Parse(CategoryButtons(categories, ids)[i].token) == OpenCategory(ids[i])
  {
    forall i | 0 <= i < |ids|
      ensures Parse(CategoryButtons(categories, ids)[i].token) == OpenCategory(ids[i])
    {
      ParseCategoryToken(ids[i]);
    }
  }

  /** The caption of an item button: its name and its price. */
  function ItemLabel(item: MenuItem): string
  {
    item.name + " (" + IntToString(item.price) + " руб.)"
  }

  function ItemButtons(items: map<int, MenuItem>, ids: seq<int>): (kb: Keyboard)
    requires forall i :: 0 <= i < |ids| ==> ids[i] in items
    ensures |kb| == |ids|
    ensures forall i :: 0 <= i < |ids| ==> kb[i].caption == ItemLabel(items[ids[i]])
  {
    seq(|ids|, i requires 0 <= i < |ids| => Button(ItemLabel(items[ids[i]]), ItemToken(ids[i])))
  }

  /** Each item button opens the page of its own item. */
  lemma ItemButtonsOpen(items: map<int, MenuItem>, ids: seq<int>)
    requires forall i :: 0 <= i < |ids| ==> ids[i] in items
    ensures forall i :: 0 <= i < |ids| ==> Parse(ItemButtons(items, ids)[i].token) == ViewItem(ids[i])
  {
    forall i | 0 <= i < |ids|
      ensures Parse(ItemButtons(items, ids)[i].token) == ViewItem(ids[i])
    {
      ParseItemToken(ids[i]);
    }
  }

  /** "Back" from a category: to the list of top-level categories, or to the parent. */
  function BackButton(c: Category): (b: Button)
    ensures b.token == if c.parentId.None? then "show_menu" else CategoryToken(c.parentId.value)
  {
    if c.parentId.None? then Button("⬅️ Назад", "show_menu")
    else Button("⬅️ Назад", CategoryToken(c.parentId.value))
  }

  /** "Back" opens the parent category, or the top-level list for a top-level category. */
  lemma BackButtonGoesUp(c: Category)
    ensures c.parentId.None? ==> Parse(BackButton(c).token) == ShowMenu
    ensures c.parentId.Some? ==> Parse(BackButton(c).token) == OpenCategory(c.parentId.value)
  {
    if c.parentId.None? {
      ParsePlainTokens();
    } else {
      ParseCategoryToken(c.parentId.value);
    }
  }

  const HomeButton: Button := Button("⬅️ В главное меню", "start")

  /** `ids` lists the set `s`, each element once, in ascending order. */
  predicate Lists(ids: seq<int>, s: set<int>)
  {
    && (forall i, j :: 0 <= i < j < |ids| ==> ids[i] < ids[j])
    && (forall i :: 0 <= i < |ids| ==> ids[i] in s)
    && (forall k :: k in s ==> k in ids)
  }

  function Roots(categories: map<int, Category>): set<int>
  {
    set k | k in categories && categories[k].parentId.None?
  }

  function Children(categories: map<int, Category>, parent: int): set<int>
  {
    set k | k in categories && categories[k].parentId == Some(parent)
  }

  function ItemsOf(items: map<int, MenuItem>, category: int): set<int>
  {
    set k | k in items && items[k].categoryId == category
  }

  /** `menu_keyboard()`: the top-level categories, then "home". */
  method RootMenu(db: Store.Db) returns (kb: Keyboard, shown: seq<int>)
    requires db.Valid()
    ensures Lists(shown, Roots(db.categories))
    ensures kb == CategoryButtons(db.categories, shown) + [HomeButton]
  {
    shown := db.RootCategories();
    assert forall i :: 0 <= i < |shown| ==> shown[i] in shown;
    kb := CategoryButtons(db.categories, shown) + [HomeButton];
  }

  /**
   * `menu_keyboard(c)` for an existing category: its subcategories if it has
   * any, otherwise its items, then "back".
   */
  method CategoryMenu(db: Store.Db, c: int) returns (kb: Keyboard, shown: seq<int>)
    requires db.Valid() && c in db.categories
    ensures Children(db.categories, c) != {} ==>
      Lists(shown, Children(db.categories, c)) &&
      kb == CategoryButtons(db.categories, shown) + [BackButton(db.categories[c])]
    ensures Children(db.categories, c) == {} ==>
      Lists(shown, ItemsOf(db.items, c)) &&
      kb == ItemButtons(db.items, shown) + [BackButton(db.categories[c])]
  {
    var subs := db.Subcategories(c);
    assert forall i :: 0 <= i < |subs| ==> subs[i] in subs;
    if subs != [] {
      assert subs[0] in Children(db.categories, c);
      shown := subs;
      kb := CategoryButtons(db.categories, shown) + [BackButton(db.categories[c])];
    } else {
      assert forall k :: k in Children(db.categories, c) ==> k in subs;
      assert Children(db.categories, c) == {};
      shown := db.ItemsIn(c);
      assert forall i :: 0 <= i < |shown| ==> shown[i] in shown;
      kb := ItemButtons(db.items, shown) + [BackButton(db.categories[c])];
    }
  }

  /**
   * `kb` is what `menu_keyboard(categoryId)` builds, offering the ids `shown`:
   * without a category, the top-level categories and "home"; for an existing
   * category, its subcategories if it has any, otherwise its items, then "back".
   */
  predicate MenuOf(categories: map<int, Category>, items: map<int, MenuItem>, categoryId: Option<int>, shown: seq<int>, kb: Keyboard)
  {
    match categoryId
    case None =>
      Lists(shown, Roots(categories)) && kb == CategoryButtons(categories, shown) + [HomeButton]
    case Some(c) =>
      && c in categories
      && if Children(categories, c) != {} then
           Lists(shown, Children(categories, c)) && kb == CategoryButtons(categories, shown) + [BackButton(categories[c])]
         else
           Lists(shown, ItemsOf(items, c)) && kb == ItemButtons(items, shown) + [BackButton(categories[c])]
  }

  /**
   * `menu_keyboard(category_id)`. A category id that does not exist makes the
   * source fail on `None`; the result is then None.
   */
  method MenuKeyboard(db: Store.Db, categoryId: Option<int>) returns (kb: Option<Keyboard>, shown: seq<int>)
    requires db.Valid()
    ensures kb.Some? <==> categoryId.None? || categoryId.value in db.categories
    ensures kb.Some? ==> MenuOf(db.categories, db.items, categoryId, shown, kb.value)
  {
    match categoryId
    case None =>
      var k;
      k, shown := RootMenu(db);
      kb := Some(k);
    case Some(c) =>
      if c !in db.categories {
        kb, shown := None, [];
      } else {
        var k;
        k, shown := CategoryMenu(db, c);
        kb := Some(k);
      }
  }

  /** Every button of a menu keyboard opens a category or an item, or goes back or home. */
  lemma MenuOfHandled(categories: map<int, Category>, items: map<int, MenuItem>, categoryId: Option<int>, shown: seq<int>, kb: Keyboard)
    requires MenuOf(categories, items, categoryId, shown, kb)
    ensures Handled(kb)
  {
    ParsePlainTokens();
    match categoryId
    case None =>
      MenuKeyboardHandled(categories, items, shown, HomeButton, false);
    case Some(c) =>
      var ofItems := Children(categories, c) == {};
      BackButtonGoesUp(categories[c]);
      MenuKeyboardHandled(categories, items, shown, BackButton(categories[c]), ofItems);
  }

  /** Every button of a menu keyboard opens a category or an item, or goes back. */
  lemma MenuKeyboardHandled(categories: map<int, Category>, items: map<int, MenuItem>, ids: seq<int>, last: Button, ofItems: bool)
    requires ofItems ==> forall i :: 0 <= i < |ids| ==> ids[i] in items
    requires !ofItems ==> forall i :: 0 <= i < |ids| ==> ids[i] in categories
    requires !Parse(last.token).Malformed? && !Parse(last.token).Ignored?
    ensures Handled((if ofItems then ItemButtons(items, ids) else CategoryButtons(categories, ids)) + [last])
  {
    var kb := (if ofItems then ItemButtons(items, ids) else CategoryButtons(categories, ids)) + [last];
    if ofItems {
      ItemButtonsOpen(items, ids);
    } else {
      CategoryButtonsOpen(categories, ids);
    }
    forall i | 0 <= i < |kb|
      ensures !Parse(kb[i].token).Malformed? && !Parse(kb[i].token).Ignored?
    {
      if i == |ids| {
        assert kb[i] == last;
      }
    }
  }

  /** The quantity a detail page shows: the one asked for, raised to 1 if it is lower. */
  function Shown(quantity: int): int
  {
    if quantity < 1 then 1 else quantity
  }

  /**
   * `item_details_keyboard`: a quantity below 1 is shown as 1; the stepper
   * buttons carry the neighbouring quantities; "add to cart" appears only
   * while the café is open or for an admin; "back" returns to the item's
   * category. What the buttons do is stated by `ItemDetailsActions`.
   */
  function ItemDetailsKeyboard(cfg: Utils.Config, clock: Utils.Clock, itemId: int, quantity: int, isAdmin: bool): (kb: Keyboard)
    ensures |kb| == (if Utils.IsCafeOpen(cfg, clock) || isAdmin then 5 else 4)
    ensures kb[0].token == ItemDecrToken(itemId, Shown(quantity) - 1)
    ensures kb[1].token == "noop" && kb[1].caption == IntToString(Shown(quantity)) + " шт."
    ensures kb[2].token == ItemIncrToken(itemId, Shown(quantity) + 1)
    ensures |kb| == 5 ==> kb[3].token == CartAddManyToken(itemId, Shown(quantity))
    ensures kb[|kb| - 1].token == ItemBackToken(itemId)
  {
    var q := Shown(quantity);
    var steppers := [ Button("➖", ItemDecrToken(itemId, q - 1)),
                      Button(IntToString(q) + " шт.", "noop"),
                      Button("➕", ItemIncrToken(itemId, q + 1)) ];
    var add := if Utils.IsCafeOpen(cfg, clock) || isAdmin
               then [Button("🛒 Добавить в корзину (" + IntToString(q) + ")", CartAddManyToken(itemId, q))]
               else [];
    steppers + add + [Button("⬅️ Назад", ItemBackToken(itemId))]
  }

  /**
   * On an item page the steppers ask for one less and one more of the shown
   * quantity, "add to cart" (when present) adds the shown quantity, and "back"
   * returns to the item's category.
   */
  lemma ItemDetailsActions(cfg: Utils.Config, clock: Utils.Clock, itemId: int, quantity: int, isAdmin: bool)
    ensures var kb := ItemDetailsKeyboard(cfg, clock, itemId, quantity, isAdmin);
            && Parse(kb[0].token) == Step(itemId, Shown(quantity) - 1)
            && Parse(kb[1].token) == Noop
            && Parse(kb[2].token) == Step(itemId, Shown(quantity) + 1)
            && (|kb| == 5 ==> Parse(kb[3].token) == AddMany(itemId, Shown(quantity)))
            && Parse(kb[|kb| - 1].token) == ItemBack(itemId)
  {
    var q := Shown(quantity);
    ParseStepperTokens(itemId, q - 1);
    ParseStepperTokens(itemId, q + 1);
    ParseCartAddManyToken(itemId, q);
    ParseItemBackToken(itemId);
    ParseLateTokens();
  }

  /** Every button of an item page is acted on. */
  lemma ItemDetailsHandled(cfg: Utils.Config, clock: Utils.Clock, itemId: int, quantity: int, isAdmin: bool)
    ensures Handled(ItemDetailsKeyboard(cfg, clock, itemId, quantity, isAdmin))
  {
    var kb := ItemDetailsKeyboard(cfg, clock, itemId, quantity, isAdmin);
    ItemDetailsActions(cfg, clock, itemId, quantity, isAdmin);
    forall i | 0 <= i < |kb|
      ensures !Parse(kb[i].token).Malformed? && !Parse(kb[i].token).Ignored?
    {
      if i == |kb| - 1 {
      } else if i == 3 {
      }
    }
  }

  /** `cart_actions_keyboard`: checkout is offered only while the café is open, whoever asks. */
  function CartActionsKeyboard(cfg: Utils.Config, clock: Utils.Clock): (kb: Keyboard)
    ensures |kb| == if Utils.IsCafeOpen(cfg, clock) then 3 else 2
    ensures Utils.IsCafeOpen(cfg, clock) ==> kb[0].token == "place_order"
    ensures kb[|kb| - 2].token == "clear_cart" && kb[|kb| - 1].token == "show_menu"
  {
    var checkout := if Utils.IsCafeOpen(cfg, clock) then [Button("✅ Перейти к оформлению", "place_order")] else [];
    checkout + [Button("🗑️ Очистить корзину", "clear_cart"), Button("⬅️ Назад в меню", "show_menu")]
  }

  /** Checkout is on the cart keyboard exactly while the café is open. */
  lemma CartActionsOfferCheckout(cfg: Utils.Config, clock: Utils.Clock)
    ensures var kb := CartActionsKeyboard(cfg, clock);
            && Parse(kb[|kb| - 2].token) == ClearCart && Parse(kb[|kb| - 1].token) == ShowMenu
            && Handled(kb)
            && ((exists i :: 0 <= i < |kb| && Parse(kb[i].token) == PlaceOrder) <==> Utils.IsCafeOpen(cfg, clock))
  {
    var kb := CartActionsKeyboard(cfg, clock);
    ParsePlainTokens();
    ParseCartTokens();
    if Utils.IsCafeOpen(cfg, clock) {
      assert Parse(kb[0].token) == PlaceOrder;
    }
  }

  /** `confirm_order_keyboard`: confirm, or go back to the cart. */
  function ConfirmOrderKeyboard(): (kb: Keyboard)
    ensures |kb| == 2 && kb[0].token == "confirm_order" && kb[1].token == "cart"
  {
    [Button("👍 Подтвердить заказ", "confirm_order"), Button("⬅️ Вернуться в корзину", "cart")]
  }

  /** The preview keyboard confirms the order or goes back to the cart. */
  lemma ConfirmOrderActions()
    ensures var kb := ConfirmOrderKeyboard();
            Parse(kb[0].token) == ConfirmOrder && Parse(kb[1].token) == ShowCart && Handled(kb)
  {
    ParseCartTokens();
  }

  /**
   * `admin_order_keyboard`: one button per status after NEW, in the order of
   * the `OrderStatus` constants, each carrying this order's status token;
   * then back to the list of new orders. What the buttons do is stated by
   * `AdminOrderKeyboardStatuses`.
   */
  function AdminOrderKeyboard(orderId: int): (kb: Keyboard)
    ensures |kb| == 5
    ensures forall i :: 0 <= i < 4 ==> kb[i].token == AdminStatusToken(orderId, Statuses[i + 1])
    ensures kb[4].token == AdminViewOrdersToken(NEW)
  {
    [ Button("✔️ Готовится", AdminStatusToken(orderId, IN_PROGRESS)),
      Button("✅ Готов к выдаче", AdminStatusToken(orderId, READY)),
      Button("🏁 Завершить", AdminStatusToken(orderId, COMPLETED)),
      Button("❌ Отменить", AdminStatusToken(orderId, CANCELLED)),
      Button("⬅️ Назад к списку", AdminViewOrdersToken(NEW)) ]
  }

  /**
   * The order keyboard sets each status after NEW on this order, in the order
   * of the constants, never sets it back to NEW, and ends with the list of
   * new orders.
   */
  lemma AdminOrderKeyboardStatuses(orderId: int)
    ensures var kb := AdminOrderKeyboard(orderId);
            && (forall i :: 0 <= i < 4 ==> Parse(kb[i].token) == SetStatus(orderId, Statuses[i + 1]))
            && Parse(kb[4].token) == ViewOrders(NEW)
            && (forall i :: 0 <= i < |kb| ==> Parse(kb[i].token) != SetStatus(orderId, NEW))
            && Handled(kb)
  {
    var kb := AdminOrderKeyboard(orderId);
    StatusesAreTokenSafe();
    forall i | 0 <= i < 4
      ensures Parse(kb[i].token) == SetStatus(orderId, Statuses[i + 1])
    {
      ParseAdminStatusToken(orderId, Statuses[i + 1]);
    }
    ParseAdminViewOrdersToken(NEW);
    forall i | 0 <= i < 4
      ensures Parse(kb[i].token) != SetStatus(orderId, NEW)
    {
      assert Statuses[0] == NEW;
    }
  }

  /** `cancel_keyboard`: its one token is meant for the add-item dialogue; `button_handler` ignores it. */
  function CancelKeyboard(): (kb: Keyboard)
    ensures |kb| == 1 && kb[0].token == "cancel_action"
  {
    [Button("❌ Отмена", "cancel_action")]
  }
}
