# Café bot: a Dafny model of the ordering state machine

This project models the core of a Telegram café bot. Customers browse a menu of categories, build a cart, place orders and follow their status. Admins see and advance orders and add dishes through a short dialogue. The model covers:

- the handlers of `bot.py`: `start`, `render_cart`, `my_orders`, every branch of `button_handler`, the add-item conversation and `handle_details_link`;
- the order in which `main` tries the handlers for an update;
- the keyboards of `keyboards.py`;
- the opening-hours gate of `utils.py`.

The database tables of `database.py` are maps keyed by primary key, held by the class `Store.Db`. The order-lines table is a sequence of rows. The per-user session `context.user_data` is the class `Session.UserData`, with its cart and its draft item. A handler reads and writes those objects and answers with a list of effects (`Screens.Effect`): a message edited, a reply, a send to other chats, or an alert. An effect carries the data the message shows. Callback tokens are written by `Tokens` and read back by `Tokens.Parse`, which mirrors the `if`/`elif` chain of `button_handler`.

Files:
- `wrappers.dfy`: `Option`.
- `text.dfy`: `str(int)`, `int()`, `isdigit` and `split`.
- `markdown.dfy`: `escape_markdown`.
- `schema.dfy`: the records.
- `cart.dfy`: the cart as an insertion-ordered dictionary.
- `store.dfy`: the database.
- `utils.dfy`: the opening-hours gate.
- `tokens.dfy`: the callback vocabulary.
- `keyboards.dfy`: the keyboards.
- `session.dfy`: the per-user session.
- `screens.dfy`: the effects.
- `bot.dfy`: the handlers.
- `dialogue.dfy`: the add-item conversation and the routing.

Where the code and the specification of the system disagree, the model follows the code:

- The "add to cart" quantity is not checked. A token with quantity 0 or below is stored as it is (`Cart.AddManyDoesNotValidate`).
- Order statuses are not a guarded state machine. A completed or cancelled order can be given any status, including a text that is none of the five statuses (`Store.StatusWriteIsUnguarded`).
- The status and order-list tokens check no admin rights (`Bot.StatusButtonsUnguarded`).
- The opening-hours gate applies to every button a customer presses, not only to checkout. It also applies to a typed `/start`.
- An admin outside opening hours sees no checkout button on the cart keyboard. The handler still accepts the checkout tokens from them (`Bot.AdminCheckoutWhileClosed`).
- A malformed token is not ignored: `int()`, indexing or unpacking raises. The model marks such an update as raised, and it changes nothing (`Tokens.MalformedCategoryToken`, `Tokens.MalformedCartToken`).
- An item whose category row is gone makes "back" and "add to cart" raise. "Add to cart" raises only after the cart was updated (`Bot.AddManyBeforeRaise`).
- Checking out an empty cart does nothing. There is no validation error.
- An unknown item id shows nothing. There is no "not found" page.

## Model

| member | source | states |
|---|---|---|
| Text.NatToString | bot.py:355 | the decimal text of a natural number is a non-empty digit string without a leading zero |
| Text.NatToStringRoundTrip | bot.py:183 | the digits of `str(n)` read back as `n` |
| Text.ParseIntRoundTrip | bot.py:183 | `int(str(n)) == n` for every integer, negative ones included |
| Text.IntToStringHasNoSeparator | keyboards.py:86-88 | the text of an integer never contains `_`, the token separator |
| Text.NatToStringIsDigits | bot.py:518 | `str(n)` of a non-negative integer passes `isdigit`, and its digits read back as `n` |
| Text.Split | bot.py:202 | `split('_')` gives at least one piece, no piece holds the separator, and joining the pieces gives back the text |
| Text.SplitJoin | bot.py:202 | splitting what was joined from separator-free pieces gives back those pieces |
| Text.SplitAppend | bot.py:364 | splitting two texts joined by the separator gives the pieces of the first followed by those of the second |
| Markdown.Escape | bot.py:44-48 | one backslash is added per special character, and every special character in the result has a backslash right before it |
| Markdown.UnescapeEscape | bot.py:44-48 | removing the added backslashes restores the original text |
| Markdown.EscapeInjective | bot.py:44-48 | two different texts never escape to the same text |
| Markdown.EscapeAppend | bot.py:48 | escaping works character by character, so it distributes over concatenation |
| Markdown.EscapeDigits | bot.py:107 | a digit string is rendered unchanged |
| Markdown.EscapeNegative | bot.py:45-48 | for a negative number only the minus sign is escaped |
| Schema.StatusesAreTokenSafe | database.py:12-17 | the five status constants are distinct, and none contains the token separator |
| Session.UserData.constructor | bot.py:63 | a new session has an empty cart and no draft |
| Utils.GateBoundaries | utils.py:12 | the café is open at OPEN_HOUR (when it is below CLOSE_HOUR) and closed at CLOSE_HOUR |
| Utils.GateFailsOpen | utils.py:13-18 | an unknown time zone or any other clock error counts as open |
| Utils.OpenHoursPerDay | utils.py:8-18 | over hours 0 to 23 the café is open for exactly CLOSE_HOUR - OPEN_HOUR hours |
| Utils.ClosedMessageNamesHours | utils.py:20-21 | the closed notice contains both hours, each readable back with `int()` |
| Cart.Put | bot.py:236 | `cart[id] = q` sets that entry, keeps every other entry and its place, and appends a new id at the end |
| Cart.AddManyAsMap | bot.py:236 | as a dictionary, the cart gains `q` on entry `id` (from 0 if absent) and nothing else changes |
| Cart.AddAllFromEmpty | bot.py:236 | repeated additions to one item add up to the sum of the quantities |
| Cart.AddManyKeepsPositive | bot.py:236 | adding a positive quantity keeps every quantity positive |
| Cart.AddManyDoesNotValidate | bot.py:233-236 | a quantity of zero or below is stored unchecked |
| Cart.TotalIsLinesTotal | bot.py:100-105 | the cart total is the sum of the line totals of the resolved lines |
| Cart.ResolveAllCurrent | bot.py:101-108 | when every id resolves, there is one line per cart entry, in cart order, with the catalog name and price |
| Cart.StaleLinesIgnored | bot.py:102-103 | an entry whose item is gone changes neither the lines nor the total |
| Cart.PutTotal | bot.py:104-105 | setting a quantity changes the total by the price times the change |
| Cart.AddManyTotal | bot.py:283-287 | adding `q` of an item raises the total by `q` times its price, or by nothing if the item is gone |
| Store.Snapshot | bot.py:295-305 | one order-item row per line, carrying the order id and the line's name, quantity and price |
| Store.LinesOfSnapshot | bot.py:533 | reading back the rows written for an order gives exactly its lines; other orders see none of them |
| Store.AddOrderKeepsTotals | bot.py:283-308 | adding an order with its lines under a fresh id keeps every stored total equal to the sum of that order's lines |
| Store.WithStatus | bot.py:366-369 | the status write changes only that order's status; an unknown id changes nothing |
| Store.LastStatusWins | bot.py:368 | of two status writes to one order, the second wins |
| Store.StatusWriteIsUnguarded | bot.py:364-369 | a completed or cancelled order can be given any status |
| Store.Latest | bot.py:125-126 | newest first, at most `n`: the last `n` ids of an ascending list, reversed |
| Store.LatestAreNewest | bot.py:122-128 | the kept ids are strictly descending, and every dropped id is older than every kept one |
| Store.Db.RootCategories | keyboards.py:55 | exactly the categories without a parent, ascending |
| Store.Db.Subcategories | keyboards.py:62-64 | exactly the categories whose parent is the given one, ascending |
| Store.Db.ItemsIn | keyboards.py:65-68 | exactly the items of the given category, ascending |
| Store.Db.LeafCategories | bot.py:404 | exactly the categories that no category names as its parent, ascending |
| Store.Db.OrdersWithStatus | bot.py:343 | exactly the orders with that status, ascending |
| Store.Db.OrdersOf | bot.py:122-124 | exactly the orders of that user, ascending |
| Store.Db.AllOrders | bot.py:341 | every order, ascending |
| Store.Db.EnsureUser | bot.py:54-60 | the user row is created on first contact and never overwritten |
| Store.Db.AddMenuItem | bot.py:476-479 | a new item under a fresh id; nothing else changes |
| Store.Db.PlaceOrder | bot.py:283-308 | one NEW order with the cart total under a fresh id, plus one row per line that still resolves, committed together |
| Store.Db.SnapshotRows | bot.py:295-305 | the loop stages exactly the snapshot rows of the resolved cart |
| Store.Db.SetStatus | bot.py:366-369 | reports whether the order exists, and writes the status only then |
| Tokens.ParseCategoryToken | bot.py:182-183 | a category token reads back as that category |
| Tokens.ParseItemToken | bot.py:201-204 | an item token reads back as that item |
| Tokens.ParseItemBackToken | bot.py:213-214 | an item-back token reads back as "back" for that item |
| Tokens.ParseStepperTokens | bot.py:221-223 | both stepper tokens read back as the item and the quantity to show |
| Tokens.ParseCartAddManyToken | bot.py:229-235 | an add-to-cart token reads back as that item and quantity |
| Tokens.ParseAdminStatusToken | bot.py:364-366 | a status token reads back as the same order and status when the status has no `_` |
| Tokens.AdminStatusTokenWithSeparator | bot.py:363-364 | for every status containing `_`, the token splits into more than four parts, so the unpacking raises |
| Tokens.ParseAdminViewOrdersToken | bot.py:339-340 | an order-list token reads back as its filter when the filter has no `_` |
| Tokens.StatusTokenReachesBranch | bot.py:364 | no earlier branch catches an `admin_status_` token |
| Tokens.MalformedCategoryToken | bot.py:183 | a category token without a number raises |
| Tokens.MalformedCartToken | bot.py:233-235 | an add-to-cart token missing its quantity raises on the missing index |
| Tokens.ParsePlainTokens | bot.py:172-259 | the fixed tokens reach their own branches |
| Tokens.ParseCartTokens | bot.py:250-279 | "cart", "clear_cart" and "confirm_order" reach their own branches, not a prefix branch |
| Tokens.ParseAdminTokens | bot.py:159-161 | "admin_add_item" is only answered, and "admin_panel" reaches its branch |
| Tokens.ParseCancelToken | bot.py:155-390 | no branch of `button_handler` acts on "cancel_action" |
| Keyboards.MainMenuKeyboard | keyboards.py:12-24 | menu, cart and orders, plus the admin panel for admins |
| Keyboards.MainMenuOffersAdminPanel | keyboards.py:17-23 | each main-menu button reaches its branch, and the admin panel is offered exactly to admins |
| Keyboards.AdminMenuButtons | keyboards.py:33-40 | new orders (captioned with their count), all orders, add item, customer menu |
| Keyboards.AdminMenuActions | keyboards.py:35-40 | the admin buttons list NEW orders, list all orders, start the dialogue and open the customer menu |
| Keyboards.AdminMenuKeyboard | keyboards.py:27-41 | the caption counts exactly the orders whose status is NEW |
| Keyboards.CategoryButtons | keyboards.py:56 | one button per category, with the category's name |
| Keyboards.CategoryButtonsOpen | keyboards.py:56 | each category button opens its own category |
| Keyboards.ItemButtons | keyboards.py:66-68 | one button per item, with its name and price |
| Keyboards.ItemButtonsOpen | keyboards.py:68 | each item button opens its own item |
| Keyboards.BackButton | keyboards.py:71-74 | "back" leads to the top-level list or to the parent category |
| Keyboards.BackButtonGoesUp | keyboards.py:71-74 | "back" reads back as the top-level menu or as the parent category |
| Keyboards.RootMenu | keyboards.py:53-57 | exactly the top-level categories in ascending order, then "home" |
| Keyboards.CategoryMenu | keyboards.py:59-74 | the subcategories if there are any, otherwise the items, then "back" |
| Keyboards.MenuKeyboard | keyboards.py:48-77 | a keyboard exists exactly when no category is given or the category exists, and it is the menu for it |
| Keyboards.MenuOfHandled | keyboards.py:48-77 | every button of a menu keyboard reaches a branch that acts on it |
| Keyboards.ItemDetailsKeyboard | keyboards.py:80-97 | the shown quantity is raised to 1; steppers and back; "add" only while open or for admins |
| Keyboards.ItemDetailsActions | keyboards.py:84-96 | the steppers step from the shown quantity, "add" adds the shown quantity, "back" returns to the item's category |
| Keyboards.ItemDetailsHandled | keyboards.py:84-96 | every button of an item page reaches a branch of `button_handler` that acts on it |
| Keyboards.CartActionsKeyboard | keyboards.py:104-115 | checkout first only while the café is open, then clear and back |
| Keyboards.CartActionsOfferCheckout | keyboards.py:104-115 | checkout is offered exactly while the café is open, for admins too |
| Keyboards.ConfirmOrderKeyboard | keyboards.py:118-123 | confirm, then back to the cart |
| Keyboards.ConfirmOrderActions | keyboards.py:118-123 | the two buttons confirm the order and show the cart |
| Keyboards.AdminOrderKeyboard | keyboards.py:130-139 | one status token per status after NEW, in constant order, then the NEW list |
| Keyboards.AdminOrderKeyboardStatuses | keyboards.py:130-139 | the buttons set each later status on this order, never NEW, and end at the NEW list |
| Keyboards.CancelKeyboard | keyboards.py:142-146 | a single "cancel_action" button |
| Bot.GreetingQuotesName | bot.py:70-73 | the greeting quotes the first name exactly and carries the admin mark exactly for admins |
| Bot.Registered | bot.py:54-60 | the user row is added once, from the Telegram profile, and existing rows are kept |
| Bot.StartCommand | bot.py:51-88 | the user is registered first; a typed /start from a customer while closed gets the closed notice; otherwise the greeting with the admin or main menu |
| Bot.CategoryScreen | bot.py:182-199 | an existing category shows its name, whether it has subcategories and whether it is empty, with its menu; otherwise "not found" with the top menu |
| Bot.DescriptionText | bot.py:207 | a missing or empty description is replaced by the placeholder |
| Bot.ItemScreen | bot.py:201-212 | an existing item shows its name, price and description with its keyboard at quantity 1; an unknown item shows nothing |
| Bot.ItemCategoryScreen | bot.py:213-220 | raises exactly when the item's category row is gone; otherwise shows the menu of the item's category |
| Bot.PriceCart | bot.py:99-105 | the loop yields the resolved lines and the cart total, and the total is the sum of the lines |
| Bot.RenderCart | bot.py:91-116 | an empty cart shows the top menu; otherwise the resolved lines and their total, with the cart keyboard |
| Bot.OrderPreviewScreen | bot.py:259-277 | an empty cart shows the top menu; otherwise the resolved lines and total, with the confirm keyboard |
| Bot.UsernameText | bot.py:294 | a missing or empty username prints as "N/A" |
| Bot.Checkout | bot.py:279-328 | a non-empty cart becomes one NEW order with its total and lines, the cart is emptied, and every admin is notified; an empty cart does nothing |
| Bot.Summaries | bot.py:134-138 | one summary per listed order, with its id, status and total |
| Bot.Rows | bot.py:351-355 | one row per listed order, with the customer's first name or "Удален" |
| Bot.NewestOf | bot.py:122-127 | the newest `n` ids: strictly descending, as many as exist up to `n`, and every id left out is older |
| Bot.MyOrdersScreen | bot.py:119-152 | exactly the user's ten newest orders, newest first, with the main menu |
| Bot.OrdersScreen | bot.py:339-362 | every order with the filter status, newest first, or the ten newest for "ALL", with the admin menu |
| Bot.ChangeStatus | bot.py:364-388 | an existing order gets the status; the presser sees it, and the customer is told, with a pickup note for READY |
| Bot.CartAfter | bot.py:236 | a branch keeps the cart a dictionary, and "add many" adds the quantity to that item |
| Bot.OrdersAfter | bot.py:288-291 | only checkout of a non-empty cart adds an order |
| Bot.RowsAfter | bot.py:295-308 | order lines are only ever appended |
| Bot.NavigationGroup | bot.py:174-181 | "start_user_menu", "show_menu", "noop" and malformed or unknown tokens only answer; only a malformed token raises; the client menu is sent inline |
| Bot.CatalogGroup | bot.py:182-227 | category, item, back and stepper buttons only answer; they raise exactly when specified; the stepper answers only for a positive quantity |
| Bot.CustomerGroup | bot.py:250-331 | the cart, preview and order-list screens only answer and never raise |
| Bot.AdminGroup | bot.py:333-362 | the admin panel (shown only to admins) and the order lists only answer and never raise |
| Bot.AnswerBranches | bot.py:172-362 | every branch that changes no state raises exactly when specified and sends the specified inline reply |
| Bot.AnsweringKeepsState | bot.py:172-362 | a branch that only answers leaves the cart, users, orders, order lines and order counter as they were |
| Bot.StartButton | bot.py:172-173 | the "start" button registers the presser and changes nothing else |
| Bot.SessionGroup | bot.py:229-258 | "add many" adds the quantity to the cart before the screen that may raise; "clear" empties the cart and shows the main menu |
| Bot.CheckoutActed | bot.py:279-310 | what checkout stores is the specified effect of "confirm_order" |
| Bot.OrdersGroup | bot.py:279-388 | checkout and the status button change the order tables as specified and nothing else |
| Bot.ButtonHandler | bot.py:155-390 | "admin_add_item" is only answered; a customer gets the closed alert while closed, with no change; otherwise the branch acts |
| Bot.ButtonKeepsTotals | bot.py:279-310 | whatever button is pressed, every stored total equals the sum of its lines, and every line has an order |
| Bot.OrderHistoryStable | bot.py:288-290 | a placed order keeps its customer and total; only a status button changes its status |
| Bot.CheckoutMatchesPreview | bot.py:264-310 | the stored order's lines and total are those the preview showed, and the cart is emptied |
| Bot.AdminCheckoutWhileClosed | bot.py:163-166 | while closed an admin has no checkout button, yet checkout passes the gate for them |
| Bot.StatusButtonsUnguarded | bot.py:339-369 | while open, a non-admin's status and list tokens pass the gate, and the status is written |
| Bot.AddManyBeforeRaise | bot.py:233-245 | with the category row gone, "add many" raises after the cart was already updated |
| Bot.HandleDetailsLink | bot.py:509-539 | for an admin whose last piece is digits, the order with its lines and keyboard, or "not found"; otherwise nothing |
| Bot.DetailsLinkNamesOrder | bot.py:355 | the link printed for an order leads back to exactly that order |
| Dialogue.ItemsAfter | bot.py:473-479 | the dialogue adds at most the one item under the next id, and only with a positive price |
| Dialogue.LeafButtons | bot.py:407-410 | one button per leaf category, with its name |
| Dialogue.LeafButtonsPickTheirCategory | bot.py:407-411 | each leaf button is taken by the category step and names its category; cancel ends the dialogue |
| Dialogue.AddItemStart | bot.py:393-417 | a non-admin is refused and stays out; an admin is offered exactly the leaf categories and cancel |
| Dialogue.AddItemCategory | bot.py:420-430 | the draft starts with the chosen category id, unchecked |
| Dialogue.AddItemName | bot.py:433-439 | the text becomes the name |
| Dialogue.AddItemDescription | bot.py:442-461 | the text, or no description after /skip, is stored, then the price is asked for |
| Dialogue.AddItemPrice | bot.py:464-488 | a price that is not a positive decimal is asked for again; otherwise the finished draft is stored and dropped |
| Dialogue.CancelAction | bot.py:491-506 | the draft is dropped, and the user gets the admin or main menu back |
| Dialogue.RoutesAreReachable | bot.py:543-569 | each conversation handler is reached only from its own stage, and the category step only with a number |
| Dialogue.DialogueStep | bot.py:545-571 | a conversation handler moves the stage, the draft and the items as specified, keeping them consistent; the item counter moves on exactly when an item is added |
| Dialogue.HandleUpdate | bot.py:545-578 | one update: stage, draft and items move as specified, the item counter moves on exactly when an item is added, and only an admin can add an item |
| Dialogue.EntryOnlyWhenIdle | bot.py:546-548 | "add item" opens the conversation only from outside it |
| Dialogue.AddItemIgnoredInsideDialogue | bot.py:159-161 | inside the conversation "add item" reaches the button handler, which only answers it |
| Dialogue.CancelAlwaysAvailable | bot.py:566-569 | cancel works at every stage, by button or command, ends the conversation and drops the draft |
| Dialogue.CancelIgnoredOutsideDialogue | bot.py:566-569 | outside the conversation the cancel button reaches the button handler, which ignores it |
| Dialogue.StartKeepsDialogue | bot.py:573-574 | /start is served at every stage, and the conversation stays where it was |
| Dialogue.PriceAcceptedIsPositive | bot.py:466 | a price is accepted exactly when it is the decimal text of a positive number |
| Dialogue.AddItemRoutes | bot.py:543-562 | the updates of a whole dialogue reach the entry, category, name, description and price handlers in turn |
| Dialogue.AddItemRun | bot.py:420-488 | those handlers, run in turn, store one item built from what was sent and leave no draft |
| Dialogue.AddItemDialogue | bot.py:393-488 | category, name, description and a positive price add exactly one item holding them, and leave no draft |

## Left out

- Telegram I/O: the callback answer itself, sending, the MarkdownV2 wording and emoji, and the split of keyboards into rows. Effects carry the data a message shows, not its text.
- Store.Db.RootCategories, Store.Db.Subcategories, Store.Db.ItemsIn, Store.Db.LeafCategories, Store.Db.OrdersWithStatus, Store.Db.OrdersOf, Store.Db.AllOrders: the SQL queries and relationship lists they model have no `order_by`, so the database may return rows in any order; the model fixes that order as ascending primary key, and the keyboards and lists built from them inherit it.
- `created_at`: ids are handed out in creation order, so "newest first" is modelled as descending id. The date printed in `my_orders` is not modelled.
- `int()` and `isdigit()` accept ASCII digits only. Surrounding whitespace, `_` inside numbers and non-ASCII digits are not modelled.
- A send that fails is only logged. Every send is modelled as made, and the order of sends to several admins is not modelled.
- The "Message is not modified" handling and all logging are not modelled.
- The clock is read once per update, although the source calls `is_cafe_open()` more than once.
- `db.close()` after a branch that raised is not modelled: the state changes made before the raise stay, which is what the commit pattern of the source gives.
- The conversation state is kept per user, not per (chat, user) pair.
- Bot commands: a command is a `/` followed by a letter, digit or `_`. Case-insensitive matching and the `@botname` suffix are not modelled.
- `init_db.py`, `config.py` and the `get_db` session factory are not part of this model. The configuration is a parameter.
- Bot.ButtonHandler: the effects of the branches that delegate to a screen method are stated by that method's contract (for example `Bot.CategoryScreen` or `Bot.Checkout`), not repeated in the handler's own contract.
- Bot.NavigationGroup: the effect of "show_menu" is the `Keyboards.MenuKeyboard` screen; it is not restated in the group's contract.
