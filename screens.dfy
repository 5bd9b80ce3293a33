/**
 * What the bot shows or sends in answer to an update. Screens keep the data a
 * message carries (names, ids, quantities, prices, statuses); their wording,
 * emoji and MarkdownV2 layout are not modelled, except where noted.
 */
module Screens {
  import opened Wrappers
  import Cart
  import Keyboards

  /** One order in a customer's own list. */
  datatype OrderSummary = OrderSummary(orderId: int, status: string, totalPrice: int)

  /** One order in the admin list: `customer` is the customer's first name, or "Удален" when the user row is gone. */
  datatype OrderRow = OrderRow(orderId: int, customer: string, status: string, totalPrice: int)

  datatype View =
    | Notice(text: string)                                   // a plain text given in full
    | Greeting(text: string)                                 // the MarkdownV2 greeting of `start`
    | ClientMenu
    | ChooseCategory
    | CategoryPage(name: string, hasSubcategories: bool, isEmpty: bool)
    | CategoryNotFound
    | ItemPage(name: string, price: int, description: string)
    | CategoryItems(categoryName: string)
    | EmptyCart                                              // `render_cart` on an empty cart
    | CartPage(lines: seq<Cart.Line>, total: int)
    | NothingToOrder                                         // `place_order` on an empty cart
    | OrderPreview(lines: seq<Cart.Line>, total: int)
    | CartCleared
    | OrderAccepted(orderId: int)
    | NewOrderNotice(orderId: int, firstName: string, username: string, lines: seq<Cart.Line>, total: int)
    | MyOrdersPage(summaries: seq<OrderSummary>)
    | AdminPanelPage
    | OrdersPage(filter: string, rows: seq<OrderRow>)
    | StatusChanged(orderId: int, status: string)
    | StatusNotice(orderId: int, status: string, readyForPickup: bool)
    | OrderDetails(orderId: int, status: string, customer: string, username: string, total: int, lines: seq<Cart.Line>)
    | OrderNotFound(idText: string)
    | ChooseLeafCategory
    | AskName
    | AskDescription
    | AskPrice(descriptionSkipped: bool)
    | PriceRejected
    | ItemAdded(name: string)
    | ActionCancelled

  datatype Effect =
    | Alert(text: string)                                    // `query.answer(text, show_alert=True)`
    | Toast(text: string)                                    // `query.answer(text, show_alert=False)`
    | Edit(view: View, keyboard: Keyboards.Keyboard)         // `edit_message_text`
    | EditKeyboard(keyboard: Keyboards.Keyboard)             // `edit_message_reply_markup`
    | Reply(view: View, keyboard: Keyboards.Keyboard)        // `message.reply_text`
    | Send(chats: set<int>, view: View, keyboard: Keyboards.Keyboard)  // `bot.send_message` to each chat; failures are only logged
}
