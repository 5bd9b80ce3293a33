/**
 * The record shapes of database.py. Each table is a map from primary key to
 * record in `Store.Db`; the creation timestamps are not modelled.
 */
module Schema {
  import opened Wrappers

  /** The `OrderStatus` constants. The `status` column itself holds any string. */
  const NEW: string := "Новый"
  const IN_PROGRESS: string := "Готовится"
  const READY: string := "Готов к выдаче"
  const COMPLETED: string := "Выполнен"
  const CANCELLED: string := "Отменен"

  const Statuses: seq<string> := [NEW, IN_PROGRESS, READY, COMPLETED, CANCELLED]

  /** A category of the menu; `parentId` is None for a top-level category. */
  datatype Category = Category(name: string, parentId: Option<int>)

  /** A dish; `price` is in roubles. */
  datatype MenuItem = MenuItem(name: string, description: Option<string>, price: int, categoryId: int)

  /** A Telegram user as first seen by `/start`. */
  datatype User = User(username: Option<string>, firstName: string)

  /** An order; `totalPrice` is fixed when the order is created. */
  datatype Order = Order(userId: int, status: string, totalPrice: int)

  /** One line of an order: the item's name and price copied at order time. */
  datatype OrderItem = OrderItem(orderId: int, itemName: string, quantity: int, price: int)

  /** The five statuses are distinct and none contains `_`, the callback token separator. */
  lemma StatusesAreTokenSafe()
    ensures forall i, j :: 0 <= i < j < |Statuses| ==> Statuses[i] != Statuses[j]
    ensures forall i :: 0 <= i < |Statuses| ==> '_' !in Statuses[i]
  {
  }
}
