/**
 * `context.user_data` of one Telegram user: the cart, and the draft of a menu
 * item an admin is adding.
 */
module Session {
  import opened Wrappers
  import Cart

  /**
   * `user_data['new_item']`: the category is chosen first; the name, then the
   * description (Some(None) once skipped), are filled in by later steps.
   */
  datatype Draft = Draft(categoryId: int, name: Option<string>, description: Option<Option<string>>)

  class UserData {
    var cart: seq<Cart.CartLine>
    var newItem: Option<Draft>

    /** The cart is a dictionary: no item id occurs twice. */
    ghost predicate Valid()
      reads this
    {
      Cart.WellFormed(cart)
    }

    /** A user the bot has not seen yet: no cart entries, no draft. */
    constructor ()
      ensures Valid() && cart == [] && newItem == None
    {
      cart := [];
      newItem := None;
    }
  }
}
