/**
 * The add-item conversation of bot.py and the order in which the bot's
 * handlers are tried for an update (`main`): the conversation first, then
 * /start, then the order-details link, then `button_handler` for any button.
 */
module Dialogue {
  import opened Wrappers
  import opened Schema
  import opened Text
  import opened Tokens
  import opened Keyboards
  import opened Screens
  import Utils
  import Store
  import Session
  import Bot

  /** Where one user stands in the add-item conversation; Idle when it is not running. */
  datatype Stage = Idle | AwaitCategory | AwaitName | AwaitDescription | AwaitPrice

  /** An incoming update: a button press with its callback data, or a text message. */
  datatype Update = Callback(data: string) | Message(text: string)

  /** The handler an update reaches. */
  datatype Handler =
    | EnterAddItem                      // `add_item_start`
    | PickCategory(data: string)        // `add_item_category`
    | GiveName(text: string)            // `add_item_name`
    | GiveDescription(text: string)     // `add_item_description`
    | SkipDescription                   // `add_item_skip_description`
    | GivePrice(text: string)           // `add_item_price`
    | CancelDialogue(viaButton: bool)   // `cancel_action`
    | ToStart                           // `start`
    | ToDetails(text: string)           // `handle_details_link`
    | ToButtons(data: string)           // `button_handler`
    | Unhandled

  predicate IsCommandChar(c: char)
  {
    'a' <= c <= 'z' || 'A' <= c <= 'Z' || IsDigit(c) || c == '_'
  }

  /** A message Telegram marks as a bot command: a slash and a command character. */
  predicate IsCommand(text: string)
  {
    |text| >= 2 && text[0] == '/' && IsCommandChar(text[1])
  }

  /** The command `/name`, alone or followed by arguments. */
  predicate CommandIs(text: string, name: string)
  {
    text == "/" + name || StartsWith(text, "/" + name + " ")
  }

  /** `^\/details_\d+$`: `$` also matches before one final newline. */
  predicate DetailsPattern(text: string)
  {
    && StartsWith(text, "/details_")
    && (|| IsDigitString(text[9..])
        || (|text| > 10 && text[|text| - 1] == '\n' && IsDigitString(text[9..|text| - 1])))
  }

  /**
   * The handler `main` registers for an update. Inside the conversation the
   * current stage's handlers are tried first, then the fallbacks; an update
   * none of them takes falls through to the handlers after the conversation.
   */
  function Route(stage: Stage, u: Update): Handler
  {
    match u
    case Callback(data) =>
      if stage == Idle && data == "admin_add_item" then EnterAddItem
      else if stage == AwaitCategory && IsDigitString(data) then PickCategory(data)
      else if stage != Idle && data == "cancel_action" then CancelDialogue(true)
      else ToButtons(data)
    case Message(text) =>
      if stage == AwaitName && !IsCommand(text) then GiveName(text)
      else if stage == AwaitDescription && !IsCommand(text) then GiveDescription(text)
      else if stage == AwaitDescription && CommandIs(text, "skip") then SkipDescription
      else if stage == AwaitPrice && !IsCommand(text) then GivePrice(text)
      else if stage != Idle && CommandIs(text, "cancel") then CancelDialogue(false)
      else if CommandIs(text, "start") then ToStart
      else if DetailsPattern(text) then ToDetails(text)
      else Unhandled
  }

  /** `price_text.isdigit() and int(price_text) > 0`. */
  predicate PriceAccepted(text: string)
  {
    IsDigitString(text) && DigitsValue(text) > 0
  }

  /** The stage after the handler `r` ran; a non-admin pressing "add item" stays out of the conversation. */
  function StageAfter(stage: Stage, r: Handler, isAdmin: bool): Stage
  {
    match r
    case EnterAddItem => if isAdmin then AwaitCategory else Idle
    case PickCategory(_) => AwaitName
    case GiveName(_) => AwaitDescription
    case GiveDescription(_) => AwaitPrice
    case SkipDescription => AwaitPrice
    case GivePrice(text) => if PriceAccepted(text) then Idle else AwaitPrice
    case CancelDialogue(_) => Idle
    case _ => stage
  }

  /** `user_data['new_item']` after the handler `r` ran. */
  function DraftAfter(draft: Option<Session.Draft>, r: Handler): Option<Session.Draft>
  {
    match r
    case PickCategory(data) =>
      if IsDigitString(data) then Some(Session.Draft(DigitsValue(data), None, None)) else draft
    case GiveName(text) =>
      if draft.Some? then Some(draft.value.(name := Some(text))) else draft
    case GiveDescription(text) =>
      if draft.Some? then Some(draft.value.(description := Some(Some(text)))) else draft
    case SkipDescription =>
      if draft.Some? then Some(draft.value.(description := Some(None))) else draft
    case GivePrice(text) => if PriceAccepted(text) then None else draft
    case CancelDialogue(_) => None
    case _ => draft
  }

  /** A draft with every field filled in. */
  predicate Complete(d: Session.Draft)
  {
    d.name.Some? && d.description.Some?
  }

  /** `MenuItem(**new_item_data)` once the price is known. */
  function DraftItem(d: Session.Draft, price: int): MenuItem
    requires Complete(d)
  {
    MenuItem(d.name.value, d.description.value, price, d.categoryId)
  }

  /** The menu items after the handler `r` ran: an accepted price adds the finished draft under `next`. */
  function ItemsAfter(items: map<int, MenuItem>, next: int, draft: Option<Session.Draft>, r: Handler): (r': map<int, MenuItem>)
    ensures r'.Keys <= items.Keys + {next}
    ensures forall k :: k in r' && k !in items ==> r'[k].price > 0
  {
    if r.GivePrice? && PriceAccepted(r.text) && draft.Some? && Complete(draft.value)
    then items[next := DraftItem(draft.value, DigitsValue(r.text))]
    else items
  }

  /**
   * The draft matches the stage: the conversation runs only for admins, the
   * draft exists from the category step on, and it gains the name and then
   * the description in that order.
   */
  predicate Consistent(isAdmin: bool, stage: Stage, draft: Option<Session.Draft>)
  {
    match stage
    case Idle => draft.None?
    case AwaitCategory => isAdmin && draft.None?
    case AwaitName => isAdmin && draft.Some? && draft.value.name.None? && draft.value.description.None?
    case AwaitDescription => isAdmin && draft.Some? && draft.value.name.Some? && draft.value.description.None?
    case AwaitPrice => isAdmin && draft.Some? && Complete(draft.value)
  }

  // ----------------------------------------------------------- handlers

  /** The leaf-category buttons of `add_item_start`: the category's name over its id as the token. */
  function LeafButtons(categories: map<int, Category>, ids: seq<int>): (kb: Keyboard)
    requires forall i :: 0 <= i < |ids| ==> ids[i] in categories
    ensures |kb| == |ids|
    ensures forall i :: 0 <= i < |ids| ==> kb[i].caption == categories[ids[i]].name
  {
    seq(|ids|, i requires 0 <= i < |ids| => Button(categories[ids[i]].name, IntToString(ids[i])))
  }

  /**
   * While a category is awaited, each leaf button is taken by the category
   * step and names its own category, and the cancel button ends the dialogue.
   */
  lemma LeafButtonsPickTheirCategory(categories: map<int, Category>, ids: seq<int>)
    requires forall i :: 0 <= i < |ids| ==> ids[i] in categories && ids[i] >= 0
    ensures var kb := LeafButtons(categories, ids);
            forall i :: 0 <= i < |ids| ==>
              && Route(AwaitCategory, Callback(kb[i].token)) == PickCategory(kb[i].token)
              && DigitsValue(kb[i].token) == ids[i]
    ensures Route(AwaitCategory, Callback(CancelKeyboard()[0].token)) == CancelDialogue(true)
  {
    var kb := LeafButtons(categories, ids);
    assert !IsDigit("cancel_action"[0]);
    forall i | 0 <= i < |ids|
      ensures Route(AwaitCategory, Callback(kb[i].token)) == PickCategory(kb[i].token)
      ensures DigitsValue(kb[i].token) == ids[i]
    {
      NatToStringIsDigits(ids[i]);
    }
  }

  const NoRightsMessage: string := "У вас нет прав для этого действия."

  /**
   * `add_item_start`: a non-admin is told they lack the rights and stays out
   * of the conversation; an admin is offered the categories without
   * subcategories, in id order, and a cancel button.
   */
  method AddItemStart(cfg: Utils.Config, actor: Bot.Actor, db: Store.Db) returns (effects: seq<Effect>, stage: Stage, leaves: seq<int>)
    requires db.Valid()
    ensures !Bot.IsAdmin(cfg, actor) ==> effects == [Alert(NoRightsMessage)] && stage == Idle
    ensures Bot.IsAdmin(cfg, actor) ==>
      && stage == AwaitCategory
      && (forall i, j :: 0 <= i < j < |leaves| ==> leaves[i] < leaves[j])
      && (forall k :: k in leaves ==> k in db.categories)
      && effects == [Edit(ChooseLeafCategory, LeafButtons(db.categories, leaves) + CancelKeyboard())]
    ensures Bot.IsAdmin(cfg, actor) ==> forall k :: k in leaves <==> k in db.categories && !db.HasSubcategories(k)
  {
    leaves := [];
    if actor.id !in cfg.adminIds {
      return [Alert(NoRightsMessage)], Idle, [];
    }
    leaves := db.LeafCategories();
    forall i | 0 <= i < |leaves| ensures leaves[i] in db.categories { assert leaves[i] in leaves; }
    var kb := LeafButtons(db.categories, leaves) + CancelKeyboard();
    effects := [Edit(ChooseLeafCategory, kb)];
    stage := AwaitCategory;
  }

  /** `add_item_category`: a new draft for the chosen category id, which is not checked against the table. */
  method AddItemCategory(data: string, ud: Session.UserData) returns (effects: seq<Effect>)
    requires IsDigitString(data) && ud.Valid()
    modifies ud
    ensures ud.Valid() && ud.cart == old(ud.cart)
    ensures ud.newItem == Some(Session.Draft(DigitsValue(data), None, None))
    ensures effects == [Edit(AskName, CancelKeyboard())]
  {
    ud.newItem := Some(Session.Draft(DigitsValue(data), None, None));
    effects := [Edit(AskName, CancelKeyboard())];
  }

  /** `add_item_name`: the message text becomes the name. */
  method AddItemName(text: string, ud: Session.UserData) returns (effects: seq<Effect>)
    requires ud.newItem.Some? && ud.Valid()
    modifies ud
    ensures ud.Valid() && ud.cart == old(ud.cart)
    ensures ud.newItem == Some(old(ud.newItem).value.(name := Some(text)))
    ensures effects == [Reply(AskDescription, CancelKeyboard())]
  {
    ud.newItem := Some(ud.newItem.value.(name := Some(text)));
    effects := [Reply(AskDescription, CancelKeyboard())];
  }

  /** `add_item_description` and `add_item_skip_description`: the text, or no description. */
  method AddItemDescription(description: Option<string>, ud: Session.UserData) returns (effects: seq<Effect>)
    requires ud.newItem.Some? && ud.Valid()
    modifies ud
    ensures ud.Valid() && ud.cart == old(ud.cart)
    ensures ud.newItem == Some(old(ud.newItem).value.(description := Some(description)))
    ensures effects == [Reply(AskPrice(description.None?), CancelKeyboard())]
  {
    ud.newItem := Some(ud.newItem.value.(description := Some(description)));
    effects := [Reply(AskPrice(description.None?), CancelKeyboard())];
  }

  /**
   * `add_item_price`: a price that is not a positive decimal is rejected and
   * asked for again; otherwise the finished draft is stored as a new menu
   * item, the draft is dropped and the admin panel is shown.
   */
  method AddItemPrice(text: string, ud: Session.UserData, db: Store.Db) returns (effects: seq<Effect>, accepted: bool)
    requires ud.newItem.Some? && Complete(ud.newItem.value)
    requires ud.Valid() && db.Valid()
    modifies ud, db
    ensures ud.Valid() && db.Valid() && ud.cart == old(ud.cart)
    ensures accepted <==> PriceAccepted(text)
    ensures !accepted ==>
      && effects == [Reply(PriceRejected, CancelKeyboard())]
      && ud.newItem == old(ud.newItem) && db.items == old(db.items) && db.nextItemId == old(db.nextItemId)
    ensures accepted ==>
      && db.items == old(db.items)[old(db.nextItemId) := DraftItem(old(ud.newItem).value, DigitsValue(text))]
      && db.nextItemId == old(db.nextItemId) + 1
      && ud.newItem == None
      && effects == [Reply(ItemAdded(old(ud.newItem).value.name.value), []),
                     Reply(AdminPanelPage, AdminMenuButtons(NewOrderCount(db.orders)))]
    ensures db.categories == old(db.categories) && db.users == old(db.users) && db.orders == old(db.orders)
    ensures db.orderItems == old(db.orderItems)
    ensures db.nextCategoryId == old(db.nextCategoryId) && db.nextOrderId == old(db.nextOrderId)
  {
    accepted := IsDigitString(text) && DigitsValue(text) > 0;
    if !accepted {
      return [Reply(PriceRejected, CancelKeyboard())], false;
    }
    var draft := ud.newItem.value;
    var id := db.AddMenuItem(DraftItem(draft, DigitsValue(text)));
    ud.newItem := None;
    var kb, count := AdminMenuKeyboard(db);
    effects := [Reply(ItemAdded(draft.name.value), []), Reply(AdminPanelPage, kb)];
  }

  /** `cancel_action`: the draft is dropped and the user gets their menu back. */
  method CancelAction(cfg: Utils.Config, actor: Bot.Actor, viaButton: bool, ud: Session.UserData, db: Store.Db)
    returns (effects: seq<Effect>)
    requires ud.Valid() && db.Valid()
    modifies ud
    ensures ud.Valid() && ud.cart == old(ud.cart) && ud.newItem == None
    ensures var kb := if Bot.IsAdmin(cfg, actor) then AdminMenuButtons(NewOrderCount(db.orders)) else MainMenuKeyboard(false);
            effects == [if viaButton then Edit(ActionCancelled, kb) else Reply(ActionCancelled, kb)]
  {
    ud.newItem := None;
    var kb;
    if actor.id in cfg.adminIds {
      var count;
      kb, count := AdminMenuKeyboard(db);
    } else {
      kb := MainMenuKeyboard(false);
    }
    effects := [if viaButton then Edit(ActionCancelled, kb) else Reply(ActionCancelled, kb)];
  }

  /** One user's place in the add-item conversation, kept by the conversation handler. */
  class Conversation {
    var stage: Stage

    constructor ()
      ensures stage == Idle
    {
      stage := Idle;
    }
  }

  /** The handlers registered inside the add-item conversation. */
  predicate InDialogue(r: Handler)
  {
    !(r.ToStart? || r.ToDetails? || r.ToButtons? || r.Unhandled?)
  }

  /** The stage a conversation handler can be reached from, with what it is given there. */
  predicate Reachable(stage: Stage, r: Handler)
  {
    match r
    case EnterAddItem => stage == Idle
    case PickCategory(data) => stage == AwaitCategory && IsDigitString(data)
    case GiveName(_) => stage == AwaitName
    case GiveDescription(_) => stage == AwaitDescription
    case SkipDescription => stage == AwaitDescription
    case GivePrice(_) => stage == AwaitPrice
    case CancelDialogue(_) => stage != Idle
    case _ => !InDialogue(r)
  }

  /**
   * Each conversation handler is reached only from its own stage: "add item"
   * from outside, the category step with a number, a text step at its stage,
   * and cancelling from inside.
   */
  lemma RoutesAreReachable(stage: Stage, u: Update)
    ensures Reachable(stage, Route(stage, u))
  {
  }

  /**
   * An update the conversation takes: the handler it reaches runs, the stage
   * and the draft move as `StageAfter` and `DraftAfter` say, and menu items
   * change only as `ItemsAfter` says.
   */
  method DialogueStep(cfg: Utils.Config, actor: Bot.Actor, r: Handler, stage: Stage,
                      ud: Session.UserData, db: Store.Db) returns (effects: seq<Effect>, stage': Stage)
    requires InDialogue(r) && Reachable(stage, r)
    requires ud.Valid() && db.Valid()
    requires Consistent(Bot.IsAdmin(cfg, actor), stage, ud.newItem)
    modifies ud, db
    ensures ud.Valid() && db.Valid()
    ensures Consistent(Bot.IsAdmin(cfg, actor), stage', ud.newItem)
    ensures stage' == StageAfter(stage, r, Bot.IsAdmin(cfg, actor))
    ensures ud.newItem == DraftAfter(old(ud.newItem), r)
    ensures db.items == ItemsAfter(old(db.items), old(db.nextItemId), old(ud.newItem), r)
    ensures db.nextItemId == old(db.nextItemId) + (if db.items == old(db.items) then 0 else 1)
    ensures db.categories == old(db.categories)
  {
    match r {
      case EnterAddItem =>
        var leaves;
        effects, stage', leaves := AddItemStart(cfg, actor, db);
      case PickCategory(data) =>
        effects := AddItemCategory(data, ud);
        stage' := AwaitName;
      case GiveName(text) =>
        effects := AddItemName(text, ud);
        stage' := AwaitDescription;
      case GiveDescription(text) =>
        effects := AddItemDescription(Some(text), ud);
        stage' := AwaitPrice;
      case SkipDescription =>
        effects := AddItemDescription(None, ud);
        stage' := AwaitPrice;
      case GivePrice(text) =>
        var accepted;
        effects, accepted := AddItemPrice(text, ud, db);
        stage' := if accepted then Idle else AwaitPrice;
      case CancelDialogue(viaButton) =>
        effects := CancelAction(cfg, actor, viaButton, ud, db);
        stage' := Idle;
    }
  }

  /**
   * One update, dispatched as `main` registers the handlers: the conversation
   * first, then /start, the order-details link and the button handler. The
   * draft stays consistent with the stage, so only admins ever add items.
   */
  method HandleUpdate(cfg: Utils.Config, clock: Utils.Clock, actor: Bot.Actor, u: Update,
                      conv: Conversation, ud: Session.UserData, db: Store.Db) returns (effects: seq<Effect>, raised: bool)
    requires ud.Valid() && db.Valid()
    requires Consistent(Bot.IsAdmin(cfg, actor), conv.stage, ud.newItem)
    modifies conv, ud, db
    ensures ud.Valid() && db.Valid()
    ensures Consistent(Bot.IsAdmin(cfg, actor), conv.stage, ud.newItem)
    ensures conv.stage == StageAfter(old(conv.stage), Route(old(conv.stage), u), Bot.IsAdmin(cfg, actor))
    ensures ud.newItem == DraftAfter(old(ud.newItem), Route(old(conv.stage), u))
    ensures db.items == ItemsAfter(old(db.items), old(db.nextItemId), old(ud.newItem), Route(old(conv.stage), u))
    ensures db.nextItemId == old(db.nextItemId) + (if db.items == old(db.items) then 0 else 1)
    ensures db.items != old(db.items) ==> Bot.IsAdmin(cfg, actor)
    ensures db.categories == old(db.categories)
  {
    effects, raised := [], false;
    var stage := conv.stage;
    var r := Route(stage, u);
    if r.ToStart? {
      effects := Bot.StartCommand(cfg, clock, actor, false, db);
    } else if r.ToDetails? {
      effects := Bot.HandleDetailsLink(cfg, actor, r.text, db);
    } else if r.ToButtons? {
      effects, raised := Bot.ButtonHandler(cfg, clock, actor, r.data, ud, db);
    } else if !r.Unhandled? {
      RoutesAreReachable(stage, u);
      var next;
      effects, next := DialogueStep(cfg, actor, r, stage, ud, db);
      conv.stage := next;
    }
  }

  // ------------------------------------------------------- properties

  /** "Add item" opens the conversation only from outside it. */
  lemma EntryOnlyWhenIdle(stage: Stage, data: string)
    ensures Route(stage, Callback(data)) == EnterAddItem <==> stage == Idle && data == "admin_add_item"
  {
  }

  /**
   * Inside the conversation the "add item" button reaches `button_handler`,
   * which only answers it: the conversation does not restart.
   */
  lemma AddItemIgnoredInsideDialogue(stage: Stage, isAdmin: bool)
    requires stage != Idle
    ensures Route(stage, Callback("admin_add_item")) == ToButtons("admin_add_item")
    ensures Parse("admin_add_item") == AdminAddItem
    ensures StageAfter(stage, Route(stage, Callback("admin_add_item")), isAdmin) == stage
  {
    ParseAdminTokens();
    assert !IsDigitString("admin_add_item") by {
      assert !IsDigit("admin_add_item"[0]);
    }
  }

  /** Cancelling works at every step, by button or by /cancel, and leaves no draft behind. */
  lemma CancelAlwaysAvailable(stage: Stage, isAdmin: bool, draft: Option<Session.Draft>)
    requires stage != Idle
    ensures Route(stage, Callback("cancel_action")) == CancelDialogue(true)
    ensures Route(stage, Message("/cancel")) == CancelDialogue(false)
    ensures var r := Route(stage, Callback("cancel_action"));
            StageAfter(stage, r, isAdmin) == Idle && DraftAfter(draft, r) == None
  {
    assert !IsDigit("cancel_action"[0]);
    assert CommandIs("/cancel", "cancel");
    assert IsCommand("/cancel");
    assert !CommandIs("/cancel", "skip") by {
      assert "/cancel"[1] != ("/skip" + " ")[1];
    }
  }

  /** Outside the conversation the cancel button reaches `button_handler`, which does nothing with it. */
  lemma CancelIgnoredOutsideDialogue()
    ensures Route(Idle, Callback("cancel_action")) == ToButtons("cancel_action")
    ensures Parse("cancel_action") == Ignored
  {
    ParseCancelToken();
  }

  /**
   * /start is served at every step of the conversation, which stays where it
   * was; it does not end the dialogue.
   */
  lemma StartKeepsDialogue(stage: Stage, isAdmin: bool, draft: Option<Session.Draft>)
    ensures Route(stage, Message("/start")) == ToStart
    ensures StageAfter(stage, ToStart, isAdmin) == stage && DraftAfter(draft, ToStart) == draft
  {
    assert IsCommand("/start");
    assert !CommandIs("/start", "skip") by {
      assert "/start"[2] != "/skip"[2];
      assert "/start"[2] != ("/skip" + " ")[2];
    }
    assert !CommandIs("/start", "cancel") by {
      assert "/start"[1] != "/cancel"[1];
      assert "/start"[1] != ("/cancel" + " ")[1];
    }
  }

  /** A price is accepted exactly when it is the decimal form of a positive number. */
  lemma PriceAcceptedIsPositive(n: int)
    ensures PriceAccepted(IntToString(n)) <==> n > 0
    ensures n > 0 ==> DigitsValue(IntToString(n)) == n
  {
    if n >= 0 {
      NatToStringIsDigits(n);
    } else {
      assert IntToString(n)[0] == '-';
    }
  }

  /** The state a sequence of routes leads to from `(stage, draft, items, next)`. */
  function Run(isAdmin: bool, stage: Stage, draft: Option<Session.Draft>, items: map<int, MenuItem>, next: int,
               routes: seq<Handler>): (Stage, Option<Session.Draft>, map<int, MenuItem>, int)
    decreases |routes|
  {
    if routes == [] then (stage, draft, items, next)
    else
      var r := routes[0];
      var items' := ItemsAfter(items, next, draft, r);
      Run(isAdmin, StageAfter(stage, r, isAdmin), DraftAfter(draft, r), items',
          if items' == items then next else next + 1, routes[1..])
  }

  /** The updates of a whole add-item dialogue reach the conversation's handlers one after another. */
  lemma AddItemRoutes(categoryId: nat, name: string, description: string, price: nat)
    requires !IsCommand(name) && !IsCommand(description)
    ensures [ Route(Idle, Callback("admin_add_item")),
              Route(AwaitCategory, Callback(IntToString(categoryId))),
              Route(AwaitName, Message(name)),
              Route(AwaitDescription, Message(description)),
              Route(AwaitPrice, Message(IntToString(price))) ]
         == [ EnterAddItem, PickCategory(IntToString(categoryId)), GiveName(name),
              GiveDescription(description), GivePrice(IntToString(price)) ]
  {
    NatToStringIsDigits(categoryId);
    NatToStringIsDigits(price);
    var p := IntToString(price);
    assert !IsCommand(p) by {
      assert IsDigit(p[0]);
    }
  }

  /** Running the handlers of a whole dialogue stores one item built from what was sent. */
  lemma AddItemRun(categoryId: nat, name: string, description: string, price: nat,
                   items: map<int, MenuItem>, next: int)
    requires price > 0 && next !in items
    ensures Run(true, Idle, None, items, next,
                [ EnterAddItem, PickCategory(IntToString(categoryId)), GiveName(name),
                  GiveDescription(description), GivePrice(IntToString(price)) ])
         == (Idle, None, items[next := MenuItem(name, Some(description), price, categoryId)], next + 1)
  {
    NatToStringIsDigits(categoryId);
    PriceAcceptedIsPositive(price);
    var c := IntToString(categoryId);
    var p := IntToString(price);
    var d0 := Session.Draft(categoryId, None, None);
    var d1 := d0.(name := Some(name));
    var d2 := d1.(description := Some(Some(description)));
    var added := items[next := MenuItem(name, Some(description), price, categoryId)];
    assert DraftItem(d2, DigitsValue(p)) == MenuItem(name, Some(description), price, categoryId);
    assert added != items by {
      assert next in added;
    }
    var tail: seq<Handler> := [GivePrice(p)];
    assert Run(true, AwaitPrice, Some(d2), items, next, tail) == (Idle, None, added, next + 1) by {
      assert tail[1..] == [];
    }
    tail := [GiveDescription(description)] + tail;
    assert Run(true, AwaitDescription, Some(d1), items, next, tail) == (Idle, None, added, next + 1) by {
      assert tail[1..] == [GivePrice(p)];
    }
    tail := [GiveName(name)] + tail;
    assert Run(true, AwaitName, Some(d0), items, next, tail) == (Idle, None, added, next + 1) by {
      assert tail[1..] == [GiveDescription(description), GivePrice(p)];
    }
    tail := [PickCategory(c)] + tail;
    assert Run(true, AwaitCategory, None, items, next, tail) == (Idle, None, added, next + 1) by {
      assert tail[1..] == [GiveName(name), GiveDescription(description), GivePrice(p)];
      assert DigitsValue(c) == categoryId;
    }
    tail := [EnterAddItem] + tail;
    assert tail[1..] == [PickCategory(c), GiveName(name), GiveDescription(description), GivePrice(p)];
  }

  /**
   * The whole dialogue: an admin who picks a category, then sends a name, a
   * description and a positive price ends outside the conversation with no
   * draft left and exactly one new item holding what they sent.
   */
  lemma AddItemDialogue(categoryId: nat, name: string, description: string, price: nat,
                        items: map<int, MenuItem>, next: int)
    requires !IsCommand(name) && !IsCommand(description) && price > 0
    requires next !in items
    ensures var routes := [ Route(Idle, Callback("admin_add_item")),
                            Route(AwaitCategory, Callback(IntToString(categoryId))),
                            Route(AwaitName, Message(name)),
                            Route(AwaitDescription, Message(description)),
                            Route(AwaitPrice, Message(IntToString(price))) ];
            Run(true, Idle, None, items, next, routes)
              == (Idle, None, items[next := MenuItem(name, Some(description), price, categoryId)], next + 1)
  {
    AddItemRoutes(categoryId, name, description, price);
    AddItemRun(categoryId, name, description, price, items, next);
  }
}
