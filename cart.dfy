/**
 * The per-user cart of bot.py (`context.user_data['cart']`): a dict from
 * item id to quantity. A Python dict keeps its keys in insertion order and
 * bot.py walks the cart in that order, so the cart is a sequence of lines
 * with distinct item ids; `AsMap` is its dictionary view.
 */
module Cart {
  import opened Wrappers
  import opened Schema

  datatype CartLine = CartLine(itemId: int, quantity: int)

  /** A resolved cart line or an order line: name, quantity and unit price. */
  datatype Line = Line(name: string, quantity: int, price: int)

  function Keys(c: seq<CartLine>): (ids: set<int>)
    ensures forall i :: 0 <= i < |c| ==> c[i].itemId in ids
  {
    if c == [] then {} else {c[0].itemId} + Keys(c[1..])
  }

  /** No item id occurs twice, as in a dict. */
  predicate WellFormed(c: seq<CartLine>)
  {
    c == [] || (c[0].itemId !in Keys(c[1..]) && WellFormed(c[1..]))
  }

  /** `cart.get(id, 0)`. */
  function Get(c: seq<CartLine>, id: int): int
  {
    if c == [] then 0 else if c[0].itemId == id then c[0].quantity else Get(c[1..], id)
  }

  /**
   * `cart[id] = q`: the line for `id` gets quantity `q` and keeps its place;
   * a new id goes to the end. Every other line is unchanged.
   */
  function Put(c: seq<CartLine>, id: int, q: int): (r: seq<CartLine>)
    ensures Keys(r) == Keys(c) + {id}
    ensures WellFormed(c) ==> WellFormed(r)
    ensures Get(r, id) == q
    ensures forall j :: j != id ==> Get(r, j) == Get(c, j)
    ensures |r| == if id in Keys(c) then |c| else |c| + 1
    ensures forall i :: 0 <= i < |c| ==> r[i].itemId == c[i].itemId
    ensures forall i :: 0 <= i < |c| && c[i].itemId != id ==> r[i] == c[i]
  {
    if c == [] then [CartLine(id, q)]
    else if c[0].itemId == id then [CartLine(id, q)] + c[1..]
    else [c[0]] + Put(c[1..], id, q)
  }

  /** `cart[id] = cart.get(id, 0) + q`, the `cart_add_many_<id>_<q>` update; `q` is not checked. */
  function AddMany(c: seq<CartLine>, id: int, q: int): seq<CartLine>
  {
    Put(c, id, Get(c, id) + q)
  }

  lemma {:induction false} GetOutsideKeys(c: seq<CartLine>, id: int)
    requires id !in Keys(c)
    ensures Get(c, id) == 0
  {
    if c != [] {
      GetOutsideKeys(c[1..], id);
    }
  }

  /** The dictionary the cart stands for. */
  function AsMap(c: seq<CartLine>): map<int, int>
  {
    map id | id in Keys(c) :: Get(c, id)
  }

  /** Merge-add: the entry for `id` grows by `q` (from 0 if absent) and no other entry changes. */
  lemma AddManyAsMap(c: seq<CartLine>, id: int, q: int)
    ensures var before := AsMap(c);
            AsMap(AddMany(c, id, q)) == before[id := (if id in before then before[id] else 0) + q]
  {
    if id !in Keys(c) {
      GetOutsideKeys(c, id);
    }
  }

  /** Adding to the same item several times adds up the quantities. */
  function AddAll(c: seq<CartLine>, id: int, qs: seq<int>): seq<CartLine>
    decreases qs
  {
    if qs == [] then c else AddAll(AddMany(c, id, qs[0]), id, qs[1..])
  }

  function Sum(qs: seq<int>): int
  {
    if qs == [] then 0 else qs[0] + Sum(qs[1..])
  }

  lemma {:induction false} AddAllSums(c: seq<CartLine>, id: int, qs: seq<int>)
    ensures Get(AddAll(c, id, qs), id) == Get(c, id) + Sum(qs)
    ensures forall j :: j != id ==> Get(AddAll(c, id, qs), j) == Get(c, j)
    decreases qs
  {
    if qs != [] {
      AddAllSums(AddMany(c, id, qs[0]), id, qs[1..]);
    }
  }

  /** Starting from an empty cart, the quantity of an item is the sum of what was added. */
  lemma AddAllFromEmpty(id: int, qs: seq<int>)
    ensures Get(AddAll([], id, qs), id) == Sum(qs)
  {
    AddAllSums([], id, qs);
  }

  predicate AllPositive(c: seq<CartLine>)
  {
    forall i :: 0 <= i < |c| ==> c[i].quantity >= 1
  }

  lemma {:induction false} GetOfPositive(c: seq<CartLine>, id: int)
    requires AllPositive(c)
    ensures Get(c, id) >= 0
  {
    if c != [] {
      assert AllPositive(c[1..]) by {
        forall i | 0 <= i < |c[1..]| ensures c[1..][i].quantity >= 1 {
          assert c[1..][i] == c[i + 1];
        }
      }
      GetOfPositive(c[1..], id);
    }
  }

  /** Adding a positive quantity keeps every quantity in the cart positive. */
  lemma AddManyKeepsPositive(c: seq<CartLine>, id: int, q: int)
    requires AllPositive(c) && q >= 1
    ensures AllPositive(AddMany(c, id, q))
  {
    var r := AddMany(c, id, q);
    GetOfPositive(c, id);
    forall i | 0 <= i < |r|
      ensures r[i].quantity >= 1
    {
      if i < |c| && c[i].itemId != id {
        assert r[i] == c[i];
      } else {
        PutLineFor(c, id, Get(c, id) + q, i);
      }
    }
  }

  lemma {:induction false} PutLineFor(c: seq<CartLine>, id: int, q: int, i: int)
    requires 0 <= i < |Put(c, id, q)|
    requires i < |c| ==> c[i].itemId == id
    ensures Put(c, id, q)[i].quantity == q || (i < |c| && Put(c, id, q)[i] == c[i])
  {
    if c != [] && c[0].itemId != id && i > 0 {
      PutLineFor(c[1..], id, q, i - 1);
    }
  }

  /** A crafted token with a quantity of zero or less is stored as it is. */
  lemma AddManyDoesNotValidate(id: int, q: int)
    requires q <= 0
    ensures AsMap(AddMany([], id, q)) == map[id := q]
    ensures !AllPositive(AddMany([], id, q))
  {
    assert AddMany([], id, q) == [CartLine(id, q)];
  }

  /** The lines of the cart whose item still exists, in cart order, priced from the catalog. */
  function Resolve(c: seq<CartLine>, items: map<int, MenuItem>): seq<Line>
  {
    if c == [] then []
    else
      (if c[0].itemId in items
       then [Line(items[c[0].itemId].name, c[0].quantity, items[c[0].itemId].price)]
       else [])
      + Resolve(c[1..], items)
  }

  /** The sum over the cart of `item.price * quantity`, skipping ids that no longer resolve. */
  function Total(c: seq<CartLine>, items: map<int, MenuItem>): int
  {
    if c == [] then 0
    else (if c[0].itemId in items then items[c[0].itemId].price * c[0].quantity else 0)
         + Total(c[1..], items)
  }

  function LinesTotal(lines: seq<Line>): int
  {
    if lines == [] then 0 else lines[0].quantity * lines[0].price + LinesTotal(lines[1..])
  }

  lemma {:induction false} LinesTotalAppend(a: seq<Line>, b: seq<Line>)
    ensures LinesTotal(a + b) == LinesTotal(a) + LinesTotal(b)
  {
    if a != [] {
      assert (a + b)[1..] == a[1..] + b;
      LinesTotalAppend(a[1..], b);
    } else {
      assert a + b == b;
    }
  }

  /** The total is the sum of the line totals of the resolved lines. */
  lemma {:induction false} TotalIsLinesTotal(c: seq<CartLine>, items: map<int, MenuItem>)
    ensures Total(c, items) == LinesTotal(Resolve(c, items))
  {
    if c != [] {
      TotalIsLinesTotal(c[1..], items);
      var head := if c[0].itemId in items
        then [Line(items[c[0].itemId].name, c[0].quantity, items[c[0].itemId].price)]
        else [];
      LinesTotalAppend(head, Resolve(c[1..], items));
    }
  }

  lemma {:induction false} ResolveAppend(a: seq<CartLine>, b: seq<CartLine>, items: map<int, MenuItem>)
    ensures Resolve(a + b, items) == Resolve(a, items) + Resolve(b, items)
  {
    if a != [] {
      assert (a + b)[0] == a[0] && (a + b)[1..] == a[1..] + b;
      ResolveAppend(a[1..], b, items);
    } else {
      assert a + b == b;
    }
  }

  lemma {:induction false} TotalAppend(a: seq<CartLine>, b: seq<CartLine>, items: map<int, MenuItem>)
    ensures Total(a + b, items) == Total(a, items) + Total(b, items)
  {
    if a != [] {
      assert (a + b)[0] == a[0] && (a + b)[1..] == a[1..] + b;
      TotalAppend(a[1..], b, items);
    } else {
      assert a + b == b;
    }
  }

  /**
   * When every id still resolves there is one line per cart line, in the same
   * order, carrying the cart quantity and the catalog name and price.
   */
  lemma {:induction false} ResolveAllCurrent(c: seq<CartLine>, items: map<int, MenuItem>)
    requires Keys(c) <= items.Keys
    ensures |Resolve(c, items)| == |c|
    ensures forall i :: 0 <= i < |c| ==>
      Resolve(c, items)[i] == Line(items[c[i].itemId].name, c[i].quantity, items[c[i].itemId].price)
  {
    if c != [] {
      ResolveAllCurrent(c[1..], items);
    }
  }

  /** Lines whose item is gone contribute nothing: removing them changes neither lines nor total. */
  lemma {:induction false} StaleLinesIgnored(c: seq<CartLine>, items: map<int, MenuItem>, id: int)
    requires id !in items
    ensures Resolve(c, items) == Resolve(RemoveId(c, id), items)
    ensures Total(c, items) == Total(RemoveId(c, id), items)
  {
    if c != [] {
      StaleLinesIgnored(c[1..], items, id);
      if c[0].itemId != id {
        var r := RemoveId(c, id);
        assert r[0] == c[0] && r[1..] == RemoveId(c[1..], id);
      }
    }
  }

  /** The cart without the line for `id`. */
  function RemoveId(c: seq<CartLine>, id: int): seq<CartLine>
  {
    if c == [] then []
    else if c[0].itemId == id then RemoveId(c[1..], id)
    else [c[0]] + RemoveId(c[1..], id)
  }

  /** Setting an item's quantity changes the total by that item's price times the change. */
  lemma {:induction false} PutTotal(c: seq<CartLine>, items: map<int, MenuItem>, id: int, q: int)
    ensures Total(Put(c, id, q), items) ==
      Total(c, items) + (if id in items then items[id].price * (q - Get(c, id)) else 0)
  {
    if c != [] && c[0].itemId != id {
      PutTotal(c[1..], items, id, q);
    }
  }

  /** Merge-adding `q` of an item raises the total by `q` times its price, or not at all if it is gone. */
  lemma AddManyTotal(c: seq<CartLine>, items: map<int, MenuItem>, id: int, q: int)
    ensures Total(AddMany(c, id, q), items) ==
      Total(c, items) + (if id in items then items[id].price * q else 0)
  {
    PutTotal(c, items, id, Get(c, id) + q);
  }
}
