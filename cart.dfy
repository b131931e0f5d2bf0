/** The customer client's local state: the cart (lines keyed by food id),
    the order payload built from it, and the menu's category bar and filter.
    Each operation builds a new list from the old one. */
module Cart {
  import opened Wrappers
  import opened Lists
  import opened Schema

  /** A cart line: the menu item as fetched, plus a quantity. */
  datatype CartLine = CartLine(item: Food, quantity: int) {
    function Id(): nat { item.id }
    function Subtotal(): int { item.price * quantity }
  }

  function Ids(cart: seq<CartLine>): seq<nat> {
    seq(|cart|, i requires 0 <= i < |cart| => cart[i].Id())
  }

  /** The cart invariant the client relies on: one line per food id, and
      every quantity positive. */
  predicate ValidCart(cart: seq<CartLine>) {
    Distinct(Ids(cart)) && forall l :: l in cart ==> l.quantity > 0
  }

  predicate InCart(cart: seq<CartLine>, id: nat) {
    exists l :: l in cart && l.Id() == id
  }

  /** The sum of price times quantity over the cart, folded from the left;
      never negative for a cart of priced items in positive quantities. */
  function Total(cart: seq<CartLine>): (r: int)
    ensures (forall l :: l in cart ==> l.item.price >= 0 && l.quantity > 0) ==> r >= 0
  {
    if cart == [] then 0
    else Total(cart[..|cart| - 1]) + cart[|cart| - 1].Subtotal()
  }

  lemma {:induction false} TotalAppend(a: seq<CartLine>, b: seq<CartLine>)
    ensures Total(a + b) == Total(a) + Total(b)
  {
    if b != [] {
      assert (a + b)[..|a + b| - 1] == a + b[..|b| - 1];
      TotalAppend(a, b[..|b| - 1]);
    } else {
      assert a + b == a;
    }
  }

  lemma {:induction false} TotalCons(l: CartLine, rest: seq<CartLine>)
    ensures Total([l] + rest) == l.Subtotal() + Total(rest)
  {
    TotalAppend([l], rest);
    assert Total([l]) == Total([]) + l.Subtotal();
  }

  /** Replacing one line moves the total by the difference of the subtotals. */
  lemma {:induction false} TotalReplaceAt(cart: seq<CartLine>, k: nat, l: CartLine)
    requires k < |cart|
    ensures Total(cart[k := l]) == Total(cart) - cart[k].Subtotal() + l.Subtotal()
  {
    var n := |cart|;
    if k == n - 1 {
      assert cart[k := l][..n - 1] == cart[..n - 1];
    } else {
      assert cart[k := l][..n - 1] == cart[..n - 1][k := l];
      TotalReplaceAt(cart[..n - 1], k, l);
    }
  }

  /** Two carts with the same id at every position hold the same ids. */
  lemma SameIdsSameMembers(a: seq<CartLine>, b: seq<CartLine>)
    requires |a| == |b| && forall i :: 0 <= i < |a| ==> a[i].Id() == b[i].Id()
    ensures forall id :: InCart(a, id) <==> InCart(b, id)
  {
    forall id | InCart(a, id) ensures InCart(b, id) {
      var l :| l in a && l.Id() == id;
      var i :| 0 <= i < |a| && a[i] == l;
      assert b[i] in b;
    }
    forall id | InCart(b, id) ensures InCart(a, id) {
      var l :| l in b && l.Id() == id;
      var i :| 0 <= i < |b| && b[i] == l;
      assert a[i] in a;
    }
  }

  // ---------------------------------------------------------------- addToCart

  /** One more of `item`: an existing line for its id gains one unit;
      otherwise a line with quantity 1 is appended. */
  function AddToCart(cart: seq<CartLine>, item: Food): (r: seq<CartLine>)
    ensures forall id :: InCart(r, id) <==> InCart(cart, id) || id == item.id
    ensures |r| == if InCart(cart, item.id) then |cart| else |cart| + 1
  {
    if InCart(cart, item.id) then
      var r := seq(|cart|, i requires 0 <= i < |cart| =>
        if cart[i].Id() == item.id then cart[i].(quantity := cart[i].quantity + 1) else cart[i]);
      SameIdsSameMembers(r, cart);
      r
    else
      assert CartLine(item, 1) in cart + [CartLine(item, 1)];
      cart + [CartLine(item, 1)]
  }

  /** Adding an item already in the cart raises that line by exactly one and
      leaves the length, the order and every other line as they were. */
  lemma AddExistingIncrements(cart: seq<CartLine>, item: Food, k: nat)
    requires k < |cart| && cart[k].Id() == item.id
    requires Distinct(Ids(cart))
    ensures AddToCart(cart, item) == cart[k := cart[k].(quantity := cart[k].quantity + 1)]
  {
    assert cart[k] in cart;
    forall i | 0 <= i < |cart| && i != k ensures cart[i].Id() != item.id {
      assert Ids(cart)[i] != Ids(cart)[k];
    }
  }

  /** Adding an item not yet in the cart appends it with quantity 1. */
  lemma AddNewAppends(cart: seq<CartLine>, item: Food)
    requires !InCart(cart, item.id)
    ensures AddToCart(cart, item) == cart + [CartLine(item, 1)]
    ensures Ids(AddToCart(cart, item)) == Ids(cart) + [item.id]
  {
  }

  /** Adding keeps one line per id and every quantity positive. */
  lemma AddToCartKeepsValid(cart: seq<CartLine>, item: Food)
    requires ValidCart(cart)
    ensures ValidCart(AddToCart(cart, item))
  {
    var r := AddToCart(cart, item);
    if InCart(cart, item.id) {
      assert Ids(r) == Ids(cart);
      forall l | l in r ensures l.quantity > 0 {
        var i :| 0 <= i < |r| && r[i] == l;
        assert cart[i] in cart;
      }
    } else {
      AddNewAppends(cart, item);
      forall i, j | 0 <= i < j < |Ids(r)| ensures Ids(r)[i] != Ids(r)[j] {
        if j == |cart| {
          assert cart[i] in cart;
        }
      }
    }
  }

  /** Adding an item already in the cart raises the total by the price
      stored in its line (which may differ from the menu's current price). */
  lemma AddExistingTotal(cart: seq<CartLine>, item: Food, k: nat)
    requires k < |cart| && cart[k].Id() == item.id
    requires Distinct(Ids(cart))
    ensures Total(AddToCart(cart, item)) == Total(cart) + cart[k].item.price
  {
    var l := cart[k].(quantity := cart[k].quantity + 1);
    calc {
      Total(AddToCart(cart, item));
      == { AddExistingIncrements(cart, item, k); }
      Total(cart[k := l]);
      == { TotalReplaceAt(cart, k, l); }
      Total(cart) - cart[k].Subtotal() + l.Subtotal();
      == { SubtotalShift(cart[k], 1); }
      Total(cart) + cart[k].item.price;
    }
  }

  /** Adding an item not in the cart raises the total by its price. */
  lemma AddNewTotal(cart: seq<CartLine>, item: Food)
    requires !InCart(cart, item.id)
    ensures Total(AddToCart(cart, item)) == Total(cart) + item.price
  {
    AddNewAppends(cart, item);
    TotalAppend(cart, [CartLine(item, 1)]);
    assert Total([CartLine(item, 1)]) == Total([]) + item.price;
  }

  // ----------------------------------------------------------- removeFromCart

  function RemoveFromCart(cart: seq<CartLine>, id: nat): (r: seq<CartLine>)
    ensures forall l :: l in r <==> l in cart && l.Id() != id
    ensures !InCart(r, id)
  {
    Filter(cart, (l: CartLine) => l.Id() != id)
  }

  /** Removal keeps the remaining lines in their order: removing from two
      halves and joining the results is removing from the whole. */
  lemma RemoveFromCartKeepsOrder(a: seq<CartLine>, b: seq<CartLine>, id: nat)
    ensures RemoveFromCart(a + b, id) == RemoveFromCart(a, id) + RemoveFromCart(b, id)
  {
    FilterAppend(a, b, (l: CartLine) => l.Id() != id);
  }

  /** Removal lowers the total by the subtotal of the removed lines. */
  lemma {:induction false} RemoveFromCartTotal(cart: seq<CartLine>, id: nat)
    ensures Total(RemoveFromCart(cart, id)) + Total(Filter(cart, (l: CartLine) => l.Id() == id)) == Total(cart)
  {
    if cart != [] {
      RemoveFromCartTotal(cart[1..], id);
      assert cart == [cart[0]] + cart[1..];
      TotalCons(cart[0], cart[1..]);
      if cart[0].Id() == id {
        TotalCons(cart[0], Filter(cart[1..], (l: CartLine) => l.Id() == id));
      } else {
        TotalCons(cart[0], RemoveFromCart(cart[1..], id));
      }
    }
  }

  lemma RemoveFromCartKeepsValid(cart: seq<CartLine>, id: nat)
    requires ValidCart(cart)
    ensures ValidCart(RemoveFromCart(cart, id))
  {
    IdsDistinctFilter(cart, (l: CartLine) => l.Id() != id);
  }

  /** Filtering a cart keeps its ids distinct. */
  lemma {:induction false} IdsDistinctFilter(cart: seq<CartLine>, p: CartLine -> bool)
    requires Distinct(Ids(cart))
    ensures Distinct(Ids(Filter(cart, p)))
  {
    if cart != [] {
      assert Ids(cart[1..]) == Ids(cart)[1..];
      IdsDistinctFilter(cart[1..], p);
      var rest := Filter(cart[1..], p);
      if p(cart[0]) {
        assert Filter(cart, p) == [cart[0]] + rest;
        assert Ids(Filter(cart, p)) == [cart[0].Id()] + Ids(rest);
        forall j | 0 <= j < |rest| ensures Ids(rest)[j] != cart[0].Id() {
          assert rest[j] in cart[1..];
          var m :| 0 <= m < |cart[1..]| && cart[1..][m] == rest[j];
          assert Ids(cart)[m + 1] == rest[j].Id() && Ids(cart)[0] == cart[0].Id();
        }
      }
    }
  }

  // ----------------------------------------------------------- updateQuantity

  /** The line for `id` changes to quantity + delta only when that stays
      positive; then every line whose quantity is not positive is dropped. */
  function UpdateQuantity(cart: seq<CartLine>, id: nat, delta: int): (r: seq<CartLine>)
    ensures forall l :: l in r ==> l.quantity > 0
  {
    var changed := seq(|cart|, i requires 0 <= i < |cart| =>
      if cart[i].Id() == id then
        (var newQty := cart[i].quantity + delta;
         if newQty > 0 then cart[i].(quantity := newQty) else cart[i])
      else cart[i]);
    Filter(changed, (l: CartLine) => l.quantity > 0)
  }

  /** On a cart of positive quantities, an update keeps the length and
      changes only the line for `id`, and only when its new quantity is
      positive. */
  lemma UpdateQuantityAt(cart: seq<CartLine>, id: nat, delta: int)
    requires forall l :: l in cart ==> l.quantity > 0
    ensures |UpdateQuantity(cart, id, delta)| == |cart|
    ensures forall i :: 0 <= i < |cart| ==>
      UpdateQuantity(cart, id, delta)[i] ==
        if cart[i].Id() == id && cart[i].quantity + delta > 0
        then cart[i].(quantity := cart[i].quantity + delta)
        else cart[i]
  {
    var changed := seq(|cart|, i requires 0 <= i < |cart| =>
      if cart[i].Id() == id then
        (var newQty := cart[i].quantity + delta;
         if newQty > 0 then cart[i].(quantity := newQty) else cart[i])
      else cart[i]);
    forall l | l in changed ensures l.quantity > 0 {
      var i :| 0 <= i < |changed| && changed[i] == l;
      assert cart[i] in cart;
    }
    FilterKeepsAll(changed, (l: CartLine) => l.quantity > 0);
  }

  /** Decrementing a line of quantity 1 leaves the cart as it was: the line
      is not removed. */
  lemma DecrementLastUnitIsNoOp(cart: seq<CartLine>, id: nat)
    requires ValidCart(cart)
    requires forall l :: l in cart && l.Id() == id ==> l.quantity == 1
    ensures UpdateQuantity(cart, id, -1) == cart
  {
    UpdateQuantityAt(cart, id, -1);
    var r := UpdateQuantity(cart, id, -1);
    forall i | 0 <= i < |cart| ensures r[i] == cart[i] {
      assert cart[i] in cart;
    }
  }

  lemma UpdateQuantityKeepsValid(cart: seq<CartLine>, id: nat, delta: int)
    requires ValidCart(cart)
    ensures ValidCart(UpdateQuantity(cart, id, delta))
  {
    UpdateQuantityAt(cart, id, delta);
    assert Ids(UpdateQuantity(cart, id, delta)) == Ids(cart);
  }

  /** In a valid cart the update touches at most the one line with that id. */
  lemma UpdateQuantityReplacesLine(cart: seq<CartLine>, k: nat, delta: int)
    requires ValidCart(cart) && k < |cart|
    ensures UpdateQuantity(cart, cart[k].Id(), delta) ==
      cart[k := if cart[k].quantity + delta > 0 then cart[k].(quantity := cart[k].quantity + delta) else cart[k]]
  {
    UpdateQuantityAt(cart, cart[k].Id(), delta);
    forall i | 0 <= i < |cart| && i != k ensures cart[i].Id() != cart[k].Id() {
      assert Ids(cart)[i] != Ids(cart)[k];
    }
  }

  /** An applied update moves the total by price times delta; a refused
      one leaves it unchanged. */
  lemma UpdateQuantityTotal(cart: seq<CartLine>, k: nat, delta: int)
    requires ValidCart(cart) && k < |cart|
    ensures Total(UpdateQuantity(cart, cart[k].Id(), delta)) ==
      if cart[k].quantity + delta > 0 then Total(cart) + cart[k].item.price * delta else Total(cart)
  {
    var l := if cart[k].quantity + delta > 0 then cart[k].(quantity := cart[k].quantity + delta) else cart[k];
    UpdateQuantityReplacesLine(cart, k, delta);
    TotalReplaceAt(cart, k, l);
    if cart[k].quantity + delta > 0 {
      SubtotalShift(cart[k], delta);
    }
  }

  lemma SubtotalShift(l: CartLine, delta: int)
    ensures l.(quantity := l.quantity + delta).Subtotal() == l.Subtotal() + l.item.price * delta
  {
    assert l.item.price * (l.quantity + delta) == l.item.price * l.quantity + l.item.price * delta;
  }

  // ------------------------------------------------------- placeOrder payload

  function LineItemOf(l: CartLine): LineItem {
    LineItem(l.item.id, l.item.name, l.item.price, l.quantity)
  }

  /** The body `placeOrder` sends: the customer's details, one line item per
      cart line in cart order, the cart total, and the payment method. */
  function OrderPayload(user: PublicUser, cart: seq<CartLine>, paymentMethod: string): (r: OrderRequest)
    ensures r.customerId == user.id && r.customerName == user.name
    ensures r.customerPhone == user.phone && r.customerAddress == user.address
    ensures |r.items| == |cart|
    ensures forall i :: 0 <= i < |cart| ==>
      r.items[i] == LineItem(cart[i].item.id, cart[i].item.name, cart[i].item.price, cart[i].quantity)
    ensures r.totalAmount == Total(cart)
    ensures r.paymentMethod == paymentMethod && r.status == None && r.feedback == None
  {
    OrderRequest(user.id, user.name, user.phone, user.address,
                 seq(|cart|, i requires 0 <= i < |cart| => LineItemOf(cart[i])),
                 Total(cart), paymentMethod, None, None)
  }

  /** The total the client sends always equals the sum over the line items
      it sends. */
  lemma {:induction false} PayloadTotalMatchesItems(user: PublicUser, cart: seq<CartLine>, paymentMethod: string)
    ensures OrderPayload(user, cart, paymentMethod).totalAmount ==
            ItemsTotal(OrderPayload(user, cart, paymentMethod).items)
  {
    ItemsTotalOfCart(cart);
  }

  lemma {:induction false} ItemsTotalOfCart(cart: seq<CartLine>)
    ensures ItemsTotal(seq(|cart|, i requires 0 <= i < |cart| => LineItemOf(cart[i]))) == Total(cart)
  {
    if cart != [] {
      var front := cart[..|cart| - 1];
      ItemsTotalOfCart(front);
      var items := seq(|cart|, i requires 0 <= i < |cart| => LineItemOf(cart[i]));
      assert items[..|items| - 1] == seq(|front|, i requires 0 <= i < |front| => LineItemOf(front[i]));
    }
  }

  // --------------------------------------------------- categories and filter

  /** Each value of `s` once, at the position of its first occurrence
      (what spreading a `Set` built from `s` yields). */
  function Dedup(s: seq<string>): (r: seq<string>)
    ensures Distinct(r)
    ensures forall x :: x in r <==> x in s
  {
    if s == [] then []
    else
      var d := Dedup(s[..|s| - 1]);
      assert forall x :: x in s <==> x in s[..|s| - 1] || x == s[|s| - 1];
      if s[|s| - 1] in d then d else d + [s[|s| - 1]]
  }

  /** Index of the first occurrence of `x` in `s`. */
  function FirstIndex(s: seq<string>, x: string): (i: nat)
    requires x in s
    ensures i < |s| && s[i] == x
    ensures forall j :: 0 <= j < i ==> s[j] != x
  {
    if s[0] == x then 0 else 1 + FirstIndex(s[1..], x)
  }

  /** The deduplicated values appear in the order of their first occurrences. */
  lemma {:induction false} DedupFirstOccurrenceOrder(s: seq<string>, i: nat, j: nat)
    requires i < j < |Dedup(s)|
    ensures FirstIndex(s, Dedup(s)[i]) < FirstIndex(s, Dedup(s)[j])
  {
    var front := s[..|s| - 1];
    var d := Dedup(front);
    var last := s[|s| - 1];
    FirstIndexPrefix(s, Dedup(s)[i]);
    FirstIndexPrefix(s, Dedup(s)[j]);
    if j < |d| {
      DedupFirstOccurrenceOrder(front, i, j);
    } else {
      assert Dedup(s)[j] == last && last !in front;
      assert Dedup(s)[i] in front;
    }
  }

  /** First occurrences in a prefix are first occurrences in the whole. */
  lemma FirstIndexPrefix(s: seq<string>, x: string)
    requires x in s && |s| > 0
    ensures x in s[..|s| - 1] ==> FirstIndex(s, x) == FirstIndex(s[..|s| - 1], x)
    ensures x !in s[..|s| - 1] ==> FirstIndex(s, x) == |s| - 1
  {
    var front := s[..|s| - 1];
    if x in front {
      var k := FirstIndex(front, x);
      assert s[k] == x && forall j :: 0 <= j < k ==> s[j] == front[j];
    } else {
      assert forall j :: 0 <= j < |s| - 1 ==> s[j] == front[j];
    }
  }

  function Categories(items: seq<Food>): seq<string> {
    seq(|items|, i requires 0 <= i < |items| => items[i].category)
  }

  /** The category bar: 'All', then each category of the menu once, in the
      order in which the menu first uses it. */
  function CategoryBar(items: seq<Food>): (r: seq<string>)
    ensures |r| > 0 && r[0] == "All"
    ensures Distinct(r[1..])
    ensures forall c :: c in r[1..] <==> exists f :: f in items && f.category == c
  {
    var cats := Categories(items);
    var r := ["All"] + Dedup(cats);
    assert r[1..] == Dedup(cats);
    forall c ensures c in cats <==> exists f :: f in items && f.category == c {
      if c in cats {
        var i :| 0 <= i < |cats| && cats[i] == c;
        assert items[i] in items;
      }
      if exists f :: f in items && f.category == c {
        var f :| f in items && f.category == c;
        var i :| 0 <= i < |items| && items[i] == f;
        assert cats[i] == c;
      }
    }
    r
  }

  /** The items shown for the selected category: all of them for 'All',
      otherwise those whose category is exactly the selection. */
  function FilteredItems(items: seq<Food>, selected: string): (r: seq<Food>)
    ensures selected == "All" ==> r == items
    ensures selected != "All" ==> forall f :: f in r <==> f in items && f.category == selected
  {
    if selected == "All" then items
    else Filter(items, (f: Food) => f.category == selected)
  }

  /** Category filtering keeps the menu's order: filtering two halves and
      joining the results is filtering the whole. */
  lemma FilteredItemsKeepsOrder(a: seq<Food>, b: seq<Food>, selected: string)
    ensures FilteredItems(a + b, selected) == FilteredItems(a, selected) + FilteredItems(b, selected)
  {
    if selected != "All" {
      FilterAppend(a, b, (f: Food) => f.category == selected);
    }
  }
}
