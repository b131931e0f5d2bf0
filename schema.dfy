/** The records the backend stores (its user, food and order schemas),
    and the read-side helpers its listings rely on: enumeration of a
    collection in insertion order and the newest-first sort. */
module Schema {
  import opened Wrappers
  import opened OrderStatus
  import opened Lists

  datatype Role = Customer | Owner

  datatype User = User(
    id: nat, name: string, email: string, password: string,
    phone: string, address: string, role: Role,
    restaurantName: Option<string>, createdAt: int)

  /** The user fields a register or login reply echoes: all but the password. */
  datatype PublicUser = PublicUser(
    id: nat, name: string, email: string, role: Role,
    phone: string, address: string, restaurantName: Option<string>)

  function Public(u: User): PublicUser {
    PublicUser(u.id, u.name, u.email, u.role, u.phone, u.address, u.restaurantName)
  }

  /** A menu item; prices are whole rupees. */
  datatype Food = Food(id: nat, name: string, category: string, price: int, createdAt: int)

  /** The fields of an add-food request (the store assigns id and timestamp). */
  datatype FoodFields = FoodFields(name: string, category: string, price: int)

  /** One order line: the food's id, name and price at ordering time. */
  datatype LineItem = LineItem(foodId: nat, name: string, price: int, quantity: int)

  datatype Feedback = Feedback(rating: int, comment: string, createdAt: int)

  datatype Order = Order(
    id: nat, customerId: nat, customerName: string, customerPhone: string,
    customerAddress: string, items: seq<LineItem>, totalAmount: int,
    status: Status, paymentMethod: string, feedback: Option<Feedback>,
    createdAt: int)

  /** The body of a create-order request, stored as sent. `status` and
      `feedback` are absent unless the caller supplies them. */
  datatype OrderRequest = OrderRequest(
    customerId: nat, customerName: string, customerPhone: string,
    customerAddress: string, items: seq<LineItem>, totalAmount: int,
    paymentMethod: string, status: Option<Status>, feedback: Option<Feedback>)

  /** The sum of price times quantity over an order's lines, taken left to
      right. The backend never computes it; the client does. */
  function ItemsTotal(items: seq<LineItem>): int {
    if items == [] then 0
    else ItemsTotal(items[..|items| - 1]) + items[|items| - 1].price * items[|items| - 1].quantity
  }

  /** The records of `m` whose keys are below `n`, in ascending key order.
      Ids grow with each insertion, so this is insertion order. */
  function InIdOrder<T>(m: map<nat, T>, n: nat): (r: seq<T>)
    ensures |r| <= n
  {
    if n == 0 then []
    else InIdOrder(m, n - 1) + (if n - 1 in m then [m[n - 1]] else [])
  }

  /** Every record with a key below `n` is listed, and nothing else. */
  lemma {:induction false} InIdOrderMembers<T>(m: map<nat, T>, n: nat, x: T)
    ensures x in InIdOrder(m, n) <==> exists k :: k in m && k < n && m[k] == x
  {
    if n > 0 {
      InIdOrderMembers(m, n - 1, x);
      if x in InIdOrder(m, n) && x !in InIdOrder(m, n - 1) {
        assert n - 1 in m && m[n - 1] == x;
      }
    }
  }

  /** When each record carries its own key as id, the listing is in strictly
      ascending id order, so it has no repeats. */
  lemma {:induction false} InIdOrderAscending<T>(m: map<nat, T>, n: nat, id: T -> nat)
    requires forall k :: k in m ==> id(m[k]) == k
    ensures forall i, j :: 0 <= i < j < |InIdOrder(m, n)| ==> id(InIdOrder(m, n)[i]) < id(InIdOrder(m, n)[j])
    ensures forall x :: x in InIdOrder(m, n) ==> id(x) < n
  {
    if n > 0 {
      InIdOrderAscending(m, n - 1, id);
      var s := InIdOrder(m, n - 1);
      forall x | x in InIdOrder(m, n) ensures id(x) < n {
        if x !in s { assert x == m[n - 1]; }
      }
    }
  }

  predicate NewestFirst(s: seq<Order>) {
    forall i, j :: 0 <= i < j < |s| ==> s[i].createdAt >= s[j].createdAt
  }

  /** Places `o` before the first order of `s` that is not newer than it. */
  function Insert(o: Order, s: seq<Order>): seq<Order> {
    if s == [] then [o]
    else if s[0].createdAt <= o.createdAt then [o] + s
    else [s[0]] + Insert(o, s[1..])
  }

  /** Inserting adds exactly the one order. */
  lemma {:induction false} InsertAddsOne(o: Order, s: seq<Order>)
    ensures multiset(Insert(o, s)) == multiset(s) + multiset{o}
  {
    if s != [] && s[0].createdAt > o.createdAt {
      assert s == [s[0]] + s[1..];
      InsertAddsOne(o, s[1..]);
    }
  }

  /** Inserting into a newest-first list keeps it newest first. */
  lemma {:induction false} InsertKeepsOrder(o: Order, s: seq<Order>)
    requires NewestFirst(s)
    ensures NewestFirst(Insert(o, s))
  {
    if s == [] {
    } else if s[0].createdAt <= o.createdAt {
      PrependNewest(o, s);
    } else {
      var rest := Insert(o, s[1..]);
      InsertKeepsOrder(o, s[1..]);
      InsertAddsOne(o, s[1..]);
      forall x | x in rest ensures x.createdAt <= s[0].createdAt {
        assert x in multiset(rest);
        assert x in s[1..] || x == o;
      }
      PrependNewest(s[0], rest);
    }
  }

  /** An order at least as new as every order of a sorted list can go in front. */
  lemma PrependNewest(o: Order, s: seq<Order>)
    requires NewestFirst(s)
    requires forall x :: x in s ==> x.createdAt <= o.createdAt
    ensures NewestFirst([o] + s)
  {
    forall i, j | 0 <= i < j < |[o] + s| ensures ([o] + s)[i].createdAt >= ([o] + s)[j].createdAt {
      if i == 0 {
        assert ([o] + s)[j] == s[j - 1];
        assert s[j - 1] in s;
      }
    }
  }

  /** A listing sorted by creation time, newest first (`sort({createdAt: -1})`). */
  function SortNewestFirst(s: seq<Order>): (r: seq<Order>)
    ensures NewestFirst(r)
    ensures multiset(r) == multiset(s)
  {
    if s == [] then []
    else
      assert s == [s[0]] + s[1..];
      InsertKeepsOrder(s[0], SortNewestFirst(s[1..]));
      InsertAddsOne(s[0], SortNewestFirst(s[1..]));
      Insert(s[0], SortNewestFirst(s[1..]))
  }

  /** Sorting neither adds, drops nor repeats an order. */
  lemma SortKeepsMembers(s: seq<Order>)
    ensures forall o :: o in SortNewestFirst(s) <==> o in s
    ensures Distinct(s) ==> Distinct(SortNewestFirst(s))
  {
    var r := SortNewestFirst(s);
    forall o ensures o in r <==> o in s {
      assert o in multiset(r) <==> o in multiset(s);
    }
    if Distinct(s) {
      DistinctPermutation(s, r);
    }
  }
}
