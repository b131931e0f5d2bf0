/** The backend's route handlers over an in-memory record store: one map per
    collection (users, foods, orders) keyed by id, and one id counter. Each
    handler runs atomically and answers with the `{success, message, ...}`
    envelope. Handlers that write are methods; login and the listings only
    read, and are functions of the store's contents. */
module Store {
  import opened Wrappers
  import opened OrderStatus
  import opened Schema
  import opened Lists

  /** The menu the backend seeds into an empty food collection at start-up. */
  const SeedMenu: seq<FoodFields> := [
    FoodFields("Chicken Burger", "Burger", 199),
    FoodFields("Veg Burger", "Burger", 149),
    FoodFields("Cheese Burger", "Burger", 179),
    FoodFields("Veg Biryani", "Biryani", 249),
    FoodFields("Chicken Biryani", "Biryani", 299),
    FoodFields("Mutton Biryani", "Biryani", 349),
    FoodFields("Paneer Tikka", "Starter", 179),
    FoodFields("Chicken Tikka", "Starter", 229),
    FoodFields("French Fries", "Starter", 99),
    FoodFields("Chocolate Shake", "Beverage", 129),
    FoodFields("Mango Shake", "Beverage", 119),
    FoodFields("Cold Coffee", "Beverage", 139),
    FoodFields("Margherita Pizza", "Pizza", 299),
    FoodFields("Pepperoni Pizza", "Pizza", 349),
    FoodFields("Veg Supreme Pizza", "Pizza", 329),
    FoodFields("Pasta Alfredo", "Pasta", 249),
    FoodFields("Pasta Arrabiata", "Pasta", 229),
    FoodFields("Mac and Cheese", "Pasta", 199),
    FoodFields("Samosa", "Snacks", 49),
    FoodFields("Spring Rolls", "Snacks", 129),
    FoodFields("Nachos", "Snacks", 179),
    FoodFields("Caesar Salad", "Salad", 199),
    FoodFields("Greek Salad", "Salad", 189),
    FoodFields("Garden Salad", "Salad", 159),
    FoodFields("Gulab Jamun", "Dessert", 89),
    FoodFields("Ice Cream Sundae", "Dessert", 129),
    FoodFields("Chocolate Brownie", "Dessert", 149),
    FoodFields("Cheesecake", "Dessert", 179),
    FoodFields("Noodles", "Chinese", 169),
    FoodFields("Fried Rice", "Chinese", 179)
  ]

  predicate EmailTaken(users: map<nat, User>, email: string) {
    exists k :: k in users && users[k].email == email
  }

  ghost predicate EmailsUnique(users: map<nat, User>) {
    forall a, b :: a in users && b in users && a != b ==> users[a].email != users[b].email
  }

  /** Adding a user whose email nobody has keeps emails unique. */
  lemma FreshEmailKeepsUnique(users: map<nat, User>, k: nat, u: User)
    requires EmailsUnique(users) && !EmailTaken(users, u.email)
    ensures EmailsUnique(users[k := u])
  {
    var after := users[k := u];
    forall a, b | a in after && b in after && a != b ensures after[a].email != after[b].email {
      if a != k && b != k {
        assert after[a] == users[a] && after[b] == users[b];
      }
    }
  }

  predicate Matches(u: User, email: string, password: string, role: Role) {
    u.email == email && u.password == password && u.role == role
  }

  /** `findOne` with an exact-match filter: the first user of `s` matching
      all three fields, if any. */
  function FirstMatch(s: seq<User>, email: string, password: string, role: Role): (r: Option<User>)
    ensures r.Some? ==> r.value in s && Matches(r.value, email, password, role)
    ensures r.None? <==> forall u :: u in s ==> !Matches(u, email, password, role)
  {
    if s == [] then None
    else if Matches(s[0], email, password, role) then Some(s[0])
    else FirstMatch(s[1..], email, password, role)
  }

  function NewFood(id: nat, f: FoodFields, now: int): Food {
    Food(id, f.name, f.category, f.price, now)
  }

  /** The documents an `insertMany` of `fields` creates, with consecutive ids
      from `start` and one shared timestamp. */
  function Inserted(start: nat, fields: seq<FoodFields>, now: int): (m: map<nat, Food>)
    ensures forall k :: k in m <==> start <= k < start + |fields|
    ensures forall i :: 0 <= i < |fields| ==> m[start + i] == NewFood(start + i, fields[i], now)
    ensures forall k :: k in m ==> m[k].id == k
  {
    if fields == [] then map[]
    else
      var m := Inserted(start, fields[..|fields| - 1], now);
      var last := start + |fields| - 1;
      m[last := NewFood(last, fields[|fields| - 1], now)]
  }

  class RecordStore {
    var users: map<nat, User>
    var foods: map<nat, Food>
    var orders: map<nat, Order>
    /** The next id to hand out; ids are unique across collections. */
    var nextId: nat

    /** Every record is stored under its own id, every id handed out so far
        is below `nextId`, and no two users share an email. */
    ghost predicate Valid()
      reads this
    {
      && (forall k :: k in users ==> k < nextId && users[k].id == k)
      && (forall k :: k in foods ==> k < nextId && foods[k].id == k)
      && (forall k :: k in orders ==> k < nextId && orders[k].id == k)
      && EmailsUnique(users)
    }

    constructor ()
      ensures Valid()
      ensures users == map[] && foods == map[] && orders == map[]
    {
      users, foods, orders, nextId := map[], map[], map[], 0;
    }

    /** POST /api/auth/register. An email already held by any user is
        refused; otherwise one user is added, with role `customer` when none
        is given and a restaurant name only for owners. */
    method Register(name: string, email: string, password: string, phone: string,
                    address: string, role: Option<Role>, restaurantName: Option<string>,
                    now: int)
      returns (reply: Reply<PublicUser>)
      requires Valid()
      modifies this
      ensures Valid()
      ensures foods == old(foods) && orders == old(orders)
      ensures EmailTaken(old(users), email) ==>
        reply == Failure("Email already exists") && users == old(users) && nextId == old(nextId)
      ensures !EmailTaken(old(users), email) ==>
        var u := User(old(nextId), name, email, password, phone, address, role.GetOr(Customer),
                      if role == Some(Owner) then restaurantName else None, now);
        && users == old(users)[old(nextId) := u]
        && |users| == |old(users)| + 1
        && nextId == old(nextId) + 1
        && reply == Success("Registration successful", Public(u))
    {
      if EmailTaken(users, email) {
        return Failure("Email already exists");
      }
      var u := User(nextId, name, email, password, phone, address, role.GetOr(Customer),
                    if role == Some(Owner) then restaurantName else None, now);
      assert nextId !in users;
      FreshEmailKeepsUnique(users, nextId, u);
      users := users[nextId := u];
      nextId := nextId + 1;
      reply := Success("Registration successful", Public(u));
    }

    /** POST /api/auth/login: the first stored user, in insertion order,
        whose email, password and role all equal the ones given. */
    function Login(email: string, password: string, role: Role): (r: Reply<PublicUser>)
      reads this
      requires Valid()
      ensures r.Success? <==> exists k :: k in users && Matches(users[k], email, password, role)
      ensures forall k :: k in users && Matches(users[k], email, password, role) ==>
        r == Success("Login successful", Public(users[k]))
      ensures r.Failure? ==> r == Failure("Invalid credentials")
    {
      var all := InIdOrder(users, nextId);
      match FirstMatch(all, email, password, role)
      case None =>
        forall k | k in users ensures !Matches(users[k], email, password, role) {
          InIdOrderMembers(users, nextId, users[k]);
        }
        Failure("Invalid credentials")
      case Some(u) =>
        InIdOrderMembers(users, nextId, u);
        Success("Login successful", Public(u))
    }

    /** GET /api/food/items: every food record, in insertion order. */
    function MenuItems(): (r: seq<Food>)
      reads this
      requires Valid()
      ensures forall f :: f in r <==> f in foods.Values
      ensures forall i, j :: 0 <= i < j < |r| ==> r[i].id < r[j].id
    {
      var r := InIdOrder(foods, nextId);
      InIdOrderAscending(foods, nextId, (f: Food) => f.id);
      forall f ensures f in r <==> f in foods.Values {
        InIdOrderMembers(foods, nextId, f);
      }
      r
    }

    /** POST /api/food/add: stores the fields as given, without validation. */
    method AddFood(fields: FoodFields, now: int) returns (reply: Reply<Food>)
      requires Valid()
      modifies this
      ensures Valid()
      ensures users == old(users) && orders == old(orders) && nextId == old(nextId) + 1
      ensures foods == old(foods)[old(nextId) := NewFood(old(nextId), fields, now)]
      ensures reply == Success("Food item added", NewFood(old(nextId), fields, now))
    {
      var food := NewFood(nextId, fields, now);
      foods := foods[nextId := food];
      nextId := nextId + 1;
      reply := Success("Food item added", food);
    }

    /** DELETE /api/food/delete/:id: removes the item if there is one, and
        reports success either way. */
    method DeleteFood(id: nat) returns (reply: Reply<()>)
      requires Valid()
      modifies this
      ensures Valid()
      ensures users == old(users) && orders == old(orders) && nextId == old(nextId)
      ensures foods == old(foods) - {id}
      ensures id !in old(foods) ==> foods == old(foods)
      ensures reply == Success("Food item deleted", ())
    {
      foods := foods - {id};
      reply := Success("Food item deleted", ());
    }

    /** initializeFood: inserts the seed menu only when there is no food
        record at all, so running it again changes nothing. */
    method InitializeFood(now: int)
      requires Valid()
      modifies this
      ensures Valid()
      ensures users == old(users) && orders == old(orders)
      ensures old(foods) != map[] ==> foods == old(foods) && nextId == old(nextId)
      ensures old(foods) == map[] ==>
        && foods == Inserted(old(nextId), SeedMenu, now)
        && nextId == old(nextId) + |SeedMenu|
      ensures foods != map[]
    {
      if foods == map[] {
        foods := Inserted(nextId, SeedMenu, now);
        nextId := nextId + |SeedMenu|;
        assert old(nextId) in foods;
      }
    }

    /** POST /api/orders/create: stores the request as sent. The status
        defaults to pending, the total is kept as submitted, without being
        checked against the items, and any feedback in the body is kept. */
    method CreateOrder(req: OrderRequest, now: int) returns (reply: Reply<Order>)
      requires Valid()
      modifies this
      ensures Valid()
      ensures users == old(users) && foods == old(foods) && nextId == old(nextId) + 1
      ensures var o := Order(old(nextId), req.customerId, req.customerName, req.customerPhone,
                             req.customerAddress, req.items, req.totalAmount,
                             req.status.GetOr(Pending), req.paymentMethod, req.feedback, now);
        && orders == old(orders)[old(nextId) := o]
        && reply == Success("Order placed successfully", o)
    {
      var o := Order(nextId, req.customerId, req.customerName, req.customerPhone,
                     req.customerAddress, req.items, req.totalAmount,
                     req.status.GetOr(Pending), req.paymentMethod, req.feedback, now);
      orders := orders[nextId := o];
      nextId := nextId + 1;
      reply := Success("Order placed successfully", o);
    }

    /** GET /api/orders/customer/:customerId: exactly the orders of that
        customer, each once, newest first. */
    function CustomerOrders(customerId: nat): (r: seq<Order>)
      reads this
      requires Valid()
      ensures forall o :: o in r <==> o in orders.Values && o.customerId == customerId
      ensures Distinct(r)
      ensures NewestFirst(r)
    {
      var all := InIdOrder(orders, nextId);
      var ofCustomer := (o: Order) => o.customerId == customerId;
      var mine := Filter(all, ofCustomer);
      StoredOrdersListedOnce();
      FilterDistinct(all, ofCustomer);
      SortKeepsMembers(mine);
      SortNewestFirst(mine)
    }

    /** GET /api/orders/all: every order, each once, newest first. */
    function AllOrders(): (r: seq<Order>)
      reads this
      requires Valid()
      ensures forall o :: o in r <==> o in orders.Values
      ensures Distinct(r)
      ensures NewestFirst(r)
    {
      var all := InIdOrder(orders, nextId);
      StoredOrdersListedOnce();
      SortKeepsMembers(all);
      SortNewestFirst(all)
    }

    /** The unsorted scan of the order collection holds each stored order once. */
    lemma StoredOrdersListedOnce()
      requires Valid()
      ensures forall o :: o in InIdOrder(orders, nextId) <==> o in orders.Values
      ensures Distinct(InIdOrder(orders, nextId))
    {
      InIdOrderAscending(orders, nextId, (o: Order) => o.id);
      forall o ensures o in InIdOrder(orders, nextId) <==> o in orders.Values {
        InIdOrderMembers(orders, nextId, o);
      }
    }

    /** PUT /api/orders/update-status: overwrites the status of the order
        with that id, whatever it was before. An unknown id changes nothing
        and still reports success, with no order attached. */
    method UpdateStatus(orderId: nat, status: Status) returns (reply: Reply<Option<Order>>)
      requires Valid()
      modifies this
      ensures Valid()
      ensures users == old(users) && foods == old(foods) && nextId == old(nextId)
      ensures orderId in old(orders) ==>
        && orders == old(orders)[orderId := old(orders)[orderId].(status := status)]
        && reply == Success("Order status updated", Some(orders[orderId]))
      ensures orderId !in old(orders) ==>
        orders == old(orders) && reply == Success("Order status updated", None)
    {
      if orderId in orders {
        var o := orders[orderId].(status := status);
        orders := orders[orderId := o];
        reply := Success("Order status updated", Some(o));
      } else {
        reply := Success("Order status updated", None);
      }
    }

    /** PUT /api/orders/feedback: sets the order's feedback, replacing any
        earlier one, whatever the order's status. An unknown id changes
        nothing and still reports success. */
    method SubmitFeedback(orderId: nat, rating: int, comment: string, now: int)
      returns (reply: Reply<Option<Order>>)
      requires Valid()
      modifies this
      ensures Valid()
      ensures users == old(users) && foods == old(foods) && nextId == old(nextId)
      ensures orderId in old(orders) ==>
        && orders == old(orders)[orderId := old(orders)[orderId].(feedback := Some(Feedback(rating, comment, now)))]
        && reply == Success("Feedback submitted", Some(orders[orderId]))
      ensures orderId !in old(orders) ==>
        orders == old(orders) && reply == Success("Feedback submitted", None)
    {
      if orderId in orders {
        var o := orders[orderId].(feedback := Some(Feedback(rating, comment, now)));
        orders := orders[orderId := o];
        reply := Success("Feedback submitted", Some(o));
      } else {
        reply := Success("Feedback submitted", None);
      }
    }
  }
}
