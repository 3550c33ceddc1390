/** The order routes: checkout, the two one-way status setters, lookup by id, and the
    listing queries (all orders by last update, one user's orders by creation time,
    and the "recent" variants that keep the first three). */
module Orders {
  import opened Common
  import opened OrderModel

  const CartEmpty := Rejection(400, "Cart is empty!")
  const NotCreated := Rejection(400, "Order not created! An error occured!")
  const StatusNotFound := Rejection(404, "Order not found! An error occured!")
  const NotFound := Rejection(404, "Order does not exist!")

  /** How many orders the "recent" routes return. */
  const RecentCount: nat := 3

  // ---------------------------------------------------------------------------
  // Checkout
  // ---------------------------------------------------------------------------

  /** POST /api/orders with `id` the id the store issues next: an empty cart is
      refused, an order the schema rejects is not saved, and otherwise exactly one
      order is added, holding what the client submitted. */
  function Create(orders: map<Id, Order>, id: Id, input: OrderInput, now: int): (out: (Response<Doc<Order>>, map<Id, Order>))
    requires id !in orders
    ensures |input.orderItems| == 0 ==> out == (Reject(CartEmpty), orders)
    ensures |input.orderItems| > 0 && !Complete(input) ==> out == (Reject(NotCreated), orders)
    ensures out.0.Reply? <==> |input.orderItems| > 0 && Complete(input)
    ensures !out.0.Reply? ==> out.1 == orders
    ensures out.0.Reply? ==>
              && out.1.Keys == orders.Keys + {id}
              && (forall k :: k in orders ==> out.1[k] == orders[k])
              && Some(out.1[id]) == NewOrder(input, now)
              && out.0 == Reply(201, Doc(id, out.1[id]))
  {
    if |input.orderItems| == 0 then (Reject(CartEmpty), orders)
    else
      match NewOrder(input, now)
      case None => (Reject(NotCreated), orders)
      case Some(o) => (Reply(201, Doc(id, o)), orders[id := o])
  }

  // ---------------------------------------------------------------------------
  // Status transitions
  // ---------------------------------------------------------------------------

  /** The order after `isPaid = true; paidAt = now` and the save that follows. */
  function Paid(o: Order, now: int): (r: Order)
    ensures r.isPaid && r.paidAt == Some(now) && r.updatedAt == now
    ensures r.(isPaid := o.isPaid, paidAt := o.paidAt, updatedAt := o.updatedAt) == o
  {
    o.(isPaid := true, paidAt := Some(now), updatedAt := now)
  }

  /** The order after `isDelivered = true; deliveredAt = now` and the save that follows. */
  function Delivered(o: Order, now: int): (r: Order)
    ensures r.isDelivered && r.deliveredAt == Some(now) && r.updatedAt == now
    ensures r.(isDelivered := o.isDelivered, deliveredAt := o.deliveredAt, updatedAt := o.updatedAt) == o
  {
    o.(isDelivered := true, deliveredAt := Some(now), updatedAt := now)
  }

  /** PUT /api/orders/:id/pay/cash. */
  function MarkPaid(orders: map<Id, Order>, id: Id, now: int): (out: (Response<Doc<Order>>, map<Id, Order>))
    ensures id !in orders ==> out == (Reject(StatusNotFound), orders)
    ensures id in orders ==> out.1 == orders[id := Paid(orders[id], now)] && out.0 == Reply(201, Doc(id, out.1[id]))
  {
    if id in orders then
      var o := Paid(orders[id], now);
      (Reply(201, Doc(id, o)), orders[id := o])
    else
      (Reject(StatusNotFound), orders)
  }

  /** PUT /api/orders/:id/deliver. */
  function MarkDelivered(orders: map<Id, Order>, id: Id, now: int): (out: (Response<Doc<Order>>, map<Id, Order>))
    ensures id !in orders ==> out == (Reject(StatusNotFound), orders)
    ensures id in orders ==> out.1 == orders[id := Delivered(orders[id], now)] && out.0 == Reply(201, Doc(id, out.1[id]))
  {
    if id in orders then
      var o := Delivered(orders[id], now);
      (Reply(201, Doc(id, o)), orders[id := o])
    else
      (Reject(StatusNotFound), orders)
  }

  /** A status flag is set exactly when its timestamp is. */
  predicate StampsAgree(o: Order)
  {
    (o.isPaid <==> o.paidAt.Some?) && (o.isDelivered <==> o.deliveredAt.Some?)
  }

  /** From `before` to `after` no order disappears and no status flag is cleared. */
  ghost predicate Advances(before: map<Id, Order>, after: map<Id, Order>)
  {
    forall k :: k in before ==>
      && k in after
      && (before[k].isPaid ==> after[k].isPaid)
      && (before[k].isDelivered ==> after[k].isDelivered)
  }

  /** Paying twice leaves the order paid, with the later time as `paidAt`: the second
      call is the same as paying once at the later time. */
  lemma PayTwice(orders: map<Id, Order>, id: Id, t1: int, t2: int)
    ensures var once := MarkPaid(orders, id, t1).1;
            MarkPaid(once, id, t2) == MarkPaid(orders, id, t2)
  {
    if id in orders {
      var once := orders[id := Paid(orders[id], t1)];
      assert Paid(once[id], t2) == Paid(orders[id], t2);
      assert once[id := Paid(once[id], t2)] == orders[id := Paid(orders[id], t2)];
    }
  }

  /** Delivering twice, likewise. */
  lemma DeliverTwice(orders: map<Id, Order>, id: Id, t1: int, t2: int)
    ensures var once := MarkDelivered(orders, id, t1).1;
            MarkDelivered(once, id, t2) == MarkDelivered(orders, id, t2)
  {
    if id in orders {
      var once := orders[id := Delivered(orders[id], t1)];
      assert Delivered(once[id], t2) == Delivered(orders[id], t2);
      assert once[id := Delivered(once[id], t2)] == orders[id := Delivered(orders[id], t2)];
    }
  }

  /** No order route clears a flag or removes an order, and each keeps flags and
      timestamps in step. */
  lemma {:induction false} RoutesAdvance(orders: map<Id, Order>, id: Id, newId: Id, input: OrderInput, now: int)
    requires newId !in orders
    requires forall k :: k in orders ==> StampsAgree(orders[k])
    ensures Advances(orders, MarkPaid(orders, id, now).1)
    ensures Advances(orders, MarkDelivered(orders, id, now).1)
    ensures Advances(orders, Create(orders, newId, input, now).1)
    ensures forall k :: k in MarkPaid(orders, id, now).1 ==> StampsAgree(MarkPaid(orders, id, now).1[k])
    ensures forall k :: k in MarkDelivered(orders, id, now).1 ==> StampsAgree(MarkDelivered(orders, id, now).1[k])
    ensures forall k :: k in Create(orders, newId, input, now).1 ==> StampsAgree(Create(orders, newId, input, now).1[k])
  {
  }

  // ---------------------------------------------------------------------------
  // Queries
  // ---------------------------------------------------------------------------

  /** GET /api/orders/:id. */
  function Get(orders: map<Id, Order>, id: Id): (r: Response<Doc<Order>>)
    ensures id in orders ==> r == Reply(200, Doc(id, orders[id]))
    ensures id !in orders ==> r == Reject(NotFound)
  {
    if id in orders then Reply(200, Doc(id, orders[id])) else Reject(NotFound)
  }

  /** The query filter: every order, or the orders whose `user` is the given id. */
  datatype Filter = AnyOrder | OwnedBy(uid: Id)

  predicate Matches(o: Order, f: Filter)
  {
    match f
    case AnyOrder => true
    case OwnedBy(uid) => o.user == uid
  }

  /** The sort key of a query. */
  datatype SortField = CreatedAt | UpdatedAt

  function Stamp(o: Order, f: SortField): int
  {
    match f
    case CreatedAt => o.createdAt
    case UpdatedAt => o.updatedAt
  }

  ghost predicate IncreasingIds(s: seq<Doc<Order>>)
  {
    forall i, j :: 0 <= i < j < |s| ==> s[i].id < s[j].id
  }

  ghost predicate DistinctIds(s: seq<Doc<Order>>)
  {
    forall i, j :: 0 <= i < j < |s| ==> s[i].id != s[j].id
  }

  /** Newest first: `.sort({ field: -1 })`. */
  ghost predicate NewestFirst(s: seq<Doc<Order>>, f: SortField)
  {
    forall i, j :: 0 <= i < j < |s| ==> Stamp(s[i].doc, f) >= Stamp(s[j].doc, f)
  }

  /** The stored orders with an id below `n` that pass the filter, by ascending id. */
  function Matching(orders: map<Id, Order>, n: nat, filter: Filter): (r: seq<Doc<Order>>)
    ensures forall d :: d in r <==> d.id < n && d.id in orders && d.doc == orders[d.id] && Matches(d.doc, filter)
    ensures IncreasingIds(r)
  {
    if n == 0 then []
    else
      var prev := Matching(orders, n - 1, filter);
      assert forall i :: 0 <= i < |prev| ==> prev[i] in prev;
      prev + if n - 1 in orders && Matches(orders[n - 1], filter) then [Doc(n - 1, orders[n - 1])] else []
  }

  /** Insertion of one order into a list, before the first order that is not newer. */
  function Insert(d: Doc<Order>, s: seq<Doc<Order>>, f: SortField): (r: seq<Doc<Order>>)
    ensures |r| == |s| + 1
    ensures multiset(r) == multiset(s) + multiset{d}
    ensures forall e :: e in r <==> e == d || e in s
  {
    if |s| == 0 || Stamp(d.doc, f) >= Stamp(s[0].doc, f) then [d] + s
    else
      assert s == [s[0]] + s[1..];
      [s[0]] + Insert(d, s[1..], f)
  }

  lemma {:induction false} InsertNewestFirst(d: Doc<Order>, s: seq<Doc<Order>>, f: SortField)
    requires NewestFirst(s, f)
    ensures NewestFirst(Insert(d, s, f), f)
  {
    if |s| > 0 && Stamp(d.doc, f) < Stamp(s[0].doc, f) {
      var rest := Insert(d, s[1..], f);
      InsertNewestFirst(d, s[1..], f);
      assert s == [s[0]] + s[1..];
      forall j | 0 <= j < |rest| ensures Stamp(s[0].doc, f) >= Stamp(rest[j].doc, f) {
        assert rest[j] in rest;
      }
    }
  }

  lemma {:induction false} InsertDistinct(d: Doc<Order>, s: seq<Doc<Order>>, f: SortField)
    requires DistinctIds(s)
    requires forall e :: e in s ==> e.id != d.id
    ensures DistinctIds(Insert(d, s, f))
  {
    if |s| > 0 && Stamp(d.doc, f) < Stamp(s[0].doc, f) {
      var rest := Insert(d, s[1..], f);
      assert s == [s[0]] + s[1..];
      InsertDistinct(d, s[1..], f);
      forall j | 0 <= j < |rest| ensures s[0].id != rest[j].id {
        assert rest[j] in rest;
      }
    } else {
      forall j | 0 <= j < |s| ensures d.id != s[j].id {
        assert s[j] in s;
      }
    }
  }

  /** Sorting newest first, by insertion. */
  function SortNewestFirst(s: seq<Doc<Order>>, f: SortField): (r: seq<Doc<Order>>)
    ensures |r| == |s|
    ensures multiset(r) == multiset(s)
    ensures forall e :: e in r <==> e in s
  {
    if |s| == 0 then []
    else
      assert s == [s[0]] + s[1..];
      Insert(s[0], SortNewestFirst(s[1..], f), f)
  }

  lemma {:induction false} SortedNewestFirst(s: seq<Doc<Order>>, f: SortField)
    ensures NewestFirst(SortNewestFirst(s, f), f)
  {
    if |s| > 0 {
      SortedNewestFirst(s[1..], f);
      InsertNewestFirst(s[0], SortNewestFirst(s[1..], f), f);
    }
  }

  lemma {:induction false} SortKeepsIdsDistinct(s: seq<Doc<Order>>, f: SortField)
    requires DistinctIds(s)
    ensures DistinctIds(SortNewestFirst(s, f))
  {
    if |s| > 0 {
      assert s == [s[0]] + s[1..];
      SortKeepsIdsDistinct(s[1..], f);
      forall e | e in SortNewestFirst(s[1..], f) ensures e.id != s[0].id {
        var j :| 0 <= j < |s[1..]| && s[1..][j] == e;
        assert s[j + 1] == e;
      }
      InsertDistinct(s[0], SortNewestFirst(s[1..], f), f);
    }
  }

  /** `Order.find(filter).sort({ field: -1 })` over a store whose ids lie below `n`:
      exactly the stored orders that pass the filter, each once, newest first. */
  function Query(orders: map<Id, Order>, n: nat, filter: Filter, f: SortField): (r: seq<Doc<Order>>)
    requires Bounded(orders, n)
    ensures forall d :: d in r <==> d.id in orders && d.doc == orders[d.id] && Matches(d.doc, filter)
    ensures DistinctIds(r)
    ensures NewestFirst(r, f)
  {
    var m := Matching(orders, n, filter);
    SortedNewestFirst(m, f);
    SortKeepsIdsDistinct(m, f);
    SortNewestFirst(m, f)
  }

  /** GET /api/orders: every order, the most recently updated first. */
  function All(orders: map<Id, Order>, n: nat): (r: seq<Doc<Order>>)
    requires Bounded(orders, n)
    ensures forall d :: d in r <==> d.id in orders && d.doc == orders[d.id]
    ensures DistinctIds(r) && NewestFirst(r, UpdatedAt)
  {
    Query(orders, n, AnyOrder, UpdatedAt)
  }

  /** GET /api/orders/myorders/mine (the caller's id) and GET /api/orders/user/orders/:id
      (an id in the path): the orders whose `user` is `uid`, the newest first. */
  function OwnedOrders(orders: map<Id, Order>, n: nat, uid: Id): (r: seq<Doc<Order>>)
    requires Bounded(orders, n)
    ensures forall d :: d in r <==> d.id in orders && d.doc == orders[d.id] && d.doc.user == uid
    ensures DistinctIds(r) && NewestFirst(r, CreatedAt)
  {
    Query(orders, n, OwnedBy(uid), CreatedAt)
  }

  /** A "recent" listing is the head of its full listing, and nothing left out of it
      is newer than anything in it. */
  lemma {:induction false} RecentIsNewest(full: seq<Doc<Order>>, f: SortField)
    requires NewestFirst(full, f)
    ensures var recent := Limit(full, RecentCount);
            && |recent| == (if |full| < RecentCount then |full| else RecentCount)
            && recent == full[..|recent|]
            && forall i, j :: 0 <= i < |recent| <= j < |full| ==> Stamp(recent[i].doc, f) >= Stamp(full[j].doc, f)
  {
    var recent := Limit(full, RecentCount);
    forall i, j | 0 <= i < |recent| <= j < |full|
      ensures Stamp(recent[i].doc, f) >= Stamp(full[j].doc, f)
    {
      assert recent[i] == full[i];
    }
  }
}
