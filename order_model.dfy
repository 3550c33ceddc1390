/** The order schema: the shape of a stored order, which of its paths the schema
    requires, and the defaults it fills in when an order is first saved. */
module OrderModel {
  import opened Common

  datatype OrderItem = OrderItem(name: string, qty: real, image: string, price: real)

  datatype ShippingAddress = ShippingAddress(address: string, city: string, postalCode: string, country: string)

  /** The schema-less `userObj` snapshot: any JSON value the client sends. */
  datatype Json =
    | JNull
    | JBool(b: bool)
    | JNum(n: real)
    | JStr(s: string)
    | JArr(items: seq<Json>)
    | JObj(fields: seq<(string, Json)>)

  /** A stored order. `paidAt` and `deliveredAt` are absent until the status routes
      stamp them; `createdAt` and `updatedAt` are the schema's timestamps. */
  datatype Order = Order(
    orderItems: seq<OrderItem>,
    shippingAddress: ShippingAddress,
    paymentMethod: string,
    itemPrice: real,
    shippingPrice: real,
    totalPrice: real,
    user: Id,
    userObj: Json,
    isPaid: bool,
    isDelivered: bool,
    paidAt: Option<int>,
    deliveredAt: Option<int>,
    createdAt: int,
    updatedAt: int)

  // What a client submits; every path may be missing.
  datatype ItemInput = ItemInput(name: Option<string>, qty: Option<real>, image: Option<string>, price: Option<real>)
  datatype AddressInput = AddressInput(address: Option<string>, city: Option<string>, postalCode: Option<string>, country: Option<string>)
  datatype OrderInput = OrderInput(
    orderItems: seq<ItemInput>,
    shippingAddress: Option<AddressInput>,
    paymentMethod: Option<string>,
    itemPrice: Option<real>,
    shippingPrice: Option<real>,
    totalPrice: Option<real>,
    user: Option<Id>,
    userObj: Option<Json>)

  /** A required String path accepts neither a missing value nor "". */
  predicate RequiredText(s: Option<string>)
  {
    s.Some? && s.value != ""
  }

  predicate ItemComplete(i: ItemInput)
  {
    RequiredText(i.name) && i.qty.Some? && RequiredText(i.image) && i.price.Some?
  }

  predicate AddressComplete(a: Option<AddressInput>)
  {
    a.Some? && RequiredText(a.value.address) && RequiredText(a.value.city)
    && RequiredText(a.value.postalCode) && RequiredText(a.value.country)
  }

  /** Every path the schema marks as required is present. */
  predicate Complete(input: OrderInput)
  {
    && (forall k :: 0 <= k < |input.orderItems| ==> ItemComplete(input.orderItems[k]))
    && AddressComplete(input.shippingAddress)
    && RequiredText(input.paymentMethod)
    && input.itemPrice.Some? && input.shippingPrice.Some? && input.totalPrice.Some?
    && input.user.Some?
    && input.userObj.Some? && input.userObj.value != JNull
  }

  function ToItem(i: ItemInput): OrderItem
    requires ItemComplete(i)
  {
    OrderItem(i.name.value, i.qty.value, i.image.value, i.price.value)
  }

  function ToItems(items: seq<ItemInput>): (r: seq<OrderItem>)
    requires forall k :: 0 <= k < |items| ==> ItemComplete(items[k])
    ensures |r| == |items|
    ensures forall k :: 0 <= k < |items| ==> r[k] == ToItem(items[k])
  {
    if |items| == 0 then [] else [ToItem(items[0])] + ToItems(items[1..])
  }

  /** The item a client submitted, stored as is. */
  predicate StoredAs(item: OrderItem, input: ItemInput)
  {
    Some(item.name) == input.name && Some(item.qty) == input.qty
    && Some(item.image) == input.image && Some(item.price) == input.price
  }

  /** Saving a new order: the schema rejects it when a required path is missing, and
      otherwise stores every submitted path verbatim, with both status flags false,
      neither status timestamp, and both schema timestamps at the save time `now`. */
  function NewOrder(input: OrderInput, now: int): (r: Option<Order>)
    ensures r.Some? <==> Complete(input)
    ensures r.Some? ==>
              && |r.value.orderItems| == |input.orderItems|
              && (forall k :: 0 <= k < |input.orderItems| ==> StoredAs(r.value.orderItems[k], input.orderItems[k]))
              && Some(r.value.shippingAddress.address) == input.shippingAddress.value.address
              && Some(r.value.shippingAddress.city) == input.shippingAddress.value.city
              && Some(r.value.shippingAddress.postalCode) == input.shippingAddress.value.postalCode
              && Some(r.value.shippingAddress.country) == input.shippingAddress.value.country
              && Some(r.value.paymentMethod) == input.paymentMethod
              && Some(r.value.itemPrice) == input.itemPrice
              && Some(r.value.shippingPrice) == input.shippingPrice
              && Some(r.value.totalPrice) == input.totalPrice
              && Some(r.value.user) == input.user
              && Some(r.value.userObj) == input.userObj
              && !r.value.isPaid && !r.value.isDelivered
              && r.value.paidAt.None? && r.value.deliveredAt.None?
              && r.value.createdAt == now && r.value.updatedAt == now
  {
    if Complete(input) then
      var a := input.shippingAddress.value;
      Some(Order(
        ToItems(input.orderItems),
        ShippingAddress(a.address.value, a.city.value, a.postalCode.value, a.country.value),
        input.paymentMethod.value,
        input.itemPrice.value, input.shippingPrice.value, input.totalPrice.value,
        input.user.value, input.userObj.value,
        false, false, None, None, now, now))
    else
      None
  }
}
