/** The order document: its delivery details, its cart, and the status
    values the schema's `enum` admits. */
module OrderModel {
  import opened Wrappers
  import opened RestaurantModel

  /** The order statuses. The schema lists "delivered" twice and puts it
      before "outForDelivery"; the list implies no order between them. */
  datatype OrderStatus = Placed | Paid | Delivered | OutForDelivery

  /** The `enum` of the `status` path, exactly as the schema lists it. */
  const StatusEnum: seq<string> := ["placed", "paid", "delivered", "outForDelivery", "delivered"]

  function StatusName(st: OrderStatus): (s: string)
    ensures s in StatusEnum
  {
    match st
    case Placed => "placed"
    case Paid => "paid"
    case Delivered => "delivered"
    case OutForDelivery => "outForDelivery"
  }

  /** The status a string stands for, if the `enum` admits it. */
  function ParseStatus(s: string): (r: Option<OrderStatus>)
    ensures r.Some? <==> s in StatusEnum
    ensures r.Some? ==> StatusName(r.value) == s
  {
    if s == "placed" then Some(Placed)
    else if s == "paid" then Some(Paid)
    else if s == "delivered" then Some(Delivered)
    else if s == "outForDelivery" then Some(OutForDelivery)
    else None
  }

  lemma StatusRoundTrip(st: OrderStatus)
    ensures ParseStatus(StatusName(st)) == Some(st)
  {
  }

  /** Five entries in the `enum`, four distinct values. */
  lemma StatusEnumHasFourValues()
    ensures |StatusEnum| == 5
    ensures (set s | s in StatusEnum) == {"placed", "paid", "delivered", "outForDelivery"}
    ensures StatusEnum[2] == StatusEnum[4]
  {
    var values := set s | s in StatusEnum;
    assert StatusEnum[0] in values && StatusEnum[1] in values && StatusEnum[3] in values;
    assert StatusEnum[2] in values;
  }

  datatype DeliveryDetails = DeliveryDetails(email: string, name: string, addressLine1: string, city: string)

  /** A cart item as the order stores it; a missing quantity is `None`. */
  datatype CartItem = CartItem(menuItemId: string, quantity: Option<int>, name: string)

  /** An order document. `restaurant` and `user` are references by id and
      may be missing; `totalAmount` is an unconstrained optional number;
      `createdAt` is the creation time, its default. */
  datatype Order = Order(
    id: string,
    restaurant: Option<string>,
    user: Option<string>,
    deliveryDetails: DeliveryDetails,
    cartItems: seq<CartItem>,
    totalAmount: Option<int>,
    status: Option<OrderStatus>,
    createdAt: Time)

  predicate ValidDeliveryDetails(d: DeliveryDetails)
  {
    RequiredString(d.email) && RequiredString(d.name)
    && RequiredString(d.addressLine1) && RequiredString(d.city)
  }

  predicate ValidCartItem(c: CartItem)
  {
    RequiredString(c.menuItemId) && c.quantity.Some? && RequiredString(c.name)
  }

  /** What saving an order demands. `status` is checked against the `enum`
      by the type of the field; nothing orders the statuses. */
  predicate ValidOrder(o: Order)
  {
    ValidDeliveryDetails(o.deliveryDetails)
    && (forall i :: 0 <= i < |o.cartItems| ==> ValidCartItem(o.cartItems[i]))
  }

  /** Each required path is required: an order with any delivery detail
      cleared, or with a cart item lacking its menu item id, quantity or
      name, is refused, whatever its other fields hold. The cart itself may
      be empty. */
  lemma OrderRequiredPaths(o: Order, c: CartItem)
    ensures !ValidOrder(o.(deliveryDetails := o.deliveryDetails.(email := "")))
    ensures !ValidOrder(o.(deliveryDetails := o.deliveryDetails.(name := "")))
    ensures !ValidOrder(o.(deliveryDetails := o.deliveryDetails.(addressLine1 := "")))
    ensures !ValidOrder(o.(deliveryDetails := o.deliveryDetails.(city := "")))
    ensures !ValidOrder(o.(cartItems := o.cartItems + [c.(menuItemId := "")]))
    ensures !ValidOrder(o.(cartItems := o.cartItems + [c.(quantity := None)]))
    ensures !ValidOrder(o.(cartItems := o.cartItems + [c.(name := "")]))
    ensures ValidOrder(o) ==> ValidOrder(o.(cartItems := []))
  {
    assert (o.cartItems + [c.(menuItemId := "")])[|o.cartItems|] == c.(menuItemId := "");
    assert (o.cartItems + [c.(quantity := None)])[|o.cartItems|] == c.(quantity := None);
    assert (o.cartItems + [c.(name := "")])[|o.cartItems|] == c.(name := "");
  }

  /** Status, total and references play no part in validity. */
  lemma ValidityIgnoresStatusAndReferences(o: Order, st: Option<OrderStatus>, total: Option<int>,
                                           restaurant: Option<string>, user: Option<string>)
    ensures ValidOrder(o) <==> ValidOrder(o.(status := st, totalAmount := total, restaurant := restaurant, user := user))
  {
  }
}
