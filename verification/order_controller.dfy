/** Checkout: pricing a cart against the restaurant's menu and building the
    payment gateway's checkout-session request. The gateway itself is the
    function `gateway`, which answers a request with a session (that may lack
    a URL) or with an error carrying the gateway's raw message. */
module OrderController {
  import opened Wrappers
  import opened Http
  import opened JsNumber
  import opened RestaurantModel
  import OrderModel

  /** A cart entry as the client sends it; the quantity is text. */
  datatype CartEntry = CartEntry(menuItemId: string, name: string, quantity: string)

  datatype CheckoutSessionRequest = CheckoutSessionRequest(
    cartItems: seq<CartEntry>,
    deliveryDetails: OrderModel.DeliveryDetails,
    restaurantId: string)

  /** A gateway line item: `price_data { currency, unit_amount,
      product_data { name } }` and `quantity` (`None` is `NaN`). */
  datatype LineItem = LineItem(currency: string, unitAmount: Option<int>, productName: string, quantity: Option<int>)

  /** A shipping option with `shipping_rate_data { display_name, type,
      fixed_amount { amount, currency } }`. */
  datatype ShippingOption = ShippingOption(displayName: string, kind: string, amount: Option<int>, currency: string)

  datatype Metadata = Metadata(orderId: string, restaurantId: string)

  /** The parameters of the checkout-session request. */
  datatype SessionParams = SessionParams(
    lineItems: seq<LineItem>,
    shippingOptions: seq<ShippingOption>,
    mode: string,
    metadata: Metadata,
    successUrl: string,
    cancelUrl: string)

  datatype GatewayReply = SessionCreated(url: Option<string>) | GatewayError(rawMessage: string)

  /** The errors the handler throws itself. */
  datatype CheckoutFailure = RestaurantNotFound | MenuItemNotFound(menuItemId: string) | LookupFailed

  datatype Redirect = Redirect(url: string)

  /** What checkout does: answer after requesting a session with `request`,
      or throw before any session is requested. The response to a thrown
      failure is not part of the model. */
  datatype Checkout = Answered(request: SessionParams, reply: Reply<Redirect>) | Thrown(failure: CheckoutFailure)

  /** The order id every session carries; no order is created. */
  const PlaceholderOrderId: string := "TEST_ORDER_ID"

  /** `menuItems.find(...)`: the index of the first menu item with this id. */
  function FindMenuItem(menu: seq<MenuItem>, id: string): (r: Option<nat>)
    ensures r.Some? ==> r.value < |menu| && menu[r.value].id == id
    ensures r.Some? ==> forall k :: 0 <= k < r.value ==> menu[k].id != id
    ensures r.None? <==> forall k :: 0 <= k < |menu| ==> menu[k].id != id
  {
    if |menu| == 0 then None
    else if menu[0].id == id then Some(0)
    else match FindMenuItem(menu[1..], id)
      case None => None
      case Some(k) => Some(k + 1)
  }

  /** The line item of one cart entry: price and name from the menu item,
      quantity parsed from the cart's text, currency "usd". */
  function ToLineItem(item: MenuItem, entry: CartEntry): LineItem
  {
    LineItem("usd", item.price, item.name, ParseInt(entry.quantity))
  }

  /** The position of the first cart entry that no menu item matches. */
  function FirstUnknown(cart: seq<CartEntry>, menu: seq<MenuItem>): (r: Option<nat>)
    ensures r.Some? ==> r.value < |cart| && FindMenuItem(menu, cart[r.value].menuItemId).None?
    ensures r.Some? ==> forall k :: 0 <= k < r.value ==> FindMenuItem(menu, cart[k].menuItemId).Some?
    ensures r.None? <==> forall k :: 0 <= k < |cart| ==> FindMenuItem(menu, cart[k].menuItemId).Some?
  {
    if |cart| == 0 then None
    else if FindMenuItem(menu, cart[0].menuItemId).None? then Some(0)
    else match FirstUnknown(cart[1..], menu)
      case None => None
      case Some(k) => Some(k + 1)
  }

  /** `createLineItems`: one line item per cart entry, in cart order, or the
      id of the first entry the menu lacks. */
  function CreateLineItems(cart: seq<CartEntry>, menu: seq<MenuItem>): (r: Result<seq<LineItem>, string>)
    ensures r.Err? <==> FirstUnknown(cart, menu).Some?
    ensures r.Err? ==> r.error == cart[FirstUnknown(cart, menu).value].menuItemId
    ensures r.Ok? ==> |r.value| == |cart|
    ensures r.Ok? ==> forall i {:trigger r.value[i]} :: 0 <= i < |cart| ==>
      FindMenuItem(menu, cart[i].menuItemId).Some?
      && r.value[i] == ToLineItem(menu[FindMenuItem(menu, cart[i].menuItemId).value], cart[i])
  {
    if |cart| == 0 then Ok([])
    else match FindMenuItem(menu, cart[0].menuItemId)
      case None => Err(cart[0].menuItemId)
      case Some(j) =>
        match CreateLineItems(cart[1..], menu)
        case Err(id) => Err(id)
        case Ok(rest) => Ok([ToLineItem(menu[j], cart[0])] + rest)
  }

  function SuccessUrl(frontendUrl: string): string
  {
    frontendUrl + "/order-status?sucess=true"
  }

  function CancelUrl(frontendUrl: string, restaurantId: string): string
  {
    frontendUrl + "/detail/" + restaurantId + "?cancelled=true"
  }

  /** `createSession`'s request: the line items, one fixed-amount delivery
      option, payment mode, the order and restaurant ids as metadata, and the
      two redirect URLs. */
  function CreateSession(lineItems: seq<LineItem>, orderId: string, deliveryPrice: Option<int>,
                         restaurantId: string, frontendUrl: string): SessionParams
  {
    SessionParams(
      lineItems,
      [ShippingOption("Delivery", "fixed_amount", deliveryPrice, "usd")],
      "payment",
      Metadata(orderId, restaurantId),
      SuccessUrl(frontendUrl),
      CancelUrl(frontendUrl, restaurantId))
  }

  /** `createCheckoutSession`: find the restaurant, price the cart, request a
      session, and answer with its URL; a session without a URL (or with an
      empty one) is a 500, and so is a gateway error, with its raw message. */
  function CreateCheckoutSession(req: CheckoutSessionRequest, restaurants: map<string, Restaurant>,
                                 gateway: SessionParams -> GatewayReply, frontendUrl: string,
                                 storeFails: bool): (r: Checkout)
    ensures r.Answered? ==> r.reply.status in {OK, ServerError}
    ensures r.Answered? && r.reply.status == OK ==>
      r.reply.body.Json? && r.reply.body.value.url != ""
      && gateway(r.request) == SessionCreated(Some(r.reply.body.value.url))
  {
    if storeFails then Thrown(LookupFailed)
    else if req.restaurantId !in restaurants then Thrown(RestaurantNotFound)
    else
      var restaurant := restaurants[req.restaurantId];
      match CreateLineItems(req.cartItems, restaurant.menuItems)
      case Err(id) => Thrown(MenuItemNotFound(id))
      case Ok(lineItems) =>
        var request := CreateSession(lineItems, PlaceholderOrderId, restaurant.deliveryPrice, restaurant.id, frontendUrl);
        match gateway(request)
        case GatewayError(message) => Answered(request, Reply(ServerError, Message(message)))
        case SessionCreated(url) =>
          if url.None? || url.value == "" then
            Answered(request, Reply(ServerError, Message("Error creating stripe session")))
          else Answered(request, Reply(OK, Json(Redirect(url.value))))
  }

  /** A session is requested only for a known restaurant whose menu has every
      cart entry, and an unknown restaurant is reported before the cart is
      looked at. */
  lemma CheckoutNeedsRestaurantAndItems(req: CheckoutSessionRequest, restaurants: map<string, Restaurant>,
                                        gateway: SessionParams -> GatewayReply, frontendUrl: string, storeFails: bool)
    ensures var r := CreateCheckoutSession(req, restaurants, gateway, frontendUrl, storeFails);
      && (!storeFails && req.restaurantId !in restaurants ==> r == Thrown(RestaurantNotFound))
      && (r.Answered? <==>
            && !storeFails
            && req.restaurantId in restaurants
            && forall i :: 0 <= i < |req.cartItems| ==>
                 exists k :: 0 <= k < |restaurants[req.restaurantId].menuItems|
                   && restaurants[req.restaurantId].menuItems[k].id == req.cartItems[i].menuItemId)
  {
    if !storeFails && req.restaurantId in restaurants {
      var menu := restaurants[req.restaurantId].menuItems;
      if FirstUnknown(req.cartItems, menu).None? {
        forall i | 0 <= i < |req.cartItems|
          ensures exists k :: 0 <= k < |menu| && menu[k].id == req.cartItems[i].menuItemId
        {
          var k := FindMenuItem(menu, req.cartItems[i].menuItemId).value;
        }
      } else {
        var i := FirstUnknown(req.cartItems, menu).value;
        assert forall k :: 0 <= k < |menu| ==> menu[k].id != req.cartItems[i].menuItemId;
      }
    }
  }

  /** The session request carries the cart's line items (see
      `LineItemsFromMenu`); one delivery option for the restaurant's delivery
      price; the placeholder order id; and redirect URLs of which only the
      cancel URL depends on the restaurant. */
  lemma CheckoutRequestShape(req: CheckoutSessionRequest, restaurants: map<string, Restaurant>,
                             gateway: SessionParams -> GatewayReply, frontendUrl: string, storeFails: bool)
    requires CreateCheckoutSession(req, restaurants, gateway, frontendUrl, storeFails).Answered?
    ensures var p := CreateCheckoutSession(req, restaurants, gateway, frontendUrl, storeFails).request;
      var restaurant := restaurants[req.restaurantId];
      && CreateLineItems(req.cartItems, restaurant.menuItems).Ok?
      && p.lineItems == CreateLineItems(req.cartItems, restaurant.menuItems).value
      && p.shippingOptions == [ShippingOption("Delivery", "fixed_amount", restaurant.deliveryPrice, "usd")]
      && p.mode == "payment"
      && p.metadata == Metadata("TEST_ORDER_ID", restaurant.id)
      && p.successUrl == frontendUrl + "/order-status?sucess=true"
      && p.cancelUrl == frontendUrl + "/detail/" + restaurant.id + "?cancelled=true"
  {
  }

  /** Each line item is priced and named by the first menu item with its
      entry's id, in cart order, with the entry's parsed quantity. */
  lemma LineItemsFromMenu(cart: seq<CartEntry>, menu: seq<MenuItem>)
    requires CreateLineItems(cart, menu).Ok?
    ensures var items := CreateLineItems(cart, menu).value;
      && |items| == |cart|
      && (forall i :: 0 <= i < |cart| ==>
            exists k :: 0 <= k < |menu|
              && menu[k].id == cart[i].menuItemId
              && (forall j :: 0 <= j < k ==> menu[j].id != cart[i].menuItemId)
              && items[i].unitAmount == menu[k].price
              && items[i].productName == menu[k].name)
      && (forall i :: 0 <= i < |cart| ==>
            items[i].currency == "usd" && items[i].quantity == ParseInt(cart[i].quantity))
  {
    var items := CreateLineItems(cart, menu).value;
    forall i | 0 <= i < |cart|
      ensures exists k ::
        && 0 <= k < |menu|
        && menu[k].id == cart[i].menuItemId
        && (forall j :: 0 <= j < k ==> menu[j].id != cart[i].menuItemId)
        && items[i].unitAmount == menu[k].price
        && items[i].productName == menu[k].name
    {
      var k := FindMenuItem(menu, cart[i].menuItemId).value;
      assert items[i] == ToLineItem(menu[k], cart[i]);
    }
  }

  /** The names the client puts in its cart, and its delivery details, play
      no part in checkout. */
  lemma CheckoutIgnoresClientNames(req: CheckoutSessionRequest, req': CheckoutSessionRequest,
                                   restaurants: map<string, Restaurant>, gateway: SessionParams -> GatewayReply,
                                   frontendUrl: string, storeFails: bool)
    requires req'.restaurantId == req.restaurantId && |req'.cartItems| == |req.cartItems|
    requires forall i :: 0 <= i < |req.cartItems| ==>
      req'.cartItems[i].menuItemId == req.cartItems[i].menuItemId
      && req'.cartItems[i].quantity == req.cartItems[i].quantity
    ensures CreateCheckoutSession(req', restaurants, gateway, frontendUrl, storeFails)
         == CreateCheckoutSession(req, restaurants, gateway, frontendUrl, storeFails)
  {
    if req.restaurantId in restaurants {
      SameIdsSameLineItems(req.cartItems, req'.cartItems, restaurants[req.restaurantId].menuItems);
    }
  }

  lemma {:induction false} SameIdsSameLineItems(cart: seq<CartEntry>, cart': seq<CartEntry>, menu: seq<MenuItem>)
    requires |cart'| == |cart|
    requires forall i :: 0 <= i < |cart| ==>
      cart'[i].menuItemId == cart[i].menuItemId && cart'[i].quantity == cart[i].quantity
    ensures CreateLineItems(cart', menu) == CreateLineItems(cart, menu)
  {
    if |cart| > 0 {
      SameIdsSameLineItems(cart[1..], cart'[1..], menu);
    }
  }

  /** The redirect URL after a successful payment is the same for every
      checkout. */
  lemma SuccessUrlIgnoresOrder(req: CheckoutSessionRequest, req': CheckoutSessionRequest,
                               restaurants: map<string, Restaurant>, gateway: SessionParams -> GatewayReply,
                               frontendUrl: string)
    requires CreateCheckoutSession(req, restaurants, gateway, frontendUrl, false).Answered?
    requires CreateCheckoutSession(req', restaurants, gateway, frontendUrl, false).Answered?
    ensures CreateCheckoutSession(req, restaurants, gateway, frontendUrl, false).request.successUrl
         == CreateCheckoutSession(req', restaurants, gateway, frontendUrl, false).request.successUrl
  {
  }

  /** The reply: exactly `{ url }` when the gateway's session has a URL, a
      500 otherwise. */
  lemma CheckoutReply(req: CheckoutSessionRequest, restaurants: map<string, Restaurant>,
                      gateway: SessionParams -> GatewayReply, frontendUrl: string, storeFails: bool)
    requires CreateCheckoutSession(req, restaurants, gateway, frontendUrl, storeFails).Answered?
    ensures var r := CreateCheckoutSession(req, restaurants, gateway, frontendUrl, storeFails);
      match gateway(r.request)
      case SessionCreated(url) =>
        if url.Some? && url.value != "" then r.reply == Reply(OK, Json(Redirect(url.value)))
        else r.reply == Reply(ServerError, Message("Error creating stripe session"))
      case GatewayError(message) => r.reply == Reply(ServerError, Message(message))
  {
  }

  /** The amount a priced line item stands for: unit amount times quantity. */
  predicate Priced(items: seq<LineItem>)
  {
    forall i :: 0 <= i < |items| ==> items[i].unitAmount.Some? && items[i].quantity.Some?
  }

  function Subtotal(items: seq<LineItem>): int
    requires Priced(items)
  {
    if |items| == 0 then 0
    else items[0].unitAmount.value * items[0].quantity.value + Subtotal(items[1..])
  }

  /** What a cart is worth at the menu's prices: price times parsed quantity,
      summed over the cart; `None` when an entry has no menu item, no price or
      no quantity. */
  function CartValue(cart: seq<CartEntry>, menu: seq<MenuItem>): Option<int>
  {
    if |cart| == 0 then Some(0)
    else
      var k := FindMenuItem(menu, cart[0].menuItemId);
      var q := ParseInt(cart[0].quantity);
      if k.None? || menu[k.value].price.None? || q.None? then None
      else match CartValue(cart[1..], menu)
        case None => None
        case Some(v) => Some(menu[k.value].price.value * q.value + v)
  }

  /** The line items add up to the cart's value at menu prices. */
  lemma {:induction false} LineItemsAddUpToCartValue(cart: seq<CartEntry>, menu: seq<MenuItem>)
    requires CreateLineItems(cart, menu).Ok?
    ensures Priced(CreateLineItems(cart, menu).value) <==> CartValue(cart, menu).Some?
    ensures CartValue(cart, menu).Some? ==>
      Subtotal(CreateLineItems(cart, menu).value) == CartValue(cart, menu).value
  {
    if |cart| > 0 {
      var items := CreateLineItems(cart, menu).value;
      var k := FindMenuItem(menu, cart[0].menuItemId).value;
      var rest := CreateLineItems(cart[1..], menu);
      assert rest.Ok? && items == [ToLineItem(menu[k], cart[0])] + rest.value;
      LineItemsAddUpToCartValue(cart[1..], menu);
      PricedCons(ToLineItem(menu[k], cart[0]), rest.value);
    }
  }

  lemma PricedCons(item: LineItem, rest: seq<LineItem>)
    ensures Priced([item] + rest) <==> item.unitAmount.Some? && item.quantity.Some? && Priced(rest)
    ensures Priced([item] + rest) ==>
      Subtotal([item] + rest) == item.unitAmount.value * item.quantity.value + Subtotal(rest)
  {
    var items := [item] + rest;
    assert items[0] == item && items[1..] == rest;
    if item.unitAmount.Some? && item.quantity.Some? && Priced(rest) {
      forall i | 0 <= i < |items|
        ensures items[i].unitAmount.Some? && items[i].quantity.Some?
      {
        if i > 0 {
          assert items[i] == rest[i - 1];
        }
      }
    }
    if Priced(items) {
      forall i | 0 <= i < |rest|
        ensures rest[i].unitAmount.Some? && rest[i].quantity.Some?
      {
        assert rest[i] == items[i + 1];
      }
    }
  }

  /** What the customer is charged: the line items plus delivery. */
  function SessionTotal(p: SessionParams): int
    requires Priced(p.lineItems) && |p.shippingOptions| == 1 && p.shippingOptions[0].amount.Some?
  {
    Subtotal(p.lineItems) + p.shippingOptions[0].amount.value
  }

  /** A session is requested for the cart's value at the restaurant's menu
      prices plus its delivery price. */
  lemma CheckoutChargesCartPlusDelivery(req: CheckoutSessionRequest, restaurants: map<string, Restaurant>,
                                        gateway: SessionParams -> GatewayReply, frontendUrl: string, storeFails: bool)
    requires CreateCheckoutSession(req, restaurants, gateway, frontendUrl, storeFails).Answered?
    requires CartValue(req.cartItems, restaurants[req.restaurantId].menuItems).Some?
    requires restaurants[req.restaurantId].deliveryPrice.Some?
    ensures var p := CreateCheckoutSession(req, restaurants, gateway, frontendUrl, storeFails).request;
      && Priced(p.lineItems) && |p.shippingOptions| == 1 && p.shippingOptions[0].amount.Some?
      && SessionTotal(p) == CartValue(req.cartItems, restaurants[req.restaurantId].menuItems).value
                            + restaurants[req.restaurantId].deliveryPrice.value
  {
    LineItemsAddUpToCartValue(req.cartItems, restaurants[req.restaurantId].menuItems);
  }
}
