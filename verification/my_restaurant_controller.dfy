/** The signed-in user's own restaurant: create it (one per user), read it,
    update it, list its orders, and move one of its orders to a new status.
    `userId` is the id `jwtParse` resolved; `storeFails` says whether the
    store throws during the request. The image host is the function
    `cloud`, which answers a data URI with the URL of the stored image or
    fails; the new document's id and the clock are inputs. */
module MyRestaurantController {
  import opened Wrappers
  import opened Http
  import opened JsString
  import Base64
  import opened RestaurantModel
  import opened OrderModel
  import opened Database

  /** The restaurant fields of a create or update request, after multer has
      parsed the form. A missing number is `None`, a missing string "". */
  datatype RestaurantForm = RestaurantForm(
    restaurantName: string,
    city: string,
    country: string,
    deliveryPrice: Option<int>,
    estimatedDeliveryTime: Option<int>,
    cuisines: seq<string>,
    menuItems: seq<MenuItem>)

  /** The uploaded image file. */
  datatype Upload = Upload(mimetype: string, buffer: seq<Base64.byte>)

  /** The host's answer to an upload: the image URL, or a failure. */
  type ImageHost = string -> Option<string>

  function DataUriHeader(mimetype: string): string
  {
    "data:" + mimetype + ";base64,"
  }

  /** The data URI of section 3 of RFC 2397 that carries the image: its media
      type, then the base 64 text of the bytes, which decodes back to them. */
  function DataUri(file: Upload): (uri: string)
    ensures StartsWith(uri, DataUriHeader(file.mimetype))
    ensures Base64.Decode(uri[|DataUriHeader(file.mimetype)|..]) == Some(file.buffer)
  {
    Base64.DecodeEncode(file.buffer);
    DataUriHeader(file.mimetype) + Base64.Encode(file.buffer)
  }

  /** `uploadImage`: the URL the host gives the image's data URI. */
  function UploadImage(file: Upload, cloud: ImageHost): Option<string>
  {
    cloud(DataUri(file))
  }

  /** The restaurant a create request describes, as it is saved. */
  function NewRestaurant(form: RestaurantForm, id: string, owner: string, imageUrl: string, now: Time): Restaurant
  {
    Restaurant(id, Some(owner), form.restaurantName, form.city, form.country, form.deliveryPrice,
               form.estimatedDeliveryTime, form.cuisines, form.menuItems, imageUrl, Some(now))
  }

  /** `createMyRestaurant` on the restaurant table: the reply and the table
      after. A second restaurant for the same user is refused; a missing
      file, a failed upload, a document the schema refuses or an id already
      taken are 500s; nothing is written unless the answer is 201. */
  function CreateRestaurant(restaurants: map<string, Restaurant>, userId: string, form: RestaurantForm,
                            file: Option<Upload>, cloud: ImageHost, newId: string, now: Time,
                            storeFails: bool): (Reply<Restaurant>, map<string, Restaurant>)
  {
    var failed := Reply(ServerError, Message("Something Went Wrong"));
    if storeFails then (failed, restaurants)
    else if exists k :: k in restaurants && restaurants[k].user == Some(userId) then
      (Reply(Conflict, Message("User Restraunt Already Exists")), restaurants)
    else if file.None? then (failed, restaurants)
    else match UploadImage(file.value, cloud)
      case None => (failed, restaurants)
      case Some(url) =>
        var doc := NewRestaurant(form, newId, userId, url, now);
        if !ValidRestaurant(doc) || newId in restaurants then (failed, restaurants)
        else (Reply(Created, Json(doc)), restaurants[newId := doc])
  }

  /** Creation succeeds exactly when the user owns no restaurant yet, an
      image came and was stored, and the form passes the schema; it then adds
      one restaurant, owned by the caller, carrying the form's fields, the
      image's URL and the time of the request, and the caller owns it from
      then on. Whatever happens, no user owns two restaurants. */
  lemma CreateRestaurantAddsOne(restaurants: map<string, Restaurant>, userId: string, form: RestaurantForm,
                                file: Option<Upload>, cloud: ImageHost, newId: string, now: Time,
                                storeFails: bool)
    requires RestaurantsStored(restaurants)
    ensures var (reply, after) := CreateRestaurant(restaurants, userId, form, file, cloud, newId, now, storeFails);
      && RestaurantsStored(after)
      && (storeFails ==> reply == Reply(ServerError, Message("Something Went Wrong")))
      && (reply.status == Conflict <==> !storeFails && OwnedBy(restaurants, userId).Some?)
      && (reply.status == Created <==>
            && !storeFails && OwnedBy(restaurants, userId).None? && file.Some?
            && UploadImage(file.value, cloud).Some?
            && ValidRestaurant(NewRestaurant(form, newId, userId, UploadImage(file.value, cloud).value, now))
            && newId !in restaurants)
      && (reply.status == Created ==>
            var doc := after[newId];
            && after == restaurants[newId := doc] && |after| == |restaurants| + 1
            && reply.body == Json(doc)
            && OwnedBy(after, userId) == Some(newId)
            && doc.restaurantName == form.restaurantName && doc.city == form.city
            && doc.country == form.country && doc.deliveryPrice == form.deliveryPrice
            && doc.estimatedDeliveryTime == form.estimatedDeliveryTime
            && doc.cuisines == form.cuisines && doc.menuItems == form.menuItems
            && doc.imageUrl == UploadImage(file.value, cloud).value && doc.lastUpdate == Some(now))
      && (reply.status != Created ==> after == restaurants && reply.status in {Conflict, ServerError})
  {
    var (reply, after) := CreateRestaurant(restaurants, userId, form, file, cloud, newId, now, storeFails);
    if reply.status == Created {
      assert after[newId].user == Some(userId);
    }
  }

  /** Once a create has succeeded, the same user's next create is refused
      with 409 and writes nothing. */
  lemma OneRestaurantPerUser(restaurants: map<string, Restaurant>, userId: string, form: RestaurantForm,
                             form': RestaurantForm, file: Option<Upload>, file': Option<Upload>,
                             cloud: ImageHost, newId: string, newId': string, now: Time, now': Time)
    ensures var (first, after) := CreateRestaurant(restaurants, userId, form, file, cloud, newId, now, false);
      var (second, again) := CreateRestaurant(after, userId, form', file', cloud, newId', now', false);
      first.status == Created ==>
        second == Reply(Conflict, Message("User Restraunt Already Exists")) && again == after
  {
    var (first, after) := CreateRestaurant(restaurants, userId, form, file, cloud, newId, now, false);
    if first.status == Created {
      assert after[newId].user == Some(userId);
    }
  }

  /** `getMyRestaurant`: the caller's restaurant, or 404. */
  function GetMyRestaurant(db: Db, userId: string, storeFails: bool): (r: Reply<Restaurant>)
    reads db
    requires db.Valid()
    ensures storeFails ==> r == Reply(ServerError, Message("Error fetching restaurant"))
    ensures !storeFails ==>
      (r.status == NotFound <==> forall k :: k in db.restaurants ==> db.restaurants[k].user != Some(userId))
    ensures !storeFails && OwnedBy(db.restaurants, userId).Some? ==>
      r == Reply(OK, Json(db.restaurants[OwnedBy(db.restaurants, userId).value]))
    ensures r.status == OK ==>
      r.body.Json? && r.body.value in db.restaurants.Values && r.body.value.user == Some(userId)
  {
    if storeFails then Reply(ServerError, Message("Error fetching restaurant"))
    else match OwnedBy(db.restaurants, userId)
      case None => Reply(NotFound, Message("Restaurant not found"))
      case Some(id) => Reply(OK, Json(db.restaurants[id]))
  }

  /** A stored restaurant with the form's fields written over its own and the
      time of the request as its last update. */
  function ApplyForm(r: Restaurant, form: RestaurantForm, now: Time): Restaurant
  {
    r.(restaurantName := form.restaurantName, city := form.city, country := form.country,
       deliveryPrice := form.deliveryPrice, estimatedDeliveryTime := form.estimatedDeliveryTime,
       cuisines := form.cuisines, menuItems := form.menuItems, lastUpdate := Some(now))
  }

  /** `updateMyRestaurant` on the restaurant table: the reply and the table
      after. The image is replaced only when a file came. */
  function UpdateRestaurant(restaurants: map<string, Restaurant>, userId: string, form: RestaurantForm,
                            file: Option<Upload>, cloud: ImageHost, now: Time,
                            storeFails: bool): (Reply<Restaurant>, map<string, Restaurant>)
    requires UniqueOwners(restaurants)
  {
    var failed := Reply(ServerError, Message("Something Went Wrong"));
    if storeFails then (failed, restaurants)
    else match OwnedBy(restaurants, userId)
      case None => (Reply(NotFound, Message("Restaurant not found")), restaurants)
      case Some(id) =>
        var doc := ApplyForm(restaurants[id], form, now);
        var image := if file.Some? then UploadImage(file.value, cloud) else Some(doc.imageUrl);
        if image.None? then (failed, restaurants)
        else
          var saved := doc.(imageUrl := image.value);
          if !ValidRestaurant(saved) then (failed, restaurants)
          else (Reply(OK, Json(saved)), restaurants[id := saved])
  }

  /** An update rewrites the caller's restaurant and no other: the seven
      form fields and the last-update time take the request's values, the
      image changes only when a file came, and the id and owner stay. A
      caller without a restaurant gets 404; a failed upload or a form the
      schema refuses gives 500; neither writes anything. */
  lemma UpdateRestaurantRewritesOwn(restaurants: map<string, Restaurant>, userId: string, form: RestaurantForm,
                                    file: Option<Upload>, cloud: ImageHost, now: Time, storeFails: bool)
    requires RestaurantsStored(restaurants)
    ensures var (reply, after) := UpdateRestaurant(restaurants, userId, form, file, cloud, now, storeFails);
      && RestaurantsStored(after)
      && after.Keys == restaurants.Keys
      && (storeFails ==> reply == Reply(ServerError, Message("Something Went Wrong")))
      && (!storeFails ==> (reply.status == NotFound <==> OwnedBy(restaurants, userId).None?))
      && (reply.status == OK <==>
            && !storeFails && OwnedBy(restaurants, userId).Some?
            && (file.None? || UploadImage(file.value, cloud).Some?)
            && var before := restaurants[OwnedBy(restaurants, userId).value];
               ValidRestaurant(ApplyForm(before, form, now).(imageUrl :=
                 if file.Some? then UploadImage(file.value, cloud).value else before.imageUrl)))
      && (reply.status == OK ==>
            var id := OwnedBy(restaurants, userId).value;
            var before, doc := restaurants[id], after[id];
            && after == restaurants[id := doc]
            && reply.body == Json(doc)
            && doc.id == before.id && doc.user == Some(userId)
            && doc.restaurantName == form.restaurantName && doc.city == form.city
            && doc.country == form.country && doc.deliveryPrice == form.deliveryPrice
            && doc.estimatedDeliveryTime == form.estimatedDeliveryTime
            && doc.cuisines == form.cuisines && doc.menuItems == form.menuItems
            && doc.lastUpdate == Some(now)
            && (file.None? ==> doc.imageUrl == before.imageUrl)
            && (file.Some? ==> Some(doc.imageUrl) == UploadImage(file.value, cloud)))
      && (reply.status != OK ==> after == restaurants && reply.status in {NotFound, ServerError})
  {
    var (reply, after) := UpdateRestaurant(restaurants, userId, form, file, cloud, now, storeFails);
    if reply.status == OK {
      var id := OwnedBy(restaurants, userId).value;
      forall a, b | a in after && b in after && after[a].user.Some? && after[a].user == after[b].user
        ensures a == b
      {
        assert after[a].user == restaurants[a].user && after[b].user == restaurants[b].user;
      }
    }
  }

  /** The orders placed with one restaurant: `Order.find({ restaurant })`. */
  function OrdersOf(orders: map<string, Order>, restaurantId: string): (r: map<string, Order>)
    ensures forall k :: k in r <==> k in orders && orders[k].restaurant == Some(restaurantId)
    ensures forall k :: k in r ==> r[k] == orders[k]
  {
    map k | k in orders && orders[k].restaurant == Some(restaurantId) :: orders[k]
  }

  /** `getMyRestaurantOrders`: every order of the caller's restaurant and no
      other; each one listed belongs to a restaurant the caller owns. */
  function GetMyRestaurantOrders(db: Db, userId: string, storeFails: bool): (r: Reply<map<string, Order>>)
    reads db
    requires db.Valid()
    ensures storeFails ==> r == Reply(ServerError, Message("Something Went Wrong"))
    ensures !storeFails ==>
      (r.status == NotFound <==> forall k :: k in db.restaurants ==> db.restaurants[k].user != Some(userId))
    ensures !storeFails && OwnedBy(db.restaurants, userId).Some? ==>
      r == Reply(OK, Json(OrdersOf(db.orders, OwnedBy(db.restaurants, userId).value)))
    ensures r.status == OK ==> r.body.Json?
    ensures r.status == OK ==> forall k :: k in r.body.value ==>
      && k in db.orders && r.body.value[k] == db.orders[k]
      && var owner := db.orders[k].restaurant;
         owner.Some? && owner.value in db.restaurants && db.restaurants[owner.value].user == Some(userId)
    ensures r.status == OK ==>
      forall k :: k in db.orders && OwnsRestaurantOf(db.restaurants, db.orders[k], userId) ==> k in r.body.value
  {
    if storeFails then Reply(ServerError, Message("Something Went Wrong"))
    else match OwnedBy(db.restaurants, userId)
      case None => Reply(NotFound, Message("Restaurant not found"))
      case Some(id) => Reply(OK, Json(OrdersOf(db.orders, id)))
  }

  /** Whether the restaurant an order was placed with exists and is owned
      by `userId`: the check `updateOrderStatus` makes. */
  predicate OwnsRestaurantOf(restaurants: map<string, Restaurant>, order: Order, userId: string)
  {
    && order.restaurant.Some?
    && order.restaurant.value in restaurants
    && restaurants[order.restaurant.value].user == Some(userId)
  }

  /** `updateOrderStatus` on the order table: the reply and the table after.
      `status` is the body's `status`, `None` when absent, which unsets it;
      a value outside the `enum` fails the save. */
  function SetOrderStatus(restaurants: map<string, Restaurant>, orders: map<string, Order>, userId: string,
                          orderId: string, status: Option<string>,
                          storeFails: bool): (Reply<Order>, map<string, Order>)
  {
    if storeFails then (Reply(ServerError, Message("Unable to update order status")), orders)
    else if orderId !in orders then (Reply(NotFound, Message("Order not found")), orders)
    else if !OwnsRestaurantOf(restaurants, orders[orderId], userId) then
      (Reply(Unauthorized, Message("Unauthorized")), orders)
    else
      var next := if status.None? then Some(None) else
        match ParseStatus(status.value) case None => None case Some(st) => Some(Some(st));
      if next.None? then (Reply(ServerError, Message("Unable to update order status")), orders)
      else
        var order := orders[orderId].(status := next.value);
        (Reply(OK, Json(order)), orders[orderId := order])
  }

  /** Only the owner of an order's restaurant can change the order, and only
      its status changes: the order table keeps its ids, every other order
      and every other field, and stays valid. An unknown order is a 404, a
      caller who does not own the restaurant (or an order whose restaurant
      is gone or has no owner) a 401, a status outside the `enum` a 500. */
  lemma SetOrderStatusChangesOnlyStatus(restaurants: map<string, Restaurant>, orders: map<string, Order>,
                                        userId: string, orderId: string, status: Option<string>, storeFails: bool)
    requires OrdersStored(orders)
    ensures var (reply, after) := SetOrderStatus(restaurants, orders, userId, orderId, status, storeFails);
      && OrdersStored(after)
      && after.Keys == orders.Keys
      && (storeFails ==> reply == Reply(ServerError, Message("Unable to update order status")))
      && (!storeFails ==> (reply.status == NotFound <==> orderId !in orders))
      && (!storeFails && orderId in orders && OwnsRestaurantOf(restaurants, orders[orderId], userId)
            && status.Some? && status.value !in StatusEnum ==>
            reply == Reply(ServerError, Message("Unable to update order status")))
      && (!storeFails && orderId in orders ==>
            (reply.status == Unauthorized <==> !OwnsRestaurantOf(restaurants, orders[orderId], userId)))
      && (reply.status == OK <==>
            && !storeFails && orderId in orders && OwnsRestaurantOf(restaurants, orders[orderId], userId)
            && (status.None? || status.value in StatusEnum))
      && (reply.status == OK ==>
            && reply.body == Json(after[orderId])
            && after == orders[orderId := orders[orderId].(status := after[orderId].status)]
            && (status.None? ==> after[orderId].status.None?)
            && (status.Some? ==> after[orderId].status.Some? && StatusName(after[orderId].status.value) == status.value))
      && (reply.status != OK ==> after == orders)
  {
    var (reply, after) := SetOrderStatus(restaurants, orders, userId, orderId, status, storeFails);
    if reply.status == OK {
      var order := orders[orderId];
      ValidityIgnoresStatusAndReferences(order, after[orderId].status, order.totalAmount, order.restaurant, order.user);
      assert after[orderId] == order.(status := after[orderId].status, totalAmount := order.totalAmount,
                                      restaurant := order.restaurant, user := order.user);
    }
  }

  /** No order of statuses is enforced: the owner can move an order from any
      status to any status, back to "placed" included. */
  lemma AnyStatusToAnyStatus(restaurants: map<string, Restaurant>, orders: map<string, Order>, userId: string,
                             orderId: string, st: OrderStatus)
    requires orderId in orders && OwnsRestaurantOf(restaurants, orders[orderId], userId)
    ensures var (reply, after) := SetOrderStatus(restaurants, orders, userId, orderId, Some(StatusName(st)), false);
      reply.status == OK && after[orderId] == orders[orderId].(status := Some(st))
  {
    StatusRoundTrip(st);
  }

  method CreateMyRestaurant(db: Db, userId: string, form: RestaurantForm, file: Option<Upload>, cloud: ImageHost,
                            newId: string, now: Time, storeFails: bool) returns (reply: Reply<Restaurant>)
    requires db.Valid()
    modifies db
    ensures db.Valid()
    ensures (reply, db.restaurants)
         == CreateRestaurant(old(db.restaurants), userId, form, file, cloud, newId, now, storeFails)
    ensures db.users == old(db.users) && db.orders == old(db.orders)
  {
    CreateRestaurantAddsOne(db.restaurants, userId, form, file, cloud, newId, now, storeFails);
    if storeFails {
      return Reply(ServerError, Message("Something Went Wrong"));
    }
    var existing := OwnedBy(db.restaurants, userId);
    if existing.Some? {
      return Reply(Conflict, Message("User Restraunt Already Exists"));
    }
    if file.None? {
      return Reply(ServerError, Message("Something Went Wrong"));
    }
    var imageUrl := UploadImage(file.value, cloud);
    if imageUrl.None? {
      return Reply(ServerError, Message("Something Went Wrong"));
    }
    var restaurant := NewRestaurant(form, newId, userId, imageUrl.value, now);
    if !ValidRestaurant(restaurant) || newId in db.restaurants {
      return Reply(ServerError, Message("Something Went Wrong"));
    }
    db.restaurants := db.restaurants[newId := restaurant];
    reply := Reply(Created, Json(restaurant));
  }

  method UpdateMyRestaurant(db: Db, userId: string, form: RestaurantForm, file: Option<Upload>, cloud: ImageHost,
                            now: Time, storeFails: bool) returns (reply: Reply<Restaurant>)
    requires db.Valid()
    modifies db
    ensures db.Valid()
    ensures (reply, db.restaurants)
         == UpdateRestaurant(old(db.restaurants), userId, form, file, cloud, now, storeFails)
    ensures db.users == old(db.users) && db.orders == old(db.orders)
  {
    UpdateRestaurantRewritesOwn(db.restaurants, userId, form, file, cloud, now, storeFails);
    if storeFails {
      return Reply(ServerError, Message("Something Went Wrong"));
    }
    var found := OwnedBy(db.restaurants, userId);
    if found.None? {
      return Reply(NotFound, Message("Restaurant not found"));
    }
    var restaurant := db.restaurants[found.value];
    restaurant := restaurant.(restaurantName := form.restaurantName);
    restaurant := restaurant.(city := form.city);
    restaurant := restaurant.(country := form.country);
    restaurant := restaurant.(deliveryPrice := form.deliveryPrice);
    restaurant := restaurant.(estimatedDeliveryTime := form.estimatedDeliveryTime);
    restaurant := restaurant.(cuisines := form.cuisines);
    restaurant := restaurant.(menuItems := form.menuItems);
    restaurant := restaurant.(lastUpdate := Some(now));
    if file.Some? {
      var imageUrl := UploadImage(file.value, cloud);
      if imageUrl.None? {
        return Reply(ServerError, Message("Something Went Wrong"));
      }
      restaurant := restaurant.(imageUrl := imageUrl.value);
    }
    if !ValidRestaurant(restaurant) {
      return Reply(ServerError, Message("Something Went Wrong"));
    }
    db.restaurants := db.restaurants[found.value := restaurant];
    reply := Reply(OK, Json(restaurant));
  }

  method UpdateOrderStatus(db: Db, userId: string, orderId: string, status: Option<string>, storeFails: bool)
    returns (reply: Reply<Order>)
    requires db.Valid()
    modifies db
    ensures db.Valid()
    ensures (reply, db.orders) == SetOrderStatus(db.restaurants, old(db.orders), userId, orderId, status, storeFails)
    ensures db.users == old(db.users) && db.restaurants == old(db.restaurants)
  {
    SetOrderStatusChangesOnlyStatus(db.restaurants, db.orders, userId, orderId, status, storeFails);
    if storeFails {
      return Reply(ServerError, Message("Unable to update order status"));
    }
    if orderId !in db.orders {
      return Reply(NotFound, Message("Order not found"));
    }
    var order := db.orders[orderId];
    if !OwnsRestaurantOf(db.restaurants, order, userId) {
      return Reply(Unauthorized, Message("Unauthorized"));
    }
    if status.None? {
      order := order.(status := None);
    } else {
      var st := ParseStatus(status.value);
      if st.None? {
        return Reply(ServerError, Message("Unable to update order status"));
      }
      order := order.(status := Some(st.value));
    }
    db.orders := db.orders[orderId := order];
    reply := Reply(OK, Json(order));
  }
}
