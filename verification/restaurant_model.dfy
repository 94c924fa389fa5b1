/** The restaurant document and its embedded menu items, with the checks
    Mongoose's `required` makes when a restaurant is saved. */
module RestaurantModel {
  import opened Wrappers

  /** A point in time (`Date`), in milliseconds; the clock is an input. */
  type Time = int

  /** A menu item; `id` is the sub-document's own `_id`, which checkout
      looks items up by. */
  datatype MenuItem = MenuItem(id: string, name: string, price: Option<int>)

  /** A restaurant document. A number or date the document lacks is `None`;
      a string it lacks is the empty string, which `required` refuses in the
      same way. `user` is the owner's user id. */
  datatype Restaurant = Restaurant(
    id: string,
    user: Option<string>,
    restaurantName: string,
    city: string,
    country: string,
    deliveryPrice: Option<int>,
    estimatedDeliveryTime: Option<int>,
    cuisines: seq<string>,
    menuItems: seq<MenuItem>,
    imageUrl: string,
    lastUpdate: Option<Time>)

  /** Mongoose's `required` on a `String` path refuses a missing value and "". */
  predicate RequiredString(s: string)
  {
    |s| > 0
  }

  /** A menu item needs a name and a price. */
  predicate ValidMenuItem(m: MenuItem)
  {
    RequiredString(m.name) && m.price.Some?
  }

  /** What saving a restaurant demands: every required path present, each
      cuisine a non-empty string, each menu item valid. The owner is not
      required. */
  predicate ValidRestaurant(r: Restaurant)
  {
    && RequiredString(r.restaurantName)
    && RequiredString(r.city)
    && RequiredString(r.country)
    && r.deliveryPrice.Some?
    && r.estimatedDeliveryTime.Some?
    && (forall i :: 0 <= i < |r.cuisines| ==> RequiredString(r.cuisines[i]))
    && (forall i :: 0 <= i < |r.menuItems| ==> ValidMenuItem(r.menuItems[i]))
    && RequiredString(r.imageUrl)
    && r.lastUpdate.Some?
  }

  /** Each required path is required: a restaurant with any one of them
      cleared, with an empty cuisine, or with a menu item lacking its name or
      price, is refused, whatever its other fields hold. The two arrays
      themselves may be empty. */
  lemma RestaurantRequiredPaths(r: Restaurant, item: MenuItem)
    ensures !ValidRestaurant(r.(restaurantName := ""))
    ensures !ValidRestaurant(r.(city := ""))
    ensures !ValidRestaurant(r.(country := ""))
    ensures !ValidRestaurant(r.(deliveryPrice := None))
    ensures !ValidRestaurant(r.(estimatedDeliveryTime := None))
    ensures !ValidRestaurant(r.(imageUrl := ""))
    ensures !ValidRestaurant(r.(lastUpdate := None))
    ensures !ValidRestaurant(r.(cuisines := r.cuisines + [""]))
    ensures !ValidRestaurant(r.(menuItems := r.menuItems + [item.(name := "")]))
    ensures !ValidRestaurant(r.(menuItems := r.menuItems + [item.(price := None)]))
    ensures ValidRestaurant(r) ==> ValidRestaurant(r.(cuisines := [], menuItems := []))
  {
    assert (r.cuisines + [""])[|r.cuisines|] == "";
    assert (r.menuItems + [item.(name := "")])[|r.menuItems|] == item.(name := "");
    assert (r.menuItems + [item.(price := None)])[|r.menuItems|] == item.(price := None);
  }

  /** The owner reference is optional: dropping it keeps a restaurant valid,
      and so does changing it. */
  lemma OwnerIsOptional(r: Restaurant, owner: Option<string>)
    ensures ValidRestaurant(r) <==> ValidRestaurant(r.(user := owner))
  {
  }
}
