/** The three MongoDB collections the handlers read and write, each a table
    from document id to document. */
module Database {
  import opened Wrappers
  import opened RestaurantModel
  import opened OrderModel

  /** A user document, with the fields the handlers read and write. */
  datatype User = User(
    id: string,
    auth0Id: string,
    email: string,
    name: string,
    addressLine1: string,
    city: string,
    country: string)

  /** No two restaurants have the same owner. */
  ghost predicate UniqueOwners(restaurants: map<string, Restaurant>)
  {
    forall a, b ::
      a in restaurants && b in restaurants && restaurants[a].user.Some? && restaurants[a].user == restaurants[b].user
      ==> a == b
  }

  /** No two users have the same Auth0 id. */
  ghost predicate UniqueAuth0Ids(users: map<string, User>)
  {
    forall a, b :: a in users && b in users && users[a].auth0Id == users[b].auth0Id ==> a == b
  }

  ghost predicate UsersStored(users: map<string, User>)
  {
    (forall k :: k in users ==> users[k].id == k) && UniqueAuth0Ids(users)
  }

  ghost predicate RestaurantsStored(restaurants: map<string, Restaurant>)
  {
    (forall k :: k in restaurants ==> restaurants[k].id == k && ValidRestaurant(restaurants[k]))
    && UniqueOwners(restaurants)
  }

  ghost predicate OrdersStored(orders: map<string, Order>)
  {
    forall k :: k in orders ==> orders[k].id == k && ValidOrder(orders[k])
  }

  /** The id of the restaurant `owner` owns, if any: `findOne({ user })`. */
  function OwnedBy(restaurants: map<string, Restaurant>, owner: string): (r: Option<string>)
    requires UniqueOwners(restaurants)
    ensures r.Some? <==> exists k :: k in restaurants && restaurants[k].user == Some(owner)
    ensures r.Some? ==> r.value in restaurants && restaurants[r.value].user == Some(owner)
  {
    if exists k :: k in restaurants && restaurants[k].user == Some(owner) then
      var k :| k in restaurants && restaurants[k].user == Some(owner);
      Some(k)
    else None
  }

  /** The id of the user with this Auth0 id, if any: `findOne({ auth0Id })`. */
  function UserWithAuth0Id(users: map<string, User>, auth0Id: string): (r: Option<string>)
    requires UniqueAuth0Ids(users)
    ensures r.Some? <==> exists k :: k in users && users[k].auth0Id == auth0Id
    ensures r.Some? ==> r.value in users && users[r.value].auth0Id == auth0Id
  {
    if exists k :: k in users && users[k].auth0Id == auth0Id then
      var k :| k in users && users[k].auth0Id == auth0Id;
      Some(k)
    else None
  }

  /** The store. Every document sits under its own id, every stored
      restaurant and order passed its schema's checks when it was saved, a
      user owns at most one restaurant, and Auth0 ids identify users. */
  class Db {
    var users: map<string, User>
    var restaurants: map<string, Restaurant>
    var orders: map<string, Order>

    ghost predicate Valid()
      reads this
    {
      UsersStored(users) && RestaurantsStored(restaurants) && OrdersStored(orders)
    }

    constructor (orders: map<string, Order>)
      requires OrdersStored(orders)
      ensures Valid()
      ensures this.users == map[] && this.restaurants == map[] && this.orders == orders
    {
      this.users := map[];
      this.restaurants := map[];
      this.orders := orders;
    }
  }
}
