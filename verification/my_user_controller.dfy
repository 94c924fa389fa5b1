/** The signed-in user's own profile: read it, create it on first sign-in,
    update its address fields. `userId` is the id `jwtParse` resolved;
    `storeFails` says whether the store throws during the request. */
module MyUserController {
  import opened Wrappers
  import opened Http
  import opened Database

  /** The fields an update sets, already checked by `validateMyUserRequest`. */
  datatype ProfileForm = ProfileForm(name: string, addressLine1: string, city: string, country: string)

  /** `getCurrentUser`: the caller's user document, or 404. */
  function GetCurrentUser(db: Db, userId: string, storeFails: bool): (r: Reply<User>)
    reads db
    requires db.Valid()
    ensures storeFails ==> r == Reply(ServerError, Message("Something went wrong"))
    ensures !storeFails ==> (r.status == NotFound <==> userId !in db.users)
    ensures !storeFails && userId in db.users ==> r == Reply(OK, Json(db.users[userId]))
    ensures r.status == OK ==> r.body.Json? && r.body.value in db.users.Values && r.body.value.id == userId
  {
    if storeFails then Reply(ServerError, Message("Something went wrong"))
    else if userId !in db.users then Reply(NotFound, Message("User not found"))
    else Reply(OK, Json(db.users[userId]))
  }

  /** `createCurrentUser` on the user table: the reply and the table after.
      `body` is the request body; its `id` is not used, the new document gets
      `newId`, and inserting under an id already taken fails. */
  function CreateUser(users: map<string, User>, body: User, newId: string, storeFails: bool): (Reply<User>, map<string, User>)
  {
    if storeFails then (Reply(ServerError, Message("Error creating user")), users)
    else if exists k :: k in users && users[k].auth0Id == body.auth0Id then (Reply(OK, NoContent), users)
    else if newId in users then (Reply(ServerError, Message("Error creating user")), users)
    else
      var user := body.(id := newId);
      (Reply(Created, Json(user)), users[newId := user])
  }

  /** Creation inserts exactly one user, the body under the new id, and
      answers 201 with it; every other outcome writes nothing. An Auth0 id
      already present gives 200 with no body. Either way the Auth0 ids stay
      unique. */
  lemma CreateUserInsertsOne(users: map<string, User>, body: User, newId: string, storeFails: bool)
    requires UsersStored(users)
    ensures var (reply, after) := CreateUser(users, body, newId, storeFails);
      && UsersStored(after)
      && (reply.status == Created <==>
            !storeFails && newId !in users && forall k :: k in users ==> users[k].auth0Id != body.auth0Id)
      && (reply.status == Created ==>
            && after.Keys == users.Keys + {newId} && |after| == |users| + 1
            && reply.body == Json(after[newId])
            && after[newId] == body.(id := newId)
            && forall k :: k in users ==> after[k] == users[k])
      && (reply.status != Created ==> after == users)
      && (storeFails ==> reply == Reply(ServerError, Message("Error creating user")))
      && (!storeFails && (exists k :: k in users && users[k].auth0Id == body.auth0Id) ==>
            reply == Reply(OK, NoContent))
      && (!storeFails && (forall k :: k in users ==> users[k].auth0Id != body.auth0Id) && newId in users ==>
            reply == Reply(ServerError, Message("Error creating user")))
  {
  }

  /** Creating the same user again changes nothing and answers 200: creation
      is idempotent by Auth0 id. */
  lemma CreateUserIdempotent(users: map<string, User>, body: User, newId: string, newId': string)
    ensures var (first, after) := CreateUser(users, body, newId, false);
      var (second, again) := CreateUser(after, body, newId', false);
      first.status in {OK, Created} ==> second == Reply(OK, NoContent) && again == after
  {
    var (first, after) := CreateUser(users, body, newId, false);
    if first.status == Created {
      assert after[newId].auth0Id == body.auth0Id;
    }
  }

  /** `updateCurrentUser` on the user table: the reply and the table after. */
  function UpdateUser(users: map<string, User>, userId: string, form: ProfileForm, storeFails: bool): (Reply<User>, map<string, User>)
  {
    if storeFails then (Reply(ServerError, Message("Error updating user")), users)
    else if userId !in users then (Reply(NotFound, Message("User not found")), users)
    else
      var user := users[userId].(name := form.name, addressLine1 := form.addressLine1,
                                 city := form.city, country := form.country);
      (Reply(OK, Json(user)), users[userId := user])
  }

  /** An update changes the caller's name, address line, city and country,
      and nothing else: not the id, the Auth0 id or the email, and no other
      user. A missing user is a 404 and a store failure a 500, with no write. */
  lemma UpdateUserChangesOnlyProfile(users: map<string, User>, userId: string, form: ProfileForm, storeFails: bool)
    requires UsersStored(users)
    ensures var (reply, after) := UpdateUser(users, userId, form, storeFails);
      && UsersStored(after)
      && after.Keys == users.Keys
      && (forall k :: k in users && k != userId ==> after[k] == users[k])
      && (reply.status == OK <==> !storeFails && userId in users)
      && (reply.status == OK ==>
            var before, now := users[userId], after[userId];
            && reply.body == Json(now)
            && now.id == before.id && now.auth0Id == before.auth0Id && now.email == before.email
            && now.name == form.name && now.addressLine1 == form.addressLine1
            && now.city == form.city && now.country == form.country)
      && (reply.status != OK ==> after == users)
      && (!storeFails && userId !in users ==> reply == Reply(NotFound, Message("User not found")))
      && (storeFails ==> reply == Reply(ServerError, Message("Error updating user")))
  {
    var (reply, after) := UpdateUser(users, userId, form, storeFails);
    if reply.status == OK {
      forall a, b | a in after && b in after && after[a].auth0Id == after[b].auth0Id
        ensures a == b
      {
        assert after[a].auth0Id == users[a].auth0Id && after[b].auth0Id == users[b].auth0Id;
      }
    }
  }

  method CreateCurrentUser(db: Db, body: User, newId: string, storeFails: bool) returns (reply: Reply<User>)
    requires db.Valid()
    modifies db
    ensures db.Valid()
    ensures (reply, db.users) == CreateUser(old(db.users), body, newId, storeFails)
    ensures db.restaurants == old(db.restaurants) && db.orders == old(db.orders)
  {
    CreateUserInsertsOne(db.users, body, newId, storeFails);
    if storeFails {
      return Reply(ServerError, Message("Error creating user"));
    }
    var existing := UserWithAuth0Id(db.users, body.auth0Id);
    if existing.Some? {
      return Reply(OK, NoContent);
    }
    if newId in db.users {
      return Reply(ServerError, Message("Error creating user"));
    }
    var user := body.(id := newId);
    db.users := db.users[newId := user];
    reply := Reply(Created, Json(user));
  }

  method UpdateCurrentUser(db: Db, userId: string, form: ProfileForm, storeFails: bool) returns (reply: Reply<User>)
    requires db.Valid()
    modifies db
    ensures db.Valid()
    ensures (reply, db.users) == UpdateUser(old(db.users), userId, form, storeFails)
    ensures db.restaurants == old(db.restaurants) && db.orders == old(db.orders)
  {
    UpdateUserChangesOnlyProfile(db.users, userId, form, storeFails);
    if storeFails {
      return Reply(ServerError, Message("Error updating user"));
    }
    if userId !in db.users {
      return Reply(NotFound, Message("User not found"));
    }
    var user := db.users[userId];
    user := user.(name := form.name);
    user := user.(addressLine1 := form.addressLine1);
    user := user.(city := form.city);
    user := user.(country := form.country);
    db.users := db.users[userId := user];
    reply := Reply(OK, Json(user));
  }
}
