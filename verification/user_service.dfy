/**
 * UserService (backend/services/user_service.py): registration with its uniqueness checks,
 * the authentication decision, lookups, the partial profile update and deletion. Password
 * hashing, password verification and token creation live outside this model and are passed
 * in as functions.
 */
module UserService {
  import opened Wrappers
  import opened Strings
  import opened Exceptions
  import opened Validators
  import opened Schemas
  import opened Records
  import opened OrderModel
  import opened Database

  /** The claims of an access token, as a string-keyed payload. */
  type Claims = map<string, string>

  /** What a successful login yields: the user and a freshly created access token. */
  datatype Login = Login(user: User, accessToken: string)

  const BadCredentials := UnauthorizedException("Invalid username or password")
  const InactiveAccount := UnauthorizedException("User account is inactive")

  function UsernameTaken(username: string): AppException
  {
    BadRequestException("Username '" + username + "' already exists")
  }

  function EmailTaken(email: string): AppException
  {
    BadRequestException("Email '" + email + "' already registered")
  }

  function UserNotFound(id: int): AppException
  {
    NotFoundException("User with ID " + IntToString(id) + " not found")
  }

  // ------------------------------------------------------------------ lookups

  /** `get_user_by_username`: the first row with this username, if any. */
  function GetUserByUsername(users: seq<User>, username: string): (r: Option<User>)
    ensures r.Some? ==> r.value in users && r.value.username == username
    ensures r.None? <==> forall u :: u in users ==> u.username != username
  {
    match FirstIndex(users, (u: User) => u.username == username)
    case None => None
    case Some(k) => Some(users[k])
  }

  /** `get_user_by_id`: the row with this id, or NotFound. */
  function GetUserById(users: seq<User>, id: int): (r: Result<User, AppException>)
    ensures r.Ok? ==> r.value in users && r.value.id == id
    ensures r.Err? <==> forall u :: u in users ==> u.id != id
    ensures r.Err? ==> r.error == UserNotFound(id) && StatusCode(r.error) == 404
  {
    match FirstIndex(users, (u: User) => u.id == id)
    case None => Err(UserNotFound(id))
    case Some(k) => Ok(users[k])
  }

  /** With unique usernames, the row found for a username is the only one carrying it. */
  lemma UsernameLookupUnique(users: seq<User>, username: string)
    requires UniqueUsers(users)
    ensures GetUserByUsername(users, username).Some? ==>
              forall u :: u in users && u.username == username ==> u == GetUserByUsername(users, username).value
  {
    if GetUserByUsername(users, username).Some? {
      var v := GetUserByUsername(users, username).value;
      forall u | u in users && u.username == username ensures u == v {
        var i :| 0 <= i < |users| && users[i] == u;
        var j :| 0 <= j < |users| && users[j] == v;
        assert i == j by {
          assert !(i < j) && !(j < i);
        }
      }
    }
  }

  // ------------------------------------------------------------------ registration

  /** `create_user`: the e-mail check, then the username, then the e-mail must be unused; the
      new row stores the password's hash, is active and is not an administrator. */
  method CreateUser(db: Db, data: UserCreate, hash: string -> string) returns (r: Result<User, AppException>)
    requires db.Valid()
    modifies db
    ensures db.Valid()
    ensures ValidateEmail(data.email).Fail? ==> r == Err(ValidationException("Invalid email format"))
    ensures ValidateEmail(data.email).Pass? && GetUserByUsername(old(db.users), data.username).Some? ==>
              r == Err(UsernameTaken(data.username))
    ensures (&& ValidateEmail(data.email).Pass? && GetUserByUsername(old(db.users), data.username).None?
             && exists u :: u in old(db.users) && u.email == data.email)
            ==> r == Err(EmailTaken(data.email))
    ensures r.Ok? <==> && ValidateEmail(data.email).Pass?
                       && forall u :: u in old(db.users) ==> u.username != data.username && u.email != data.email
    ensures r.Err? ==> db.users == old(db.users) && db.nextUserId == old(db.nextUserId)
    ensures r.Ok? ==> && r.value == User(old(db.nextUserId), data.username, data.email, hash(data.password),
                                         data.fullName, data.phone, data.address, true, false)
                      && db.users == old(db.users) + [r.value]
                      && db.nextUserId == old(db.nextUserId) + 1
    ensures db.products == old(db.products) && db.cart == old(db.cart) && db.orders == old(db.orders)
    ensures db.nextProductId == old(db.nextProductId) && db.nextCartId == old(db.nextCartId)
    ensures db.nextOrderId == old(db.nextOrderId) && db.nextOrderItemId == old(db.nextOrderItemId)
  {
    var check := ValidateEmail(data.email);
    if check.Fail? {
      return Err(check.error);
    }
    if GetUserByUsername(db.users, data.username).Some? {
      return Err(UsernameTaken(data.username));
    }
    var sameEmail := FirstIndex(db.users, (u: User) => u.email == data.email);
    if sameEmail.Some? {
      return Err(EmailTaken(data.email));
    }
    var user := User(db.nextUserId, data.username, data.email, hash(data.password),
                     data.fullName, data.phone, data.address, true, false);
    UserTableAppend(db.users, db.nextUserId, user);
    db.users := db.users + [user];
    db.nextUserId := db.nextUserId + 1;
    return Ok(user);
  }

  // ------------------------------------------------------------------ authentication

  /** The token payload: the user id as the "sub" string, and the username. */
  function TokenClaims(u: User): (c: Claims)
    ensures "sub" in c && ParseInt(c["sub"]) == Some(u.id)
    ensures "username" in c && c["username"] == u.username
  {
    ParseIntOfIntToString(u.id);
    map["sub" := IntToString(u.id), "username" := u.username]
  }

  /** `authenticate_user`: an unknown username and a wrong password fail alike; an inactive
      account is refused only once its password has verified. */
  function AuthenticateUser(users: seq<User>, username: string, password: string,
                            verify: (string, string) -> bool, createToken: Claims -> string)
    : (r: Result<Login, AppException>)
    ensures GetUserByUsername(users, username).None? ==> r == Err(BadCredentials)
    ensures (&& GetUserByUsername(users, username).Some?
             && !verify(password, GetUserByUsername(users, username).value.hashedPassword))
            ==> r == Err(BadCredentials)
    ensures r == Err(InactiveAccount) <==>
              && GetUserByUsername(users, username).Some?
              && verify(password, GetUserByUsername(users, username).value.hashedPassword)
              && !GetUserByUsername(users, username).value.isActive
    ensures r.Ok? <==> && GetUserByUsername(users, username).Some?
                       && verify(password, GetUserByUsername(users, username).value.hashedPassword)
                       && GetUserByUsername(users, username).value.isActive
    ensures r.Ok? ==> && r.value.user == GetUserByUsername(users, username).value
                      && r.value.accessToken == createToken(TokenClaims(r.value.user))
  {
    match GetUserByUsername(users, username)
    case None => Err(BadCredentials)
    case Some(user) =>
      if !verify(password, user.hashedPassword) then Err(BadCredentials)
      else if !user.isActive then Err(InactiveAccount)
      else Ok(Login(user, createToken(TokenClaims(user))))
  }

  /** A failed login says nothing about whether the username exists: whenever the account is
      not to blame (no such user, or a password that does not verify), the answer is the same. */
  lemma FailedLoginHidesUsername(users: seq<User>, known: string, unknown: string, password: string,
                                 verify: (string, string) -> bool, createToken: Claims -> string)
    requires GetUserByUsername(users, unknown).None?
    requires GetUserByUsername(users, known).Some?
    requires !verify(password, GetUserByUsername(users, known).value.hashedPassword)
    ensures AuthenticateUser(users, known, password, verify, createToken)
            == AuthenticateUser(users, unknown, password, verify, createToken)
  {
  }

  /** A user who has just registered can log in with the same password, provided verification
      accepts a password against its own hash, and receives a token naming the new id. */
  lemma RegisteredUserCanLogIn(users: seq<User>, id: int, data: UserCreate, hash: string -> string,
                               verify: (string, string) -> bool, createToken: Claims -> string)
    requires forall u :: u in users ==> u.username != data.username
    requires verify(data.password, hash(data.password))
    ensures var user := User(id, data.username, data.email, hash(data.password),
                             data.fullName, data.phone, data.address, true, false);
            AuthenticateUser(users + [user], data.username, data.password, verify, createToken)
            == Ok(Login(user, createToken(map["sub" := IntToString(id), "username" := data.username])))
  {
    var user := User(id, data.username, data.email, hash(data.password),
                     data.fullName, data.phone, data.address, true, false);
    var found := GetUserByUsername(users + [user], data.username);
    assert (users + [user])[|users|] == user;
    assert found == Some(user);
  }

  // ------------------------------------------------------------------ profile update

  /** One `setattr(user, field, value)` of `update_user`. */
  datatype UserField =
    | SetFullName(fullName: Option<string>)
    | SetPhone(phone: Option<string>)
    | SetAddress(address: Option<string>)

  function SetUserAttr(u: User, f: UserField): User
  {
    match f
    case SetFullName(v) => u.(fullName := v)
    case SetPhone(v) => u.(phone := v)
    case SetAddress(v) => u.(address := v)
  }

  /** `model_dump(exclude_unset=True)`: the supplied fields, in declaration order. */
  function DumpUserSet(d: UserUpdate): seq<UserField>
  {
    (if d.fullName.Put? then [SetFullName(d.fullName.value)] else [])
    + (if d.phone.Put? then [SetPhone(d.phone.value)] else [])
    + (if d.address.Put? then [SetAddress(d.address.value)] else [])
  }

  /** The `setattr` loop run over a list of fields. */
  function SetUserAll(u: User, fs: seq<UserField>): User
  {
    if |fs| == 0 then u else SetUserAttr(SetUserAll(u, fs[..|fs| - 1]), fs[|fs| - 1])
  }

  /** The reference meaning of a profile update: supplied fields replaced, all others kept. */
  function ApplyUserUpdate(u: User, d: UserUpdate): User
  {
    u.(fullName := Take(d.fullName, u.fullName), phone := Take(d.phone, u.phone),
       address := Take(d.address, u.address))
  }

  lemma {:induction false} SetUserAllAppend(u: User, a: seq<UserField>, b: seq<UserField>)
    ensures SetUserAll(u, a + b) == SetUserAll(SetUserAll(u, a), b)
    decreases |b|
  {
    if |b| == 0 {
      assert a + b == a;
    } else {
      assert (a + b)[..|a + b| - 1] == a + b[..|b| - 1];
      SetUserAllAppend(u, a, b[..|b| - 1]);
    }
  }

  lemma SetUserAllOne(u: User, fs: seq<UserField>)
    requires |fs| <= 1
    ensures SetUserAll(u, fs) == if |fs| == 0 then u else SetUserAttr(u, fs[0])
  {
    if |fs| == 1 {
      assert fs[..0] == [];
    }
  }

  /** Running the `setattr` loop over the dumped fields is the reference update: only the
      supplied profile fields change, never the id, username, e-mail, hash or flags. */
  lemma SetUserAllIsUpdate(u: User, d: UserUpdate)
    ensures SetUserAll(u, DumpUserSet(d)) == ApplyUserUpdate(u, d)
  {
    var f := if d.fullName.Put? then [SetFullName(d.fullName.value)] else [];
    var p := if d.phone.Put? then [SetPhone(d.phone.value)] else [];
    var a := if d.address.Put? then [SetAddress(d.address.value)] else [];
    assert DumpUserSet(d) == f + p + a;
    var u1 := u.(fullName := Take(d.fullName, u.fullName));
    assert SetUserAll(u, f) == u1 by { SetUserAllOne(u, f); }
    var u2 := u1.(phone := Take(d.phone, u.phone));
    assert SetUserAll(u, f + p) == u2 by { SetUserAllAppend(u, f, p); SetUserAllOne(u1, p); }
    assert SetUserAll(u, f + p + a) == u2.(address := Take(d.address, u.address)) by {
      SetUserAllAppend(u, f + p, a);
      SetUserAllOne(u2, a);
    }
  }

  /** The `setattr` loop of `update_user`. */
  method SetUserFields(u: User, fields: seq<UserField>) returns (v: User)
    ensures v == SetUserAll(u, fields)
    ensures v.id == u.id && v.username == u.username && v.email == u.email
  {
    v := u;
    for i := 0 to |fields|
      invariant v == SetUserAll(u, fields[..i])
      invariant v.id == u.id && v.username == u.username && v.email == u.email
    {
      assert fields[..i + 1][..i] == fields[..i];
      v := SetUserAttr(v, fields[i]);
    }
    assert fields[..|fields|] == fields;
  }

  /** `update_user`: NotFound for an unknown id; otherwise the supplied profile fields are set. */
  method UpdateUser(db: Db, id: int, data: UserUpdate) returns (r: Result<User, AppException>)
    requires db.Valid()
    modifies db
    ensures db.Valid()
    ensures r.Err? <==> forall u :: u in old(db.users) ==> u.id != id
    ensures r.Err? ==> r.error == UserNotFound(id) && db.users == old(db.users)
    ensures r.Ok? ==> exists k :: && 0 <= k < |old(db.users)| && old(db.users)[k].id == id
                                  && r.value == ApplyUserUpdate(old(db.users)[k], data)
                                  && db.users == old(db.users)[k := r.value]
    ensures db.products == old(db.products) && db.cart == old(db.cart) && db.orders == old(db.orders)
    ensures db.nextProductId == old(db.nextProductId) && db.nextUserId == old(db.nextUserId)
    ensures db.nextCartId == old(db.nextCartId) && db.nextOrderId == old(db.nextOrderId)
    ensures db.nextOrderItemId == old(db.nextOrderItemId)
  {
    var found := FirstIndex(db.users, (u: User) => u.id == id);
    if found.None? {
      return Err(UserNotFound(id));
    }
    var k := found.value;
    var user := SetUserFields(db.users[k], DumpUserSet(data));
    SetUserAllIsUpdate(db.users[k], data);
    UserTableReplace(db.users, db.nextUserId, k, user);
    UserIdsReplace(db.users, k, user);
    CartOwnersMoreUsers(db.cart, db.users, db.users[k := user]);
    db.users := db.users[k := user];
    return Ok(user);
  }

  // ------------------------------------------------------------------ deletion

  /** `delete_user`: NotFound for an unknown id; otherwise the row goes and, by the
      relationships' `delete-orphan` cascade, so do the user's cart rows and orders. */
  method DeleteUser(db: Db, id: int) returns (r: Result<(), AppException>)
    requires db.Valid()
    modifies db
    ensures db.Valid()
    ensures r.Err? <==> forall u :: u in old(db.users) ==> u.id != id
    ensures r.Err? ==> r.error == UserNotFound(id) && db.users == old(db.users)
                       && db.cart == old(db.cart) && db.orders == old(db.orders)
    ensures r.Ok? ==> && (exists k :: 0 <= k < |old(db.users)| && old(db.users)[k].id == id
                                      && db.users == RemoveAt(old(db.users), k))
                      && db.cart == CartWithoutUser(old(db.cart), id)
                      && db.orders == OrdersWithoutUser(old(db.orders), id)
    ensures forall u :: u in db.users <==> u in old(db.users) && u.id != id
    ensures db.products == old(db.products)
    ensures db.nextProductId == old(db.nextProductId) && db.nextUserId == old(db.nextUserId)
    ensures db.nextCartId == old(db.nextCartId) && db.nextOrderId == old(db.nextOrderId)
    ensures db.nextOrderItemId == old(db.nextOrderItemId)
  {
    var found := FirstIndex(db.users, (u: User) => u.id == id);
    if found.None? {
      return Err(UserNotFound(id));
    }
    RemoveUserAt(db, found.value);
    return Ok(());
  }

  /** The row at `k` goes, with its user's cart rows and orders. */
  method RemoveUserAt(db: Db, k: nat)
    requires db.Valid() && k < |db.users|
    modifies db
    ensures db.Valid()
    ensures db.users == RemoveAt(old(db.users), k)
    ensures db.cart == CartWithoutUser(old(db.cart), old(db.users)[k].id)
    ensures db.orders == OrdersWithoutUser(old(db.orders), old(db.users)[k].id)
    ensures forall u :: u in db.users <==> u in old(db.users) && u.id != old(db.users)[k].id
    ensures db.products == old(db.products)
    ensures db.nextProductId == old(db.nextProductId) && db.nextUserId == old(db.nextUserId)
    ensures db.nextCartId == old(db.nextCartId) && db.nextOrderId == old(db.nextOrderId)
    ensures db.nextOrderItemId == old(db.nextOrderItemId)
  {
    RemoveUserRow(db.users, k);
    db.RemoveUserRows(k);
  }
}
