/** The user routes: registration, login, the self-service profile update with its
    optional password change, the admin update, and the single-user lookup with the
    user's three most recent orders. */
module Users {
  import opened Common
  import opened OrderModel
  import Orders

  /** A stored user. `password` holds the hash, never the plaintext. */
  datatype User = User(
    firstName: string,
    lastName: string,
    email: string,
    password: string,
    phoneNumber: string,
    isAdmin: bool,
    verified: bool)

  /** The projection that registration, login and profile update send back: every
      field of the user except the password. */
  datatype PublicUser = PublicUser(
    id: Id,
    firstName: string,
    lastName: string,
    email: string,
    isAdmin: bool,
    verified: bool,
    phoneNumber: string)

  /** A signed credential with the projection of its user. */
  datatype Session = Session(token: string, user: PublicUser)

  function Public(id: Id, u: User): (p: PublicUser)
    ensures p.id == id && p.email == u.email
  {
    PublicUser(id, u.firstName, u.lastName, u.email, u.isAdmin, u.verified, u.phoneNumber)
  }

  /** The answer of a route that signs in user `id` at time `now`: a credential
      for the id, stamped with its issue time, and the user's projection. */
  function SessionFor(c: Crypto, id: Id, u: User, now: int): (s: Session)
    ensures s.token == c.sign(id, now) && s.user == Public(id, u)
  {
    Session(c.sign(id, now), Public(id, u))
  }

  /** The email is the key users log in and reset passwords by: no two users share one. */
  ghost predicate UniqueEmails(users: map<Id, User>)
  {
    forall a, b :: a in users && b in users && users[a].email == users[b].email ==> a == b
  }

  /** `User.findOne({ email })` finds a user. */
  predicate EmailTaken(users: map<Id, User>, email: Option<string>)
  {
    email.Some? && exists id :: id in users && users[id].email == email.value
  }

  /** `User.findOne({ email })`. */
  function FindByEmail(users: map<Id, User>, email: string): (r: Option<Id>)
    requires UniqueEmails(users)
    ensures r.Some? <==> EmailTaken(users, Some(email))
    ensures r.Some? ==> r.value in users && users[r.value].email == email
  {
    if exists id :: id in users && users[id].email == email then
      var id :| id in users && users[id].email == email;
      Some(id)
    else
      None
  }

  // ---------------------------------------------------------------------------
  // POST /api/users
  // ---------------------------------------------------------------------------

  datatype RegisterRequest = RegisterRequest(
    firstName: Option<string>,
    lastName: Option<string>,
    email: Option<string>,
    password: Option<string>,
    isAdmin: Option<bool>,
    phoneNumber: Option<string>)

  const AlreadyExists := Rejection(400, "User already exist! Please Login!")
  const BadPhone := Rejection(400, "Please enter a valid phone number!")
  const ShortPassword := Rejection(400, "Password character should be at least 6 character long!")
  const PhoneLength: nat := 11
  const MinPassword: nat := 6

  /** The registration checks, in the order the handler runs them. */
  function RegisterChecks(users: map<Id, User>, req: RegisterRequest): seq<Check>
  {
    [ Check(!EmailTaken(users, req.email), AlreadyExists),
      Check(Truthy(req.firstName) && Truthy(req.lastName) && Truthy(req.email)
            && Truthy(req.phoneNumber) && Truthy(req.password), MissingFields),
      Check(Len(req.phoneNumber) == PhoneLength, BadPhone),
      Check(Len(req.password) >= MinPassword, ShortPassword) ]
  }

  /** The user a successful registration saves: the submitted fields, the password
      replaced by its hash, `isAdmin` as submitted (false when absent) and `verified`
      false. */
  function Registered(req: RegisterRequest, c: Crypto): (u: User)
    requires req.firstName.Some? && req.lastName.Some? && req.email.Some?
    requires req.password.Some? && req.phoneNumber.Some?
    ensures Some(u.firstName) == req.firstName && Some(u.lastName) == req.lastName
            && Some(u.email) == req.email && Some(u.phoneNumber) == req.phoneNumber
    ensures Verify(c, req.password.value, u.password)
    ensures u.isAdmin <==> req.isAdmin == Some(true)
    ensures !u.verified
  {
    User(req.firstName.value, req.lastName.value, req.email.value, c.hash(req.password.value),
         req.phoneNumber.value, req.isAdmin == Some(true), false)
  }

  /** Registration, with `id` the id the store issues next. */
  function Register(users: map<Id, User>, id: Id, req: RegisterRequest, c: Crypto, now: int): (out: (Response<Session>, map<Id, User>))
    requires id !in users
    ensures EmailTaken(users, req.email) ==> out == (Reject(AlreadyExists), users)
    ensures !out.0.Reply? ==> out.1 == users
    ensures out.0.Reply? ==>
              && !EmailTaken(users, req.email)
              && Truthy(req.firstName) && Truthy(req.lastName) && Truthy(req.email)
              && Truthy(req.phoneNumber) && Truthy(req.password)
              && Utf16Len(req.phoneNumber.value) == PhoneLength && Utf16Len(req.password.value) >= MinPassword
              && out.1.Keys == users.Keys + {id}
              && (forall k :: k in users ==> out.1[k] == users[k])
              && Some(out.1[id].email) == req.email
              && out.1[id].password == c.hash(req.password.value)
              && Verify(c, req.password.value, out.1[id].password)
              && out.1[id] == Registered(req, c)
              && out.0 == Reply(200, SessionFor(c, id, out.1[id], now))
  {
    if EmailTaken(users, req.email) then (Reject(AlreadyExists), users)
    else if !Truthy(req.firstName) || !Truthy(req.lastName) || !Truthy(req.email)
            || !Truthy(req.phoneNumber) || !Truthy(req.password) then (Reject(MissingFields), users)
    else if Utf16Len(req.phoneNumber.value) != PhoneLength then (Reject(BadPhone), users)
    else if Utf16Len(req.password.value) < MinPassword then (Reject(ShortPassword), users)
    else
      var u := Registered(req, c);
      (Reply(200, SessionFor(c, id, u, now)), users[id := u])
  }

  /** Registration answers with the error of the first failing check in
      `RegisterChecks`, and succeeds exactly when all of them pass. */
  lemma RegisterFollowsChecks(users: map<Id, User>, id: Id, req: RegisterRequest, c: Crypto, now: int)
    requires id !in users
    ensures var out := Register(users, id, req, c, now);
            && (out.0.Reply? <==> FirstFailure(RegisterChecks(users, req)).None?)
            && (!out.0.Reply? ==> out.0.Error? && FirstFailure(RegisterChecks(users, req)) == Some(Rejection(out.0.status, out.0.msg)))
  {
    var checks := RegisterChecks(users, req);
    var out := Register(users, id, req, c, now);
    if !checks[0].passes {
      FirstFailureAt(checks, 0);
    } else if !checks[1].passes {
      FirstFailureAt(checks, 1);
    } else if !checks[2].passes {
      FirstFailureAt(checks, 2);
    } else if !checks[3].passes {
      FirstFailureAt(checks, 3);
    } else {
      assert forall j :: 0 <= j < |checks| ==> checks[j].passes;
    }
  }

  /** Registration keeps emails unique. */
  lemma RegisterKeepsEmailsUnique(users: map<Id, User>, id: Id, req: RegisterRequest, c: Crypto, now: int)
    requires id !in users && UniqueEmails(users)
    ensures UniqueEmails(Register(users, id, req, c, now).1)
  {
    var after := Register(users, id, req, c, now).1;
    if Register(users, id, req, c, now).0.Reply? {
      assert forall k :: k in users ==> after[k].email != after[id].email;
    }
  }

  /** Registering a second time with an email that is now taken is refused, whatever
      the other fields, and stores nothing. */
  lemma RegisterTwice(users: map<Id, User>, id: Id, req: RegisterRequest, id2: Id, req2: RegisterRequest, c: Crypto, now: int, now2: int)
    requires id !in users
    requires Register(users, id, req, c, now).0.Reply?
    requires id2 !in Register(users, id, req, c, now).1
    requires req2.email == req.email
    ensures var after := Register(users, id, req, c, now).1;
            Register(after, id2, req2, c, now2) == (Reject(AlreadyExists), after)
  {
    var after := Register(users, id, req, c, now).1;
    assert Some(after[id].email) == req2.email;
    assert EmailTaken(after, req2.email);
  }

  // ---------------------------------------------------------------------------
  // POST /api/users/auth
  // ---------------------------------------------------------------------------

  datatype LoginRequest = LoginRequest(email: Option<string>, password: Option<string>)

  const NoSuchUser := Rejection(400, "User does not exist! Please Register!")
  const BadCredentials := Rejection(400, "Invalid credentials!")

  /** Some user with the submitted email has a stored hash that the submitted
      password verifies against. */
  predicate CredentialsMatch(users: map<Id, User>, req: LoginRequest, c: Crypto)
  {
    req.email.Some? && req.password.Some?
    && exists id :: id in users && users[id].email == req.email.value && Verify(c, req.password.value, users[id].password)
  }

  /** The login checks, in the order the handler runs them. */
  function LoginChecks(users: map<Id, User>, req: LoginRequest, c: Crypto): seq<Check>
  {
    [ Check(Truthy(req.email) && Truthy(req.password), MissingFields),
      Check(EmailTaken(users, req.email), NoSuchUser),
      Check(CredentialsMatch(users, req, c), BadCredentials) ]
  }

  function Login(users: map<Id, User>, req: LoginRequest, c: Crypto, now: int): (r: Response<Session>)
    requires UniqueEmails(users)
    ensures !(Truthy(req.email) && Truthy(req.password)) ==> r == Reject(MissingFields)
    ensures Truthy(req.email) && Truthy(req.password) && !EmailTaken(users, req.email) ==> r == Reject(NoSuchUser)
    ensures r.Reply? <==> Truthy(req.email) && Truthy(req.password) && CredentialsMatch(users, req, c)
    ensures r.Reply? ==> exists id :: id in users && users[id].email == req.email.value
                                    && Verify(c, req.password.value, users[id].password)
                                    && r == Reply(200, SessionFor(c, id, users[id], now))
  {
    if !Truthy(req.email) || !Truthy(req.password) then Reject(MissingFields)
    else
      match FindByEmail(users, req.email.value)
      case None => Reject(NoSuchUser)
      case Some(id) =>
        if !Verify(c, req.password.value, users[id].password) then Reject(BadCredentials)
        else Reply(200, SessionFor(c, id, users[id], now))
  }

  /** Login answers with the error of the first failing check in `LoginChecks`, and
      succeeds exactly when all of them pass. */
  lemma LoginFollowsChecks(users: map<Id, User>, req: LoginRequest, c: Crypto, now: int)
    requires UniqueEmails(users)
    ensures var r := Login(users, req, c, now);
            && (r.Reply? <==> FirstFailure(LoginChecks(users, req, c)).None?)
            && (!r.Reply? ==> r.Error? && FirstFailure(LoginChecks(users, req, c)) == Some(Rejection(r.status, r.msg)))
  {
    var checks := LoginChecks(users, req, c);
    if !checks[0].passes {
      FirstFailureAt(checks, 0);
    } else if !checks[1].passes {
      FirstFailureAt(checks, 1);
    } else if !checks[2].passes {
      var id := FindByEmail(users, req.email.value).value;
      assert !Verify(c, req.password.value, users[id].password);
      FirstFailureAt(checks, 2);
    } else {
      assert forall j :: 0 <= j < |checks| ==> checks[j].passes;
    }
  }

  /** A user who has just registered can log in with the same email and password,
      at any later time: the login signs in the new id and sends the same user
      projection as the registration. Only the credential's issue time differs. */
  lemma LoginAfterRegister(users: map<Id, User>, id: Id, req: RegisterRequest, c: Crypto, now: int, later: int)
    requires id !in users && UniqueEmails(users)
    requires Register(users, id, req, c, now).0.Reply?
    ensures var out := Register(users, id, req, c, now);
            var r := Login(out.1, LoginRequest(req.email, req.password), c, later);
            && UniqueEmails(out.1)
            && r == Reply(200, SessionFor(c, id, out.1[id], later))
            && r.body.user == out.0.body.user
  {
    var after := Register(users, id, req, c, now).1;
    RegisterKeepsEmailsUnique(users, id, req, c, now);
    var login := LoginRequest(req.email, req.password);
    assert after[id].email == req.email.value;
    assert CredentialsMatch(after, login, c);
    var r := Login(after, login, c, later);
    var k :| k in after && after[k].email == req.email.value && r == Reply(200, SessionFor(c, k, after[k], later));
    assert k == id;
  }

  // ---------------------------------------------------------------------------
  // PUT /api/users
  // ---------------------------------------------------------------------------

  datatype ProfileRequest = ProfileRequest(
    firstName: Option<string>,
    lastName: Option<string>,
    phoneNumber: Option<string>,
    newPassword: Option<string>,
    confirmPassword: Option<string>,
    currentPassword: Option<string>)

  const Mismatch := Rejection(409, "New Password does not match the Retyped Password!")
  /** The handler's catch-all, reached when `newPassword.length` throws because no
      new password was sent. */
  const NoNewPassword := Rejection(404, "User does not exist! An error occured!")
  const ShortNewPassword := Rejection(400, "New password character should be at least 6 character long!")
  const WrongCurrent := Rejection(409, "Invalid Current Password!")

  /** The password-change checks, in the order the handler runs them once a current
      password is given; `stored` is the user's stored hash. */
  function PasswordChangeChecks(req: ProfileRequest, stored: string, c: Crypto): seq<Check>
  {
    [ Check(req.newPassword == req.confirmPassword, Mismatch),
      Check(req.newPassword.Some?, NoNewPassword),
      Check(Len(req.newPassword) >= MinPassword, ShortNewPassword),
      Check(req.currentPassword.Some? && Verify(c, req.currentPassword.value, stored), WrongCurrent) ]
  }

  /** The loaded user after the three merge-patch assignments. */
  function PatchProfile(u: User, req: ProfileRequest): (v: User)
    ensures MergePatched(req.firstName, u.firstName, v.firstName)
    ensures MergePatched(req.lastName, u.lastName, v.lastName)
    ensures MergePatched(req.phoneNumber, u.phoneNumber, v.phoneNumber)
    ensures v.email == u.email && v.password == u.password && v.isAdmin == u.isAdmin && v.verified == u.verified
  {
    u.(firstName := Patch(req.firstName, u.firstName),
       lastName := Patch(req.lastName, u.lastName),
       phoneNumber := Patch(req.phoneNumber, u.phoneNumber))
  }

  /** The self-service update of the user `uid` the credential names. */
  function UpdateProfile(users: map<Id, User>, uid: Id, req: ProfileRequest, c: Crypto, now: int): (out: (Response<Session>, map<Id, User>))
    ensures uid !in users ==> out == (NoReply, users)
    ensures !out.0.Reply? ==> out.1 == users
    ensures uid in users && !Truthy(req.currentPassword) ==> out.0.Reply?
    ensures out.0.Reply? ==>
              && uid in users && out.1.Keys == users.Keys
              && (forall k :: k in users && k != uid ==> out.1[k] == users[k])
              && MergePatched(req.firstName, users[uid].firstName, out.1[uid].firstName)
              && MergePatched(req.lastName, users[uid].lastName, out.1[uid].lastName)
              && MergePatched(req.phoneNumber, users[uid].phoneNumber, out.1[uid].phoneNumber)
              && out.1[uid].email == users[uid].email
              && out.1[uid].isAdmin == users[uid].isAdmin
              && out.1[uid].verified == users[uid].verified
              && (!Truthy(req.currentPassword) ==> out.1[uid].password == users[uid].password)
              && (Truthy(req.currentPassword) ==>
                    && Verify(c, req.currentPassword.value, users[uid].password)
                    && req.newPassword.Some? && req.newPassword == req.confirmPassword
                    && Utf16Len(req.newPassword.value) >= MinPassword
                    && out.1[uid].password == c.hash(req.newPassword.value))
              && out.0 == Reply(200, SessionFor(c, uid, out.1[uid], now))
  {
    if uid !in users then (NoReply, users)
    else
      var patched := PatchProfile(users[uid], req);
      if !Truthy(req.currentPassword) then
        (Reply(200, SessionFor(c, uid, patched, now)), users[uid := patched])
      else if req.newPassword != req.confirmPassword then (Reject(Mismatch), users)
      else if req.newPassword.None? then (Reject(NoNewPassword), users)
      else if Utf16Len(req.newPassword.value) < MinPassword then (Reject(ShortNewPassword), users)
      else if !Verify(c, req.currentPassword.value, users[uid].password) then (Reject(WrongCurrent), users)
      else
        var u := patched.(password := c.hash(req.newPassword.value));
        (Reply(200, SessionFor(c, uid, u, now)), users[uid := u])
  }

  /** With a current password given, the update answers with the error of the first
      failing check in `PasswordChangeChecks`, saving nothing, and succeeds exactly
      when all of them pass. */
  lemma PasswordChangeFollowsChecks(users: map<Id, User>, uid: Id, req: ProfileRequest, c: Crypto, now: int)
    requires uid in users && Truthy(req.currentPassword)
    ensures var out := UpdateProfile(users, uid, req, c, now);
            var checks := PasswordChangeChecks(req, users[uid].password, c);
            && (out.0.Reply? <==> FirstFailure(checks).None?)
            && (!out.0.Reply? ==> out.0.Error? && FirstFailure(checks) == Some(Rejection(out.0.status, out.0.msg)))
  {
    var checks := PasswordChangeChecks(req, users[uid].password, c);
    if !checks[0].passes {
      FirstFailureAt(checks, 0);
    } else if !checks[1].passes {
      FirstFailureAt(checks, 1);
    } else if !checks[2].passes {
      FirstFailureAt(checks, 2);
    } else if !checks[3].passes {
      FirstFailureAt(checks, 3);
    } else {
      assert forall j :: 0 <= j < |checks| ==> checks[j].passes;
    }
  }

  /** The profile update keeps emails unique. */
  lemma UpdateProfileKeepsEmailsUnique(users: map<Id, User>, uid: Id, req: ProfileRequest, c: Crypto, now: int)
    requires UniqueEmails(users)
    ensures UniqueEmails(UpdateProfile(users, uid, req, c, now).1)
  {
  }

  /** After a password change, the new password logs in and (for a hash that tells
      passwords apart) the old one no longer does. */
  lemma LoginAfterPasswordChange(users: map<Id, User>, uid: Id, req: ProfileRequest, c: Crypto, now: int, later: int, previous: string)
    requires UniqueEmails(users)
    requires uid in users && users[uid].email != ""
    requires Truthy(req.currentPassword)
    requires UpdateProfile(users, uid, req, c, now).0.Reply?
    ensures var after := UpdateProfile(users, uid, req, c, now).1;
            && UniqueEmails(after)
            && Login(after, LoginRequest(Some(after[uid].email), req.newPassword), c, later).Reply?
    ensures var after := UpdateProfile(users, uid, req, c, now).1;
            (forall p, q :: c.hash(p) == c.hash(q) ==> p == q) && previous != req.newPassword.value && previous != ""
            ==> Login(after, LoginRequest(Some(after[uid].email), Some(previous)), c, later) == Reject(BadCredentials)
  {
    var after := UpdateProfile(users, uid, req, c, now).1;
    UpdateProfileKeepsEmailsUnique(users, uid, req, c, now);
    var email := after[uid].email;
    assert Utf16Len(req.newPassword.value) >= MinPassword;
    assert EmailTaken(after, Some(email));
    assert CredentialsMatch(after, LoginRequest(Some(email), req.newPassword), c);
    if (forall p, q :: c.hash(p) == c.hash(q) ==> p == q) && previous != req.newPassword.value && previous != "" {
      forall k | k in after && after[k].email == email
        ensures !Verify(c, previous, after[k].password)
      {
        assert k == uid;
      }
    }
  }

  // ---------------------------------------------------------------------------
  // PUT /api/users/admin/update
  // ---------------------------------------------------------------------------

  datatype AdminRequest = AdminRequest(
    id: Id,
    firstName: Option<string>,
    lastName: Option<string>,
    isAdmin: Option<bool>,
    phoneNumber: Option<string>)

  /** The admin update of the user `req.id`. It answers with the whole saved user
      document, password hash included. */
  function AdminUpdate(users: map<Id, User>, req: AdminRequest): (out: (Response<Doc<User>>, map<Id, User>))
    ensures req.id !in users ==> out == (NoReply, users)
    ensures req.id in users ==>
              && out.1.Keys == users.Keys
              && (forall k :: k in users && k != req.id ==> out.1[k] == users[k])
              && MergePatched(req.firstName, users[req.id].firstName, out.1[req.id].firstName)
              && MergePatched(req.lastName, users[req.id].lastName, out.1[req.id].lastName)
              && MergePatched(req.phoneNumber, users[req.id].phoneNumber, out.1[req.id].phoneNumber)
              && out.1[req.id].isAdmin == (req.isAdmin == Some(true))
              && out.1[req.id].email == users[req.id].email
              && out.1[req.id].password == users[req.id].password
              && out.1[req.id].verified == users[req.id].verified
              && out.0 == Reply(201, Doc(req.id, out.1[req.id]))
  {
    if req.id !in users then (NoReply, users)
    else
      var u := users[req.id];
      var u' := u.(firstName := Patch(req.firstName, u.firstName),
                   lastName := Patch(req.lastName, u.lastName),
                   phoneNumber := Patch(req.phoneNumber, u.phoneNumber),
                   isAdmin := req.isAdmin == Some(true));
      (Reply(201, Doc(req.id, u')), users[req.id := u'])
  }

  /** The admin update keeps emails unique. */
  lemma AdminUpdateKeepsEmailsUnique(users: map<Id, User>, req: AdminRequest)
    requires UniqueEmails(users)
    ensures UniqueEmails(AdminUpdate(users, req).1)
  {
  }

  // ---------------------------------------------------------------------------
  // GET /api/users/:id
  // ---------------------------------------------------------------------------

  /** The user document with that user's most recent orders. */
  datatype UserPage = UserPage(orders: seq<Doc<Order>>, user: Doc<User>)

  const UnknownUser := Rejection(404, "User does not exist!!!")

  function GetUser(users: map<Id, User>, orders: map<Id, Order>, n: nat, id: Id): (r: Response<UserPage>)
    requires Bounded(orders, n)
    ensures id !in users ==> r == Reject(UnknownUser)
    ensures id in users ==>
              && r.Reply? && r.status == 200 && r.body.user == Doc(id, users[id])
              && |r.body.orders| <= Orders.RecentCount
              && (forall d :: d in r.body.orders ==> d.id in orders && d.doc == orders[d.id] && d.doc.user == id)
              && r.body.orders == Limit(Orders.OwnedOrders(orders, n, id), Orders.RecentCount)
  {
    if id in users then
      var mine := Orders.OwnedOrders(orders, n, id);
      var recent := Limit(mine, Orders.RecentCount);
      assert forall d :: d in recent ==> d in mine;
      Reply(200, UserPage(recent, Doc(id, users[id])))
    else
      Reject(UnknownUser)
  }
}
