/** The backend's database and its routes. The four collections are maps from id
    to record in one store object, and each route is a method on it. A method
    leaves the store as it was on every rejection and, on success, makes exactly
    the change its rule module describes. Ids are issued from one counter. */
module Backend {
  import opened Common
  import opened OrderModel
  import Orders
  import opened Users
  import Products
  import Reset

  class Store {
    var users: map<Id, User>
    var products: map<Id, Products.Product>
    var orders: map<Id, Order>
    /** The reset tokens, keyed by the id of the user each belongs to. */
    var tokens: map<Id, Reset.ResetToken>
    /** The next id to issue; every id in use is below it. */
    var nextId: nat

    /** What every route keeps true of the store.
        - Ids are below the counter.
        - No two users share an email, and every user has one.
        - Every token belongs to an existing user and is 64 hex characters.
        - Every product's count and mean agree with its reviews, with at most one
          review per user.
        - Every order's status flags agree with their timestamps. */
    ghost predicate Valid()
      reads this
    {
      && Bounded(users, nextId) && Bounded(products, nextId) && Bounded(orders, nextId)
      && UniqueEmails(users)
      && (forall k :: k in users ==> users[k].email != "")
      && tokens.Keys <= users.Keys
      && (forall k :: k in tokens ==> Reset.IsHexToken(tokens[k].token))
      && (forall k :: k in products ==> Products.RatingConsistent(products[k]) && Products.OneReviewPerUser(products[k]))
      && (forall k :: k in orders ==> Orders.StampsAgree(orders[k]))
    }

    /** An empty database. */
    constructor ()
      ensures Valid()
      ensures users == map[] && products == map[] && orders == map[] && tokens == map[] && nextId == 0
    {
      users := map[];
      products := map[];
      orders := map[];
      tokens := map[];
      nextId := 0;
    }

    // -------------------------------------------------------------------------
    // Users
    // -------------------------------------------------------------------------

    /** POST /api/users. */
    method Register(req: RegisterRequest, c: Crypto, now: int) returns (r: Response<Session>)
      requires Valid()
      modifies this
      ensures Valid()
      ensures (r, users) == Users.Register(old(users), old(nextId), req, c, now)
      ensures nextId == (if r.Reply? then old(nextId) + 1 else old(nextId))
      ensures products == old(products) && orders == old(orders) && tokens == old(tokens)
    {
      if EmailTaken(users, req.email) {
        return Reject(AlreadyExists);
      }
      if !Truthy(req.firstName) || !Truthy(req.lastName) || !Truthy(req.email)
         || !Truthy(req.phoneNumber) || !Truthy(req.password) {
        return Reject(MissingFields);
      }
      if Utf16Len(req.phoneNumber.value) != PhoneLength {
        return Reject(BadPhone);
      }
      if Utf16Len(req.password.value) < MinPassword {
        return Reject(ShortPassword);
      }
      var u := Registered(req, c);
      var id := nextId;
      RegisterKeepsEmailsUnique(users, id, req, c, now);
      users := users[id := u];
      nextId := nextId + 1;
      r := Reply(200, SessionFor(c, id, u, now));
    }

    /** POST /api/users/auth. */
    method Login(req: LoginRequest, c: Crypto, now: int) returns (r: Response<Session>)
      requires Valid()
      ensures r == Users.Login(users, req, c, now)
    {
      r := Users.Login(users, req, c, now);
    }

    /** PUT /api/users, for the user `uid` the credential names. */
    method UpdateProfile(uid: Id, req: ProfileRequest, c: Crypto, now: int) returns (r: Response<Session>)
      requires Valid()
      modifies this
      ensures Valid()
      ensures (r, users) == Users.UpdateProfile(old(users), uid, req, c, now)
      ensures products == old(products) && orders == old(orders) && tokens == old(tokens) && nextId == old(nextId)
    {
      if uid !in users {
        return NoReply;
      }
      var user := users[uid];
      user := user.(firstName := Patch(req.firstName, user.firstName));
      user := user.(lastName := Patch(req.lastName, user.lastName));
      user := user.(phoneNumber := Patch(req.phoneNumber, user.phoneNumber));
      assert user == PatchProfile(users[uid], req);
      if Truthy(req.currentPassword) {
        if req.newPassword != req.confirmPassword {
          return Reject(Mismatch);
        }
        if req.newPassword.None? {
          return Reject(NoNewPassword);
        }
        if Utf16Len(req.newPassword.value) < MinPassword {
          return Reject(ShortNewPassword);
        }
        if !Verify(c, req.currentPassword.value, user.password) {
          return Reject(WrongCurrent);
        }
        user := user.(password := c.hash(req.newPassword.value));
      }
      UpdateProfileKeepsEmailsUnique(users, uid, req, c, now);
      users := users[uid := user];
      r := Reply(200, SessionFor(c, uid, user, now));
    }

    /** PUT /api/users/admin/update. */
    method AdminUpdate(req: AdminRequest) returns (r: Response<Doc<User>>)
      requires Valid()
      modifies this
      ensures Valid()
      ensures (r, users) == Users.AdminUpdate(old(users), req)
      ensures products == old(products) && orders == old(orders) && tokens == old(tokens) && nextId == old(nextId)
    {
      if req.id !in users {
        return NoReply;
      }
      var user := users[req.id];
      user := user.(firstName := Patch(req.firstName, user.firstName));
      user := user.(lastName := Patch(req.lastName, user.lastName));
      user := user.(phoneNumber := Patch(req.phoneNumber, user.phoneNumber));
      user := user.(isAdmin := req.isAdmin == Some(true));
      AdminUpdateKeepsEmailsUnique(users, req);
      users := users[req.id := user];
      r := Reply(201, Doc(req.id, user));
    }

    /** GET /api/users/:id. */
    method GetUser(id: Id) returns (r: Response<UserPage>)
      requires Valid()
      ensures r == Users.GetUser(users, orders, nextId, id)
    {
      r := Users.GetUser(users, orders, nextId, id);
    }

    // -------------------------------------------------------------------------
    // Products
    // -------------------------------------------------------------------------

    /** POST /api/products. */
    method CreateProduct(req: Products.CreateRequest) returns (r: Response<Doc<Products.Product>>)
      requires Valid()
      modifies this
      ensures Valid()
      ensures (r, products) == Products.Create(old(products), old(nextId), req)
      ensures nextId == (if r.Reply? then old(nextId) + 1 else old(nextId))
      ensures users == old(users) && orders == old(orders) && tokens == old(tokens)
    {
      if !Truthy(req.name) || !Truthy(req.description) || !TruthyNum(req.price) {
        return Reject(MissingFields);
      }
      if !Truthy(req.image) {
        return Reject(Products.NoImage);
      }
      var p := Products.NewProduct(req);
      var id := nextId;
      products := products[id := p];
      nextId := nextId + 1;
      r := Reply(201, Doc(id, p));
    }

    /** POST /api/products/:id/reviews, by the signed-in user `uid`. */
    method AddReview(pid: Id, uid: Id, req: Products.ReviewRequest) returns (r: Response<Products.ReviewResult>)
      requires Valid()
      modifies this
      ensures Valid()
      ensures (r, products) == Products.AddReview(old(products), pid, uid, req)
      ensures users == old(users) && orders == old(orders) && tokens == old(tokens) && nextId == old(nextId)
    {
      if pid !in products {
        return Reject(Products.ReviewProductMissing);
      }
      var p := products[pid];
      if Products.Reviewed(p, uid) {
        return Reject(Products.AlreadyReviewed);
      }
      if !TruthyNum(req.rating) || !Truthy(req.comment) {
        return Reject(MissingFields);
      }
      var review := Products.NewReview(req, uid);
      p := p.(reviews := p.reviews + [review]);
      p := p.(numReviews := |p.reviews| as real);
      p := p.(rating := Products.Sum(p.reviews) / (|p.reviews| as real));
      assert p == Products.WithReview(products[pid], review);
      Products.AddReviewKeepsInvariants(products, pid, uid, req);
      products := products[pid := p];
      r := Reply(201, Products.ReviewAdded(Doc(pid, p), Products.ReviewAddedMsg));
    }

    /** PUT /api/products. */
    method EditProduct(req: Products.EditRequest) returns (r: Response<Doc<Products.Product>>)
      requires Valid()
      modifies this
      ensures Valid()
      ensures (r, products) == Products.Edit(old(products), req)
      ensures users == old(users) && orders == old(orders) && tokens == old(tokens) && nextId == old(nextId)
    {
      if req.id !in products {
        return Reject(Products.ProductMissing);
      }
      var p := products[req.id];
      p := p.(name := Patch(req.name, p.name));
      p := p.(description := Patch(req.description, p.description));
      p := p.(price := PatchNum(req.price, p.price));
      p := p.(image := Patch(req.image, p.image));
      p := p.(imagePublicId := PatchOpt(req.imagePublicId, p.imagePublicId));
      Products.EditKeepsInvariants(products, req);
      products := products[req.id := p];
      r := Reply(201, Doc(req.id, p));
    }

    /** DELETE /api/products/:id. */
    method DeleteProduct(id: Id) returns (r: Response<bool>)
      requires Valid()
      modifies this
      ensures Valid()
      ensures (r, products) == Products.Delete(old(products), id)
      ensures users == old(users) && orders == old(orders) && tokens == old(tokens) && nextId == old(nextId)
    {
      if id !in products {
        return Reject(Products.ProductMissing);
      }
      products := products - {id};
      r := Reply(200, true);
    }

    /** GET /api/products/:id. */
    method GetProduct(id: Id) returns (r: Response<Doc<Products.Product>>)
      requires Valid()
      ensures r == Products.Get(products, id)
    {
      r := Products.Get(products, id);
    }

    // -------------------------------------------------------------------------
    // Orders
    // -------------------------------------------------------------------------

    /** POST /api/orders, saved at time `now`. */
    method CreateOrder(input: OrderInput, now: int) returns (r: Response<Doc<Order>>)
      requires Valid()
      modifies this
      ensures Valid()
      ensures (r, orders) == Orders.Create(old(orders), old(nextId), input, now)
      ensures Orders.Advances(old(orders), orders)
      ensures nextId == (if r.Reply? then old(nextId) + 1 else old(nextId))
      ensures users == old(users) && products == old(products) && tokens == old(tokens)
    {
      if |input.orderItems| == 0 {
        return Reject(Orders.CartEmpty);
      }
      var saved := NewOrder(input, now);
      if saved.None? {
        return Reject(Orders.NotCreated);
      }
      var id := nextId;
      Orders.RoutesAdvance(orders, id, id, input, now);
      orders := orders[id := saved.value];
      nextId := nextId + 1;
      r := Reply(201, Doc(id, saved.value));
    }

    /** PUT /api/orders/:id/pay/cash at time `now`. */
    method PayOrder(id: Id, now: int) returns (r: Response<Doc<Order>>)
      requires Valid()
      modifies this
      ensures Valid()
      ensures (r, orders) == Orders.MarkPaid(old(orders), id, now)
      ensures Orders.Advances(old(orders), orders)
      ensures users == old(users) && products == old(products) && tokens == old(tokens) && nextId == old(nextId)
    {
      if id !in orders {
        return Reject(Orders.StatusNotFound);
      }
      var o := orders[id];
      o := o.(isPaid := true);
      o := o.(paidAt := Some(now));
      o := o.(updatedAt := now);
      Orders.RoutesAdvance(orders, id, nextId, OrderInput([], None, None, None, None, None, None, None), now);
      orders := orders[id := o];
      r := Reply(201, Doc(id, o));
    }

    /** PUT /api/orders/:id/deliver at time `now`. */
    method DeliverOrder(id: Id, now: int) returns (r: Response<Doc<Order>>)
      requires Valid()
      modifies this
      ensures Valid()
      ensures (r, orders) == Orders.MarkDelivered(old(orders), id, now)
      ensures Orders.Advances(old(orders), orders)
      ensures users == old(users) && products == old(products) && tokens == old(tokens) && nextId == old(nextId)
    {
      if id !in orders {
        return Reject(Orders.StatusNotFound);
      }
      var o := orders[id];
      o := o.(isDelivered := true);
      o := o.(deliveredAt := Some(now));
      o := o.(updatedAt := now);
      Orders.RoutesAdvance(orders, id, nextId, OrderInput([], None, None, None, None, None, None, None), now);
      orders := orders[id := o];
      r := Reply(201, Doc(id, o));
    }

    /** GET /api/orders/:id. */
    method GetOrder(id: Id) returns (r: Response<Doc<Order>>)
      requires Valid()
      ensures r == Orders.Get(orders, id)
    {
      r := Orders.Get(orders, id);
    }

    /** GET /api/orders and GET /api/orders/recent/orders (`recent`): every order,
        the most recently updated first, limited to three when `recent`. */
    method ListOrders(recent: bool) returns (r: seq<Doc<Order>>)
      requires Valid()
      ensures forall d :: d in r ==> d.id in orders && d.doc == orders[d.id]
      ensures !recent ==> forall id :: id in orders ==> Doc(id, orders[id]) in r
      ensures recent ==> |r| <= Orders.RecentCount
      ensures Orders.DistinctIds(r) && Orders.NewestFirst(r, Orders.UpdatedAt)
      ensures r == if recent then Limit(Orders.All(orders, nextId), Orders.RecentCount) else Orders.All(orders, nextId)
    {
      r := Orders.All(orders, nextId);
      if recent {
        r := Limit(r, Orders.RecentCount);
      }
    }

    /** GET /api/orders/myorders/mine and its /recent variant for the caller `uid`,
        and GET /api/orders/user/orders/:id for the id in the path: the orders of
        that user, the newest first, limited to three when `recent`. */
    method ListOwnedOrders(uid: Id, recent: bool) returns (r: seq<Doc<Order>>)
      requires Valid()
      ensures forall d :: d in r ==> d.id in orders && d.doc == orders[d.id] && d.doc.user == uid
      ensures !recent ==> forall id :: id in orders && orders[id].user == uid ==> Doc(id, orders[id]) in r
      ensures recent ==> |r| <= Orders.RecentCount
      ensures Orders.DistinctIds(r) && Orders.NewestFirst(r, Orders.CreatedAt)
      ensures r == if recent then Limit(Orders.OwnedOrders(orders, nextId, uid), Orders.RecentCount)
                   else Orders.OwnedOrders(orders, nextId, uid)
    {
      r := Orders.OwnedOrders(orders, nextId, uid);
      if recent {
        r := Limit(r, Orders.RecentCount);
      }
    }

    // -------------------------------------------------------------------------
    // Password reset
    // -------------------------------------------------------------------------

    /** POST /api/password-reset; `random` are the bytes a new token is made from,
        and the returned mail is what the mailer is handed. */
    method RequestReset(base: string, email: Option<string>, random: seq<Reset.byte>, now: int)
      returns (r: Response<string>, mail: Option<Reset.Mail>)
      requires Valid() && |random| == 32
      modifies this
      ensures Valid()
      ensures Reset.RequestOutcome(r, tokens, mail) == Reset.Request(old(users), old(tokens), base, email, random, now)
      ensures users == old(users) && products == old(products) && orders == old(orders) && nextId == old(nextId)
    {
      mail := None;
      if !Truthy(email) {
        return Reject(Reset.NoEmail), mail;
      }
      var found := FindByEmail(users, email.value);
      if found.None? {
        return Reject(Reset.UnknownEmail), mail;
      }
      var uid := found.value;
      if uid !in tokens {
        Reset.MintedIsHexToken(random);
        tokens := tokens[uid := Reset.ResetToken(Reset.Hex(random), now)];
      } else {
        assert tokens[uid := tokens[uid]] == tokens;
      }
      var link := Reset.ResetLink(base, uid, tokens[uid].token);
      mail := Some(Reset.Mail(users[uid].email, Reset.Subject, link));
      r := Reply(200, Reset.LinkSent);
    }

    /** GET /api/password-reset/:id/:token. */
    method ValidateLink(idText: string, token: string) returns (r: Response<string>)
      requires Valid()
      ensures r == Reset.Validate(users, tokens, idText, token)
    {
      r := Reset.Validate(users, tokens, idText, token);
    }

    /** POST /api/password-reset/:id/:token. */
    method ResetPassword(idText: string, token: string, password: Option<string>, c: Crypto) returns (r: Response<string>)
      requires Valid()
      modifies this
      ensures Valid()
      ensures Reset.ConsumeOutcome(r, users, tokens) == Reset.Consume(old(users), old(tokens), idText, token, password, c)
      ensures products == old(products) && orders == old(orders) && nextId == old(nextId)
    {
      if !Truthy(password) {
        return Reject(Reset.NoPassword);
      }
      if Utf16Len(password.value) < MinPassword {
        return Reject(ShortPassword);
      }
      var id := Reset.ParseId(idText);
      if id.None? {
        return Reject(Reset.CastFailed);
      }
      var uid := id.value;
      if uid !in users {
        return Reject(Reset.InvalidLink);
      }
      if !Reset.TokenMatches(tokens, uid, token) {
        return Reject(Reset.InvalidLink);
      }
      var user := users[uid];
      user := user.(verified := true);
      user := user.(password := c.hash(password.value));
      assert forall k :: k in users ==> users[uid := user][k].email == users[k].email;
      users := users[uid := user];
      tokens := tokens - {uid};
      r := Reply(200, Reset.ResetDone);
    }
  }
}
