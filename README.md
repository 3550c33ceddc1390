# Ade Farm Snails backend: a verified model of its route rules

The backend is an Express/Mongo REST service for a small shop. Users register, log
in and edit their profiles; admins edit users and the product catalogue; signed-in
users review products and place orders, which are then marked paid and delivered;
and a forgotten password is reset through an emailed link holding a one-time
token.

This project models the decision logic of those route handlers in Dafny, together
with the order schema, and proves what the handlers promise. It is split into
these modules:

- `Common` (`common.dfy`) holds the shared vocabulary:
  - optional request fields and JavaScript truthiness (`Truthy`), and the
    `given || current` merge-patch step (`Patch`);
  - the three ways a handler answers (`Reply`, `Error`, or no answer at all);
  - checks that run in a fixed order (`FirstFailure`);
  - the password hash and the credential signer, as a parameter (`Crypto`);
  - decimal ids.
- `OrderModel` (`order_model.dfy`) is the order schema: which paths are required,
  and the defaults filled in on the first save.
- `Orders` (`orders.dfy`) covers order creation, the paid and delivered
  transitions, and the sorted listings with their "recent three" variants.
- `Users` (`users.dfy`) covers registration, login, the self-service update with
  its optional password change, the admin update, and the user page.
- `Products` (`products.dfy`) covers product creation, reviews with the
  recomputed count and mean, edit, delete and lookup.
- `Reset` (`password_reset.dfy`) covers reset-token issuance, the reset link, link
  validation, and consuming the link.
- `Backend` (`store.dfy`) holds the class `Store`:
  - its fields are the four collections, each a `map` from id to record, plus
    the counter ids are issued from;
  - it has one method per route;
  - every method carries out the handler's steps on the loaded record and proves
    two things: that the answer and the new state are exactly those of the
    route's rule function, and that the store invariant `Valid()` is kept.

Each rule function returns the response together with the new collection. Its
contract spells out several things:

- every rejection and the order in which the checks run;
- that a rejection changes nothing;
- exactly what a success changes.

The lemmas beside each function relate the routes to one another. For example:

- a user can log in after registering;
- paying or delivering an order twice is the same as doing it once, at the later
  time;
- a second review by the same user is refused;
- a reset link is read back as the id and token that were put in it;
- a reset link works only once.

Hashing, signing, the clock and the random bytes behind a new token are all
parameters. The signer takes the user id and the issue time, as a JWT carries an
`iat` stamp. Almost every proof uses only one property of the hash, and it holds by
definition: a password verifies against its own hash. The one exception is the
second half of `Users.LoginAfterPasswordChange`, which takes injectivity of the
hash as an explicit hypothesis. Real bcrypt is not injective, because it ignores
input past the 72nd byte.

The two product routes treat `numReviews` and `rating` differently:

- the review route derives both from the reviews (routes/productRoute.js:133-137);
- creation stores whatever `numReviews` the client sends
  (routes/productRoute.js:79-96).

So the consistency invariant `RatingConsistent` is stated, and kept, only for
products that have at least one review.

## Model

| member | source | states |
|---|---|---|
| Common.Utf16Len | routes/userRoute.js:100-104 | JavaScript's `.length`: between the character count and twice it, equal to the character count exactly when no character lies above U+FFFF, twice it exactly when every one does |
| Common.Utf16LenConcat | routes/userRoute.js:100-104 | code-unit lengths add up over concatenation |
| Common.ThreeEmojiAreSix | routes/userRoute.js:104 | three U+1F600 characters are six code units, so they pass a six-character minimum |
| Common.Patch | routes/userRoute.js:224-226 | after the merge-patch assignment the field holds the given text when it is truthy and keeps its own value otherwise |
| Common.PatchNum | routes/productRoute.js:164 | the same merge-patch rule for a number, where 0 is falsy |
| Common.PatchOpt | routes/productRoute.js:166 | the same merge-patch rule for a stored field that may be absent |
| Common.Template | routes/productRoute.js:125 | `${field}` renders a present field as its text and an absent one as "undefined" |
| Common.Verify | routes/userRoute.js:176-177 | a password matches a stored hash exactly when its own hash is that hash (no contract of its own; its property is `Common.VerifyOwnHash`) |
| Common.Limit | routes/orderRoute.js:24 | `.limit(k)` keeps the first `min(k, n)` elements, in order |
| Common.FirstFailure | routes/userRoute.js:98-107 | when checks run in order, the error sent is that of the first failing check, and there is none exactly when every check passes |
| Common.FirstFailingAt | routes/userRoute.js:98-107 | a failing check preceded only by passing checks is the first failure |
| Common.FirstFailureAt | routes/userRoute.js:98-107 | that check's error is the one sent |
| Common.VerifyOwnHash | routes/userRoute.js:176-181 | a password always verifies against its own hash |
| Common.DecimalRoundTrip | routes/passwordReset.js:37 | the decimal text of an id reads back as the same id |
| OrderModel.Complete | models/orderModel.js:5-67 | every path the schema marks `required: true` is present, each item's four paths included (no contract of its own; `OrderModel.NewOrder` states that saving succeeds exactly when it holds) |
| OrderModel.ToItems | models/orderModel.js:5-24 | every submitted item is stored with its own name, qty, image and price, in order |
| OrderModel.NewOrder | models/orderModel.js:5-85 | saving succeeds exactly when every required path is present (a required String must also be non-empty). The saved order holds every path verbatim, has both flags false and neither status stamp, and has both timestamps at the save time |
| Orders.Create | routes/orderRoute.js:46-81 | an empty cart gives 400 "Cart is empty!"; an incomplete order gives 400 "Order not created! An error occured!"; either way nothing is stored. Otherwise exactly one order, built by `NewOrder`, is added, and 201 answers with it |
| Orders.Paid | routes/orderRoute.js:120-121 | sets `isPaid`, stamps `paidAt` and `updatedAt` with the clock, and changes no other field |
| Orders.Delivered | routes/orderRoute.js:139-140 | sets `isDelivered`, stamps `deliveredAt` and `updatedAt`, and changes no other field, payment fields included |
| Orders.MarkPaid | routes/orderRoute.js:117-131 | a missing order gives 404 "Order not found! An error occured!" and changes nothing. Otherwise only that order becomes `Paid`, and 201 answers with it |
| Orders.MarkDelivered | routes/orderRoute.js:136-150 | the same, for delivery |
| Orders.PayTwice | routes/orderRoute.js:117-125 | paying twice equals paying once at the later time: `isPaid` stays true and `paidAt` is the latest clock value |
| Orders.DeliverTwice | routes/orderRoute.js:136-144 | the same, for delivery |
| Orders.RoutesAdvance | routes/orderRoute.js:117-150 | no order route removes an order or clears a flag, and each keeps every flag in step with its timestamp |
| Orders.Get | routes/orderRoute.js:32-41 | answers 200 with the order, or 404 "Order does not exist!" |
| Orders.Matching | routes/orderRoute.js:87 | exactly the stored orders that match the filter, each once, in increasing id order |
| Orders.Insert | routes/orderRoute.js:88 | inserting into a listing adds exactly that one order: the result is a permutation of the listing with the order added |
| Orders.InsertNewestFirst | routes/orderRoute.js:88 | inserting into a newest-first listing keeps it newest-first |
| Orders.InsertDistinct | routes/orderRoute.js:88 | inserting an order whose id is new keeps the ids distinct |
| Orders.SortNewestFirst | routes/orderRoute.js:88 | sorting is a permutation: the same orders, each as often as before |
| Orders.SortedNewestFirst | routes/orderRoute.js:88 | the sorted listing is in descending order of the sort field |
| Orders.SortKeepsIdsDistinct | routes/orderRoute.js:88 | sorting keeps the ids distinct |
| Orders.Query | routes/orderRoute.js:87-89 | exactly the matching orders, each once, the newest first by the chosen timestamp |
| Orders.All | routes/orderRoute.js:11-16 | every order, each once, the most recently updated first |
| Orders.OwnedOrders | routes/orderRoute.js:86-91 | exactly the orders whose `user` is the given id, each once, the most recently created first |
| Orders.RecentIsNewest | routes/orderRoute.js:21-27 | a recent listing is the first `min(3, n)` of the full listing, and nothing it leaves out is newer than anything it keeps |
| Users.Public | routes/userRoute.js:136-145 | the projection sent back carries the user's id and email, and has no password field |
| Users.FindByEmail | routes/userRoute.js:90 | finds the user with that email, and finds nobody exactly when no user has it |
| Users.Registered | routes/userRoute.js:110-117 | the new user holds the submitted names, email and phone, a password hash the submitted password verifies against, `isAdmin` exactly when `true` was sent, and is not verified |
| Users.CredentialsMatch | routes/userRoute.js:169-177 | some user with the submitted email has a hash the password verifies against (no contract of its own; `Users.Login` succeeds exactly when it holds) |
| Users.Register | routes/userRoute.js:90-146 | a taken email is refused first, and every refusal changes nothing. A success adds exactly one user, stores the password's hash, and answers 200 with a credential (details below) |
| Users.RegisterFollowsChecks | routes/userRoute.js:90-107 | the error sent is that of the first failing check, in this order: taken email, missing field, phone length not 11, password shorter than 6 (lengths in UTF-16 code units). Registration succeeds exactly when none fails |
| Users.RegisterKeepsEmailsUnique | routes/userRoute.js:90-95 | registration never gives two users the same email |
| Users.RegisterTwice | routes/userRoute.js:90-95 | registering again with the same email is refused with "User already exist" and stores nothing |
| Users.Login | routes/userRoute.js:162-208 | missing fields, then an unknown email, are refused. Login succeeds exactly when a user with that email has a hash the password verifies against (details below) |
| Users.LoginFollowsChecks | routes/userRoute.js:166-181 | the error sent is that of the first failing check, in this order: missing fields, unknown email, failed verify. Login succeeds exactly when all pass |
| Users.LoginAfterRegister | routes/userRoute.js:166-201 | after registering, the same email and password log in at any later time. The login signs that time's credential for the new id and sends the same user projection as the registration |
| Users.PatchProfile | routes/userRoute.js:224-226 | the names and phone follow the merge-patch rule, and email, password, isAdmin and verified are kept |
| Users.UpdateProfile | routes/userRoute.js:211-325 | merge-patches the names and phone, and changes the password only after the password-change checks pass. Every refusal saves nothing (details below) |
| Users.PasswordChangeFollowsChecks | routes/userRoute.js:228-245 | with a current password given, the error sent is that of the first failing check, in this order: `newPassword !== confirmPassword` (409), no new password (404), new password shorter than 6 (400), current password fails to verify (409). The change succeeds exactly when all pass |
| Users.UpdateProfileKeepsEmailsUnique | routes/userRoute.js:224-226 | the self-update never gives two users the same email |
| Users.LoginAfterPasswordChange | routes/userRoute.js:247-256 | after a password change the new password logs in. With a hash that tells passwords apart, any other password gets "Invalid credentials!" |
| Users.AdminUpdate | routes/userRoute.js:327-346 | merge-patches the names and phone and overwrites `isAdmin`, keeping email, password and verified. Answers 201 with the full document (details below) |
| Users.AdminUpdateKeepsEmailsUnique | routes/userRoute.js:333-336 | the admin update never gives two users the same email |
| Users.GetUser | routes/userRoute.js:62-80 | an unknown id gives 404 "User does not exist!!!". Otherwise 200 answers with the user document and at most three of that user's orders: the first three of the user's newest-first listing |
| Products.NewProduct | routes/productRoute.js:89-96 | a new product holds the submitted fields, the client's `numReviews` (0 when absent), rating 0 and no reviews, and satisfies both review invariants |
| Products.Create | routes/productRoute.js:78-104 | refuses a falsy name, description or price, then a falsy image, changing nothing. Otherwise adds exactly one product with the submitted fields (details below) |
| Products.Sum | routes/productRoute.js:135-137 | the `reduce` over the reviews, adding each rating to the total so far from 0 (no contract of its own; `Products.SumWithin` bounds it) |
| Products.Reviewed | routes/productRoute.js:114-116 | `reviews.find` finds a review by that user (no contract of its own; `Products.AddReview` refuses exactly when it holds) |
| Products.NewReview | routes/productRoute.js:124-129 | the review carries the reviewer's id, the submitted rating and the comment, and the display name `${firstName} ${lastName}`: the two names joined by a space, an absent one rendered "undefined" |
| Products.WithReview | routes/productRoute.js:131-137 | after the push, the review is appended at the end, `numReviews` equals the review count, `rating` times that count equals the sum of the ratings, and the catalogue fields are unchanged |
| Products.AddReview | routes/productRoute.js:109-154 | a missing product, then an earlier review by the same user, then a falsy rating or comment, are refused, changing nothing. A success appends one review and recomputes the count and mean (details below) |
| Products.AddReviewKeepsInvariants | routes/productRoute.js:114-137 | reviews keep every product's count and mean consistent, and keep at most one review per user on each product |
| Products.ReviewTwice | routes/productRoute.js:114-120 | a second review by the same user is refused with "Product already reviewed by you!" and changes nothing |
| Products.SumWithin | routes/productRoute.js:135-137 | with every rating between `lo` and `hi`, the sum lies between `lo·n` and `hi·n` |
| Products.RatingWithinReviews | routes/productRoute.js:135-137 | a consistent product's mean rating lies within the range of its reviews' ratings |
| Products.Edit | routes/productRoute.js:156-181 | merge-patches the five catalogue fields and keeps the reviews, count and rating. A missing id is refused, changing nothing (details below) |
| Products.EditKeepsInvariants | routes/productRoute.js:162-166 | an edit keeps both review invariants on every product |
| Products.EditTwice | routes/productRoute.js:162-166 | repeating an edit changes nothing more: the edit is idempotent |
| Products.Delete | routes/productRoute.js:186-201 | an existing id is removed, and only that product, with 200 `{ success: true }`. A missing id gives 400 "Product does not exist!!!" and changes nothing |
| Products.DeletedIsGone | routes/productRoute.js:186-198 | after deletion the product can no longer be read, edited, reviewed or deleted; each attempt is refused and changes nothing |
| Products.Get | routes/productRoute.js:63-73 | answers 200 with the product, or 400 "Product does not exist!!!" |
| Reset.Hex | routes/passwordReset.js:33 | the hex text has two characters per byte, all lower-case hex digits |
| Reset.HexRoundTrip | routes/passwordReset.js:33 | decoding the hex text gives back the bytes |
| Reset.MintedIsHexToken | routes/passwordReset.js:33 | a token made from 32 bytes is 64 hex characters |
| Reset.SplitAtSlash | routes/passwordReset.js:53 | splits a path at its first '/', and fails exactly when there is none |
| Reset.SplitAtFirstSlash | routes/passwordReset.js:53 | a segment without '/' is split off exactly |
| Reset.ParseLink | routes/passwordReset.js:53 | whatever the router reads from a link reassembles to that link, and both pieces are route segments: non-empty, without '/' |
| Reset.LinkParts | routes/passwordReset.js:53 | a link is its prefix, its id segment and its token segment, joined by '/' |
| Reset.ParseId | routes/passwordReset.js:55 | only a non-empty string of digits is taken as an id |
| Reset.ResetLink | routes/passwordReset.js:37 | the link is the base address, `/password-reset/`, the decimal id, '/', the token and '/' (no contract of its own; `Reset.LinkRoundTrip` reads it back) |
| Reset.LinkRoundTrip | routes/passwordReset.js:37 | the router reads back from a reset link exactly the user id and token that were put in it, and matches no route when the token is empty or holds a '/' |
| Reset.TokenFor | routes/passwordReset.js:29-35 | the user's existing token is reused; otherwise a new one is made from the random bytes and the clock |
| Reset.Request | routes/passwordReset.js:13-51 | an empty email, then an unknown email, are refused, changing nothing. A success reuses or mints the user's token and mails the link (details below) |
| Reset.RequestTwice | routes/passwordReset.js:29-35 | a second request, whatever its random bytes and time, leaves the same single token and mails the same link: issuance is idempotent |
| Reset.TokenMatches | routes/passwordReset.js:58-61 | the user's stored token has exactly the link's text (no contract of its own; `Reset.Validate` accepts exactly when it holds) |
| Reset.Validate | routes/passwordReset.js:53-68 | the link is valid exactly when the user exists and owns that token. It never changes anything (details below) |
| Reset.IssuedLinkIsValid | routes/passwordReset.js:37-64 | when every stored token is a minted hex token (as the store keeps), the link a successful request mails validates with "Valid Link" |
| Reset.Consume | routes/passwordReset.js:70-109 | password checks come before any lookup, then a bad id or token gives "Invalid link", changing nothing. A success sets the hashed password and `verified`, and deletes the token (details below) |
| Reset.ConsumeTwice | routes/passwordReset.js:89-103 | after a successful reset, checking or using the same link again gives "Invalid link" and changes nothing |
| Reset.LoginAfterReset | routes/passwordReset.js:95-102 | after a reset the user logs in with the new password |
| Backend.Store.constructor | server.js:30-37 | the store starts empty and satisfies the invariant |
| Backend.Store.Register | routes/userRoute.js:86-157 | makes exactly the change `Users.Register` describes, issues the next id on success, and keeps `Valid()` |
| Backend.Store.Login | routes/userRoute.js:162-208 | returns `Users.Login` on the current users at the request time, and changes nothing |
| Backend.Store.UpdateProfile | routes/userRoute.js:211-325 | patches the loaded user field by field and saves it only on success, as `Users.UpdateProfile` describes; keeps `Valid()` |
| Backend.Store.AdminUpdate | routes/userRoute.js:327-346 | makes exactly the change `Users.AdminUpdate` describes and keeps `Valid()` |
| Backend.Store.GetUser | routes/userRoute.js:62-80 | answers as `Users.GetUser` on the current users and orders |
| Backend.Store.CreateProduct | routes/productRoute.js:78-104 | makes exactly the change `Products.Create` describes, issues the next id on success, and keeps `Valid()` |
| Backend.Store.AddReview | routes/productRoute.js:109-154 | pushes the review, recomputes the count and the mean, saves the product as `Products.AddReview` describes, and keeps `Valid()` |
| Backend.Store.EditProduct | routes/productRoute.js:156-181 | makes exactly the change `Products.Edit` describes and keeps `Valid()` |
| Backend.Store.DeleteProduct | routes/productRoute.js:186-201 | makes exactly the change `Products.Delete` describes and keeps `Valid()` |
| Backend.Store.GetProduct | routes/productRoute.js:63-73 | answers as `Products.Get` |
| Backend.Store.CreateOrder | routes/orderRoute.js:46-81 | makes exactly the change `Orders.Create` describes, issues the next id on success, never clears a flag, and keeps `Valid()` |
| Backend.Store.PayOrder | routes/orderRoute.js:117-131 | sets the flag and stamps on the loaded order as `Orders.MarkPaid` describes, never clears a flag, and keeps `Valid()` |
| Backend.Store.DeliverOrder | routes/orderRoute.js:136-150 | the same, for `Orders.MarkDelivered` |
| Backend.Store.GetOrder | routes/orderRoute.js:32-41 | answers as `Orders.Get` |
| Backend.Store.ListOrders | routes/orderRoute.js:11-27 | every stored order, each once, the most recently updated first. The recent variant gives at most three, the head of that listing |
| Backend.Store.ListOwnedOrders | routes/orderRoute.js:86-112 | exactly the orders of the given user, each once, the most recently created first. The recent variant gives at most three, the head of that listing |
| Backend.Store.RequestReset | routes/passwordReset.js:13-51 | makes exactly the token change `Reset.Request` describes, returns the mail it describes, touches no other collection, and keeps `Valid()` |
| Backend.Store.ValidateLink | routes/passwordReset.js:53-68 | answers as `Reset.Validate` and changes nothing |
| Backend.Store.ResetPassword | routes/passwordReset.js:70-109 | updates the user and deletes the token as `Reset.Consume` describes, and keeps `Valid()` |

The route rule functions have these contracts in full:

- **Users.Register**:
  - A taken email is refused with 400 "User already exist! Please Login!" before
    any field is checked.
  - Every refusal leaves the users unchanged.
  - A success adds exactly one user. That user holds the submitted fields, and its
    `password` is the hash of the submitted password, which verifies against it.
  - The answer is 200 with a signed credential and the projection.
- **Users.Login**:
  - A missing email or password is refused with "Please enter all fields!"
    without looking at the store.
  - An unknown email gets "User does not exist! Please Register!".
  - Login succeeds exactly when some user with that email has a hash the password
    verifies against. The answer then carries that user's credential and
    projection.
- **Users.UpdateProfile**:
  - An unknown user gets no answer and nothing changes.
  - Without a current password the update always succeeds.
  - Every refusal saves nothing, not even the name and phone patch.
  - A success changes only that user:
    - firstName, lastName and phoneNumber follow the merge-patch rule;
    - email, isAdmin and verified are kept;
    - the password is kept when no current password is given;
    - otherwise the current password verified, the new and retyped passwords are
      equal and at least 6 UTF-16 code units long, and the stored password becomes the hash of the
      new one.
- **Users.AdminUpdate**:
  - An unknown id gets no answer and nothing changes.
  - Otherwise, on that user only:
    - names and phone follow the merge-patch rule;
    - `isAdmin` is overwritten by the submitted value (false when absent);
    - email, password and verified are kept.
  - The answer is 201 with the whole saved document, password hash included.
- **Products.Create**:
  - A falsy name, description or price is refused with 400 "Please enter all
    fields!".
  - Then a falsy image is refused with 400 "Please upload product image".
  - Creation succeeds exactly when neither check fails; a refusal stores nothing.
  - A success adds exactly one product. It holds the submitted fields, the
    client's `numReviews` (0 when absent), rating 0 and no reviews, and 201
    answers with it.
- **Products.AddReview**:
  - These checks run in order:
    1. a missing product gives 404 "An error occured! Product does not exist!!!";
    2. a user who already left a review gets 400 "Product already reviewed by
       you!";
    3. a falsy rating or comment gets 400 "Please enter all fields!".
  - Every refusal changes nothing.
  - A success changes only that product:
    - exactly one review is appended at the end;
    - `numReviews` becomes the review count;
    - `rating` times `numReviews` is the sum of the ratings;
    - the catalogue fields are kept;
    - 201 answers with the product and "Review Added successfully!".
- **Products.Edit**:
  - A missing id gives 400 "Product does not exist!!!" and changes nothing.
  - Otherwise, on that product only:
    - name, description, price, image and imagePublicId each take the submitted
      value when it is truthy and keep their own otherwise;
    - reviews, numReviews and rating are kept;
    - 201 answers with the product.
- **Reset.Request**:
  - An empty email is refused with 400 "Please enter email!" before any lookup.
  - An unknown email gets 409 "User with given email does not exist!".
  - Neither refusal changes the tokens or sends mail.
  - On success:
    - the user's existing token is reused when there is one;
    - otherwise exactly one token is added: the hex text of the 32 random bytes,
      64 characters long;
    - the mail goes to the user with the link
      `base + "/password-reset/" + id + "/" + token + "/"`;
    - the answer is 200.
- **Reset.Validate**:
  - An id segment that is not an id gives 400 "An error occured!".
  - The link is valid exactly when that user exists and owns a token with that
    text; otherwise the answer is 400 "Invalid link".
  - Nothing is ever changed.
- **Reset.Consume**:
  - A missing password is refused with 400 "Please enter password!".
  - Then a password shorter than 6 is refused with 400 "Password character should
    be at least 6 character long!".
  - Both checks come before any lookup.
  - A bad user or token gives "Invalid link".
  - Every refusal changes nothing.
  - A success:
    - sets that user's password to the hash of the new one and `verified` to true;
    - deletes that user's token and no other;
    - answers 200 "Password reset successfully".

## Left out

- Password hashing and credential signing (bcrypt with a random salt, and JWT) are
  abstract functions passed in. The hash is a plain function of the password, so
  salting is not modelled. The signer is a function of the user id and the issue
  time. The secret, the token's encoding and its expiry are not modelled.
- The credential check of the `auth` middleware is not modelled. The signed-in
  user's id is a parameter of the routes that need it.
- Failed database calls and the `.catch` branches they reach are not modelled,
  because an in-memory map does not fail. These include the "An error occured!"
  answers of the listings and lookups, the "Product not deleted!" answers, and
  failed saves. Two `.catch` branches are kept. One is the password-reset
  handlers' answer to an `:id` segment that is not an id. The other is the
  self-update's 404 "User does not exist! An error occured!"
  (routes/userRoute.js:320-324), which is reached when `newPassword.length` throws
  on an absent new password (`Users.NoNewPassword`).
- Ids are natural numbers issued from a counter, and they appear in reset links
  as decimal text. The database's ObjectId format, and the cast error `findById`
  raises on a malformed id, are not modelled. The one exception is the reset
  link, as above.
- `if (err) throw err` inside callbacks is crash behaviour and is not modelled.
- The handlers are asynchronous: for example, the admin update answers before its
  save resolves. This, and interleaving between concurrent requests, are not
  modelled; each route runs to completion on the store.
- Users.UpdateProfile and Users.AdminUpdate on an unknown user send no answer at
  all. They are modelled as `NoReply` with no change.
- Not modelled: the keyword search of `GET /api/users` and `GET /api/products`. It
  relies on the database's case-insensitive regular expressions.
- Not modelled: the "recent users" and "recent products" listings. They sort by
  timestamps of the user and product schemas, which are not part of this model.
- The user, product and token schemas are not part of this model. Their defaults
  are assumed:
  - `verified` is false, and `isAdmin` is false when absent;
  - `numReviews` is 0 when absent, `rating` is 0 and `reviews` is empty;
  - a token's `createdAt` is the time of the request.
  Their validators are not modelled: a product save always succeeds.
- Products.Create stores the client's `numReviews` as the code does. Because of
  this, `Products.RatingConsistent` is stated only for products with at least one
  review.
- Users.AdminUpdate: assigning an absent `isAdmin` unsets the field in the
  database. The model stores false instead.
- Request bodies are typed. Strings sent for numbers (the `Number(rating)`
  conversion and the schema casts), a missing `orderItems` array (which throws an
  unhandled error at `orderItems.length`), and NaN are not modelled. Prices,
  quantities and ratings are reals.
- The failure of the review route's `product.save()` is not modelled; it sends no
  answer.
- `middleware/sendEmail.js` does HTML templating and the mail transport, and it
  swallows its own failures. The reset request instead returns the mail it hands
  over (recipient, subject and link), and this step cannot fail the request.
- The `Email` and `Password` records the reset routes construct are never saved,
  and have no effect.
- `routes/uploadRoute.js` is not part of this model; it forwards calls to the image
  host.
- `server.js` is not part of this model beyond the route prefixes. It imports
  `./routes/passwordResetRoute.js`, while the reset routes modelled here are those
  of `routes/passwordReset.js`.
- Reset tokens carry a creation time but no expiry. The routes enforce none, and
  neither does the model. The token schema, where a database expiry could be
  declared, is not part of this model.
- Reset.Request, Backend.Store.RequestReset, Users.FindByEmail and Users.Login:
  `findOne({ email })` (routes/userRoute.js:90 and 169, routes/passwordReset.js:23)
  returns one user among several with the same email. The model instead requires
  unique emails (an invariant the store keeps), so that lookup is determined.
- Orders.SortNewestFirst: orders with equal sort timestamps come out in increasing
  id order, so the "recent three" listings and the user page pick one definite set
  of three. The database leaves the order of such ties unspecified.
- Reset.IssuedLinkIsValid: an existing token that is empty or holds a '/' would
  make a mailed link that matches no route. The store only ever holds minted hex
  tokens, so the lemma assumes that.
- String lengths are counted as JavaScript does, in UTF-16 code units
  (`Common.Utf16Len`). Percent-decoding of path segments by the router is not
  modelled: `ParseLink` takes the raw path.
