/** The product routes: creation, review submission with the recomputed count and
    mean rating, the merge-patch edit, deletion and lookup by id. */
module Products {
  import opened Common

  /** A review embedded in a product; `user` is the reviewer's id. */
  datatype Review = Review(name: string, rating: real, comment: string, user: Id)

  /** A stored product. `numReviews` and `rating` are derived from `reviews` by the
      review route; creation takes `numReviews` from the client. */
  datatype Product = Product(
    name: string,
    image: string,
    imagePublicId: Option<string>,
    description: string,
    price: real,
    numReviews: real,
    rating: real,
    reviews: seq<Review>)

  /** `reviews.reduce((acc, item) => item.rating + acc, 0)`. */
  function Sum(rs: seq<Review>): real
  {
    if |rs| == 0 then 0.0 else Sum(rs[..|rs| - 1]) + rs[|rs| - 1].rating
  }

  /** `numReviews` counts the reviews and `rating` is their mean, once there is a
      review to count. */
  ghost predicate RatingConsistent(p: Product)
  {
    |p.reviews| > 0 ==>
      && p.numReviews == |p.reviews| as real
      && p.rating * (|p.reviews| as real) == Sum(p.reviews)
  }

  /** The user has a review on the product. */
  predicate Reviewed(p: Product, uid: Id)
  {
    exists i :: 0 <= i < |p.reviews| && p.reviews[i].user == uid
  }

  /** No user has two reviews on the product. */
  ghost predicate OneReviewPerUser(p: Product)
  {
    forall i, j :: 0 <= i < |p.reviews| && 0 <= j < |p.reviews| && p.reviews[i].user == p.reviews[j].user ==> i == j
  }

  const ProductMissing := Rejection(400, "Product does not exist!!!")

  // ---------------------------------------------------------------------------
  // POST /api/products
  // ---------------------------------------------------------------------------

  datatype CreateRequest = CreateRequest(
    name: Option<string>,
    image: Option<string>,
    description: Option<string>,
    price: Option<real>,
    numReviews: Option<real>,
    imagePublicId: Option<string>)

  const NoImage := Rejection(400, "Please upload product image")

  /** The product a successful creation saves: the submitted fields, `numReviews`
      as submitted (0 when absent), no rating and no reviews. */
  function NewProduct(req: CreateRequest): (p: Product)
    requires Truthy(req.name) && Truthy(req.description) && TruthyNum(req.price) && Truthy(req.image)
    ensures Some(p.name) == req.name && Some(p.description) == req.description
            && Some(p.price) == req.price && Some(p.image) == req.image && p.imagePublicId == req.imagePublicId
    ensures p.numReviews == (if req.numReviews.Some? then req.numReviews.value else 0.0) && p.rating == 0.0
    ensures p.reviews == [] && RatingConsistent(p) && OneReviewPerUser(p)
  {
    Product(req.name.value, req.image.value, req.imagePublicId, req.description.value, req.price.value,
            if req.numReviews.Some? then req.numReviews.value else 0.0, 0.0, [])
  }

  /** Product creation, with `id` the id the store issues next. */
  function Create(products: map<Id, Product>, id: Id, req: CreateRequest): (out: (Response<Doc<Product>>, map<Id, Product>))
    requires id !in products
    ensures !(Truthy(req.name) && Truthy(req.description) && TruthyNum(req.price)) ==> out == (Reject(MissingFields), products)
    ensures Truthy(req.name) && Truthy(req.description) && TruthyNum(req.price) && !Truthy(req.image)
            ==> out == (Reject(NoImage), products)
    ensures out.0.Reply? <==> Truthy(req.name) && Truthy(req.description) && TruthyNum(req.price) && Truthy(req.image)
    ensures !out.0.Reply? ==> out.1 == products
    ensures out.0.Reply? ==>
              && out.1.Keys == products.Keys + {id}
              && (forall k :: k in products ==> out.1[k] == products[k])
              && Some(out.1[id].name) == req.name && Some(out.1[id].description) == req.description
              && Some(out.1[id].price) == req.price && Some(out.1[id].image) == req.image
              && out.1[id].imagePublicId == req.imagePublicId
              && out.1[id].reviews == [] && out.1[id].rating == 0.0
              && out.1[id].numReviews == (if req.numReviews.Some? then req.numReviews.value else 0.0)
              && out.0 == Reply(201, Doc(id, out.1[id]))
  {
    if !Truthy(req.name) || !Truthy(req.description) || !TruthyNum(req.price) then (Reject(MissingFields), products)
    else if !Truthy(req.image) then (Reject(NoImage), products)
    else
      var p := NewProduct(req);
      (Reply(201, Doc(id, p)), products[id := p])
  }

  // ---------------------------------------------------------------------------
  // POST /api/products/:id/reviews
  // ---------------------------------------------------------------------------

  datatype ReviewRequest = ReviewRequest(
    comment: Option<string>,
    rating: Option<real>,
    firstName: Option<string>,
    lastName: Option<string>)

  /** What a successful review submission answers with. */
  datatype ReviewResult = ReviewAdded(product: Doc<Product>, msg: string)

  const ReviewProductMissing := Rejection(404, "An error occured! Product does not exist!!!")
  const AlreadyReviewed := Rejection(400, "Product already reviewed by you!")
  const ReviewAddedMsg := "Review Added successfully!"

  /** The review a submission by `uid` appends: the display name is the two name
      parts as a template literal renders them. */
  function NewReview(req: ReviewRequest, uid: Id): (r: Review)
    requires TruthyNum(req.rating) && Truthy(req.comment)
    ensures r.user == uid && r.rating == req.rating.value && r.comment == req.comment.value
    ensures r.name == Template(req.firstName) + " " + Template(req.lastName)
    ensures req.firstName.Some? && req.lastName.Some? ==> r.name == req.firstName.value + " " + req.lastName.value
  {
    Review(Template(req.firstName) + " " + Template(req.lastName), req.rating.value, req.comment.value, uid)
  }

  /** The loaded product after the push and the two reassignments. */
  function WithReview(p: Product, r: Review): (q: Product)
    ensures q.reviews == p.reviews + [r]
    ensures RatingConsistent(q)
    ensures q.name == p.name && q.image == p.image && q.imagePublicId == p.imagePublicId
            && q.description == p.description && q.price == p.price
  {
    var rs := p.reviews + [r];
    var n := |rs| as real;
    p.(reviews := rs, numReviews := n, rating := Sum(rs) / n)
  }

  /** A review of product `pid` by the signed-in user `uid`. */
  function AddReview(products: map<Id, Product>, pid: Id, uid: Id, req: ReviewRequest): (out: (Response<ReviewResult>, map<Id, Product>))
    ensures pid !in products ==> out == (Reject(ReviewProductMissing), products)
    ensures pid in products && Reviewed(products[pid], uid) ==> out == (Reject(AlreadyReviewed), products)
    ensures pid in products && !Reviewed(products[pid], uid) && !(TruthyNum(req.rating) && Truthy(req.comment))
            ==> out == (Reject(MissingFields), products)
    ensures out.0.Reply? <==> pid in products && !Reviewed(products[pid], uid) && TruthyNum(req.rating) && Truthy(req.comment)
    ensures !out.0.Reply? ==> out.1 == products
    ensures out.0.Reply? ==>
              && out.1.Keys == products.Keys
              && (forall k :: k in products && k != pid ==> out.1[k] == products[k])
              && out.1[pid].reviews == products[pid].reviews + [NewReview(req, uid)]
              && out.1[pid].numReviews == |out.1[pid].reviews| as real
              && out.1[pid].rating * out.1[pid].numReviews == Sum(out.1[pid].reviews)
              && out.1[pid].name == products[pid].name && out.1[pid].description == products[pid].description
              && out.1[pid].price == products[pid].price && out.1[pid].image == products[pid].image
              && out.1[pid].imagePublicId == products[pid].imagePublicId
              && out.0 == Reply(201, ReviewAdded(Doc(pid, out.1[pid]), ReviewAddedMsg))
  {
    if pid !in products then (Reject(ReviewProductMissing), products)
    else
      var p := products[pid];
      if Reviewed(p, uid) then (Reject(AlreadyReviewed), products)
      else if !TruthyNum(req.rating) || !Truthy(req.comment) then (Reject(MissingFields), products)
      else
        var q := WithReview(p, NewReview(req, uid));
        (Reply(201, ReviewAdded(Doc(pid, q), ReviewAddedMsg)), products[pid := q])
  }

  /** A review keeps every product consistent and keeps one review per user. */
  lemma AddReviewKeepsInvariants(products: map<Id, Product>, pid: Id, uid: Id, req: ReviewRequest)
    requires forall k :: k in products ==> RatingConsistent(products[k]) && OneReviewPerUser(products[k])
    ensures var after := AddReview(products, pid, uid, req).1;
            forall k :: k in after ==> RatingConsistent(after[k]) && OneReviewPerUser(after[k])
  {
    var out := AddReview(products, pid, uid, req);
    if out.0.Reply? {
      var before := products[pid].reviews;
      var rs := out.1[pid].reviews;
      assert forall i :: 0 <= i < |before| ==> rs[i] == before[i] && before[i].user != uid;
      assert rs[|before|].user == uid;
    }
  }

  /** The second review by the same user is refused and changes nothing. */
  lemma ReviewTwice(products: map<Id, Product>, pid: Id, uid: Id, req: ReviewRequest, req2: ReviewRequest)
    requires AddReview(products, pid, uid, req).0.Reply?
    ensures var after := AddReview(products, pid, uid, req).1;
            AddReview(after, pid, uid, req2) == (Reject(AlreadyReviewed), after)
  {
    var after := AddReview(products, pid, uid, req).1;
    var rs := after[pid].reviews;
    assert rs[|rs| - 1].user == uid;
  }

  /** Every rating of the reviews lies between `lo` and `hi`. */
  ghost predicate RatingsWithin(rs: seq<Review>, lo: real, hi: real)
  {
    forall i :: 0 <= i < |rs| ==> lo <= rs[i].rating <= hi
  }

  lemma {:induction false} SumWithin(rs: seq<Review>, lo: real, hi: real)
    requires RatingsWithin(rs, lo, hi)
    ensures lo * (|rs| as real) <= Sum(rs) <= hi * (|rs| as real)
  {
    if |rs| > 0 {
      var init := rs[..|rs| - 1];
      assert RatingsWithin(init, lo, hi) by {
        assert forall i :: 0 <= i < |init| ==> init[i] == rs[i];
      }
      SumWithin(init, lo, hi);
      assert lo <= rs[|rs| - 1].rating <= hi;
    }
  }

  /** The mean rating of a consistent product lies within the range of its reviews'
      ratings: with every rating between 1 and 5, so is the product's. */
  lemma RatingWithinReviews(p: Product, lo: real, hi: real)
    requires RatingConsistent(p) && |p.reviews| > 0
    requires RatingsWithin(p.reviews, lo, hi)
    ensures lo <= p.rating <= hi
  {
    SumWithin(p.reviews, lo, hi);
    var n := |p.reviews| as real;
    assert p.rating * n == Sum(p.reviews);
  }

  // ---------------------------------------------------------------------------
  // PUT /api/products
  // ---------------------------------------------------------------------------

  datatype EditRequest = EditRequest(
    id: Id,
    name: Option<string>,
    image: Option<string>,
    description: Option<string>,
    price: Option<real>,
    imagePublicId: Option<string>)

  /** The edit of product `req.id`: each catalogue field takes the submitted value
      when it is truthy and keeps its own otherwise. */
  function Edit(products: map<Id, Product>, req: EditRequest): (out: (Response<Doc<Product>>, map<Id, Product>))
    ensures req.id !in products ==> out == (Reject(ProductMissing), products)
    ensures req.id in products ==>
              && out.1.Keys == products.Keys
              && (forall k :: k in products && k != req.id ==> out.1[k] == products[k])
              && (Truthy(req.name) ==> out.1[req.id].name == req.name.value)
              && (!Truthy(req.name) ==> out.1[req.id].name == products[req.id].name)
              && (Truthy(req.description) ==> out.1[req.id].description == req.description.value)
              && (!Truthy(req.description) ==> out.1[req.id].description == products[req.id].description)
              && (TruthyNum(req.price) ==> out.1[req.id].price == req.price.value)
              && (!TruthyNum(req.price) ==> out.1[req.id].price == products[req.id].price)
              && (Truthy(req.image) ==> out.1[req.id].image == req.image.value)
              && (!Truthy(req.image) ==> out.1[req.id].image == products[req.id].image)
              && (Truthy(req.imagePublicId) ==> out.1[req.id].imagePublicId == req.imagePublicId)
              && (!Truthy(req.imagePublicId) ==> out.1[req.id].imagePublicId == products[req.id].imagePublicId)
              && out.1[req.id].reviews == products[req.id].reviews
              && out.1[req.id].numReviews == products[req.id].numReviews
              && out.1[req.id].rating == products[req.id].rating
              && out.0 == Reply(201, Doc(req.id, out.1[req.id]))
  {
    if req.id !in products then (Reject(ProductMissing), products)
    else
      var p := products[req.id];
      var q := p.(name := Patch(req.name, p.name),
                  description := Patch(req.description, p.description),
                  price := PatchNum(req.price, p.price),
                  image := Patch(req.image, p.image),
                  imagePublicId := PatchOpt(req.imagePublicId, p.imagePublicId));
      (Reply(201, Doc(req.id, q)), products[req.id := q])
  }

  /** An edit keeps every product consistent and keeps one review per user. */
  lemma EditKeepsInvariants(products: map<Id, Product>, req: EditRequest)
    requires forall k :: k in products ==> RatingConsistent(products[k]) && OneReviewPerUser(products[k])
    ensures var after := Edit(products, req).1;
            forall k :: k in after ==> RatingConsistent(after[k]) && OneReviewPerUser(after[k])
  {
    var after := Edit(products, req).1;
    forall k | k in after
      ensures RatingConsistent(after[k]) && OneReviewPerUser(after[k])
    {
      SameReviews(products[k], after[k]);
    }
  }

  /** Both invariants depend only on the reviews and the two derived fields. */
  lemma SameReviews(p: Product, q: Product)
    requires RatingConsistent(p) && OneReviewPerUser(p)
    requires q.reviews == p.reviews && q.numReviews == p.numReviews && q.rating == p.rating
    ensures RatingConsistent(q) && OneReviewPerUser(q)
  {
  }

  /** Submitting the current values again, or nothing at all, leaves the product as
      it is: the edit is idempotent. */
  lemma EditTwice(products: map<Id, Product>, req: EditRequest)
    ensures var once := Edit(products, req).1;
            Edit(once, req).1 == once
  {
    var once := Edit(products, req).1;
    if req.id in products {
      assert once[req.id := Edit(once, req).1[req.id]] == once;
    }
  }

  // ---------------------------------------------------------------------------
  // DELETE /api/products/:id and GET /api/products/:id
  // ---------------------------------------------------------------------------

  /** Deletion of product `id`; the success body is `{ success: true }`. */
  function Delete(products: map<Id, Product>, id: Id): (out: (Response<bool>, map<Id, Product>))
    ensures id !in products ==> out == (Reject(ProductMissing), products)
    ensures id in products ==>
              && out.0 == Reply(200, true)
              && out.1.Keys == products.Keys - {id}
              && (forall k :: k in out.1 ==> out.1[k] == products[k])
  {
    if id in products then (Reply(200, true), products - {id}) else (Reject(ProductMissing), products)
  }

  /** A deleted product can no longer be read, edited, reviewed or deleted again. */
  lemma DeletedIsGone(products: map<Id, Product>, id: Id, uid: Id, req: ReviewRequest, edit: EditRequest)
    requires id in products && edit.id == id
    ensures var after := Delete(products, id).1;
            && Get(after, id) == Reject(ProductMissing)
            && Edit(after, edit) == (Reject(ProductMissing), after)
            && AddReview(after, id, uid, req) == (Reject(ReviewProductMissing), after)
            && Delete(after, id) == (Reject(ProductMissing), after)
  {
  }

  function Get(products: map<Id, Product>, id: Id): (r: Response<Doc<Product>>)
    ensures id in products <==> r.Reply?
    ensures id in products ==> r == Reply(200, Doc(id, products[id]))
    ensures id !in products ==> r == Reject(ProductMissing)
  {
    if id in products then Reply(200, Doc(id, products[id])) else Reject(ProductMissing)
  }
}
