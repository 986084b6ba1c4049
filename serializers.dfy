/**
 * The serializers: the aggregates shown with a product's details, the review
 * validation and creation rules, and the field sets of the representations.
 */
module Serializers {
  import opened Models
  import opened Query

  // ---------------------------------------------------------------------------
  // Aggregates of the product detail view
  // ---------------------------------------------------------------------------

  function Sum(xs: seq<int>): int
  {
    if xs == [] then 0 else xs[0] + Sum(xs[1..])
  }

  /** Mean of the ratings, 0 when there are none (before rounding to one decimal). */
  function Rating(ratings: seq<int>): (r: real)
    ensures |ratings| == 0 ==> r == 0.0
    ensures |ratings| > 0 ==> r * |ratings| as real == Sum(ratings) as real
  {
    if |ratings| > 0 then Sum(ratings) as real / |ratings| as real else 0.0
  }

  /** `sum(values_list('rating'))` over the reviews of product `p`. */
  function RatingTotal(reviews: seq<Review>, p: ProductId): int
  {
    if reviews == [] then 0
    else (if reviews[0].product == p then reviews[0].rating else 0) + RatingTotal(reviews[1..], p)
  }

  /** `reviews.count()` for product `p`. */
  function ReviewCount(reviews: seq<Review>, p: ProductId): nat
  {
    if reviews == [] then 0
    else (if reviews[0].product == p then 1 else 0) + ReviewCount(reviews[1..], p)
  }

  /** The ratings of the reviews of product `p`, in store order. */
  function ProductRatings(reviews: seq<Review>, p: ProductId): (r: seq<int>)
    ensures |r| == ReviewCount(reviews, p)
    ensures Sum(r) == RatingTotal(reviews, p)
    ensures forall x :: x in r <==> exists rv :: rv in reviews && rv.product == p && rv.rating == x
  {
    if reviews == [] then []
    else
      var rest := ProductRatings(reviews[1..], p);
      assert forall rv :: rv in reviews[1..] ==> rv in reviews;
      assert forall rv :: rv in reviews ==> rv == reviews[0] || rv in reviews[1..];
      if reviews[0].product == p then
        assert ([reviews[0].rating] + rest)[1..] == rest;
        [reviews[0].rating] + rest
      else
        rest
  }

  /** `get_rating`: the product's mean rating, 0 without reviews. */
  function ProductRating(reviews: seq<Review>, p: ProductId): (r: real)
    ensures ReviewCount(reviews, p) == 0 ==> r == 0.0
    ensures ReviewCount(reviews, p) > 0 ==> r * ReviewCount(reviews, p) as real == RatingTotal(reviews, p) as real
  {
    Rating(ProductRatings(reviews, p))
  }

  /** The sum lies between the count times any lower and upper bound of its terms. */
  lemma {:induction false} SumBounds(xs: seq<int>, lo: int, hi: int)
    requires forall x :: x in xs ==> lo <= x <= hi
    ensures lo * |xs| <= Sum(xs) <= hi * |xs|
  {
    if xs != [] {
      var rest := xs[1..];
      assert lo <= xs[0] <= hi by {
        assert xs[0] in xs;
      }
      assert forall x :: x in rest ==> lo <= x <= hi by {
        forall x | x in rest ensures lo <= x <= hi {
          assert x in xs;
        }
      }
      SumBounds(rest, lo, hi);
      assert Sum(xs) == xs[0] + Sum(rest);
      assert lo * |xs| == lo * |rest| + lo && hi * |xs| == hi * |rest| + hi by {
        assert |xs| == |rest| + 1;
      }
    }
  }

  /** A product without reviews is rated 0. */
  lemma NoReviewsRatedZero(reviews: seq<Review>, p: ProductId)
    requires forall rv :: rv in reviews ==> rv.product != p
    ensures ProductRating(reviews, p) == 0.0
  {
    NoReviewsCountZero(reviews, p);
  }

  /** A product none of whose reviews is stored has a review count of 0. */
  lemma {:induction false} NoReviewsCountZero(reviews: seq<Review>, p: ProductId)
    requires forall rv :: rv in reviews ==> rv.product != p
    ensures ReviewCount(reviews, p) == 0
  {
    if reviews != [] {
      assert reviews[0] in reviews;
      assert forall rv :: rv in reviews[1..] ==> rv in reviews;
      NoReviewsCountZero(reviews[1..], p);
    }
  }

  /** The mean lies between any lower and upper bound of the ratings. */
  lemma RatingBetween(ratings: seq<int>, lo: int, hi: int)
    requires |ratings| > 0
    requires forall x :: x in ratings ==> lo <= x <= hi
    ensures lo as real <= Rating(ratings) <= hi as real
  {
    SumBounds(ratings, lo, hi);
    var n := |ratings| as real;
    var s := Sum(ratings) as real;
    assert lo as real * n <= s <= hi as real * n;
    assert s / n * n == s;
    if s / n < lo as real {
      assert s / n * n < lo as real * n;
    }
    if s / n > hi as real {
      assert s / n * n > hi as real * n;
    }
  }

  /** With only valid ratings stored, every product's rating is 0 or within [1, 5]. */
  lemma ValidStoreRatingInRange(reviews: seq<Review>, p: ProductId)
    requires forall rv :: rv in reviews ==> 1 <= rv.rating <= 5
    ensures var r := ProductRating(reviews, p); r == 0.0 || 1.0 <= r <= 5.0
  {
    var rs := ProductRatings(reviews, p);
    if |rs| > 0 {
      RatingBetween(rs, 1, 5);
    }
  }

  /** Ratings 5, 3 and 4 average to 4. */
  lemma RatingExample()
    ensures Rating([5, 3, 4]) == 4.0
  {
    assert Sum([5, 3, 4]) == 12;
  }

  /** `get_like`: the number of product `p`'s wishlist rows whose flag is set. */
  function Likes(likes: map<RowKey, bool>, p: ProductId): (n: nat)
    ensures n <= |likes|
    ensures n == 0 <==> forall k :: k in likes && k.product == p ==> !likes[k]
  {
    SubsetCard(LikedBy(likes, p), likes.Keys);
    assert (exists k :: k in likes && k.product == p && likes[k]) ==> |LikedBy(likes, p)| > 0 by {
      if exists k :: k in likes && k.product == p && likes[k] {
        var k :| k in likes && k.product == p && likes[k];
        assert k in LikedBy(likes, p);
      }
    }
    |LikedBy(likes, p)|
  }

  /** A subset is no larger than its superset. */
  lemma {:induction false} SubsetCard<T>(a: set<T>, b: set<T>)
    requires a <= b
    ensures |a| <= |b|
    decreases b
  {
    if a != {} {
      var x :| x in a;
      SubsetCard(a - {x}, b - {x});
    }
  }

  /** The rows of product `p` with `is_liked` set. */
  function LikedBy(likes: map<RowKey, bool>, p: ProductId): (s: set<RowKey>)
    ensures forall k :: k in s <==> k in likes && k.product == p && likes[k]
  {
    set k | k in likes && k.product == p && likes[k]
  }

  // ---------------------------------------------------------------------------
  // Review validation and creation
  // ---------------------------------------------------------------------------

  /** Field errors of the review serializer. */
  datatype FieldError =
    | Required           // a required field is missing from the payload
    | Invalid            // a field has the wrong type
    | UnknownProduct     // the product id names no product
    | DuplicateReview    // the requester already reviewed this product
    | RatingOutOfRange   // the rating is outside 1..5

  /** `author` has a review of `product` in the store. */
  function HasReview(reviews: seq<Review>, product: ProductId, author: UserId): (b: bool)
    ensures b <==> exists i :: 0 <= i < |reviews| && reviews[i].product == product && reviews[i].author == author
  {
    if reviews == [] then false
    else if reviews[0].product == product && reviews[0].author == author then true
    else
      var rest := HasReview(reviews[1..], product, author);
      assert rest ==> exists i :: 0 <= i < |reviews| && reviews[i].product == product && reviews[i].author == author by {
        if rest {
          var i :| 0 <= i < |reviews[1..]| && reviews[1..][i].product == product && reviews[1..][i].author == author;
          assert reviews[i + 1] == reviews[1..][i];
        }
      }
      assert (exists i :: 0 <= i < |reviews| && reviews[i].product == product && reviews[i].author == author) ==> rest by {
        if exists i :: 0 <= i < |reviews| && reviews[i].product == product && reviews[i].author == author {
          var i :| 0 <= i < |reviews| && reviews[i].product == product && reviews[i].author == author;
          assert i > 0;
          assert reviews[1..][i - 1] == reviews[i];
        }
      }
      rest
  }

  /** `validate_product`: refuses a product the requester has already reviewed. */
  function ValidateProduct(reviews: seq<Review>, product: ProductId, requester: User): (r: Result<ProductId, FieldError>)
    ensures r.Ok? <==> forall rv :: rv in reviews ==> !(rv.product == product && rv.author == requester.pk)
    ensures r.Ok? ==> r.value == product
    ensures r.Err? ==> r.error == DuplicateReview
  {
    if HasReview(reviews, product, requester.pk) then Err(DuplicateReview) else Ok(product)
  }

  /** `validate_rating`: accepts exactly the ratings 1 to 5. */
  function ValidateRating(rating: int): (r: Result<int, FieldError>)
    ensures r.Ok? <==> 1 <= rating <= 5
    ensures r.Ok? ==> r.value == rating
    ensures r.Err? ==> r.error == RatingOutOfRange
  {
    if 1 <= rating < 6 then Ok(rating) else Err(RatingOutOfRange)
  }

  /** Boundary values of the rating check. */
  lemma RatingBoundaries()
    ensures ValidateRating(0).Err? && ValidateRating(6).Err?
    ensures ValidateRating(1) == Ok(1) && ValidateRating(5) == Ok(5)
  {
  }

  /** `validate`: sets `author` to the requesting user, whatever the payload said. */
  function Validate(attrs: map<string, Value>, requester: User): (r: map<string, Value>)
    ensures "author" in r && r["author"] == Ref(requester.pk)
    ensures r.Keys == attrs.Keys + {"author"}
    ensures forall k :: k in attrs && k != "author" ==> r[k] == attrs[k]
  {
    attrs["author" := Ref(requester.pk)]
  }

  /**
   * The field-level checks of the review serializer on the payload, collected
   * field by field: the product (from the URL) must exist and not be reviewed by
   * the requester yet, `rating` must be an integer in 1..5 and `text` a string.
   * A client `author` is not a serializer field and is never read.
   */
  function FieldErrors(reviews: seq<Review>, catalog: set<ProductId>, requester: User,
                       data: map<string, Value>, pk: ProductId): (r: map<string, FieldError>)
    ensures r.Keys <= {"product", "rating", "text"}
    ensures "product" !in r <==> pk in catalog && !HasReview(reviews, pk, requester.pk)
    ensures "product" in r && pk in catalog ==> r["product"] == DuplicateReview
    ensures "rating" !in r <==> "rating" in data && data["rating"].Num? && 1 <= data["rating"].n <= 5
    ensures "text" !in r <==> "text" in data && data["text"].Str?
  {
    var productErr :=
      if pk !in catalog then map["product" := UnknownProduct]
      else match ValidateProduct(reviews, pk, requester)
        case Ok(_) => map[]
        case Err(e) => map["product" := e];
    var ratingErr :=
      if "rating" !in data then map["rating" := Required]
      else if !data["rating"].Num? then map["rating" := Invalid]
      else match ValidateRating(data["rating"].n)
        case Ok(_) => map[]
        case Err(e) => map["rating" := e];
    var textErr :=
      if "text" !in data then map["text" := Required]
      else if !data["text"].Str? then map["text" := Invalid]
      else map[];
    productErr + ratingErr + textErr
  }

  /** The payload passes every field check. */
  ghost predicate Acceptable(reviews: seq<Review>, catalog: set<ProductId>, requester: User,
                             data: map<string, Value>, pk: ProductId)
  {
    && pk in catalog
    && (forall rv :: rv in reviews ==> !(rv.product == pk && rv.author == requester.pk))
    && "rating" in data && data["rating"].Num? && 1 <= data["rating"].n <= 5
    && "text" in data && data["text"].Str?
  }

  /**
   * `create_review`: the product id comes from the URL, the author from the
   * request. On success the store gains exactly one review; on failure it is
   * left as it was and every failing field is reported.
   */
  function CreateReview(reviews: seq<Review>, catalog: set<ProductId>, requester: User,
                        data: map<string, Value>, pk: ProductId): (r: Result<seq<Review>, map<string, FieldError>>)
    ensures r.Ok? <==> Acceptable(reviews, catalog, requester, data, pk)
    ensures r.Ok? ==> r.value == reviews + [Review(pk, requester.pk, data["rating"].n, data["text"].s)]
    ensures r.Err? ==> r.error != map[]
    ensures r.Err? ==> ("product" in r.error <==> !(pk in catalog && !HasReview(reviews, pk, requester.pk)))
    ensures r.Err? && pk in catalog && HasReview(reviews, pk, requester.pk) ==> r.error["product"] == DuplicateReview
    ensures r.Err? ==> ("rating" in r.error <==> !("rating" in data && data["rating"].Num? && 1 <= data["rating"].n <= 5))
    ensures r.Err? ==> ("text" in r.error <==> !("text" in data && data["text"].Str?))
    ensures r.Err? ==> r.error.Keys <= {"product", "rating", "text"}
  {
    var payload := data["product" := Ref(pk)];
    var errors := FieldErrors(reviews, catalog, requester, payload, pk);
    if errors != map[] then
      Err(errors)
    else
      var attrs := Validate(map["product" := Ref(pk), "rating" := payload["rating"], "text" := payload["text"]], requester);
      Ok(reviews + [Review(attrs["product"].id, attrs["author"].id, attrs["rating"].n, attrs["text"].s)])
  }

  /** At most one review per (author, product). */
  ghost predicate OneReviewPerAuthor(reviews: seq<Review>)
  {
    forall i, j :: 0 <= i < j < |reviews| ==>
      !(reviews[i].product == reviews[j].product && reviews[i].author == reviews[j].author)
  }

  /** Creating a review never yields two reviews by one author of one product. */
  lemma CreateKeepsOneReviewPerAuthor(reviews: seq<Review>, catalog: set<ProductId>, requester: User,
                                      data: map<string, Value>, pk: ProductId)
    requires OneReviewPerAuthor(reviews)
    requires CreateReview(reviews, catalog, requester, data, pk).Ok?
    ensures OneReviewPerAuthor(CreateReview(reviews, catalog, requester, data, pk).value)
  {
    var r := CreateReview(reviews, catalog, requester, data, pk).value;
    forall i, j | 0 <= i < j < |r|
      ensures !(r[i].product == r[j].product && r[i].author == r[j].author)
    {
      if j == |reviews| {
        assert r[i] == reviews[i] && reviews[i] in reviews;
      } else {
        assert r[i] == reviews[i] && r[j] == reviews[j];
      }
    }
  }

  /** Creating a review keeps every stored rating within 1..5. */
  lemma CreateKeepsRatingsValid(reviews: seq<Review>, catalog: set<ProductId>, requester: User,
                                data: map<string, Value>, pk: ProductId)
    requires forall rv :: rv in reviews ==> 1 <= rv.rating <= 5
    requires CreateReview(reviews, catalog, requester, data, pk).Ok?
    ensures forall rv :: rv in CreateReview(reviews, catalog, requester, data, pk).value ==> 1 <= rv.rating <= 5
  {
  }

  /** A second review of the same product by the same user is refused as a duplicate. */
  lemma SecondReviewRefused(reviews: seq<Review>, catalog: set<ProductId>, requester: User,
                            data: map<string, Value>, data2: map<string, Value>, pk: ProductId)
    requires CreateReview(reviews, catalog, requester, data, pk).Ok?
    ensures var again := CreateReview(CreateReview(reviews, catalog, requester, data, pk).value, catalog, requester, data2, pk);
      again.Err? && again.error["product"] == DuplicateReview
  {
    var r := CreateReview(reviews, catalog, requester, data, pk).value;
    assert r[|reviews|].product == pk && r[|reviews|].author == requester.pk;
  }

  /** The author of the new review is the requester; a client `author` or `product` is ignored. */
  lemma AuthorFromRequest(reviews: seq<Review>, catalog: set<ProductId>, requester: User,
                          data: map<string, Value>, pk: ProductId, author: Value, product: Value)
    ensures CreateReview(reviews, catalog, requester, data["author" := author]["product" := product], pk)
         == CreateReview(reviews, catalog, requester, data, pk)
  {
  }

  // ---------------------------------------------------------------------------
  // Representations
  // ---------------------------------------------------------------------------

  const AnonymousLabel := "Анонимный пользователь"

  /** `ReviewAuthorSerializer`: the names, plus an anonymous `full_name` when both are empty. */
  function AuthorRepresentation(u: User): (r: map<string, Value>)
    ensures "first_name" in r && r["first_name"] == Str(u.firstName)
    ensures "last_name" in r && r["last_name"] == Str(u.lastName)
    ensures "full_name" in r <==> u.firstName == "" && u.lastName == ""
    ensures "full_name" in r ==> r["full_name"] == Str(AnonymousLabel)
    ensures r.Keys <= {"first_name", "last_name", "full_name"}
  {
    var rep := map["first_name" := Str(u.firstName), "last_name" := Str(u.lastName)];
    if u.firstName == "" && u.lastName == "" then rep["full_name" := Str(AnonymousLabel)] else rep
  }

  /** All model fields of a product (`fields = '__all__'`). */
  function ProductFields(p: Product): map<string, Value>
  {
    map["id" := Num(p.id), "title" := Str(p.title), "description" := Str(p.description),
        "price" := Dec(p.price), "category" := Ref(p.category), "image" := Str(p.image)]
  }

  const ListFields: set<string> := {"id", "title", "price", "image"}

  /** `ProductListSerializer`: the product's id, title, price and image, and nothing else. */
  function ListRepresentation(p: Product): (r: map<string, Value>)
    ensures r.Keys == ListFields
    ensures forall k :: k in r ==> k in ProductFields(p) && r[k] == ProductFields(p)[k]
  {
    map["id" := Num(p.id), "title" := Str(p.title), "price" := Dec(p.price), "image" := Str(p.image)]
  }

  /** `ProductDetailsSerializer`: every model field plus the rating and the like count. */
  function DetailRepresentation(p: Product, reviews: seq<Review>, likes: map<RowKey, bool>): (r: map<string, Value>)
    ensures r.Keys == ProductFields(p).Keys + {"rating", "likes"}
    ensures forall k :: k in ProductFields(p) ==> r[k] == ProductFields(p)[k]
    ensures r["rating"] == Dec(ProductRating(reviews, p.id))
    ensures r["likes"] == Num(Likes(likes, p.id))
  {
    ProductFields(p)["rating" := Dec(ProductRating(reviews, p.id))]["likes" := Num(Likes(likes, p.id))]
  }
}
