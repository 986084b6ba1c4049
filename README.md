# Catalog API core, modelled in Dafny

This project models the decision and state-update rules of a small Django
e-commerce catalog API: products, reviews, a wishlist ("likes"), favorites and
a shopping cart. The database is represented by maps and sequences. The HTTP
layer is represented by the parts of a request that the rules read.

- `models.dfy` (`Models`): ids, `User`, `Requester` (anonymous or
  authenticated), `Request`, `Product`, `Review`, the `RowKey` (user,
  product) of a relation row, payload values, `Option` and `Result`.
- `text.dfy` (`Text`): the case-insensitive substring test behind `icontains`.
  `Contains` is a left-to-right scan proved equal to "occurs at some index". It
  also holds the decimal rendering of a user's primary key, proved injective.
- `query.dfy` (`Query`): `Select`, i.e. `queryset.filter`, which keeps rows in
  order. Lemmas cover the all-rows case, pointwise agreement, composition and
  concatenation.
- `filters.dfy` (`Filters`): the product filter set. `category` is an exact
  match, `title` and `desc` are case-insensitive substring matches, and
  `price_from`/`price_to` are inclusive bounds. An absent parameter imposes
  no constraint. The filters combine by conjunction.
- `serializers.dfy` (`Serializers`): the rating (exact mean, 0 without
  reviews) and the like count of the detail view. It also holds the review
  field checks and `validate`, review creation as a function that returns the
  new store or the field errors, and the author, list and detail
  representations.
- `views.dfy` (`Views`): per-action permission choice for both viewsets,
  serializer choice, the throttle cache key, the OR search, and the
  per-user favorites and cart listings.
- `toggles.dfy` (`Toggles`): the class `RelationStore`. It holds the three
  relations as maps `RowKey -> bool`, plus one method per toggle action. The
  methods are specified by the functions `LikeStep` (flip and keep the row)
  and `PresenceStep` (delete a set row, otherwise set it). Lemmas cover double
  toggles, toggle sequences, the like count and isolation between users.

Every relation is a map, so there is at most one row per (user, product) in
each relation by construction. `RelationStore.Valid()` adds two invariants.
Every favorite and cart row is set. Every row names a product of the
catalog.

## Model

| member | source | states |
|---|---|---|
| `Toggles.LikeStep` | main/views.py:60-69 | get-or-create then flip: the key's row exists afterwards, its flag is the negation of the old flag (absent counts as false), and every other row is unchanged |
| `Toggles.PresenceStep` | main/views.py:76-85 | a set row is deleted, an absent or unset row becomes set; the answer is "added" iff the row was not set; no other key changes |
| `Toggles.RelationStore.Like` | main/views.py:57-69 | anonymous callers are refused as not authenticated, and a product that is not in the catalog or that fails the request's filter parameters (`get_object` looks it up in the filtered listing) is not found, with nothing changed in either case; otherwise the wishlist becomes `LikeStep` of the old one and the reply is "liked" or "disliked" accordingly; favorites and cart are untouched; the store invariant is kept |
| `Toggles.RelationStore.Favorite` | main/views.py:73-85 | as above for favorites, via `PresenceStep`, answering added/removed; wishlist and cart untouched; every favorite row stays set |
| `Toggles.RelationStore.Cart` | main/views.py:98-110 | as above for the cart, via `PresenceStep`; wishlist and favorites untouched; every cart row stays set |
| `Toggles.RelationStore.constructor` | main/views.py:22-24 | an empty store over a catalog satisfies the invariant |
| `Toggles.FavoriteTwice` | main/views.py:73-85 | two favorite toggles by one user on one product leave all three relations as they were |
| `Toggles.FoundIsFilteredLookup` | main/views.py:58 | the product lookup succeeds iff the id is in the catalog and its product is kept by the filter set over a listing holding the catalog |
| `Toggles.LikeTwiceFromAbsent` | main/views.py:60-69 | liking a pair with no row twice answers liked, then disliked, and leaves the row present with the flag false |
| `Toggles.LikeTwiceRestores` | main/views.py:60-69 | liking a pair that has a row twice restores the wishlist exactly |
| `Toggles.PresenceTwiceRestores` | main/views.py:76-85 | when every row is set, toggling twice restores the relation, and the first toggle answers "added" iff there was no row |
| `Toggles.PresenceTwiceFromAbsent` | main/views.py:101-110 | from no row, the first toggle adds and the second leaves no row |
| `Toggles.PresenceRunAllOn` | main/views.py:76-85 | after any sequence of favorite or cart toggles starting from a relation whose rows are all set (the empty one included), every stored row is set |
| `Toggles.LikeRunKeepsRows` | main/views.py:60-69 | like rows are never deleted: after any sequence the rows are the old rows plus the toggled keys |
| `Toggles.LikeStepCount` | main/serializers.py:27-30 | a like toggle raises the product's like count by one when it answers "liked" and lowers it by one otherwise |
| `Toggles.LikedByStep` | main/views.py:62-69 | a like toggle adds or removes exactly its own key among the product's liked rows |
| `Toggles.LikeStepOtherCounts` | main/serializers.py:27-30 | a like toggle leaves the like count of every other product unchanged |
| `Toggles.ToggleIsolation` | main/views.py:60-61 | a toggle by one user leaves every other user's rows in that relation unchanged |
| `Views.ProductPermissions` | main/views.py:35-40 | exactly create, update, partial_update, destroy, create_review, like, cart and favorite get the authentication check; every other action gets none |
| `Views.ProductAccess` | main/views.py:35-40 | an anonymous caller may run an action iff it is outside those eight; an authenticated caller may run every action |
| `Views.ProductActionExamples` | main/views.py:35-40 | list, retrieve and search are open to anonymous callers; like, favorite, cart and create_review are not |
| `Views.ReviewPermissions` | main/views.py:119-122 | `create` gets the authentication check and every other review action gets the author-or-admin check |
| `Views.ReviewAccess` | main/views.py:119-122 | review creation is allowed iff the caller is authenticated; any other review action is allowed iff the author-or-admin check passes |
| `Views.ProductRepresentation` | main/views.py:30-33 | the list action yields exactly the list fields, each holding the product's own value; every other action yields the model fields with the product's values plus `rating` holding the product's rating over the stored reviews and `likes` its count of liked wishlist rows |
| `Views.ThrottleIdent` | main/views.py:131-134 | an authenticated caller is identified by the decimal rendering of the pk, a non-empty digit string; an anonymous caller by the network ident |
| `Views.CacheKey` | main/views.py:130-139 | the key is `throttle_user_` followed by the throttle identity |
| `Views.CacheKeyInjective` | main/views.py:130-139 | two requests share a key iff they share a throttle identity |
| `Views.AuthenticatedKeyIgnoresIdent` | main/views.py:131-132 | an authenticated user's key does not depend on the network ident |
| `Views.DistinctUsersDistinctKeys` | main/views.py:131-132 | distinct authenticated users get distinct keys |
| `Views.AnonymousApartFromUsers` | main/views.py:133-134 | an anonymous ident containing a non-digit never collides with any user's key |
| `Views.Search` | main/views.py:89-95 | a product is in the result iff it is in the catalog and `q` occurs in its title or its description, ignoring case; the result is never longer than the catalog |
| `Views.SearchIsUnionOfFilters` | main/views.py:92-93 | search keeps exactly what the `title` filter or the `desc` filter with the same value keeps (OR, not AND) |
| `Views.RowsOf` | main/views.py:158 | the user's rows are exactly the rows whose user is that user, with their flags |
| `Views.Listing` | main/views.py:151-159 | favorites and cart listings (lines 165-174 are identical) refuse anonymous callers; otherwise every listed row is a row of the relation belonging to the requester, and every requester row is listed with its flag |
| `Views.ListingsDisjoint` | main/views.py:156-159 | two different users' listings share no row |
| `Serializers.RatingBetween` | main/serializers.py:22-24 | a non-empty mean lies between any lower and upper bound of the ratings |
| `Serializers.ValidStoreRatingInRange` | main/serializers.py:21-25 | with only valid ratings stored, a product's rating is 0 or within [1, 5] |
| `Serializers.NoReviewsRatedZero` | main/serializers.py:23-24 | a product with no reviews is rated 0 |
| `Serializers.RatingExample` | main/serializers.py:22-24 | ratings 5, 3 and 4 give 4 |
| `Serializers.SumBounds` | main/serializers.py:22 | the rating total lies between count times lower bound and count times upper bound |
| `Serializers.ProductRatings` | main/serializers.py:22-23 | one rating per review of the product: the count equals the product's review count, the sum equals the total of its reviews' ratings, and the values are exactly its reviews' ratings |
| `Serializers.Rating` | main/serializers.py:24 | 0 for no ratings; otherwise the mean times the count equals the sum |
| `Serializers.ProductRating` | main/serializers.py:21-25 | 0 when the product has no reviews; otherwise the rating times the review count equals the rating total |
| `Serializers.NoReviewsCountZero` | main/serializers.py:23 | a product with no stored review has a review count of 0 |
| `Serializers.Likes` | main/serializers.py:27-30 | the like count is a natural number no larger than the number of wishlist rows, and is 0 iff none of the product's rows has `is_liked` set |
| `Serializers.LikedBy` | main/serializers.py:28 | the liked rows of a product are exactly its rows with `is_liked` set |
| `Serializers.HasReview` | main/serializers.py:73 | true iff the store holds a review by that author of that product |
| `Serializers.ValidateProduct` | main/serializers.py:71-75 | accepts iff the requester has no review of the product, otherwise a duplicate-review error |
| `Serializers.ValidateRating` | main/serializers.py:78-81 | accepts the rating unchanged iff 1 <= rating <= 5, otherwise an out-of-range error |
| `Serializers.RatingBoundaries` | main/serializers.py:78-81 | 0 and 6 are rejected, 1 and 5 accepted |
| `Serializers.Validate` | main/serializers.py:83-86 | `author` becomes the requesting user; every other attribute is kept |
| `Serializers.FieldErrors` | main/serializers.py:66-81 | errors are reported per field: `product` iff it is unknown or already reviewed by the requester (duplicate for a known product), `rating` iff it is not an integer in 1..5, `text` iff it is missing or not a string |
| `Serializers.CreateReview` | main/views.py:44-53 | creation succeeds iff every field check passes; then exactly one review is appended, with the product from the URL and the author from the request; otherwise the field errors are non-empty, use only the keys product, rating and text, and name exactly the failing fields (a duplicate shows as such on `product`) |
| `Serializers.CreateKeepsOneReviewPerAuthor` | main/serializers.py:71-75 | creating a review never produces two reviews by one author of one product |
| `Serializers.CreateKeepsRatingsValid` | main/serializers.py:78-81 | creating a review keeps every stored rating within 1..5 |
| `Serializers.SecondReviewRefused` | main/serializers.py:71-75 | after a successful creation, the same user's second review of the product fails with a duplicate error on `product`, whatever its payload |
| `Serializers.AuthorFromRequest` | main/serializers.py:83-86 | a client-supplied `author` or `product` in the payload never changes the outcome |
| `Serializers.AuthorRepresentation` | main/serializers.py:57-61 | first and last name are always shown; `full_name` is added, with the anonymous label, iff both are empty |
| `Serializers.ListRepresentation` | main/serializers.py:10-13 | exactly id, title, price and image, each equal to the product's field |
| `Serializers.DetailRepresentation` | main/serializers.py:16-37 | every model field, plus `rating` equal to the product rating and `likes` equal to the like count |
| `Filters.Filter` | main/filters.py:14-26 | a product is kept iff it is in the listing and passes every given filter; the result is no longer than the listing |
| `Filters.NoFiltersKeepAll` | main/filters.py:24-26 | with no parameters the listing is returned unchanged |
| `Filters.TitleFilterKeeps` | main/filters.py:15-16 | `title` keeps a product iff its title contains the value, ignoring case |
| `Filters.DescFilterKeeps` | main/filters.py:17-18 | `desc` keeps a product iff its description contains the value, ignoring case |
| `Filters.CategoryFilterKeeps` | main/filters.py:24-26 | `category` keeps a product iff its category equals the value |
| `Filters.PriceRangeKeeps` | main/filters.py:19-22 | with both bounds, the kept prices are exactly those in [price_from, price_to] |
| `Filters.EmptyTextFiltersIgnored` | main/filters.py:15-18 | an empty `title` or `desc` value keeps the same products as leaving it out |
| `Filters.FilterIsConjunction` | main/filters.py:14-26 | the filter set equals its five single-parameter filters applied one after another |
| `Filters.KeepsSplit` | main/filters.py:14-26 | a product passes the set iff it passes each single-parameter filter |
| `Text.Contains` | main/filters.py:15-16 | the scan answers true iff the needle occurs at some index of the haystack |
| `Text.EmptyQueryMatchesAll` | main/filters.py:15-16 | every string contains the empty query |
| `Text.ContainsImpliesIContains` | main/filters.py:15-16 | an exact occurrence is also a case-insensitive one |
| `Text.IContainsIgnoresCase` | main/filters.py:15-16 | upper-casing the text or the query never changes the case-insensitive answer |
| `Text.NatToStringInjective` | main/views.py:132-138 | distinct primary keys render to distinct identities in the cache key |

## Left out

- Query execution, HTTP routing, content negotiation and response codes. The database is represented by maps and sequences. A reply or `Result` stands for the HTTP status.
- Serializers.Rating: the rating is the exact rational mean; Python's `round(x, 1)` on binary floats (half to even) is not modelled, and neither is the rounding in `get_like`, which leaves an integer unchanged.
- `Text.Upper` covers Latin and Russian letters only. The database's full Unicode case mapping is not modelled.
- Ordering by `title` or `price` (the ordering filter backend) lives in a library and is not modelled.
- Query-string parsing and its errors (a non-numeric `price_from`, an unknown category id) happen before the filter set and are not modelled. Parameters arrive typed.
- `search` without `q` passes `None` into the database filter and is left undefined. `Views.Search` takes `q` as a string.
- Throttle counting, windows and the cache backend are not modelled. Only the cache key is modelled. Its format `throttle_<scope>_<ident>` is the framework's default, and `get_ident` is an input (`Request.ident`).
- The author-or-admin and deny-all permission classes: main/permissions.py is not part of this model. Their verdict is the `authorOrAdmin` input of `Views.Permitted`.
- The models module is not part of this model. Field names beyond those the code uses (`text` for the review body), the product's category as a numeric id, and the default `false` flag of a newly created relation row are assumptions.
- Serializers.FieldErrors, Serializers.CreateReview: the framework's text field turns a number into its string form where the model refuses any non-string `text`. It also trims surrounding whitespace, refuses a blank or all-blank value unless the model field allows blanks, and applies the model field's length limit. None of these is modelled: a string `text` is accepted and stored as sent.
- Toggles.RelationStore.Like/Favorite/Cart: the product lookup runs the listing's filter set first. The model states the not-found case for well-typed filter parameters (`Found`). A malformed parameter, which the filter set answers with a 400 before the lookup, is not modelled (see the query-string parsing line above).
- The review payload's `rating` must be an integer value. The integer field's coercion of numeric strings (`"4"`) and of integral floats (`4.0`) is not modelled: the model answers `Invalid` for `Str("4")` and `Dec(4.0)`.
- The nested `reviews` list of the detail representation is not modelled; its rating and like count are.
- `SerializerFavorite` and `CartListSerializer` nest product lookups by row id. These are database queries and are not modelled.
- `LikeSerializer` nests itself on a field the wishlist row does not have, so its behaviour cannot be stated.
- Concurrency of get-or-create and unique-constraint races are not modelled. Each toggle is one atomic step.
- Confirmation messages are opaque constructors of `Toggles.Message`, not localized strings.
- `ExampleView` and account/urls.py only route to library or unseen code.
