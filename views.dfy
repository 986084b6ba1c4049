/**
 * The decision rules of the views: which permission checks each action
 * gets, the throttle's cache key, the search endpoint and the per-user
 * favorites and cart listings.
 */
module Views {
  import opened Models
  import opened Text
  import opened Query
  import Filters
  import Serializers

  // ---------------------------------------------------------------------------
  // Permissions
  // ---------------------------------------------------------------------------

  /** The permission checks a view can return. */
  datatype Permission = IsAuthenticated | IsAuthorOrAdmin

  const MutatingActions := ["create", "update", "partial_update", "destroy"]
  const CustomActions := ["create_review", "like", "cart", "favorite"]

  /** `ProductViewSet.get_permissions`: authentication for the listed actions, no check otherwise. */
  function ProductPermissions(action: string): (r: seq<Permission>)
    ensures r == [IsAuthenticated] <==> action in MutatingActions || action in CustomActions
    ensures r == [] <==> !(action in MutatingActions || action in CustomActions)
  {
    if action in MutatingActions then [IsAuthenticated]
    else if action in CustomActions then [IsAuthenticated]
    else []
  }

  /** `ReviewViewSet.get_permissions`: authentication to create, author-or-admin for the rest. */
  function ReviewPermissions(action: string): (r: seq<Permission>)
    ensures action == "create" ==> r == [IsAuthenticated]
    ensures action != "create" ==> r == [IsAuthorOrAdmin]
  {
    if action == "create" then [IsAuthenticated] else [IsAuthorOrAdmin]
  }

  /**
   * One check grants access. The author-or-admin check lives in a permissions
   * module that is not part of this model, so its verdict is an input.
   */
  predicate Grants(perm: Permission, who: Requester, authorOrAdmin: bool)
  {
    match perm
    case IsAuthenticated => who.Authenticated?
    case IsAuthorOrAdmin => authorOrAdmin
  }

  /** A request proceeds when every returned check grants it. */
  predicate Permitted(perms: seq<Permission>, who: Requester, authorOrAdmin: bool)
  {
    forall i :: 0 <= i < |perms| ==> Grants(perms[i], who, authorOrAdmin)
  }

  /**
   * On products, an anonymous caller may run exactly the actions outside the
   * mutating and custom ones, and an authenticated caller may run every action.
   */
  lemma ProductAccess(action: string, who: Requester, authorOrAdmin: bool)
    ensures Permitted(ProductPermissions(action), who, authorOrAdmin)
        <==> who.Authenticated? || !(action in MutatingActions || action in CustomActions)
  {
    if action in MutatingActions || action in CustomActions {
      assert ProductPermissions(action)[0] == IsAuthenticated;
    }
  }

  /** Reads and search are open; liking, favoriting, carting and reviewing are not. */
  lemma ProductActionExamples(authorOrAdmin: bool)
    ensures Permitted(ProductPermissions("list"), Anonymous, authorOrAdmin)
    ensures Permitted(ProductPermissions("retrieve"), Anonymous, authorOrAdmin)
    ensures Permitted(ProductPermissions("search"), Anonymous, authorOrAdmin)
    ensures !Permitted(ProductPermissions("like"), Anonymous, authorOrAdmin)
    ensures !Permitted(ProductPermissions("favorite"), Anonymous, authorOrAdmin)
    ensures !Permitted(ProductPermissions("cart"), Anonymous, authorOrAdmin)
    ensures !Permitted(ProductPermissions("create_review"), Anonymous, authorOrAdmin)
  {
    ProductAccess("list", Anonymous, authorOrAdmin);
    ProductAccess("retrieve", Anonymous, authorOrAdmin);
    ProductAccess("search", Anonymous, authorOrAdmin);
    ProductAccess("like", Anonymous, authorOrAdmin);
    ProductAccess("favorite", Anonymous, authorOrAdmin);
    ProductAccess("cart", Anonymous, authorOrAdmin);
    ProductAccess("create_review", Anonymous, authorOrAdmin);
  }

  /**
   * On reviews, creating needs only authentication; any other action is
   * decided by the author-or-admin check alone.
   */
  lemma ReviewAccess(action: string, who: Requester, authorOrAdmin: bool)
    ensures action == "create" ==> (Permitted(ReviewPermissions(action), who, authorOrAdmin) <==> who.Authenticated?)
    ensures action != "create" ==> (Permitted(ReviewPermissions(action), who, authorOrAdmin) <==> authorOrAdmin)
  {
    assert ReviewPermissions(action)[0] == if action == "create" then IsAuthenticated else IsAuthorOrAdmin;
  }

  // ---------------------------------------------------------------------------
  // Serializer choice
  // ---------------------------------------------------------------------------

  /**
   * `ProductViewSet.get_serializer_class`: the list action shows the abridged
   * record, every other action the detailed one.
   */
  function ProductRepresentation(action: string, p: Product, reviews: seq<Review>,
                                 likes: map<RowKey, bool>): (r: map<string, Value>)
    ensures action == "list" ==> r.Keys == Serializers.ListFields
    ensures action == "list" ==>
      forall k :: k in r ==> k in Serializers.ProductFields(p) && r[k] == Serializers.ProductFields(p)[k]
    ensures action != "list" ==> r.Keys == Serializers.ProductFields(p).Keys + {"rating", "likes"}
    ensures action != "list" ==>
      && (forall k :: k in Serializers.ProductFields(p) ==> r[k] == Serializers.ProductFields(p)[k])
      && r["rating"] == Dec(Serializers.ProductRating(reviews, p.id))
      && r["likes"] == Num(Serializers.Likes(likes, p.id))
  {
    if action == "list" then Serializers.ListRepresentation(p)
    else Serializers.DetailRepresentation(p, reviews, likes)
  }

  // ---------------------------------------------------------------------------
  // Throttle cache key
  // ---------------------------------------------------------------------------

  const ThrottleScope := "user"

  /** The identity a request is throttled under: the user's pk, else the network ident. */
  function ThrottleIdent(req: Request): (ident: string)
    ensures req.requester.Authenticated? ==> |ident| >= 1 && forall i :: 0 <= i < |ident| ==> IsDigit(ident[i])
    ensures req.requester.Authenticated? ==> ident == NatToString(req.requester.user.pk)
    ensures req.requester.Anonymous? ==> ident == req.ident
  {
    match req.requester
    case Authenticated(u) => NatToString(u.pk)
    case Anonymous => req.ident
  }

  /**
   * `UserRateThrottles.get_cache_key`: the identity formatted into the throttle
   * cache format `throttle_<scope>_<ident>` with scope `user`.
   */
  function CacheKey(req: Request): (key: string)
    ensures |key| == |"throttle_user_"| + |ThrottleIdent(req)|
    ensures key[..|"throttle_user_"|] == "throttle_user_"
    ensures key[|"throttle_user_"|..] == ThrottleIdent(req)
  {
    "throttle_" + ThrottleScope + "_" + ThrottleIdent(req)
  }

  /** An authenticated user's key does not depend on the network ident. */
  lemma AuthenticatedKeyIgnoresIdent(u: User, ident1: string, ident2: string)
    ensures CacheKey(Request(Authenticated(u), ident1)) == CacheKey(Request(Authenticated(u), ident2))
  {
  }

  /** Two requests share a key iff they share a throttle identity. */
  lemma CacheKeyInjective(r1: Request, r2: Request)
    ensures CacheKey(r1) == CacheKey(r2) <==> ThrottleIdent(r1) == ThrottleIdent(r2)
  {
    if CacheKey(r1) == CacheKey(r2) {
      assert ThrottleIdent(r1) == CacheKey(r1)[|"throttle_user_"|..];
    }
  }

  /** Distinct authenticated users never share a throttle bucket. */
  lemma DistinctUsersDistinctKeys(r1: Request, r2: Request)
    requires r1.requester.Authenticated? && r2.requester.Authenticated?
    requires r1.requester.user.pk != r2.requester.user.pk
    ensures CacheKey(r1) != CacheKey(r2)
  {
    CacheKeyInjective(r1, r2);
    if NatToString(r1.requester.user.pk) == NatToString(r2.requester.user.pk) {
      NatToStringInjective(r1.requester.user.pk, r2.requester.user.pk);
    }
  }

  /**
   * An anonymous caller whose network ident holds a character other than a
   * digit (as every IP address does) never shares a bucket with a user.
   */
  lemma AnonymousApartFromUsers(r1: Request, r2: Request)
    requires r1.requester.Anonymous? && r2.requester.Authenticated?
    requires exists i :: 0 <= i < |r1.ident| && !IsDigit(r1.ident[i])
    ensures CacheKey(r1) != CacheKey(r2)
  {
    CacheKeyInjective(r1, r2);
    var i :| 0 <= i < |r1.ident| && !IsDigit(r1.ident[i]);
    var s := NatToString(r2.requester.user.pk);
    if |s| == |r1.ident| {
      assert s[i] != r1.ident[i];
    }
  }

  // ---------------------------------------------------------------------------
  // Search
  // ---------------------------------------------------------------------------

  /** Title or description contains the query, ignoring case. */
  predicate SearchMatches(q: string, p: Product)
  {
    IContains(p.title, q) || IContains(p.description, q)
  }

  /** `search`: the products matching the query `q`, in catalog order. */
  function Search(products: seq<Product>, q: string): (r: seq<Product>)
    ensures |r| <= |products|
    ensures forall p :: p in r <==> p in products && SearchMatches(q, p)
  {
    Select(products, p => SearchMatches(q, p))
  }

  /**
   * Search keeps exactly the products that the `title` filter or the `desc`
   * filter with the same value would keep: OR where the filter set has AND.
   */
  lemma SearchIsUnionOfFilters(products: seq<Product>, q: string, p: Product)
    ensures p in Search(products, q)
        <==> (p in Filters.Filter(Filters.NoFilters.(title := Some(q)), products)
              || p in Filters.Filter(Filters.NoFilters.(desc := Some(q)), products))
  {
    Filters.TitleFilterKeeps(products, q, p);
    Filters.DescFilterKeeps(products, q, p);
  }

  // ---------------------------------------------------------------------------
  // Favorites and cart listings
  // ---------------------------------------------------------------------------

  /** The rows of a relation that belong to user `u`. */
  function RowsOf(rows: map<RowKey, bool>, u: UserId): (r: map<RowKey, bool>)
    ensures forall k :: k in r <==> k in rows && k.user == u
    ensures forall k :: k in r ==> r[k] == rows[k]
  {
    map k | k in rows && k.user == u :: rows[k]
  }

  /**
   * `Favorites.get_queryset` and `CartProducts.get_queryset`, behind their
   * authentication check: the requester's own rows.
   */
  function Listing(who: Requester, rows: map<RowKey, bool>): (r: Result<map<RowKey, bool>, AuthError>)
    ensures r.Ok? <==> who.Authenticated?
    ensures r.Ok? ==> forall k :: k in r.value ==> k in rows && k.user == who.user.pk
    ensures r.Ok? ==> forall k :: k in rows && k.user == who.user.pk ==> k in r.value && r.value[k] == rows[k]
  {
    if Permitted([IsAuthenticated], who, false) then
      assert Grants([IsAuthenticated][0], who, false);
      Ok(RowsOf(rows, who.user.pk))
    else
      Err(NotAuthenticated)
  }

  /** Two different users' listings share no row. */
  lemma ListingsDisjoint(rows: map<RowKey, bool>, a: User, b: User)
    requires a.pk != b.pk
    ensures Listing(Authenticated(a), rows).value.Keys !! Listing(Authenticated(b), rows).value.Keys
  {
  }
}
