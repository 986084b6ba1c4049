/**
 * The three (user, product) relations toggled by the product views: the
 * wishlist (`is_liked`), favorites (`favorite`) and the cart (`add`). A map
 * holds each relation, so there is at most one row per (user, product) key.
 * A like toggle flips the flag and keeps the row; a favorite or cart toggle
 * deletes a set row and otherwise sets the flag.
 */
module Toggles {
  import opened Models
  import Views
  import Serializers
  import Filters

  /** The flag a row gets when `get_or_create` creates it. */
  const DefaultFlag := false

  /** The confirmation a toggle answers with. */
  datatype Message =
    | Liked | Disliked
    | AddedToFavorites | RemovedFromFavorites
    | AddedToCart | RemovedFromCart

  /** The outcome of a toggle request. */
  datatype Reply = Refused(reason: AuthError) | NotFound | Done(message: Message)

  /** A relation after one toggle, and whether the key is now "on". */
  datatype Toggled = Toggled(rows: map<RowKey, bool>, on: bool)

  /** Every stored row has its flag set. */
  ghost predicate AllOn(rows: map<RowKey, bool>)
  {
    forall k :: k in rows ==> rows[k]
  }

  /** The like toggle: the row of `k` is created if needed and its flag flipped. */
  function LikeStep(rows: map<RowKey, bool>, k: RowKey): (t: Toggled)
    ensures t.on <==> !(k in rows && rows[k])
    ensures k in t.rows && t.rows[k] == t.on
    ensures t.rows.Keys == rows.Keys + {k}
    ensures forall j :: j in rows && j != k ==> j in t.rows && t.rows[j] == rows[j]
  {
    var flag := if k in rows then rows[k] else DefaultFlag;
    Toggled(rows[k := !flag], !flag)
  }

  /** The favorite and cart toggle: a set row of `k` is deleted, otherwise it is set. */
  function PresenceStep(rows: map<RowKey, bool>, k: RowKey): (t: Toggled)
    ensures t.on <==> !(k in rows && rows[k])
    ensures k in t.rows <==> t.on
    ensures t.on ==> t.rows[k]
    ensures t.rows.Keys - {k} == rows.Keys - {k}
    ensures forall j :: j in rows && j != k ==> j in t.rows && t.rows[j] == rows[j]
  {
    var flag := if k in rows then rows[k] else DefaultFlag;
    if flag then Toggled(rows - {k}, false) else Toggled(rows[k := true], true)
  }

  /** Liking an unrecorded pair twice leaves its row in place, unliked. */
  lemma LikeTwiceFromAbsent(rows: map<RowKey, bool>, k: RowKey)
    requires k !in rows
    ensures LikeStep(rows, k).on && !LikeStep(LikeStep(rows, k).rows, k).on
    ensures LikeStep(LikeStep(rows, k).rows, k).rows == rows[k := false]
  {
  }

  /** Liking a recorded pair twice restores the relation. */
  lemma LikeTwiceRestores(rows: map<RowKey, bool>, k: RowKey)
    requires k in rows
    ensures LikeStep(LikeStep(rows, k).rows, k).rows == rows
  {
  }

  /** Toggling a favorite or cart pair twice returns to where it was when all rows are set. */
  lemma PresenceTwiceRestores(rows: map<RowKey, bool>, k: RowKey)
    requires AllOn(rows)
    ensures PresenceStep(rows, k).on <==> k !in rows
    ensures PresenceStep(PresenceStep(rows, k).rows, k).rows == rows
  {
  }

  /** In particular, from no row, two toggles leave no row. */
  lemma PresenceTwiceFromAbsent(rows: map<RowKey, bool>, k: RowKey)
    requires k !in rows
    ensures PresenceStep(rows, k).on
    ensures k !in PresenceStep(PresenceStep(rows, k).rows, k).rows
  {
  }

  /** The relation after a sequence of favorite (or cart) toggles. */
  function PresenceRun(rows: map<RowKey, bool>, keys: seq<RowKey>): map<RowKey, bool>
    decreases keys
  {
    if keys == [] then rows else PresenceRun(PresenceStep(rows, keys[0]).rows, keys[1..])
  }

  /** The relation after a sequence of like toggles. */
  function LikeRun(rows: map<RowKey, bool>, keys: seq<RowKey>): map<RowKey, bool>
    decreases keys
  {
    if keys == [] then rows else LikeRun(LikeStep(rows, keys[0]).rows, keys[1..])
  }

  /** After any sequence of favorite or cart toggles from a relation whose rows are all set, every row is set. */
  lemma {:induction false} PresenceRunAllOn(rows: map<RowKey, bool>, keys: seq<RowKey>)
    requires AllOn(rows)
    ensures AllOn(PresenceRun(rows, keys))
    decreases keys
  {
    if keys != [] {
      PresenceRunAllOn(PresenceStep(rows, keys[0]).rows, keys[1..]);
    }
  }

  /** Like rows are never deleted: the rows after a sequence are the old rows plus the toggled keys. */
  lemma {:induction false} LikeRunKeepsRows(rows: map<RowKey, bool>, keys: seq<RowKey>)
    ensures LikeRun(rows, keys).Keys == rows.Keys + set k | k in keys
    decreases keys
  {
    if keys != [] {
      LikeRunKeepsRows(LikeStep(rows, keys[0]).rows, keys[1..]);
      assert (set k | k in keys) == {keys[0]} + set k | k in keys[1..];
    }
  }

  /** A like toggle moves the product's like count by exactly one, up when liked. */
  lemma LikeStepCount(rows: map<RowKey, bool>, k: RowKey)
    ensures var t := LikeStep(rows, k);
      Serializers.Likes(t.rows, k.product) == if t.on then Serializers.Likes(rows, k.product) + 1
                                              else Serializers.Likes(rows, k.product) - 1
  {
    LikedByStep(rows, k);
  }

  /** A like toggle adds its key to the product's liked rows, or removes it, and changes nothing else. */
  lemma LikedByStep(rows: map<RowKey, bool>, k: RowKey)
    ensures var t := LikeStep(rows, k);
      var before := Serializers.LikedBy(rows, k.product);
      var after := Serializers.LikedBy(t.rows, k.product);
      && (t.on ==> k !in before && after == before + {k})
      && (!t.on ==> k in before && after == before - {k})
  {
    var t := LikeStep(rows, k);
    var before := Serializers.LikedBy(rows, k.product);
    var after := Serializers.LikedBy(t.rows, k.product);
    var expected := if t.on then before + {k} else before - {k};
    forall j ensures j in after <==> j in expected {
      if j != k {
        assert j in t.rows <==> j in rows;
      }
    }
    assert after == expected;
  }

  /** A like toggle leaves every other product's like count alone. */
  lemma LikeStepOtherCounts(rows: map<RowKey, bool>, k: RowKey, p: ProductId)
    requires p != k.product
    ensures Serializers.Likes(LikeStep(rows, k).rows, p) == Serializers.Likes(rows, p)
  {
    assert Serializers.LikedBy(LikeStep(rows, k).rows, p) == Serializers.LikedBy(rows, p);
  }

  /** A toggle by one user never changes another user's listing. */
  lemma ToggleIsolation(rows: map<RowKey, bool>, k: RowKey, u: UserId)
    requires k.user != u
    ensures Views.RowsOf(PresenceStep(rows, k).rows, u) == Views.RowsOf(rows, u)
    ensures Views.RowsOf(LikeStep(rows, k).rows, u) == Views.RowsOf(rows, u)
  {
  }

  /**
   * The relation tables behind the like, favorite and cart actions, with the
   * catalog they refer to, keyed by primary key.
   */
  class RelationStore {
    const products: map<ProductId, Product>
    var likes: map<RowKey, bool>
    var favorites: map<RowKey, bool>
    var carts: map<RowKey, bool>

    /**
     * `get_object`: the product is looked up in the listing's queryset after
     * the filter backends ran, so a product outside the request's filter
     * parameters is not found either.
     */
    predicate Found(filters: Filters.FilterParams, product: ProductId)
      reads this
    {
      product in products && Filters.Keeps(filters, products[product])
    }

    /** Favorite and cart rows are always set; every row names a catalog product. */
    ghost predicate Valid()
      reads this
    {
      && AllOn(favorites) && AllOn(carts)
      && (forall k :: k in likes ==> k.product in products)
      && (forall k :: k in favorites ==> k.product in products)
      && (forall k :: k in carts ==> k.product in products)
    }

    constructor (catalog: map<ProductId, Product>)
      ensures Valid()
      ensures products == catalog
      ensures likes == map[] && favorites == map[] && carts == map[]
    {
      products := catalog;
      likes, favorites, carts := map[], map[], map[];
    }

    /** `ProductViewSet.like`. */
    method Like(who: Requester, filters: Filters.FilterParams, product: ProductId) returns (reply: Reply)
      requires Valid()
      modifies this`likes
      ensures Valid()
      ensures favorites == old(favorites) && carts == old(carts)
      ensures !who.Authenticated? ==> reply == Refused(NotAuthenticated) && likes == old(likes)
      ensures who.Authenticated? && !Found(filters, product) ==> reply == NotFound && likes == old(likes)
      ensures who.Authenticated? && Found(filters, product) ==>
        var t := LikeStep(old(likes), RowKey(who.user.pk, product));
        likes == t.rows && reply == Done(if t.on then Liked else Disliked)
    {
      Views.ProductAccess("like", who, false);
      if !Views.Permitted(Views.ProductPermissions("like"), who, false) {
        return Refused(NotAuthenticated);
      }
      if !Found(filters, product) {
        return NotFound;
      }
      var key := RowKey(who.user.pk, product);
      var isLiked: bool;
      if key in likes {
        isLiked := likes[key];
      } else {
        isLiked := DefaultFlag;
        likes := likes[key := isLiked];
      }
      if isLiked {
        likes := likes[key := false];
        reply := Done(Disliked);
      } else {
        likes := likes[key := true];
        reply := Done(Liked);
      }
    }

    /** `ProductViewSet.favorite`. */
    method Favorite(who: Requester, filters: Filters.FilterParams, product: ProductId) returns (reply: Reply)
      requires Valid()
      modifies this`favorites
      ensures Valid()
      ensures likes == old(likes) && carts == old(carts)
      ensures !who.Authenticated? ==> reply == Refused(NotAuthenticated) && favorites == old(favorites)
      ensures who.Authenticated? && !Found(filters, product) ==> reply == NotFound && favorites == old(favorites)
      ensures who.Authenticated? && Found(filters, product) ==>
        var t := PresenceStep(old(favorites), RowKey(who.user.pk, product));
        favorites == t.rows && reply == Done(if t.on then AddedToFavorites else RemovedFromFavorites)
    {
      Views.ProductAccess("favorite", who, false);
      if !Views.Permitted(Views.ProductPermissions("favorite"), who, false) {
        return Refused(NotAuthenticated);
      }
      if !Found(filters, product) {
        return NotFound;
      }
      var key := RowKey(who.user.pk, product);
      var favorite: bool;
      if key in favorites {
        favorite := favorites[key];
      } else {
        favorite := DefaultFlag;
        favorites := favorites[key := favorite];
      }
      if favorite {
        favorites := favorites - {key};
        reply := Done(RemovedFromFavorites);
      } else {
        favorites := favorites[key := true];
        reply := Done(AddedToFavorites);
      }
    }

    /** `ProductViewSet.cart`. */
    method Cart(who: Requester, filters: Filters.FilterParams, product: ProductId) returns (reply: Reply)
      requires Valid()
      modifies this`carts
      ensures Valid()
      ensures likes == old(likes) && favorites == old(favorites)
      ensures !who.Authenticated? ==> reply == Refused(NotAuthenticated) && carts == old(carts)
      ensures who.Authenticated? && !Found(filters, product) ==> reply == NotFound && carts == old(carts)
      ensures who.Authenticated? && Found(filters, product) ==>
        var t := PresenceStep(old(carts), RowKey(who.user.pk, product));
        carts == t.rows && reply == Done(if t.on then AddedToCart else RemovedFromCart)
    {
      Views.ProductAccess("cart", who, false);
      if !Views.Permitted(Views.ProductPermissions("cart"), who, false) {
        return Refused(NotAuthenticated);
      }
      if !Found(filters, product) {
        return NotFound;
      }
      var key := RowKey(who.user.pk, product);
      var add: bool;
      if key in carts {
        add := carts[key];
      } else {
        add := DefaultFlag;
        carts := carts[key := add];
      }
      if add {
        carts := carts - {key};
        reply := Done(RemovedFromCart);
      } else {
        carts := carts[key := true];
        reply := Done(AddedToCart);
      }
    }
  }

  /** Two favorite toggles by one user on one product leave the store as it was. */
  method FavoriteTwice(store: RelationStore, u: User, filters: Filters.FilterParams, product: ProductId)
    requires store.Valid()
    modifies store
    ensures store.Valid()
    ensures store.favorites == old(store.favorites)
    ensures store.likes == old(store.likes) && store.carts == old(store.carts)
  {
    var first := store.Favorite(Authenticated(u), filters, product);
    var second := store.Favorite(Authenticated(u), filters, product);
    if store.Found(filters, product) {
      PresenceTwiceRestores(old(store.favorites), RowKey(u.pk, product));
    }
  }

  /**
   * `get_object` is the filtered listing looked up by primary key: over any
   * listing that holds every catalog product, `Found` agrees with membership
   * in `Filters.Filter` of that listing.
   */
  lemma FoundIsFilteredLookup(store: RelationStore, filters: Filters.FilterParams,
                              listing: seq<Product>, product: ProductId)
    requires forall id :: id in store.products ==> store.products[id] in listing
    ensures store.Found(filters, product)
        <==> product in store.products && store.products[product] in Filters.Filter(filters, listing)
  {
  }
}
