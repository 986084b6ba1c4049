/**
 * The records the catalog API works on. The repository's models module is not
 * part of this model; the fields below are the ones the views, serializers and
 * filters read or write.
 */
module Models {

  type UserId = nat
  type ProductId = nat
  type CategoryId = nat

  datatype Option<T> = None | Some(value: T)

  datatype Result<T, E> = Ok(value: T) | Err(error: E)

  /** A registered user, as the request carries it. */
  datatype User = User(pk: UserId, firstName: string, lastName: string)

  /** `request.user`: either the anonymous user or an authenticated one. */
  datatype Requester = Anonymous | Authenticated(user: User)

  /**
   * The parts of an HTTP request the core looks at: who is calling and the
   * network identity the throttle falls back on (what `get_ident` returns).
   */
  datatype Request = Request(requester: Requester, ident: string)

  /** Why a view refused a request before running it. */
  datatype AuthError = NotAuthenticated

  /** A catalog product; `price` is a decimal, kept exact as a real. */
  datatype Product = Product(
    id: ProductId,
    title: string,
    description: string,
    price: real,
    category: CategoryId,
    image: string)

  /** A stored review of `product` written by `author`. */
  datatype Review = Review(product: ProductId, author: UserId, rating: int, text: string)

  /** The (user, product) pair that keys a WishList, Favorite or Cart row. */
  datatype RowKey = RowKey(user: UserId, product: ProductId)

  /** A value in a request payload or in a serialized representation. */
  datatype Value = Num(n: int) | Dec(d: real) | Str(s: string) | Ref(id: nat)
}
