/**
 * The product filter set: optional query parameters, each a predicate on one
 * product field, combined by conjunction.
 */
module Filters {
  import opened Models
  import opened Text
  import opened Query

  /** The filter parameters of a product listing; `None` means "not given". */
  datatype FilterParams = FilterParams(
    category: Option<CategoryId>,
    title: Option<string>,
    desc: Option<string>,
    priceFrom: Option<real>,
    priceTo: Option<real>)

  const NoFilters := FilterParams(None, None, None, None, None)

  /** `category`: exact match on the category. */
  predicate CategoryMatches(f: FilterParams, p: Product)
  {
    f.category.Some? ==> p.category == f.category.value
  }

  /** `title`: the title contains the value, ignoring case. */
  predicate TitleMatches(f: FilterParams, p: Product)
  {
    f.title.Some? ==> IContains(p.title, f.title.value)
  }

  /** `desc`: the description contains the value, ignoring case. */
  predicate DescMatches(f: FilterParams, p: Product)
  {
    f.desc.Some? ==> IContains(p.description, f.desc.value)
  }

  /** `price_from`: an inclusive lower bound on the price. */
  predicate PriceFromMatches(f: FilterParams, p: Product)
  {
    f.priceFrom.Some? ==> f.priceFrom.value <= p.price
  }

  /** `price_to`: an inclusive upper bound on the price. */
  predicate PriceToMatches(f: FilterParams, p: Product)
  {
    f.priceTo.Some? ==> p.price <= f.priceTo.value
  }

  /** A product passes the filter set when it passes every given filter. */
  predicate Keeps(f: FilterParams, p: Product)
  {
    CategoryMatches(f, p) && TitleMatches(f, p) && DescMatches(f, p)
    && PriceFromMatches(f, p) && PriceToMatches(f, p)
  }

  /** The filter set as a condition on rows. */
  function KeepsFn(f: FilterParams): Product -> bool
  {
    p => Keeps(f, p)
  }

  /** The listing after filtering, in the listing's order. */
  function Filter(f: FilterParams, products: seq<Product>): (r: seq<Product>)
    ensures |r| <= |products|
    ensures forall p :: p in r <==> p in products && Keeps(f, p)
  {
    Select(products, KeepsFn(f))
  }

  /** No parameters: every product is kept, in order. */
  lemma NoFiltersKeepAll(products: seq<Product>)
    ensures Filter(NoFilters, products) == products
  {
    SelectAll(products, KeepsFn(NoFilters));
  }

  /** `title` alone keeps exactly the products whose title contains it, ignoring case. */
  lemma TitleFilterKeeps(products: seq<Product>, v: string, p: Product)
    ensures p in Filter(NoFilters.(title := Some(v)), products)
        <==> p in products && IContains(p.title, v)
  {
  }

  /** `desc` alone keeps exactly the products whose description contains it, ignoring case. */
  lemma DescFilterKeeps(products: seq<Product>, v: string, p: Product)
    ensures p in Filter(NoFilters.(desc := Some(v)), products)
        <==> p in products && IContains(p.description, v)
  {
  }

  /** `category` alone keeps exactly the products of that category. */
  lemma CategoryFilterKeeps(products: seq<Product>, c: CategoryId, p: Product)
    ensures p in Filter(NoFilters.(category := Some(c)), products)
        <==> p in products && p.category == c
  {
  }

  /** With both price bounds, the kept prices are exactly those in [lo, hi]. */
  lemma PriceRangeKeeps(products: seq<Product>, lo: real, hi: real, p: Product)
    ensures p in Filter(NoFilters.(priceFrom := Some(lo), priceTo := Some(hi)), products)
        <==> p in products && lo <= p.price <= hi
  {
  }

  /** An empty `title` or `desc` value imposes no constraint. */
  lemma EmptyTextFiltersIgnored(f: FilterParams, products: seq<Product>)
    requires f.title == Some("") || f.title == None
    requires f.desc == Some("") || f.desc == None
    ensures Filter(f, products) == Filter(f.(title := None, desc := None), products)
  {
    forall p ensures Keeps(f, p) == Keeps(f.(title := None, desc := None), p) {
      EmptyQueryMatchesAll(p.title);
      EmptyQueryMatchesAll(p.description);
    }
    SelectAgree(products, KeepsFn(f), KeepsFn(f.(title := None, desc := None)));
  }

  /**
   * The filter set is the conjunction of its single-parameter filters: applying
   * them one after another, in any listing, gives the same result.
   */
  lemma FilterIsConjunction(f: FilterParams, products: seq<Product>)
    ensures Filter(f, products)
      == Filter(NoFilters.(category := f.category),
           Filter(NoFilters.(title := f.title),
             Filter(NoFilters.(desc := f.desc),
               Filter(NoFilters.(priceFrom := f.priceFrom),
                 Filter(NoFilters.(priceTo := f.priceTo), products)))))
  {
    var fc, ft, fd := NoFilters.(category := f.category), NoFilters.(title := f.title), NoFilters.(desc := f.desc);
    var ff, fp := NoFilters.(priceFrom := f.priceFrom), NoFilters.(priceTo := f.priceTo);
    var k1: Product -> bool := p => Keeps(ff, p) && Keeps(fp, p);
    var k2: Product -> bool := p => Keeps(fd, p) && k1(p);
    var k3: Product -> bool := p => Keeps(ft, p) && k2(p);
    var k4: Product -> bool := p => Keeps(fc, p) && k3(p);
    var s1 := Filter(ff, Filter(fp, products));
    assert s1 == Select(products, k1) by {
      SelectThenSelect(products, KeepsFn(ff), KeepsFn(fp), k1);
    }
    var s2 := Filter(fd, s1);
    assert s2 == Select(products, k2) by {
      SelectThenSelect(products, KeepsFn(fd), k1, k2);
    }
    var s3 := Filter(ft, s2);
    assert s3 == Select(products, k3) by {
      SelectThenSelect(products, KeepsFn(ft), k2, k3);
    }
    var s4 := Filter(fc, s3);
    assert s4 == Select(products, k4) by {
      SelectThenSelect(products, KeepsFn(fc), k3, k4);
    }
    forall p ensures k4(p) == KeepsFn(f)(p) {
      KeepsSplit(f, p);
    }
    SelectAgree(products, k4, KeepsFn(f));
  }

  /** One product passes the filter set iff it passes each single-parameter filter. */
  lemma KeepsSplit(f: FilterParams, p: Product)
    ensures Keeps(f, p) == (Keeps(NoFilters.(category := f.category), p)
      && Keeps(NoFilters.(title := f.title), p) && Keeps(NoFilters.(desc := f.desc), p)
      && Keeps(NoFilters.(priceFrom := f.priceFrom), p) && Keeps(NoFilters.(priceTo := f.priceTo), p))
  {
  }
}
