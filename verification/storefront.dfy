/** The storefront's product filter (src/pages/Store.tsx): the seed
    products whose name or description contains the search text, ignoring
    case, and that belong to the active category, `todos` standing for
    every category. */
module Storefront {
  import opened Types
  import Text
  import Collections
  import MockData

  /** The category tab that shows every product. */
  const AllCategories := "todos"

  /** The filter's predicate for one product. */
  predicate Shown(p: Product, query: string, active: string)
  {
    && (Text.Includes(Text.Lower(p.name), Text.Lower(query))
        || Text.Includes(Text.Lower(p.description), Text.Lower(query)))
    && (active == AllCategories || p.category == active)
  }

  function ShownBy(query: string, active: string): Product -> bool
  {
    (p: Product) => Shown(p, query, active)
  }

  /** `filteredProducts` over a product list. */
  function VisibleProducts(ps: seq<Product>, query: string, active: string): seq<Product>
  {
    Collections.Filter(ps, ShownBy(query, active))
  }

  /** What the storefront lists: the seed products, filtered. */
  function StorefrontProducts(query: string, active: string): seq<Product>
  {
    VisibleProducts(MockData.SeedProducts, query, active)
  }

  /** A product is listed exactly when it is in the list and matches both
      the search and the category; the listed products keep the list's
      order and each appears as often as it does there. */
  lemma VisibleSpec(ps: seq<Product>, query: string, active: string)
    ensures forall p :: p in VisibleProducts(ps, query, active) <==> p in ps && Shown(p, query, active)
    ensures Collections.IsSubsequence(VisibleProducts(ps, query, active), ps)
    ensures forall p :: p in VisibleProducts(ps, query, active) ==>
      multiset(VisibleProducts(ps, query, active))[p] == multiset(ps)[p]
  {
    Collections.FilterMembers(ps, ShownBy(query, active));
    Collections.FilterSpec(ps, ShownBy(query, active));
  }

  /** The empty text occurs in every text. */
  lemma IncludesEmpty(s: string)
    ensures Text.Includes(s, "")
  {
    assert Text.StartsWith(s, "");
  }

  /** With the state the page starts in, empty search and `todos`, every
      product is listed. */
  lemma InitialShowsAll(ps: seq<Product>)
    ensures VisibleProducts(ps, "", AllCategories) == ps
  {
    assert Text.Lower("") == "";
    forall p | p in ps ensures Shown(p, "", AllCategories) {
      IncludesEmpty(Text.Lower(p.name));
    }
    Collections.FilterKeepsAll(ps, ShownBy("", AllCategories));
  }

  /** The storefront opens on the whole seed catalogue. */
  lemma StorefrontStartsWithAll()
    ensures StorefrontProducts("", AllCategories) == MockData.SeedProducts
  {
    InitialShowsAll(MockData.SeedProducts);
  }

  /** Under any tab but `todos`, every listed product is of that category. */
  lemma CategoryTabFilters(ps: seq<Product>, query: string, active: string)
    requires active != AllCategories
    ensures forall p :: p in VisibleProducts(ps, query, active) ==> p.category == active
  {
    Collections.FilterMembers(ps, ShownBy(query, active));
  }

  /** Two searches that are the same once lowered list the same products,
      so the case of the search text does not matter. */
  lemma SearchIgnoresCase(ps: seq<Product>, query: string, other: string, active: string)
    requires Text.Lower(query) == Text.Lower(other)
    ensures VisibleProducts(ps, query, active) == VisibleProducts(ps, other, active)
    ensures VisibleProducts(ps, Text.Lower(query), active) == VisibleProducts(ps, query, active)
  {
    Collections.FilterAgree(ps, ShownBy(query, active), ShownBy(other, active));
    Text.LowerTwice(query);
    Collections.FilterAgree(ps, ShownBy(Text.Lower(query), active), ShownBy(query, active));
  }
}
