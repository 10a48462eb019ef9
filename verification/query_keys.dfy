/** The cache keys the product queries are stored under and the
    invalidation the three mutations perform. A query is identified by its
    key: two queries with equal keys share one cache entry. */
module QueryKeys {
  import opened Optional
  import opened Products
  import opened Catalog

  /** One element of a key array: a string, or `undefined` for an omitted
      argument */
  datatype KeyPart = Text(text: string) | Missing

  type QueryKey = seq<KeyPart>

  /** The product queries of the storefront */
  datatype Query =
    | List(category: Option<string>)
    | Featured
    | Search(term: string)
    | ById(id: string)

  /** What a query answers: a list of rows, or the outcome of a fetch by id */
  datatype Answer = Rows(rows: seq<Product>) | Single(fetched: Fetched)

  /** The answer each query computes over the table; `fold` is the
      database's case mapping */
  function Run(rows: seq<Product>, q: Query, fold: char -> char): Answer {
    match q
    case List(c) => Rows(ListProducts(rows, c))
    case Featured => Rows(FeaturedProducts(rows))
    case Search(term) => Rows(SearchProducts(rows, term, fold))
    case ById(id) => Single(GetProduct(rows, id))
  }

  function ArgPart(a: Option<string>): KeyPart {
    match a
    case Some(s) => Text(s)
    case None => Missing
  }

  /** The keys as the hooks declare them */
  function KeyOf(q: Query): QueryKey {
    match q
    case List(c) => [Text("products"), ArgPart(c)]
    case Featured => [Text("products"), Text("featured")]
    case Search(term) => [Text("products"), Text("search"), Text(term)]
    case ById(id) => [Text("product"), Text(id)]
  }

  /** The filter the three mutations invalidate with */
  const MutationFilter: QueryKey := [Text("products")]

  /** A filter selects every key it is a prefix of. */
  predicate Selects(filter: QueryKey, key: QueryKey) {
    |filter| <= |key| && key[..|filter|] == filter
  }

  /** After a create, update or delete the list, featured and search queries
      are refetched, and the query of a single product is not. */
  lemma MutationInvalidates(q: Query)
    ensures Selects(MutationFilter, KeyOf(q)) <==> !q.ById?
  {
    if q.ById? {
      assert KeyOf(q)[0] != MutationFilter[0];
    }
  }

  /** A category that names none of the three lists no rows. */
  lemma ListUnknownCategory(rows: seq<Product>, c: string)
    requires c != "" && ParseCategory(c).None?
    ensures ListProducts(rows, Some(c)) == []
  {
    var l := ListProducts(rows, Some(c));
    forall x: Product ensures multiset(l)[x] == 0 {
      assert CategoryCode(x.category) != c;
    }
    assert multiset(l) == multiset{};
  }

  /** The list query for the category "featured" lands on the featured
      query's key, yet the two compute different answers: the route
      parameter reaches the list hook unchecked, so `/category/featured`
      and the home page overwrite each other's cached rows. */
  lemma ListKeyCollides(rows: seq<Product>, fold: char -> char)
    requires rows != []
    ensures KeyOf(List(Some("featured"))) == KeyOf(Featured)
    ensures Run(rows, List(Some("featured")), fold) != Run(rows, Featured, fold)
  {
    ListUnknownCategory(rows, "featured");
    assert |FeaturedProducts(rows)| > 0;
  }

  /** The list key with a segment of its own, so that no argument can make
      it equal the key of another query */
  function FixedKeyOf(q: Query): (k: QueryKey)
    ensures |k| >= 2 && k[0] == Text(if q.ById? then "product" else "products")
  {
    match q
    case List(c) => [Text("products"), Text("list"), ArgPart(c)]
    case _ => KeyOf(q)
  }

  /** With the corrected list key, queries that share a key are the same
      query, so a cache entry never holds two different answers. */
  lemma FixedKeysSeparate(q1: Query, q2: Query, rows: seq<Product>, fold: char -> char)
    requires FixedKeyOf(q1) == FixedKeyOf(q2)
    ensures q1 == q2
    ensures Run(rows, q1, fold) == Run(rows, q2, fold)
  {
    var k := FixedKeyOf(q1);
    match q1
    case List(c) =>
      assert k[1] == Text("list");
      assert ArgPart(c) == k[2] == ArgPart(q2.category);
    case Featured =>
      assert |k| == 2;
    case Search(t) =>
      assert k[1] == Text("search");
      assert k[2] == Text(t);
    case ById(id) =>
      assert k[1] == Text(id);
  }

  /** The corrected keys are invalidated exactly as the declared ones. */
  lemma FixedKeysInvalidated(q: Query)
    ensures Selects(MutationFilter, FixedKeyOf(q)) <==> Selects(MutationFilter, KeyOf(q))
  {
    MutationInvalidates(q);
  }
}
