/** The storefront's product listing: the query it sends, and the search
    and price sort it applies to what comes back. */
module Products {
  import opened Prelude
  import opened Catalog
  import Sorting

  datatype Direction = Asc | Desc

  /** One `where(field, "==", value)` clause. */
  datatype Where = Where(field: string, value: string)

  /** The query `fetchProducts` sends to the products collection. */
  datatype QueryPlan = QueryPlan(filters: seq<Where>, orderField: string, direction: Direction, limit: int)

  /** The most documents one listing fetches. */
  const PageLimit: int := 100

  const PriceAsc: string := "price_asc"
  const PriceDesc: string := "price_desc"

  /** The category clause: none for `"all"` or an empty category. */
  function CategoryFilters(category: string): (r: seq<Where>)
    ensures r == [] <==> category == "" || category == "all"
    ensures r != [] ==> r == [Where("category", category)]
  {
    if category != "" && category != "all" then [Where("category", category)] else []
  }

  /** The order clause chosen by `sortBy`; anything unrecognised means
      newest first. */
  function SortClause(sortBy: string): (r: (string, Direction))
    ensures sortBy == PriceAsc ==> r == ("price", Asc)
    ensures sortBy == PriceDesc ==> r == ("price", Desc)
    ensures sortBy != PriceAsc && sortBy != PriceDesc ==> r == ("created_at", Desc)
  {
    if sortBy == PriceAsc then ("price", Asc)
    else if sortBy == PriceDesc then ("price", Desc)
    else ("created_at", Desc)
  }

  function PlanFor(category: string, sortBy: string): (r: QueryPlan)
    ensures r.filters == CategoryFilters(category)
    ensures (r.orderField, r.direction) == SortClause(sortBy)
    ensures r.limit == PageLimit
  {
    QueryPlan(CategoryFilters(category), SortClause(sortBy).0, SortClause(sortBy).1, PageLimit)
  }

  /** The search predicate on an already lower-cased query. */
  predicate MatchesQuery(p: Product, lower: string) {
    Contains(Lower(p.name), lower) || Contains(Lower(p.description), lower)
  }

  /** The client-side search: an empty query keeps everything. */
  function Search(items: seq<Product>, search: string): (r: seq<Product>)
    ensures search == "" ==> r == items
    ensures search != "" ==> forall i :: 0 <= i < |r| ==> r[i] in items && MatchesQuery(r[i], Lower(search))
    ensures search != "" ==> forall i :: 0 <= i < |items| && MatchesQuery(items[i], Lower(search)) ==> items[i] in r
    ensures Subsequence(r, items)
    ensures search != "" ==> forall x {:trigger multiset(r)[x]} ::
              multiset(r)[x] == if MatchesQuery(x, Lower(search)) then multiset(items)[x] else 0
  {
    if search == "" then
      assert Subsequence(items, items) by { SubsequenceRefl(items); }
      items
    else
      Filter(items, (p: Product) => MatchesQuery(p, Lower(search)))
  }

  /** The price a comparator `a.price - b.price` reads. */
  function PriceKey(p: Product): real { p.price.GetOr(0.0) }

  /** The client-side re-sort: only the two price orders sort. */
  function ClientSort(items: seq<Product>, sortBy: string): (r: seq<Product>)
    ensures sortBy == PriceAsc ==> Sorting.Ascending(r, PriceKey)
    ensures sortBy == PriceDesc ==> Sorting.Descending(r, PriceKey)
    ensures sortBy != PriceAsc && sortBy != PriceDesc ==> r == items
    ensures multiset(r) == multiset(items)
  {
    if sortBy == PriceAsc then Sorting.SortAscending(items, PriceKey)
    else if sortBy == PriceDesc then Sorting.SortDescending(items, PriceKey)
    else items
  }

  /** `fetchProducts({ category, search, sortBy })` over the snapshot the
      query returned; a failed read yields the empty list. */
  function FetchProducts(snapshot: Option<seq<Product>>, search: string, sortBy: string): (r: seq<Product>)
    ensures snapshot.None? ==> r == []
    ensures snapshot.Some? ==> multiset(r) == multiset(Search(snapshot.value, search))
    ensures snapshot.Some? && sortBy == PriceAsc ==> Sorting.Ascending(r, PriceKey)
    ensures snapshot.Some? && sortBy == PriceDesc ==> Sorting.Descending(r, PriceKey)
    ensures snapshot.Some? && sortBy != PriceAsc && sortBy != PriceDesc ==> r == Search(snapshot.value, search)
  {
    match snapshot
    case None => []
    case Some(items) => ClientSort(Search(items, search), sortBy)
  }

  /** The case of the query does not matter. */
  lemma SearchIgnoresQueryCase(items: seq<Product>, search: string)
    ensures Search(items, Lower(search)) == Search(items, search)
  {
    LowerIdempotent(search);
    if search != "" {
      assert Lower(search) != "";
    }
  }

  /** Searching the results again finds nothing more to drop. */
  lemma SearchIdempotent(items: seq<Product>, search: string)
    ensures Search(Search(items, search), search) == Search(items, search)
  {
    if search != "" {
      FilterIdempotent(items, (p: Product) => MatchesQuery(p, Lower(search)));
    }
  }

  /** An order-preserving filter of an ascending list is ascending. */
  lemma {:induction false} FilterKeepsAscending(s: seq<Product>, f: Product -> bool, key: Product -> real)
    requires Sorting.Ascending(s, key)
    ensures Sorting.Ascending(Filter(s, f), key)
  {
    if |s| > 0 {
      assert Sorting.Ascending(s[1..], key);
      FilterKeepsAscending(s[1..], f, key);
      var rest := Filter(s[1..], f);
      assert forall i :: 0 <= i < |rest| ==> key(s[0]) <= key(rest[i]) by {
        forall i | 0 <= i < |rest|
          ensures key(s[0]) <= key(rest[i])
        {
          var j :| 0 <= j < |s[1..]| && s[1..][j] == rest[i];
          assert s[j + 1] == rest[i];
        }
      }
      if f(s[0]) {
        Sorting.ConsAscending(s[0], rest, key);
        assert Filter(s, f) == [s[0]] + rest;
      } else {
        assert Filter(s, f) == rest;
      }
    }
  }

  /** When the server already returned the snapshot in ascending price
      order, the client's re-sort keeps the searched list as it is. */
  lemma ServerOrderKept(items: seq<Product>, search: string)
    requires Sorting.Ascending(items, PriceKey)
    ensures FetchProducts(Some(items), search, PriceAsc) == Search(items, search)
  {
    if search != "" {
      FilterKeepsAscending(items, (p: Product) => MatchesQuery(p, Lower(search)), PriceKey);
    }
    Sorting.SortAscendingSorted(Search(items, search), PriceKey);
  }
}
