/** Page names to paths. */
module Routes {

  /** The route table, as (page name, path) entries. */
  const RouteTable: seq<(string, string)> := [("Home", "/"), ("Store", "/store"), ("ProductDetails", "/product")]

  const HomePath: string := "/"

  /** The path listed for `name`, or the empty string when there is none. */
  function LookupPath(table: seq<(string, string)>, name: string): (r: string)
    ensures r != "" ==> exists i :: 0 <= i < |table| && table[i] == (name, r)
    ensures (forall i :: 0 <= i < |table| ==> table[i].0 != name) ==> r == ""
  {
    if |table| == 0 then ""
    else if table[0].0 == name then table[0].1
    else LookupPath(table[1..], name)
  }

  /** `createPageUrl(pageName)`: `routes[pageName] || "/"`. */
  function CreatePageUrl(name: string): (r: string)
    ensures r == HomePath || exists i :: 0 <= i < |RouteTable| && RouteTable[i] == (name, r)
  {
    var p := LookupPath(RouteTable, name);
    if p != "" then p else HomePath
  }

  /** Every page URL is an absolute path. */
  lemma UrlIsAbsolute(name: string)
    ensures |CreatePageUrl(name)| > 0 && CreatePageUrl(name)[0] == '/'
  {
  }

  /** The three known pages get their own paths; any other name falls back
      to the home page. */
  lemma KnownPages(other: string)
    requires other != "Home" && other != "Store" && other != "ProductDetails"
    ensures CreatePageUrl("Home") == "/"
    ensures CreatePageUrl("Store") == "/store"
    ensures CreatePageUrl("ProductDetails") == "/product"
    ensures CreatePageUrl(other) == HomePath
  {
  }
}
