/** The filter form of the catalog page: three select fields initialised
    from the URL, "apply" navigating to `/books?` with the non-empty fields
    as search parameters, and "reset" clearing the fields and navigating
    to `/books`. */
module BookFilterForm {
  import opened Domain
  import Catalog

  /** One search parameter, key and value (percent-encoding is not modelled). */
  datatype Param = Param(key: string, value: string)

  /** The position of a filter key in the form. */
  function KeyRank(key: string): nat
  {
    match key
    case "category" => 0
    case "author" => 1
    case _ => 2
  }

  /** `Param(key, value)` occurs in `params` and no earlier parameter has
      that key. */
  ghost predicate FirstWithKey(params: seq<Param>, key: string, value: string)
  {
    exists i :: (0 <= i < |params| && params[i] == Param(key, value)
      && forall j :: 0 <= j < i ==> params[j].key != key)
  }

  /** `URLSearchParams.get`: the value of the first parameter with that key. */
  function Lookup(params: seq<Param>, key: string): (v: Option<string>)
    ensures v.Some? <==> exists i :: 0 <= i < |params| && params[i].key == key
    ensures v.Some? ==> Param(key, v.value) in params
    ensures v.Some? ==> FirstWithKey(params, key, v.value)
  {
    if params == [] then None
    else if params[0].key == key then
      assert params[0] == Param(key, params[0].value);
      Some(params[0].value)
    else
      var rest := Lookup(params[1..], key);
      assert forall i :: 1 <= i < |params| ==> params[i] == params[1..][i - 1];
      assert rest.Some? ==> FirstWithKey(params, key, rest.value) by {
        if rest.Some? {
          var i :| 0 <= i < |params[1..]| && params[1..][i] == Param(key, rest.value)
            && (forall j :: 0 <= j < i ==> params[1..][j].key != key);
          assert params[i + 1] == Param(key, rest.value);
          assert forall j :: 0 <= j < i + 1 ==> params[j].key != key;
        }
      }
      rest
  }

  /** `URLSearchParams.toString`: `key=value` pairs joined by `&`. */
  function QueryString(params: seq<Param>): string
  {
    if params == [] then ""
    else
      var head := params[0].key + "=" + params[0].value;
      if |params| == 1 then head else head + "&" + QueryString(params[1..])
  }

  function Single(key: string, value: string): seq<Param>
  {
    if value != "" then [Param(key, value)] else []
  }

  /** The parameters `applyFilters` sets: one per non-empty field, in the
      order category, author, year, each with the field's value. */
  function FilterParams(category: string, author: string, year: string): (p: seq<Param>)
    ensures |p| <= 3
    ensures forall i :: 0 <= i < |p| ==> p[i].value != "" && p[i].key in ["category", "author", "year"]
    ensures forall i, j :: 0 <= i < j < |p| ==> KeyRank(p[i].key) < KeyRank(p[j].key)
    ensures Param("category", category) in p <==> category != ""
    ensures Param("author", author) in p <==> author != ""
    ensures Param("year", year) in p <==> year != ""
  {
    Single("category", category) + Single("author", author) + Single("year", year)
  }

  /** The search parameters read back by the catalog page are the fields:
      a non-empty field is found under its key, an empty one is absent. */
  lemma FilterParamsRoundTrip(category: string, author: string, year: string)
    ensures var p := FilterParams(category, author, year);
      && Lookup(p, "category") == (if category == "" then None else Some(category))
      && Lookup(p, "author") == (if author == "" then None else Some(author))
      && Lookup(p, "year") == (if year == "" then None else Some(year))
  {
    var p := FilterParams(category, author, year);
    if category != "" {
      assert p[0] == Param("category", category);
    }
    var lc := Lookup(p, "category");
    if lc.Some? {
      var i :| 0 <= i < |p| && p[i].key == "category";
      assert Param("category", lc.value) in p;
    }
    var la := Lookup(p, "author");
    if la.Some? {
      assert Param("author", la.value) in p;
    }
    var ly := Lookup(p, "year");
    if ly.Some? {
      assert Param("year", ly.value) in p;
    }
  }

  /** The query the catalog page sees after navigating with `params`. */
  function QueryOf(params: seq<Param>): Catalog.CatalogQuery
  {
    Catalog.CatalogQuery(Lookup(params, "category"), Lookup(params, "author"), Lookup(params, "year"))
  }

  /** Applying the form lists exactly the available books that agree with
      every non-empty field. */
  lemma ApplyThenList(books: seq<Book>, category: string, author: string, year: string)
    ensures forall b :: b in Catalog.ListCatalog(books, QueryOf(FilterParams(category, author, year))) <==>
      && b in books && b.isAvailable
      && (category != "" ==> b.category == category)
      && (author != "" ==> b.author == author)
      && (year != "" ==> Catalog.ParseInt(year) == Some(b.year))
  {
    FilterParamsRoundTrip(category, author, year);
  }

  /** `searchParams.get(name) || ""`. */
  function OrEmpty(v: Option<string>): (s: string)
    ensures v.Some? ==> s == v.value
    ensures v.None? ==> s == ""
  {
    if v.Some? then v.value else ""
  }

  /** The navigation target of `applyFilters`. */
  function Target(category: string, author: string, year: string): string
  {
    "/books?" + QueryString(FilterParams(category, author, year))
  }

  /** With every field empty, the form navigates to `/books?`. */
  lemma EmptyFormTarget()
    ensures Target("", "", "") == "/books?"
  {
    assert FilterParams("", "", "") == [];
  }

  /** The form's state: the three field values and the pages pushed onto
      the router, most recent last. */
  class BookFilter {
    var category: string
    var author: string
    var year: string
    var pushed: seq<string>

    constructor (categoryParam: Option<string>, authorParam: Option<string>, yearParam: Option<string>)
      ensures category == OrEmpty(categoryParam) && author == OrEmpty(authorParam) && year == OrEmpty(yearParam)
      ensures pushed == []
    {
      category := OrEmpty(categoryParam);
      author := OrEmpty(authorParam);
      year := OrEmpty(yearParam);
      pushed := [];
    }

    /** The three `params.set` calls on a fresh parameter list; with keys
        that are new to the list, each `set` appends. */
    method BuildParams() returns (params: seq<Param>)
      ensures params == FilterParams(category, author, year)
    {
      params := [];
      if category != "" {
        params := params + [Param("category", category)];
      }
      if author != "" {
        params := params + [Param("author", author)];
      }
      if year != "" {
        params := params + [Param("year", year)];
      }
    }

    method ApplyFilters()
      modifies this
      ensures pushed == old(pushed) + [Target(category, author, year)]
      ensures category == old(category) && author == old(author) && year == old(year)
    {
      var params := BuildParams();
      pushed := pushed + ["/books?" + QueryString(params)];
    }

    method ResetFilters()
      modifies this
      ensures category == "" && author == "" && year == ""
      ensures pushed == old(pushed) + ["/books"]
    {
      category := "";
      author := "";
      year := "";
      pushed := pushed + ["/books"];
    }
  }
}
