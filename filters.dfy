/** The query filters of backend/api/filters.py: the ingredient name
    prefix, and the recipe filters by favorites, cart, author and tag slugs,
    applied in the order of the filter set's `Meta.fields`. */
module Filters {
  import opened Wrappers
  import opened Text
  import opened Users
  import opened Recipes
  import opened Db
  import opened Serializers

  // ---------------------------------------------------------------------
  // IngredientFilter

  /** GET /ingredients/?name=...: the catalog, ordered by name, keeping the
      ingredients whose name starts with the value, ignoring case. The
      filter's form field strips the value first; an absent value, or one
      that strips to nothing, filters nothing. */
  function IngredientsByName(catalog: seq<Ingredient>, name: Option<string>): (r: seq<Ingredient>)
    ensures forall i :: i in r <==> i in catalog && (NoNameFilter(name) || IStartsWith(i.name, Strip(name.value)))
    ensures forall i :: multiset(r)[i] <= multiset(catalog)[i]
    ensures forall i, j :: 0 <= i < j < |r| ==> LexLe(r[i].name, r[j].name)
    ensures NoNameFilter(name) ==> multiset(r) == multiset(catalog)
  {
    var keep := (i: Ingredient) => NoNameFilter(name) || IStartsWith(i.name, Strip(name.value));
    var kept := Filter(catalog, keep);
    var r := ByName(kept);
    assert forall i :: i in r <==> i in multiset(r);
    assert forall i :: i in kept <==> i in multiset(kept);
    assert forall i :: multiset(r)[i] <= multiset(catalog)[i] by {
      forall i { FilterCounts(catalog, keep, i); }
    }
    assert NoNameFilter(name) ==> kept == catalog by {
      if NoNameFilter(name) { FilterKeepsAll(catalog, keep); }
    }
    r
  }

  /** The value is absent, or strips to the empty string. */
  predicate NoNameFilter(name: Option<string>)
  {
    name.None? || Strip(name.value) == []
  }

  /** Whitespace around the value does not change the listing. */
  lemma IngredientsByNamePadding(catalog: seq<Ingredient>, pad: string, value: string, tail: string)
    requires forall i :: 0 <= i < |pad| ==> IsSpace(pad[i])
    requires forall i :: 0 <= i < |tail| ==> IsSpace(tail[i])
    ensures IngredientsByName(catalog, Some(pad + value + tail)) == IngredientsByName(catalog, Some(value))
  {
    StripPadding(pad, value, tail);
    var padded := (i: Ingredient) => NoNameFilter(Some(pad + value + tail)) || IStartsWith(i.name, Strip(pad + value + tail));
    var plain := (i: Ingredient) => NoNameFilter(Some(value)) || IStartsWith(i.name, Strip(value));
    assert forall i :: padded(i) == plain(i);
  }

  // ---------------------------------------------------------------------
  // RecipeFilter

  /** Every element `count(x)` times, in order: what a join with a
      many-valued relation does to a query set. */
  function Repeat<T>(s: seq<T>, count: T -> nat): seq<T>
  {
    if s == [] then [] else seq(count(s[0]), _ => s[0]) + Repeat(s[1..], count)
  }

  lemma {:induction false} RepeatCounts<T>(s: seq<T>, count: T -> nat, x: T)
    ensures multiset(Repeat(s, count))[x] == multiset(s)[x] * count(x)
  {
    if s != [] {
      var copies := seq(count(s[0]), _ => s[0]);
      RepeatCounts(s[1..], count, x);
      CopiesCount(s[0], count(s[0]), x);
      assert multiset(Repeat(s, count)) == multiset(copies) + multiset(Repeat(s[1..], count));
      assert s == [s[0]] + s[1..];
      if x == s[0] {
        assert multiset(s)[x] == 1 + multiset(s[1..])[x];
        OnePlusTimes(multiset(s[1..])[x], count(x));
      } else {
        assert multiset(s)[x] == multiset(s[1..])[x];
      }
    }
  }

  lemma OnePlusTimes(m: nat, c: nat)
    ensures (1 + m) * c == c + m * c
  {
  }

  lemma PositiveProduct(m: nat, c: nat)
    ensures m * c > 0 <==> m > 0 && c > 0
  {
    if m > 0 && c > 0 {
      assert m * c >= c by { OnePlusTimes(m - 1, c); }
    }
  }

  lemma {:induction false} CopiesCount<T>(v: T, n: nat, x: T)
    ensures multiset(seq(n, _ => v))[x] == if x == v then n else 0
  {
    if n > 0 {
      CopiesCount(v, n - 1, x);
      assert seq(n, _ => v) == seq(n - 1, _ => v) + [v];
    } else {
      assert seq(n, _ => v) == [];
    }
  }

  /** The elements of `s` without repeats, each at its first position: a
      DISTINCT query. */
  function Distinct<T(==,!new)>(s: seq<T>): (r: seq<T>)
    ensures forall x :: x in r <==> x in s
    ensures forall i, j :: 0 <= i < j < |r| ==> r[i] != r[j]
  {
    if s == [] then []
    else
      var init := s[..|s| - 1];
      var last := s[|s| - 1];
      assert s == init + [last];
      var d := Distinct(init);
      if last in d then d else d + [last]
  }

  /** `author`: the recipes of that user. A key that names no user makes the
      filter set invalid (checked by `RecipeQueryValid`). */
  function ByAuthorFilter(recipes: seq<Recipe>, author: Option<nat>): (r: seq<Recipe>)
    ensures author.None? ==> r == recipes
    ensures forall x :: multiset(r)[x] == if author.None? || x.author == author.value then multiset(recipes)[x] else 0
    ensures forall x :: x in r <==> x in recipes && (author.Some? ==> x.author == author.value)
  {
    var keep := (x: Recipe) => author.None? || x.author == author.value;
    var r := Filter(recipes, keep);
    assert forall x :: multiset(r)[x] == if keep(x) then multiset(recipes)[x] else 0 by {
      forall x { FilterCounts(recipes, keep, x); }
    }
    assert author.None? ==> r == recipes by {
      if author.None? { FilterKeepsAll(recipes, keep); }
    }
    r
  }

  /** `get_is_in_shopping_cart`: with a true value and an authenticated
      viewer, each recipe once per cart row of the viewer for it; otherwise
      the input unchanged. */
  function InCartFilter(recipes: seq<Recipe>, carts: seq<ShoppingCart>, viewer: Option<nat>, value: Option<bool>): (r: seq<Recipe>)
    ensures value != Some(true) || viewer.None? ==> r == recipes
    ensures value == Some(true) && viewer.Some? ==>
      forall x :: multiset(r)[x] == multiset(recipes)[x] * multiset(carts)[ShoppingCart(viewer.value, x.id)]
    ensures forall x :: x in r <==> x in recipes && (value == Some(true) && viewer.Some? ==> IsInShoppingCart(carts, viewer.value, x.id))
  {
    if value == Some(true) && viewer.Some? then
      var count := (x: Recipe) => multiset(carts)[ShoppingCart(viewer.value, x.id)];
      var r := Repeat(recipes, count);
      assert forall x :: multiset(r)[x] == multiset(recipes)[x] * count(x) by {
        forall x { RepeatCounts(recipes, count, x); }
      }
      assert forall x :: x in r <==> multiset(recipes)[x] > 0 && count(x) > 0 by {
        forall x { PositiveProduct(multiset(recipes)[x], count(x)); }
      }
      r
    else recipes
  }

  /** `get_is_favorited`: as `InCartFilter`, over the favorite rows. */
  function FavoritedFilter(recipes: seq<Recipe>, favorites: seq<FavoriteRecipe>, viewer: Option<nat>, value: Option<bool>): (r: seq<Recipe>)
    ensures value != Some(true) || viewer.None? ==> r == recipes
    ensures value == Some(true) && viewer.Some? ==>
      forall x :: multiset(r)[x] == multiset(recipes)[x] * multiset(favorites)[FavoriteRecipe(viewer.value, x.id)]
    ensures forall x :: x in r <==> x in recipes && (value == Some(true) && viewer.Some? ==> IsFavorited(favorites, viewer.value, x.id))
  {
    if value == Some(true) && viewer.Some? then
      var count := (x: Recipe) => multiset(favorites)[FavoriteRecipe(viewer.value, x.id)];
      var r := Repeat(recipes, count);
      assert forall x :: multiset(r)[x] == multiset(recipes)[x] * count(x) by {
        forall x { RepeatCounts(recipes, count, x); }
      }
      assert forall x :: x in r <==> multiset(recipes)[x] > 0 && count(x) > 0 by {
        forall x { PositiveProduct(multiset(recipes)[x], count(x)); }
      }
      r
    else recipes
  }

  /** The recipe has a tag whose slug is one of `slugs`. */
  predicate HasTagWithSlug(links: set<RecipeTag>, tags: seq<Tag>, recipe: nat, slugs: seq<string>)
  {
    exists t :: t in tags && t.slug in slugs && RecipeTag(recipe, t.id) in links
  }

  /** `tags`: with one or more slugs, the recipes having a tag with one of
      them, made distinct; with none, the input unchanged. */
  function TagsFilter(recipes: seq<Recipe>, links: set<RecipeTag>, tags: seq<Tag>, slugs: seq<string>): (r: seq<Recipe>)
    ensures slugs == [] ==> r == recipes
    ensures slugs != [] ==> forall x :: x in r <==> x in recipes && HasTagWithSlug(links, tags, x.id, slugs)
    ensures slugs != [] ==> forall i, j :: 0 <= i < j < |r| ==> r[i] != r[j]
  {
    if slugs == [] then recipes
    else
      var kept := Filter(recipes, (x: Recipe) => HasTagWithSlug(links, tags, x.id, slugs));
      Distinct(kept)
  }

  /** The slugs the `tags` filter accepts: those of tags linked to a recipe. */
  predicate SlugChoice(links: set<RecipeTag>, tags: seq<Tag>, slug: string)
  {
    exists t :: t in tags && t.slug == slug && exists l :: l in links && l.tag == t.id
  }

  /** The query parameters of GET /recipes/. */
  datatype RecipeQuery = RecipeQuery(
    author: Option<nat>,
    isInShoppingCart: Option<bool>,
    isFavorited: Option<bool>,
    tags: seq<string>)

  /** The filter set's form is valid: the author key names a user and every
      slug is a choice. */
  predicate RecipeQueryValid(t: Tables, q: RecipeQuery)
  {
    && (q.author.Some? ==> HasUser(t.users, q.author.value))
    && (forall s :: s in q.tags ==> SlugChoice(t.recipeTags, t.tags, s))
  }

  /** The listing GET /recipes/ returns, before pagination: the filters in
      `Meta.fields` order (is_favorited, is_in_shopping_cart, author, tags)
      over all recipes, then ordered newest first. An invalid form is
      refused with 400. */
  function FilterRecipes(t: Tables, viewer: Option<nat>, q: RecipeQuery): (r: Result<seq<Recipe>, Failure>)
    ensures r.Err? <==> !RecipeQueryValid(t, q)
    ensures r.Ok? ==> forall x :: x in r.value <==>
      && x in t.recipes
      && (q.author.Some? ==> x.author == q.author.value)
      && (q.isInShoppingCart == Some(true) && viewer.Some? ==> IsInShoppingCart(t.carts, viewer.value, x.id))
      && (q.isFavorited == Some(true) && viewer.Some? ==> IsFavorited(t.favorites, viewer.value, x.id))
      && (q.tags != [] ==> HasTagWithSlug(t.recipeTags, t.tags, x.id, q.tags))
    ensures r.Ok? ==> forall i, j :: 0 <= i < j < |r.value| ==> r.value[i].pubDate >= r.value[j].pubDate
    ensures r.Ok? && q.tags != [] ==> forall x :: multiset(r.value)[x] <= 1
  {
    if !RecipeQueryValid(t, q) then Err(NonFieldError("invalid filter"))
    else
      var f := FavoritedFilter(t.recipes, t.favorites, viewer, q.isFavorited);
      var c := InCartFilter(f, t.carts, viewer, q.isInShoppingCart);
      var a := ByAuthorFilter(c, q.author);
      var g := TagsFilter(a, t.recipeTags, t.tags, q.tags);
      var r := NewestFirst(g);
      assert forall x :: x in r <==> x in g by {
        assert forall x :: x in r <==> x in multiset(r);
        assert forall x :: x in g <==> x in multiset(g);
      }
      assert q.tags != [] ==> forall x :: multiset(r)[x] <= 1 by {
        if q.tags != [] { DistinctCounts(g); }
      }
      Ok(r)
  }

  lemma DistinctCounts<T>(s: seq<T>)
    requires forall i, j :: 0 <= i < j < |s| ==> s[i] != s[j]
    ensures forall x :: multiset(s)[x] <= 1
  {
    forall x ensures multiset(s)[x] <= 1 {
      DistinctCount(s, x);
    }
  }

  lemma {:induction false} DistinctCount<T>(s: seq<T>, x: T)
    requires forall i, j :: 0 <= i < j < |s| ==> s[i] != s[j]
    ensures multiset(s)[x] <= 1
  {
    if s != [] {
      assert s == [s[0]] + s[1..];
      DistinctCount(s[1..], x);
      if x == s[0] {
        assert x !in s[1..] by {
          forall k | 0 <= k < |s[1..]| ensures s[1..][k] != x {
            assert s[1..][k] == s[k + 1];
          }
        }
      }
    }
  }
}
