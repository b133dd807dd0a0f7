/** The relational store behind the API: one table per model, the
    constraints every stored state satisfies, and the cascading deletes
    that the foreign keys' on_delete=CASCADE perform. */
module Db {
  import opened Wrappers
  import opened Users
  import opened Recipes

  predicate HasRecipe(recipes: seq<Recipe>, id: nat)
  {
    exists r :: r in recipes && r.id == id
  }

  predicate HasIngredient(ingredients: seq<Ingredient>, id: nat)
  {
    exists i :: i in ingredients && i.id == id
  }

  predicate HasTag(tags: seq<Tag>, id: nat)
  {
    exists t :: t in tags && t.id == id
  }

  predicate HasIngredientRow(rows: seq<RecipeIngredient>, recipe: nat)
  {
    exists x :: x in rows && x.recipe == recipe
  }

  predicate HasTagLink(links: set<RecipeTag>, recipe: nat)
  {
    exists l :: l in links && l.recipe == recipe
  }

  /** Recipe rows: the author exists, cooking_time is at least 1, the name
      fits its column, primary keys are distinct and below the next key. */
  ghost predicate RecipesOk(recipes: seq<Recipe>, users: seq<User>, nextId: nat)
  {
    && (forall r :: r in recipes ==>
          HasUser(users, r.author) && CookingTimeOk(r.cookingTime)
          && |r.name| <= RecipeNameMaxLength && r.id < nextId)
    && (forall i, j :: 0 <= i < j < |recipes| ==> recipes[i].id != recipes[j].id)
  }

  /** A recipe lists an ingredient at most once (the write-time rule), and
      no row is stored twice. */
  ghost predicate OneRowPerIngredient(rows: seq<RecipeIngredient>)
  {
    && (forall x, y :: x in rows && y in rows && x.recipe == y.recipe && x.ingredient == y.ingredient ==> x == y)
    && (forall x :: multiset(rows)[x] <= 1)
  }

  /** Through-table rows point at stored recipes and ingredients and carry
      an amount of at least 1. */
  ghost predicate IngredientRowsOk(rows: seq<RecipeIngredient>, recipes: seq<Recipe>, ingredients: seq<Ingredient>)
  {
    && (forall x :: x in rows ==>
          HasRecipe(recipes, x.recipe) && HasIngredient(ingredients, x.ingredient) && AmountOk(x.amount))
    && OneRowPerIngredient(rows)
  }

  ghost predicate TagLinksOk(links: set<RecipeTag>, recipes: seq<Recipe>, tags: seq<Tag>)
  {
    forall l :: l in links ==> HasRecipe(recipes, l.recipe) && HasTag(tags, l.tag)
  }

  /** Every stored recipe has at least one ingredient and at least one tag. */
  ghost predicate RecipesComplete(recipes: seq<Recipe>, rows: seq<RecipeIngredient>, links: set<RecipeTag>)
  {
    forall r :: r in recipes ==> HasIngredientRow(rows, r.id) && HasTagLink(links, r.id)
  }

  ghost predicate UserRecipePairsOk(users: seq<User>, recipes: seq<Recipe>,
                                    favorites: seq<FavoriteRecipe>, carts: seq<ShoppingCart>)
  {
    && (forall f :: f in favorites ==> HasUser(users, f.user) && HasRecipe(recipes, f.recipe))
    && (forall c :: c in carts ==> HasUser(users, c.user) && HasRecipe(recipes, c.recipe))
  }

  /** Follow edges join stored users, are unique per pair, and nobody follows
      themselves (the last is kept by the subscribe view, not by the schema). */
  ghost predicate SubscriptionsOk(users: seq<User>, subs: seq<Subscribe>)
  {
    && (forall s :: s in subs ==> HasUser(users, s.user) && HasUser(users, s.author) && s.user != s.author)
    && SubscriptionsUnique(subs)
  }

  /** The rows of `recipes` whose key is not in `gone`. */
  function RecipesWithout(recipes: seq<Recipe>, gone: set<nat>): seq<Recipe>
  {
    Filter(recipes, (r: Recipe) => r.id !in gone)
  }

  function IngredientRowsWithout(rows: seq<RecipeIngredient>, gone: set<nat>): seq<RecipeIngredient>
  {
    Filter(rows, (x: RecipeIngredient) => x.recipe !in gone)
  }

  function TagLinksWithout(links: set<RecipeTag>, gone: set<nat>): set<RecipeTag>
  {
    set l | l in links && l.recipe !in gone
  }

  function FavoritesWithout(favorites: seq<FavoriteRecipe>, goneRecipes: set<nat>, goneUsers: set<nat>): seq<FavoriteRecipe>
  {
    Filter(favorites, (f: FavoriteRecipe) => f.recipe !in goneRecipes && f.user !in goneUsers)
  }

  function CartsWithout(carts: seq<ShoppingCart>, goneRecipes: set<nat>, goneUsers: set<nat>): seq<ShoppingCart>
  {
    Filter(carts, (c: ShoppingCart) => c.recipe !in goneRecipes && c.user !in goneUsers)
  }

  lemma IngredientRowsWithoutUnique(rows: seq<RecipeIngredient>, gone: set<nat>)
    requires OneRowPerIngredient(rows)
    ensures OneRowPerIngredient(IngredientRowsWithout(rows, gone))
  {
    forall x ensures multiset(IngredientRowsWithout(rows, gone))[x] <= 1 {
      FilterCounts(rows, (x: RecipeIngredient) => x.recipe !in gone, x);
    }
  }

  /** One state of every table, in insertion order; the recipe tags are a
      set because the many-to-many table holds a pair once. */
  datatype Tables = Tables(
    users: seq<User>,
    ingredients: seq<Ingredient>,
    tags: seq<Tag>,
    recipes: seq<Recipe>,
    recipeIngredients: seq<RecipeIngredient>,
    recipeTags: set<RecipeTag>,
    favorites: seq<FavoriteRecipe>,
    carts: seq<ShoppingCart>,
    subscribes: seq<Subscribe>,
    nextRecipeId: nat)

  /** Every constraint a stored state satisfies. */
  ghost predicate WellFormed(t: Tables)
  {
    && UsersOk(t.users)
    && CatalogOk(t.ingredients, t.tags)
    && RecipesOk(t.recipes, t.users, t.nextRecipeId)
    && IngredientRowsOk(t.recipeIngredients, t.recipes, t.ingredients)
    && TagLinksOk(t.recipeTags, t.recipes, t.tags)
    && RecipesComplete(t.recipes, t.recipeIngredients, t.recipeTags)
    && UserRecipePairsOk(t.users, t.recipes, t.favorites, t.carts)
    && SubscriptionsOk(t.users, t.subscribes)
  }

  /** The tables after deleting the recipes whose keys are in `goneRecipes`
      and the account `goneUser` (when given): every row that points at a
      deleted row is deleted with it, as on_delete=CASCADE does. */
  function Cascade(t: Tables, goneRecipes: set<nat>, goneUser: Option<nat>): Tables
  {
    var goneUsers := if goneUser.Some? then {goneUser.value} else {};
    t.(users := Filter(t.users, (u: User) => u.id !in goneUsers),
       recipes := RecipesWithout(t.recipes, goneRecipes),
       recipeIngredients := IngredientRowsWithout(t.recipeIngredients, goneRecipes),
       recipeTags := TagLinksWithout(t.recipeTags, goneRecipes),
       favorites := FavoritesWithout(t.favorites, goneRecipes, goneUsers),
       carts := CartsWithout(t.carts, goneRecipes, goneUsers),
       subscribes := Filter(t.subscribes, (s: Subscribe) => s.user !in goneUsers && s.author !in goneUsers))
  }

  /** Deleting one recipe. */
  function AfterRecipeDelete(t: Tables, id: nat): Tables
  {
    Cascade(t, {id}, None)
  }

  /** Deleting one account, and with it the recipes it wrote. */
  function AfterUserDelete(t: Tables, id: nat): Tables
  {
    Cascade(t, RecipeIdsBy(t.recipes, id), Some(id))
  }

  /** The keys of the recipes written by `author`. */
  function RecipeIdsBy(recipes: seq<Recipe>, author: nat): set<nat>
  {
    set r | r in recipes && r.author == author :: r.id
  }

  /** Keys stay distinct when rows are dropped. */
  lemma {:induction false} RemainingKeysDistinct(recipes: seq<Recipe>, gone: set<nat>)
    requires forall i, j :: 0 <= i < j < |recipes| ==> recipes[i].id != recipes[j].id
    ensures var r := RecipesWithout(recipes, gone);
      forall i, j :: 0 <= i < j < |r| ==> r[i].id != r[j].id
  {
    if recipes != [] {
      RemainingKeysDistinct(recipes[1..], gone);
      var rest := RecipesWithout(recipes[1..], gone);
      assert forall x :: x in rest ==> x in recipes[1..];
      assert forall x :: x in recipes[1..] ==> x.id != recipes[0].id;
      assert recipes == [recipes[0]] + recipes[1..];
    }
  }

  lemma {:induction false} RemainingUsersOk(users: seq<User>, gone: set<nat>)
    requires UsersOk(users)
    ensures UsersOk(Filter(users, (u: User) => u.id !in gone))
  {
    if users != [] {
      RemainingUsersOk(users[1..], gone);
      var rest := Filter(users[1..], (u: User) => u.id !in gone);
      assert forall x :: x in rest ==> x in users[1..];
      assert forall x :: x in users[1..] ==> x.id != users[0].id && x.email != users[0].email;
      assert users == [users[0]] + users[1..];
    }
  }

  lemma CascadeRecipesOk(recipes: seq<Recipe>, users: seq<User>, nextId: nat, goneRecipes: set<nat>, goneUsers: set<nat>)
    requires RecipesOk(recipes, users, nextId)
    requires forall r :: r in recipes && r.author in goneUsers ==> r.id in goneRecipes
    ensures RecipesOk(RecipesWithout(recipes, goneRecipes), Filter(users, (u: User) => u.id !in goneUsers), nextId)
  {
    var users' := Filter(users, (u: User) => u.id !in goneUsers);
    forall r | r in RecipesWithout(recipes, goneRecipes) ensures HasUser(users', r.author) {
      var u :| u in users && u.id == r.author;
      assert u in users';
    }
    RemainingKeysDistinct(recipes, goneRecipes);
  }

  lemma CascadeRowsOk(rows: seq<RecipeIngredient>, links: set<RecipeTag>, recipes: seq<Recipe>,
                      ingredients: seq<Ingredient>, tags: seq<Tag>, gone: set<nat>)
    requires IngredientRowsOk(rows, recipes, ingredients) && TagLinksOk(links, recipes, tags)
    requires RecipesComplete(recipes, rows, links)
    ensures var recipes' := RecipesWithout(recipes, gone);
      var rows' := IngredientRowsWithout(rows, gone);
      var links' := TagLinksWithout(links, gone);
      IngredientRowsOk(rows', recipes', ingredients) && TagLinksOk(links', recipes', tags)
      && RecipesComplete(recipes', rows', links')
  {
    var recipes' := RecipesWithout(recipes, gone);
    var rows' := IngredientRowsWithout(rows, gone);
    var links' := TagLinksWithout(links, gone);
    assert forall id: nat :: id !in gone && HasRecipe(recipes, id) ==> HasRecipe(recipes', id) by {
      forall id: nat | id !in gone && HasRecipe(recipes, id) ensures HasRecipe(recipes', id) {
        var r :| r in recipes && r.id == id;
        assert r in recipes';
      }
    }
    IngredientRowsWithoutUnique(rows, gone);
    forall r | r in recipes'
      ensures HasIngredientRow(rows', r.id) && HasTagLink(links', r.id)
    {
      var x :| x in rows && x.recipe == r.id;
      assert x in rows';
      var l :| l in links && l.recipe == r.id;
      assert l in links';
    }
  }

  lemma CascadePairsOk(users: seq<User>, recipes: seq<Recipe>, favorites: seq<FavoriteRecipe>,
                       carts: seq<ShoppingCart>, goneRecipes: set<nat>, goneUsers: set<nat>)
    requires UserRecipePairsOk(users, recipes, favorites, carts)
    ensures UserRecipePairsOk(Filter(users, (u: User) => u.id !in goneUsers), RecipesWithout(recipes, goneRecipes),
                              FavoritesWithout(favorites, goneRecipes, goneUsers), CartsWithout(carts, goneRecipes, goneUsers))
  {
    var users' := Filter(users, (u: User) => u.id !in goneUsers);
    var recipes' := RecipesWithout(recipes, goneRecipes);
    forall id: nat | id !in goneUsers && HasUser(users, id) ensures HasUser(users', id) {
      var u :| u in users && u.id == id;
      assert u in users';
    }
    forall id: nat | id !in goneRecipes && HasRecipe(recipes, id) ensures HasRecipe(recipes', id) {
      var r :| r in recipes && r.id == id;
      assert r in recipes';
    }
  }

  lemma CascadeSubscriptionsOk(users: seq<User>, subs: seq<Subscribe>, goneUsers: set<nat>)
    requires SubscriptionsOk(users, subs)
    ensures SubscriptionsOk(Filter(users, (u: User) => u.id !in goneUsers),
                            Filter(subs, (s: Subscribe) => s.user !in goneUsers && s.author !in goneUsers))
  {
    var users' := Filter(users, (u: User) => u.id !in goneUsers);
    var subs' := Filter(subs, (s: Subscribe) => s.user !in goneUsers && s.author !in goneUsers);
    forall id: nat | id !in goneUsers && HasUser(users, id) ensures HasUser(users', id) {
      var u :| u in users && u.id == id;
      assert u in users';
    }
    forall s ensures multiset(subs')[s] <= 1 {
      FilterCounts(subs, (s: Subscribe) => s.user !in goneUsers && s.author !in goneUsers, s);
    }
  }

  /** Cascading deletes keep every constraint, provided every recipe of a
      deleted account is deleted too. */
  lemma CascadeKeepsWellFormed(t: Tables, goneRecipes: set<nat>, goneUser: Option<nat>)
    requires WellFormed(t)
    requires goneUser.Some? ==> forall r :: r in t.recipes && r.author == goneUser.value ==> r.id in goneRecipes
    ensures WellFormed(Cascade(t, goneRecipes, goneUser))
  {
    var goneUsers := if goneUser.Some? then {goneUser.value} else {};
    RemainingUsersOk(t.users, goneUsers);
    CascadeRecipesOk(t.recipes, t.users, t.nextRecipeId, goneRecipes, goneUsers);
    CascadeRowsOk(t.recipeIngredients, t.recipeTags, t.recipes, t.ingredients, t.tags, goneRecipes);
    CascadePairsOk(t.users, t.recipes, t.favorites, t.carts, goneRecipes, goneUsers);
    CascadeSubscriptionsOk(t.users, t.subscribes, goneUsers);
  }

  lemma RecipeDeleteKeepsWellFormed(t: Tables, id: nat)
    requires WellFormed(t)
    ensures WellFormed(AfterRecipeDelete(t, id))
  {
    CascadeKeepsWellFormed(t, {id}, None);
  }

  /** Deleting a recipe leaves no row that names it, and keeps the rows
      of every other recipe and every account and follow edge. */
  lemma RecipeDeleteRemovesRows(t: Tables, id: nat)
    ensures var u := AfterRecipeDelete(t, id);
      && !HasRecipe(u.recipes, id)
      && (forall r :: r in u.recipes <==> r in t.recipes && r.id != id)
      && (forall x :: x in u.recipeIngredients <==> x in t.recipeIngredients && x.recipe != id)
      && (forall l :: l in u.recipeTags <==> l in t.recipeTags && l.recipe != id)
      && (forall f :: f in u.favorites <==> f in t.favorites && f.recipe != id)
      && (forall c :: c in u.carts <==> c in t.carts && c.recipe != id)
      && (forall x :: x in u.users <==> x in t.users)
      && (forall s :: s in u.subscribes <==> s in t.subscribes)
  {
  }

  /** Deleting an account leaves no row that names it. */
  lemma UserDeleteKeepsWellFormed(t: Tables, id: nat)
    requires WellFormed(t)
    ensures WellFormed(AfterUserDelete(t, id))
    ensures var u := AfterUserDelete(t, id);
      && !HasUser(u.users, id)
      && (forall r :: r in u.recipes ==> r.author != id)
      && (forall s :: s in u.subscribes ==> s.user != id && s.author != id)
      && (forall f :: f in u.favorites ==> f.user != id)
      && (forall c :: c in u.carts ==> c.user != id)
  {
    CascadeKeepsWellFormed(t, RecipeIdsBy(t.recipes, id), Some(id));
  }

  /** Deleting an account keeps every row that does not name it or one of
      its recipes: the other accounts, the recipes of other authors, the
      follow edges between other accounts, and the favorites, cart rows,
      ingredient rows and tag links of the remaining recipes. */
  lemma UserDeleteKeepsRest(t: Tables, id: nat)
    requires WellFormed(t)
    ensures var u := AfterUserDelete(t, id);
      var gone := RecipeIdsBy(t.recipes, id);
      && (forall x :: x in u.users <==> x in t.users && x.id != id)
      && (forall r :: r in u.recipes <==> r in t.recipes && r.author != id)
      && (forall s :: s in u.subscribes <==> s in t.subscribes && s.user != id && s.author != id)
      && (forall f :: f in u.favorites <==> f in t.favorites && f.user != id && f.recipe !in gone)
      && (forall c :: c in u.carts <==> c in t.carts && c.user != id && c.recipe !in gone)
      && (forall x :: x in u.recipeIngredients <==> x in t.recipeIngredients && x.recipe !in gone)
      && (forall l :: l in u.recipeTags <==> l in t.recipeTags && l.recipe !in gone)
  {
    var gone := RecipeIdsBy(t.recipes, id);
    forall r | r in t.recipes && r.author != id ensures r.id !in gone {
      if r.id in gone {
        var r' :| r' in t.recipes && r'.author == id && r'.id == r.id;
        SameKeySameRecipe(t.recipes, r, r');
      }
    }
  }

  /** Two stored recipes with the same key are the same row. */
  lemma SameKeySameRecipe(recipes: seq<Recipe>, a: Recipe, b: Recipe)
    requires forall i, j :: 0 <= i < j < |recipes| ==> recipes[i].id != recipes[j].id
    requires a in recipes && b in recipes && a.id == b.id
    ensures a == b
  {
    var i :| 0 <= i < |recipes| && recipes[i] == a;
    var j :| 0 <= j < |recipes| && recipes[j] == b;
    assert i == j;
  }

  /** The database: one field per table. */
  class Store {
    var users: seq<User>
    var ingredients: seq<Ingredient>
    var tags: seq<Tag>
    var recipes: seq<Recipe>
    var recipeIngredients: seq<RecipeIngredient>
    var recipeTags: set<RecipeTag>
    var favorites: seq<FavoriteRecipe>
    var carts: seq<ShoppingCart>
    var subscribes: seq<Subscribe>
    /** The primary key the next recipe row receives. */
    var nextRecipeId: nat

    function Snapshot(): Tables
      reads this
    {
      Tables(users, ingredients, tags, recipes, recipeIngredients, recipeTags,
             favorites, carts, subscribes, nextRecipeId)
    }

    ghost predicate Valid()
      reads this
    {
      WellFormed(Snapshot())
    }

    /** A store holding accounts and a catalog, and nothing else yet. */
    constructor (users: seq<User>, ingredients: seq<Ingredient>, tags: seq<Tag>)
      requires UsersOk(users) && CatalogOk(ingredients, tags)
      ensures Valid()
      ensures Snapshot() == Tables(users, ingredients, tags, [], [], {}, [], [], [], 0)
    {
      this.users := users;
      this.ingredients := ingredients;
      this.tags := tags;
      recipes := [];
      recipeIngredients := [];
      recipeTags := {};
      favorites := [];
      carts := [];
      subscribes := [];
      nextRecipeId := 0;
    }

    /** Replaces every table at once. */
    method Store(t: Tables)
      modifies this
      ensures Snapshot() == t
    {
      users, ingredients, tags := t.users, t.ingredients, t.tags;
      recipes, recipeIngredients, recipeTags := t.recipes, t.recipeIngredients, t.recipeTags;
      favorites, carts, subscribes := t.favorites, t.carts, t.subscribes;
      nextRecipeId := t.nextRecipeId;
    }

    /** Recipe.delete(). */
    method DeleteRecipe(id: nat)
      requires Valid()
      modifies this
      ensures Valid()
      ensures Snapshot() == AfterRecipeDelete(old(Snapshot()), id)
    {
      RecipeDeleteKeepsWellFormed(Snapshot(), id);
      Store(AfterRecipeDelete(Snapshot(), id));
    }

    /** User.delete(). */
    method DeleteUser(id: nat)
      requires Valid()
      modifies this
      ensures Valid()
      ensures Snapshot() == AfterUserDelete(old(Snapshot()), id)
    {
      UserDeleteKeepsWellFormed(Snapshot(), id);
      Store(AfterUserDelete(Snapshot(), id));
    }
  }
}
