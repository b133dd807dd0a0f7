/** The state-changing actions of backend/api/views.py: adding and removing
    favorites and cart rows, following and unfollowing an author, and the
    recipe create / partial update endpoints. Every action is taken by an
    authenticated user. */
module Views {
  import opened Wrappers
  import opened Text
  import opened Users
  import opened Recipes
  import opened Db
  import opened Serializers

  const Ok200 := 200
  const Created201 := 201
  const NoContent204 := 204
  const BadRequest400 := 400
  const NotFound404 := 404
  const ServerError500 := 500

  const FavoriteMissingMessage := "Рецепт не добавлен в избранное!"
  const CartMissingMessage := "Рецепт не добавлен в список покупок!"
  const SelfSubscribeMessage := "На самого себя не подписаться!"
  const UnsubscribedMessage := "Вы отписались!"
  const NoSubscriptionMessage := "Подписки нет!"

  function FavoriteRemovedMessage(pk: nat): string
  {
    "Рецепт " + DecimalString(pk) + " удален из избранного!"
  }

  function CartRemovedMessage(pk: nat): string
  {
    "Рецепт " + DecimalString(pk) + " удален из списка покупок!"
  }

  datatype Verb = Post | Delete

  /** A recipe as SubscribeRecipeSerializer shows it (the image is not
      modelled). */
  datatype RecipeBrief = RecipeBrief(id: nat, name: string, cookingTime: int)

  /** An author as SubscribeShowSerializer shows it. */
  datatype AuthorProfile = AuthorProfile(
    email: string, id: nat, username: string, firstName: string, lastName: string,
    isSubscribed: bool, recipes: seq<RecipeBrief>, recipesCount: nat)

  datatype Body =
    | Message(message: string)          // {'message': ...}
    | Errors(errors: string)            // {'errors': ...}
    | Refused(failure: Failure)         // serializer errors, a 404, or a server error
    | NotAnObject                       // a request body that is not a JSON object
    | Card(name: string, cookingTime: int)  // FavoriteRecipeSerializer / ShoppingCartSerializer; the row id is not modelled
    | Profile(profile: AuthorProfile)
    | RecipeShown(recipe: nat)          // RecipeSerializer's representation of a stored recipe

  datatype Response = Response(status: nat, body: Body)

  /** The HTTP status a failure is answered with. */
  function StatusOf(f: Failure): (status: nat)
    ensures status == NotFound404 <==> f.NotFound?
    ensures status == ServerError500 <==> f.MissingKey? || f.BadLimit? || f.AbsentAmount?
    ensures status == BadRequest400 <==> f.FieldErrors? || f.NonFieldError? || f.NotUniqueTogether?
  {
    match f
    case NotFound => NotFound404
    case MissingKey(_) => ServerError500
    case BadLimit(_) => ServerError500
    case AbsentAmount => ServerError500
    case _ => BadRequest400
  }

  function FindRecipe(recipes: seq<Recipe>, id: nat): (r: Option<Recipe>)
    ensures r.Some? <==> HasRecipe(recipes, id)
    ensures r.Some? ==> r.value in recipes && r.value.id == id
  {
    if recipes == [] then None
    else if recipes[0].id == id then Some(recipes[0])
    else
      assert recipes == [recipes[0]] + recipes[1..];
      FindRecipe(recipes[1..], id)
  }

  function Brief(r: Recipe): RecipeBrief
  {
    RecipeBrief(r.id, r.name, r.cookingTime)
  }

  /** The answer to an added favorite or cart row, showing its recipe. */
  function CardFor(r: Recipe): Body
  {
    Card(r.name, r.cookingTime)
  }

  // ---------------------------------------------------------------------
  // Favorites and the shopping cart

  /** Every favorite row of `user` for `recipe` removed. */
  function Unfavorite(favorites: seq<FavoriteRecipe>, user: nat, recipe: nat): seq<FavoriteRecipe>
  {
    Filter(favorites, (f: FavoriteRecipe) => f != FavoriteRecipe(user, recipe))
  }

  /** Every cart row of `user` for `recipe` removed. */
  function Uncart(carts: seq<ShoppingCart>, user: nat, recipe: nat): seq<ShoppingCart>
  {
    Filter(carts, (c: ShoppingCart) => c != ShoppingCart(user, recipe))
  }

  /** Adding a favorite makes the recipe show as favorited, adds one more
      row (repeated adds accumulate), and changes no other answer. */
  lemma AddFavoriteEffect(favorites: seq<FavoriteRecipe>, user: nat, recipe: nat)
    ensures var after := favorites + [FavoriteRecipe(user, recipe)];
      && IsFavorited(after, user, recipe)
      && multiset(after)[FavoriteRecipe(user, recipe)] == multiset(favorites)[FavoriteRecipe(user, recipe)] + 1
      && forall u: nat, r: nat :: (u, r) != (user, recipe) ==> IsFavorited(after, u, r) == IsFavorited(favorites, u, r)
  {
  }

  /** Removing a favorite removes every copy of the row, makes the recipe
      show as not favorited, and keeps every other row as often as before. */
  lemma UnfavoriteEffect(favorites: seq<FavoriteRecipe>, user: nat, recipe: nat)
    ensures var after := Unfavorite(favorites, user, recipe);
      && !IsFavorited(after, user, recipe)
      && forall f :: multiset(after)[f] == if f == FavoriteRecipe(user, recipe) then 0 else multiset(favorites)[f]
  {
    forall f ensures multiset(Unfavorite(favorites, user, recipe))[f] ==
      if f == FavoriteRecipe(user, recipe) then 0 else multiset(favorites)[f]
    {
      FilterCounts(favorites, (x: FavoriteRecipe) => x != FavoriteRecipe(user, recipe), f);
    }
  }

  /** The cart counterparts of the two lemmas above. */
  lemma AddCartEffect(carts: seq<ShoppingCart>, user: nat, recipe: nat)
    ensures var after := carts + [ShoppingCart(user, recipe)];
      && IsInShoppingCart(after, user, recipe)
      && multiset(after)[ShoppingCart(user, recipe)] == multiset(carts)[ShoppingCart(user, recipe)] + 1
      && forall u: nat, r: nat :: (u, r) != (user, recipe) ==> IsInShoppingCart(after, u, r) == IsInShoppingCart(carts, u, r)
  {
  }

  lemma UncartEffect(carts: seq<ShoppingCart>, user: nat, recipe: nat)
    ensures var after := Uncart(carts, user, recipe);
      && !IsInShoppingCart(after, user, recipe)
      && forall c :: multiset(after)[c] == if c == ShoppingCart(user, recipe) then 0 else multiset(carts)[c]
  {
    forall c ensures multiset(Uncart(carts, user, recipe))[c] ==
      if c == ShoppingCart(user, recipe) then 0 else multiset(carts)[c]
    {
      FilterCounts(carts, (x: ShoppingCart) => x != ShoppingCart(user, recipe), c);
    }
  }

  /** `RecipeViewSet.favorite`. On POST the serializer has no writable
      field, so it refuses only a body that is not an object; then the
      recipe must exist (404), and a row is inserted without looking for an
      earlier one. On DELETE every matching row is removed, or 400 when
      there is none; the recipe is not looked up. */
  method Favorite(db: Store, user: nat, verb: Verb, pk: nat, bodyIsObject: bool) returns (resp: Response)
    requires db.Valid() && HasUser(db.users, user)
    modifies db
    ensures db.Valid()
    ensures verb == Post && !bodyIsObject ==>
      resp == Response(BadRequest400, NotAnObject) && db.Snapshot() == old(db.Snapshot())
    ensures verb == Post && bodyIsObject && !HasRecipe(old(db.recipes), pk) ==>
      resp == Response(NotFound404, Refused(NotFound)) && db.Snapshot() == old(db.Snapshot())
    ensures verb == Post && bodyIsObject && HasRecipe(old(db.recipes), pk) ==>
      && resp == Response(Created201, CardFor(FindRecipe(old(db.recipes), pk).value))
      && db.Snapshot() == old(db.Snapshot()).(favorites := old(db.favorites) + [FavoriteRecipe(user, pk)])
    ensures verb == Delete && IsFavorited(old(db.favorites), user, pk) ==>
      && resp == Response(NoContent204, Message(FavoriteRemovedMessage(pk)))
      && db.Snapshot() == old(db.Snapshot()).(favorites := Unfavorite(old(db.favorites), user, pk))
    ensures verb == Delete && !IsFavorited(old(db.favorites), user, pk) ==>
      resp == Response(BadRequest400, Errors(FavoriteMissingMessage)) && db.Snapshot() == old(db.Snapshot())
  {
    if verb == Post {
      if !bodyIsObject {
        return Response(BadRequest400, NotAnObject);
      }
      var recipe := FindRecipe(db.recipes, pk);
      if recipe.None? {
        return Response(NotFound404, Refused(NotFound));
      }
      db.favorites := db.favorites + [FavoriteRecipe(user, pk)];
      return Response(Created201, CardFor(recipe.value));
    } else {
      if !IsFavorited(db.favorites, user, pk) {
        return Response(BadRequest400, Errors(FavoriteMissingMessage));
      }
      db.favorites := Unfavorite(db.favorites, user, pk);
      return Response(NoContent204, Message(FavoriteRemovedMessage(pk)));
    }
  }

  /** `RecipeViewSet.shopping_cart`: as `Favorite`, except that DELETE first
      answers 404 for a recipe that does not exist. */
  method ShoppingCartAction(db: Store, user: nat, verb: Verb, pk: nat, bodyIsObject: bool) returns (resp: Response)
    requires db.Valid() && HasUser(db.users, user)
    modifies db
    ensures db.Valid()
    ensures verb == Post && !bodyIsObject ==>
      resp == Response(BadRequest400, NotAnObject) && db.Snapshot() == old(db.Snapshot())
    ensures bodyIsObject || verb == Delete ==> !HasRecipe(old(db.recipes), pk) ==>
      resp == Response(NotFound404, Refused(NotFound)) && db.Snapshot() == old(db.Snapshot())
    ensures verb == Post && bodyIsObject && HasRecipe(old(db.recipes), pk) ==>
      && resp == Response(Created201, CardFor(FindRecipe(old(db.recipes), pk).value))
      && db.Snapshot() == old(db.Snapshot()).(carts := old(db.carts) + [ShoppingCart(user, pk)])
    ensures verb == Delete && HasRecipe(old(db.recipes), pk) && IsInShoppingCart(old(db.carts), user, pk) ==>
      && resp == Response(NoContent204, Message(CartRemovedMessage(pk)))
      && db.Snapshot() == old(db.Snapshot()).(carts := Uncart(old(db.carts), user, pk))
    ensures verb == Delete && HasRecipe(old(db.recipes), pk) && !IsInShoppingCart(old(db.carts), user, pk) ==>
      resp == Response(BadRequest400, Errors(CartMissingMessage)) && db.Snapshot() == old(db.Snapshot())
  {
    if verb == Post {
      if !bodyIsObject {
        return Response(BadRequest400, NotAnObject);
      }
      var recipe := FindRecipe(db.recipes, pk);
      if recipe.None? {
        return Response(NotFound404, Refused(NotFound));
      }
      db.carts := db.carts + [ShoppingCart(user, pk)];
      return Response(Created201, CardFor(recipe.value));
    } else {
      var recipe := FindRecipe(db.recipes, pk);
      if recipe.None? {
        return Response(NotFound404, Refused(NotFound));
      }
      if !IsInShoppingCart(db.carts, user, pk) {
        return Response(BadRequest400, Errors(CartMissingMessage));
      }
      db.carts := Uncart(db.carts, user, pk);
      return Response(NoContent204, Message(CartRemovedMessage(pk)));
    }
  }

  // ---------------------------------------------------------------------
  // Subscriptions

  /** Every follow row of `user` for `author` removed. */
  function Unsubscribe(subs: seq<Subscribe>, user: nat, author: nat): seq<Subscribe>
  {
    Filter(subs, (s: Subscribe) => s != Subscribe(user, author))
  }

  /** The user card's follow flag: an anonymous viewer follows nobody;
      saving a follow edge turns the flag on for that pair, removing it turns
      it off, and neither changes the flag of any other pair. */
  lemma FollowFlagEffect(subs: seq<Subscribe>, user: nat, author: nat)
    ensures forall a: nat :: !IsSubscribed(subs, None, a)
    ensures IsSubscribed(subs + [Subscribe(user, author)], Some(user), author)
    ensures !IsSubscribed(Unsubscribe(subs, user, author), Some(user), author)
    ensures forall v: nat, a: nat :: (v, a) != (user, author) ==>
      && IsSubscribed(subs + [Subscribe(user, author)], Some(v), a) == IsSubscribed(subs, Some(v), a)
      && IsSubscribed(Unsubscribe(subs, user, author), Some(v), a) == IsSubscribed(subs, Some(v), a)
  {
  }

  /** `SubscribeShowSerializer` of `author` as `viewer` sees it. */
  function ProfileOf(t: Tables, viewer: nat, author: nat, limit: Option<string>): (r: Result<AuthorProfile, Failure>)
    requires HasUser(t.users, author)
    ensures r.Ok? <==> GetRecipes(t.recipes, author, limit).Ok?
    ensures r.Ok? ==> var u := FindUser(t.users, author).value;
                      && r.value.email == u.email && r.value.username == u.username
                      && r.value.firstName == u.firstName && r.value.lastName == u.lastName
    ensures r.Ok? ==> var rs := GetRecipes(t.recipes, author, limit).value;
                      r.value.recipes == seq(|rs|, k requires 0 <= k < |rs| => Brief(rs[k]))
    ensures r.Ok? ==> && r.value.id == author
                      && r.value.isSubscribed == ShowIsSubscribed(t.subscribes, viewer, author)
                      && r.value.recipesCount == GetRecipesCount(t.recipes, author)
                      && |r.value.recipes| <= r.value.recipesCount
                      && forall b :: b in r.value.recipes ==> exists x :: x in t.recipes && x.author == author && Brief(x) == b
  {
    var u := FindUser(t.users, author).value;
    match GetRecipes(t.recipes, author, limit)
    case Err(f) => Err(f)
    case Ok(rs) =>
      var briefs := seq(|rs|, k requires 0 <= k < |rs| => Brief(rs[k]));
      assert forall b :: b in briefs ==> exists x :: x in t.recipes && x.author == author && Brief(x) == b by {
        forall b | b in briefs ensures exists x :: x in t.recipes && x.author == author && Brief(x) == b {
          var k :| 0 <= k < |briefs| && briefs[k] == b;
          assert rs[k] in rs;
        }
      }
      Ok(AuthorProfile(u.email, u.id, u.username, u.firstName, u.lastName,
                       ShowIsSubscribed(t.subscribes, viewer, author), briefs, GetRecipesCount(t.recipes, author)))
  }

  /** Following keeps the follow table's constraints when the pair is new
      and not a self-follow. */
  lemma FollowKeepsWellFormed(t: Tables, user: nat, author: nat)
    requires WellFormed(t) && HasUser(t.users, user) && HasUser(t.users, author)
    requires user != author && Subscribe(user, author) !in t.subscribes
    ensures WellFormed(t.(subscribes := t.subscribes + [Subscribe(user, author)]))
  {
    var subs := t.subscribes + [Subscribe(user, author)];
    forall s ensures multiset(subs)[s] <= 1 {
      assert multiset(subs) == multiset(t.subscribes) + multiset{Subscribe(user, author)};
    }
  }

  lemma UnfollowKeepsWellFormed(t: Tables, user: nat, author: nat)
    requires WellFormed(t)
    ensures WellFormed(t.(subscribes := Unsubscribe(t.subscribes, user, author)))
  {
    forall s ensures multiset(Unsubscribe(t.subscribes, user, author))[s] <= multiset(t.subscribes)[s] {
      FilterCounts(t.subscribes, (x: Subscribe) => x != Subscribe(user, author), s);
    }
  }

  /** `CustomUserViewSet.subscribe`. POST: the serializer refuses an
      unknown author or a pair already stored (400); a self-follow is
      refused (400); otherwise the row is saved and the author's profile
      returned (201) -- a `recipes_limit` the profile cannot apply fails the
      request after the row is saved. DELETE: 404 for an unknown author,
      else the pair is removed (204) or 400 when there is none. */
  method Follow(db: Store, user: nat, verb: Verb, author: nat, limit: Option<string>) returns (resp: Response)
    requires db.Valid() && HasUser(db.users, user)
    modifies db
    ensures db.Valid()
    ensures verb == Post && ValidateSubscription(old(db.users), old(db.subscribes), user, author).Err? ==>
      && resp == Response(BadRequest400, Refused(ValidateSubscription(old(db.users), old(db.subscribes), user, author).error))
      && db.Snapshot() == old(db.Snapshot())
    ensures verb == Post && ValidateSubscription(old(db.users), old(db.subscribes), user, author).Ok? && user == author ==>
      resp == Response(BadRequest400, Errors(SelfSubscribeMessage)) && db.Snapshot() == old(db.Snapshot())
    ensures verb == Post && ValidateSubscription(old(db.users), old(db.subscribes), user, author).Ok? && user != author ==>
      && db.Snapshot() == old(db.Snapshot()).(subscribes := old(db.subscribes) + [Subscribe(user, author)])
      && ShowIsSubscribed(db.subscribes, user, author)
      && match ProfileOf(db.Snapshot(), user, author, limit)
         case Ok(p) => resp == Response(Created201, Profile(p)) && p.isSubscribed
         case Err(f) => resp == Response(ServerError500, Refused(f))
    ensures verb == Delete && !HasUser(old(db.users), author) ==>
      resp == Response(NotFound404, Refused(NotFound)) && db.Snapshot() == old(db.Snapshot())
    ensures verb == Delete && HasUser(old(db.users), author) && Subscribe(user, author) in old(db.subscribes) ==>
      && resp == Response(NoContent204, Message(UnsubscribedMessage))
      && db.Snapshot() == old(db.Snapshot()).(subscribes := Unsubscribe(old(db.subscribes), user, author))
      && !ShowIsSubscribed(db.subscribes, user, author)
    ensures verb == Delete && HasUser(old(db.users), author) && Subscribe(user, author) !in old(db.subscribes) ==>
      resp == Response(BadRequest400, Errors(NoSubscriptionMessage)) && db.Snapshot() == old(db.Snapshot())
  {
    if verb == Post {
      var v := ValidateSubscription(db.users, db.subscribes, user, author);
      if v.Err? {
        return Response(BadRequest400, Refused(v.error));
      }
      if user == author {
        return Response(BadRequest400, Errors(SelfSubscribeMessage));
      }
      FollowKeepsWellFormed(db.Snapshot(), user, author);
      db.subscribes := db.subscribes + [v.value];
      var p := ProfileOf(db.Snapshot(), user, author, limit);
      if p.Err? {
        return Response(ServerError500, Refused(p.error));
      }
      return Response(Created201, Profile(p.value));
    } else {
      if !HasUser(db.users, author) {
        return Response(NotFound404, Refused(NotFound));
      }
      if Subscribe(user, author) !in db.subscribes {
        return Response(BadRequest400, Errors(NoSubscriptionMessage));
      }
      UnfollowKeepsWellFormed(db.Snapshot(), user, author);
      db.subscribes := Unsubscribe(db.subscribes, user, author);
      return Response(NoContent204, Message(UnsubscribedMessage));
    }
  }

  // ---------------------------------------------------------------------
  // Recipe writes

  /** `RecipeViewSet.create` (POST /recipes/): full validation, then
      `create` with the caller as author. */
  method CreateRecipe(db: Store, author: nat, input: RecipeInput, now: int) returns (resp: Response)
    requires db.Valid() && HasUser(db.users, author)
    modifies db
    ensures db.Valid()
    ensures var v := ValidateFields(input, false, old(db.tags));
      resp.status == Created201 <==> v.Ok? && ObjectValid(v.value, old(db.ingredients), old(db.tags), true)
    ensures IngredientsCrash(input) ==> resp == Response(ServerError500, Refused(AbsentAmount))
    ensures !IngredientsCrash(input) && FieldErrorsOf(input, false, old(db.tags)) != [] ==>
      resp == Response(BadRequest400, Refused(FieldErrors(FieldErrorsOf(input, false, old(db.tags)))))
    ensures var v := ValidateFields(input, false, old(db.tags));
      v.Ok? && ObjectRefusal(v.value, old(db.ingredients), old(db.tags)) == Some(NotFound) ==>
        resp == Response(NotFound404, Refused(NotFound))
    ensures var v := ValidateFields(input, false, old(db.tags));
      v.Ok? && ObjectRefusal(v.value, old(db.ingredients), old(db.tags)).Some? ==>
        var e := ObjectRefusal(v.value, old(db.ingredients), old(db.tags)).value;
        e != NotFound ==> resp == Response(BadRequest400, Refused(e))
    ensures resp.status != Created201 ==> db.Snapshot() == old(db.Snapshot()) && resp.body.Refused?
                                          && resp.status == StatusOf(resp.body.failure)
    ensures resp.status == Created201 ==>
      && resp.body == RecipeShown(old(db.nextRecipeId))
      && db.Snapshot() == AfterCreate(old(db.Snapshot()), author, ValidateFields(input, false, old(db.tags)).value, now)
  {
    var v := IsValid(input, false, db.ingredients, db.tags);
    ghost var fields := ValidateFields(input, false, db.tags);
    if v.Err? {
      assert !(fields.Ok? && ObjectValid(fields.value, db.ingredients, db.tags, true));
      return Response(StatusOf(v.error), Refused(v.error));
    }
    assert fields.Ok? && ObjectValid(fields.value, db.ingredients, db.tags, true);
    assert Complete(v.value);
    var id := Create(db, author, v.value, now);
    return Response(Created201, RecipeShown(id));
  }

  /** `RecipeViewSet.partial_update` (PATCH /recipes/{id}/): 404 for an
      unknown recipe, then partial validation, then `update`. Any
      authenticated user may do it. */
  method PartialUpdateRecipe(db: Store, id: nat, input: RecipeInput) returns (resp: Response)
    requires db.Valid()
    modifies db
    ensures db.Valid()
    ensures !HasRecipe(old(db.recipes), id) ==> resp == Response(NotFound404, Refused(NotFound)) && db.Snapshot() == old(db.Snapshot())
    ensures HasRecipe(old(db.recipes), id) && IngredientsCrash(input) ==> resp == Response(ServerError500, Refused(AbsentAmount))
    ensures HasRecipe(old(db.recipes), id) && !IngredientsCrash(input) && FieldErrorsOf(input, true, old(db.tags)) != [] ==>
      resp == Response(BadRequest400, Refused(FieldErrors(FieldErrorsOf(input, true, old(db.tags)))))
    ensures var v := ValidateFields(input, true, old(db.tags));
      HasRecipe(old(db.recipes), id) && v.Ok? && ObjectRefusal(v.value, old(db.ingredients), old(db.tags)) == Some(NotFound) ==>
        resp == Response(NotFound404, Refused(NotFound))
    ensures var v := ValidateFields(input, true, old(db.tags));
      HasRecipe(old(db.recipes), id) && v.Ok? && ObjectRefusal(v.value, old(db.ingredients), old(db.tags)).Some? ==>
        var e := ObjectRefusal(v.value, old(db.ingredients), old(db.tags)).value;
        e != NotFound ==> resp == Response(BadRequest400, Refused(e))
    ensures var v := ValidateFields(input, true, old(db.tags));
      resp.status == Ok200 <==> HasRecipe(old(db.recipes), id) && v.Ok? && ObjectValid(v.value, old(db.ingredients), old(db.tags), false)
    ensures resp.status != Ok200 ==> db.Snapshot() == old(db.Snapshot()) && resp.body.Refused?
                                     && resp.status == StatusOf(resp.body.failure)
    ensures resp.status == Ok200 ==>
      && resp.body == RecipeShown(id)
      && db.Snapshot() == AfterUpdate(old(db.Snapshot()), id, ValidateFields(input, true, old(db.tags)).value)
  {
    if !HasRecipe(db.recipes, id) {
      return Response(NotFound404, Refused(NotFound));
    }
    var v := IsValid(input, true, db.ingredients, db.tags);
    ghost var fields := ValidateFields(input, true, db.tags);
    if v.Err? {
      assert !(fields.Ok? && ObjectValid(fields.value, db.ingredients, db.tags, false));
      return Response(StatusOf(v.error), Refused(v.error));
    }
    Update(db, id, v.value);
    return Response(Ok200, RecipeShown(id));
  }
}
