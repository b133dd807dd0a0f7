# Foodgram backend core, modelled in Dafny

Foodgram is a recipe-sharing web service. Users publish recipes built from a
shared ingredient catalog and tagged with catalog tags. They follow authors,
mark recipes as favorites, put recipes in a shopping cart, and download the
cart as one summed shopping list.

This project models the logic behind those features. The database is an
in-memory value `Db.Tables` with one table per model. The class `Db.Store`
holds those tables as fields, and the request handlers change them in place.
The modelled parts are:

- the storage constraints of the models and the cascading deletes of their
  foreign keys (`Users`, `Recipes`, `Db`);
- the recipe write serializer: its field checks, `validate`, and the
  `create` and `update` writes. The read-side `get_*` queries and the
  subscription serializer are here too (`Serializers`);
- the favorite, shopping-cart and subscribe actions, and the recipe create
  and partial-update endpoints, with their status codes (`Views`);
- the shopping-list download: group by (name, unit), sum, number and render
  (`ShoppingList`);
- the ingredient and recipe query filters (`Filters`).

`Wrappers`, `Text` and `Ordering` are helper modules. They hold Option and
Result, decimal and integer text, case folding, splitting and joining,
lexicographic order, and a sort by a total preorder.

Every stored state satisfies `Db.WellFormed`. Each writing operation is
proved to keep it, and each states its new state exactly as a function of
the old one.

## Model

| member | source | states |
|---|---|---|
| Users.FindUser | backend/api/views.py:226 | the account with the given key is found exactly when one is stored, and it carries that key |
| Users.FindByLogin | backend/users/models.py:7-21 | email is the login key; since emails are unique, a login names at most one account, found exactly when one has that email |
| Users.SubscribeStr | backend/users/models.py:58-59 | the text is the follower's username, then " подписан на ", then the author's username |
| Recipes.ColorBodyShape | backend/recipes/models.py:42-44 | the pattern between `^` and `$` is exactly '#' then 3 or 6 hex digits |
| Recipes.ColorShape | backend/recipes/models.py:37-48 | a colour passes the validator (whose `$` also matches before one final newline) and max_length 7 exactly when it is the pattern, or '#', 3 hex digits and a newline |
| Recipes.ColorTrailingNewline | backend/recipes/models.py:42-44 | the validator accepts "#abc\n", and accepts "#aabbcc\n", which only max_length then refuses |
| Recipes.RecipeIngredientStr | backend/recipes/models.py:136-140 | the text is the ingredient name, then " (<unit>) - ", then the decimal amount, which reads back as the amount |
| Recipes.NameOrderIsTotalPreorder | backend/recipes/models.py:19 | ordering ingredients by name is total and transitive |
| Recipes.ByName | backend/recipes/models.py:19 | the ingredient listing is a permutation of the catalog, sorted by name |
| Recipes.NewestFirst | backend/recipes/models.py:106 | the recipe listing is a permutation of its input with non-increasing pub_date |
| Db.RecipeDeleteKeepsWellFormed | backend/recipes/models.py:112-118 | deleting a recipe, with the rows cascaded from it, keeps every storage constraint |
| Db.RecipeDeleteRemovesRows | backend/recipes/models.py:143-178 | after deleting a recipe, the recipe and every ingredient row, tag link, favorite and cart row naming it are gone; every other recipe and row, every account and every follow edge stays |
| Db.UserDeleteKeepsWellFormed | backend/users/models.py:33-45 | deleting an account keeps every constraint and leaves no recipe, follow edge (either side), favorite or cart row of it |
| Db.UserDeleteKeepsRest | backend/users/models.py:33-45 | deleting an account removes exactly that account, its recipes, the follow edges on either side, its favorite and cart rows, and the rows of its recipes; everything else stays |
| Db.Store.DeleteRecipe | backend/recipes/models.py:113-118 | the store after a recipe delete is the cascade of the old store, and stays valid |
| Db.Store.DeleteUser | backend/users/models.py:34-45 | the store after an account delete is the cascade of the old store, and stays valid |
| Serializers.ValidateCookingTime | backend/api/serializers.py:179-183 | fails exactly when cooking_time < 1, with the fixed message; otherwise returns the value unchanged |
| Serializers.ValidateIngredients | backend/api/serializers.py:185-195 | passes exactly when the list is non-empty and every amount is present and >= 1, and then keeps each entry's ingredient and amount; an empty list gets the "min 1" message, an amount below 1 the amount message; otherwise an absent amount crashes (`int(None)`) |
| Serializers.ResolveTags | backend/api/serializers.py:144-146 | tag keys resolve exactly when each names a stored tag, in order; otherwise it reports the first key that names no tag |
| Serializers.ValidateFields | backend/api/serializers.py:137-156 | an absent amount in the ingredients crashes the pass; otherwise it fails exactly when some field has an error, and reports all of them; on success `name` and `text` are passed on stripped and non-blank, the other fields unchanged, and a full (non-partial) write has every field |
| Serializers.AcceptedData | backend/api/serializers.py:135-156 | the accepted payload: tag keys resolved, each entry with its amount, `name` and `text` stripped of surrounding whitespace, non-empty, and the name at most 200 characters after stripping |
| Serializers.BlankRefused | backend/recipes/models.py:71-83 | an empty or all-whitespace `name` or `text` fails the field pass with a blank error on that field |
| Serializers.IngredientWalk | backend/api/serializers.py:159-167 | walking the list yields nothing, a 404 with an unresolvable entry, or "must be unique" with an entry repeated earlier |
| Serializers.IngredientWalkPasses | backend/api/serializers.py:159-167 | the walk passes exactly when every id resolves, none was seen before, and no id repeats |
| Serializers.CheckIngredients | backend/api/serializers.py:160-167 | the loop gives the walk's verdict; it passes exactly when every id resolves and no id repeats |
| Serializers.CheckTags | backend/api/serializers.py:173-176 | passes exactly when every given tag's name exists; otherwise it names the first tag whose name is missing; resolved tags always pass |
| Serializers.ObjectRefusal | backend/api/serializers.py:158-177 | the object-level refusal, in the order `validate` checks: the ingredient walk's 404 or repeat error, then an empty tag list, then the first tag whose name is missing; none exactly when the object rules hold, and only an unknown ingredient key is a 404 |
| Serializers.Validate | backend/api/serializers.py:158-177 | as written: passes exactly when the object-level rules hold with both keys required; an absent `ingredients` or `tags` key is a KeyError; returns the data unchanged |
| Serializers.ValidatePartial | backend/api/serializers.py:158-177 | corrected: absent keys are skipped; it passes exactly when the present parts satisfy the rules, and agrees with `Validate` when both keys are present; a refusal is exactly `ObjectRefusal`'s error |
| Serializers.NameOnlyPatch | backend/api/serializers.py:158-168 | a PATCH carrying only a name fails the as-written rules and passes the corrected ones |
| Serializers.IsValid | backend/api/serializers.py:137-195 | an absent amount crashes; otherwise field errors (a blank or over-long name, a blank text among them) come first; acceptance means the fields pass and the object rules hold; when the fields pass but the object rules fail, the error is exactly `ObjectRefusal`'s (a 404 or a non-field 400); a full write then meets the required-key rules as well |
| Serializers.IngredientRows | backend/api/serializers.py:197-206 | one row per entry, in order, each with that entry's ingredient and amount and the given recipe |
| Serializers.CreateIngredients | backend/api/serializers.py:197-206 | the bulk insert appends exactly those rows and changes no other table |
| Serializers.SetTags | backend/api/serializers.py:213 | `tags.set` makes the recipe's tag links exactly the given keys and leaves other recipes' links alone |
| Serializers.ClearIngredients | backend/api/serializers.py:220 | `ingredients.clear()` removes the recipe's ingredient rows and nothing else |
| Serializers.ReplaceRecipe | backend/api/serializers.py:226 | the scalar update rewrites the row with the given key and keeps every other row, in place |
| Serializers.CreateStoresPayload | backend/api/serializers.py:208-215 | after `create`, the new recipe's tag set equals the given tags and its ingredient rows equal the input list; other recipes keep theirs |
| Serializers.UpdateReplacesParts | backend/api/serializers.py:217-226 | `update` replaces the ingredient rows when `ingredients` is present and the tag set when `tags` is present; an absent key leaves that table unchanged; other recipes are untouched |
| Serializers.CreateKeepsWellFormed | backend/api/serializers.py:208-215 | creating an accepted recipe keeps every storage constraint |
| Serializers.UpdateKeepsWellFormed | backend/api/serializers.py:217-226 | updating a stored recipe with accepted data keeps every storage constraint |
| Serializers.Create | backend/api/serializers.py:208-215 | the store afterwards is the old store plus the recipe row under the next key, its tag links and its ingredient rows; it stays valid |
| Serializers.Update | backend/api/serializers.py:217-226 | the store afterwards is the specified update of the old store, and it stays valid |
| Serializers.ValidateSubscription | backend/api/serializers.py:287-297 | accepts exactly when the author exists and the (user, author) pair is not stored; otherwise an unknown-key field error or a unique-together error |
| Serializers.AuthorRecipes | backend/api/serializers.py:320 | exactly the author's recipes, as a multiset, newest first |
| Serializers.GetRecipesCount | backend/api/serializers.py:331-332 | the count is zero exactly when the author has no recipe |
| Serializers.CountIsListingLength | backend/api/serializers.py:317-332 | the count equals the length of the unlimited listing |
| Serializers.GetRecipes | backend/api/serializers.py:317-324 | an absent or empty limit gives all the author's recipes; a limit n >= 0 gives the first min(n, count) of the newest-first listing; a limit that is not an integer, or is negative, fails |
| Text.ParseIntRoundTrip | backend/api/serializers.py:323 | `int()` reads the decimal text of a number back, with or without a minus sign |
| Text.IStartsWithIgnoresCase | backend/api/filters.py:8 | the case-insensitive prefix match does not depend on the case of either side |
| Views.FindRecipe | backend/api/views.py:90 | the recipe with the given key is found exactly when one is stored |
| Views.AddFavoriteEffect | backend/api/views.py:87-93 | adding a favorite makes the recipe favorited, adds one more row even if one exists, and changes no other pair's answer |
| Views.UnfavoriteEffect | backend/api/views.py:96-101 | removing a favorite deletes every copy of that pair and keeps every other row as often as before |
| Views.AddCartEffect | backend/api/views.py:118-124 | as for favorites, on the cart table |
| Views.UncartEffect | backend/api/views.py:127-133 | as for favorites, on the cart table |
| Views.Favorite | backend/api/views.py:86-109 | POST: 400 for a non-object body, 404 for an unknown recipe, else 201 with a card of the recipe's name and cooking time and one row appended. DELETE: 204 with every matching row removed, else 400 and no change |
| Views.ShoppingCartAction | backend/api/views.py:117-141 | as `Favorite` on the cart table, except that DELETE first answers 404 for an unknown recipe |
| Views.ProfileOf | backend/api/serializers.py:305-332 | the author's profile: their key, email, username and names, the viewer's follow flag, the full recipe count, and one card per recipe of the `get_recipes` listing, in its order |
| Views.FollowFlagEffect | backend/api/serializers.py:58-62 | an anonymous viewer follows no one; saving a follow edge sets the flag for that pair, removing it clears it, and neither changes any other pair's flag |
| Views.FollowKeepsWellFormed | backend/api/views.py:224-237 | saving a new, non-self follow edge keeps every constraint |
| Views.UnfollowKeepsWellFormed | backend/api/views.py:243-248 | removing a follow edge keeps every constraint |
| Views.Follow | backend/api/views.py:214-256 | POST: the serializer's refusal is 400; a self-follow is 400; otherwise the edge is saved and the profile returned with 201, or 500 on a bad `recipes_limit`, with the edge kept. DELETE: 404, 204 with the edge removed, or 400 |
| Views.CreateRecipe | backend/api/views.py:54-64 | POST /recipes/ answers 500 when an ingredient entry has no amount, 400 with the field errors when a field fails (a blank name or text among them), 404 for an unknown ingredient key, 400 with the object-level error for a repeated ingredient, an empty tag list or a missing tag name, 201 exactly when the full validation passes, and then stores the recipe as `Create` specifies; any refusal leaves the store unchanged |
| Views.PartialUpdateRecipe | backend/api/views.py:54-61 | PATCH answers 404 for an unknown recipe, 500 when an ingredient entry has no amount, 400 with the field errors when a present field fails, 404 for an unknown ingredient key, 400 with the object-level error for the other refusals, and 200 exactly when the partial validation passes, and then updates as `Update` specifies; any refusal leaves the store unchanged |
| ShoppingList.AddItem | backend/api/views.py:147-152 | adding one item keeps one line per (name, unit) and adds its amount to that group's total only |
| ShoppingList.Group | backend/api/views.py:147-152 | one line per (name, unit) present among the items, and each group's total is the sum of its items' amounts |
| ShoppingList.GroupLineTotals | backend/api/views.py:147-152 | every line's total is the sum over the items with that line's name and unit |
| ShoppingList.AnotherCartRowAddsAgain | backend/api/views.py:147-152 | one more cart row for a recipe adds that recipe's amounts to every group again |
| ShoppingList.Numbered | backend/api/views.py:157-161 | line k reads "<start+k>. <name> <total> (<unit>)" |
| ShoppingList.ListTextCases | backend/api/views.py:153-164 | the text is the empty-cart message exactly when there are no lines, and otherwise starts with the header |
| ShoppingList.ListTextLines | backend/api/views.py:154-162 | after the header, the text split at newlines is the lines numbered from 1 |
| ShoppingList.EmptyTextIffNoCartRow | backend/api/views.py:147-164 | the download is the empty-cart message exactly when the user has no cart row |
| ShoppingList.DownloadShoppingCart | backend/api/views.py:165-166 | the response is text/plain, sent as an attachment named my_shopping_cart.txt |
| Filters.IngredientsByName | backend/api/filters.py:7-12 | keeps exactly the catalog entries whose name starts with the stripped value, ignoring case, sorted by name; an absent value, or one that strips to nothing, keeps the whole catalog |
| Filters.IngredientsByNamePadding | backend/api/filters.py:8 | whitespace around the value gives the same listing as the value alone |
| Text.StripEmpty | backend/api/filters.py:8 | `strip()` gives the empty string exactly when the value is all whitespace |
| Text.StripPadding | backend/api/filters.py:8 | `strip()` removes any whitespace added on either side |
| Text.StripIdempotent | backend/recipes/models.py:71-83 | a stripped value strips to itself, so stored names and texts are already trimmed |
| Filters.ByAuthorFilter | backend/api/filters.py:16-18 | keeps exactly the given author's recipes, each as often as before; no value keeps all |
| Filters.InCartFilter | backend/api/filters.py:34-37 | with a true value and a signed-in viewer, keeps exactly the recipes in the viewer's cart, once per cart row; otherwise the input unchanged |
| Filters.FavoritedFilter | backend/api/filters.py:39-42 | with a true value and a signed-in viewer, keeps exactly the viewer's favorites, once per favorite row; otherwise the input unchanged |
| Filters.TagsFilter | backend/api/filters.py:29-32 | with slugs, keeps exactly the recipes having a tag with one of them, without repeats; with none, the input unchanged |
| Filters.FilterRecipes | backend/api/filters.py:15-46 | an invalid author or slug is refused; otherwise the filters run in the declared field order and a recipe is listed exactly when it passes every given filter, newest first, at most once when tags are given |

## Left out

- Images: `Base64ImageField` decoding, storage and URLs are not modelled. Recipe rows and cards carry no image.
- Pagination, the token, password and user-registration serializers and views. These rely on Django's authentication, password validators and hashing.
- HTTP framing: only the status, the body kind and, for the download, the content type and the Content-Disposition value are modelled.
- The SQL join behind the shopping-list `values().annotate(Sum(...))`. The model states the group-and-sum over every ingredient row of every cart row. The order of the lines is the order of first occurrence, and nothing is claimed about it.
- Concurrency and transaction isolation. The check-then-insert races are outside the model. Each request is one atomic step.
- The second duplicate-follow check in `subscribe` (backend/api/views.py:232). It only matches a self-follow, which the line before already refuses. Duplicate follows are refused by the unique-together validator.
- The min_value checks that DRF derives from the model validators. An amount below 1 is refused as an `ingredients` field error with the serializer's own message, and cooking_time below 1 likewise. The upper bound 32767 of PositiveSmallIntegerField and DRF's integer parsing of cooking_time and amount are not modelled. Values are integers.
- Ingredient ids in the write payload are modelled as numbers. A non-numeric id, which the source passes to the ORM as a string, is not modelled.
- `int()` also accepts surrounding whitespace, digit-group underscores and non-ASCII Unicode decimal digits (such as Arabic-Indic digits). `Text.ParseInt` accepts only an optional sign and ASCII decimal digits.
- PUT on a recipe. It goes through the read serializer, not the write serializer, and is not modelled.
- `get_is_favorited` and `get_is_in_shopping_cart` for an anonymous viewer fail in the source. Only signed-in viewers are modelled.
- Filters.IngredientsByName: case folding for `istartswith` covers ASCII and the basic Cyrillic letters, as a Unicode-aware database does. When DB_ENGINE is unset, backend/foodgram/settings.py:19-21 selects SQLite, whose LIKE folds only ASCII, so there a Cyrillic prefix matches case-sensitively. Collations and other alphabets are not modelled.
- The text of DRF's unique-together and invalid-filter messages.
- The row ids in the favorite and cart responses. The card carries the recipe's name and cooking time only.
- Views.PartialUpdateRecipe: it uses the corrected `Serializers.ValidatePartial`. The source runs `validate` as written, so a PATCH without `ingredients` or `tags` ends in a KeyError and a 500 there (backend/api/serializers.py:159, 168). `Serializers.Validate` and `Serializers.NameOnlyPatch` model that behaviour; see Findings.
- Settings, URL routing, the admin and the catalog loading command, including its tag seed data.
- Who may edit a recipe: any signed-in user may PATCH any recipe, and the model does not restrict it either.
- Serializers.ValidateFields: the field-level messages of DRF (required, blank, too long, unknown key) are abstract `Problem` values, not texts. DRF's `CharField` also refuses NUL and surrogate characters; those two validators are not modelled, and a field has at most one problem.
- ShoppingList.DownloadShoppingCart: its own contract states only the response headers. The body is stated by `EmptyTextIffNoCartRow`, `ListTextCases`, `ListTextLines` and `GroupLineTotals`.

Two behaviours of the code are worth stating, and the model follows them:

- Adding a favorite or cart entry twice is accepted. The code makes no prior-existence check and the tables have no unique constraint, so rows accumulate. A removal then deletes every copy.
- Validation order: field checks (cooking time, empty list, amounts, unknown tag keys) come first and are reported together. Then `validate` walks the ingredients: an unknown id is a 404 and a repeat is a 400. Then it checks the tags.

## Findings

| source | as written | input that shows it | evidently intended | confidence | as-written member | corrected member |
|---|---|---|---|---|---|---|
| backend/api/serializers.py:159 | `validate` reads the `ingredients` and `tags` keys unconditionally, so a partial update without them raises KeyError (500) | PATCH /api/recipes/1/ with body {"name": "Борщ"} | absent keys are skipped, as `update` (backend/api/serializers.py:218, 222) expects | medium, not executed | Serializers.Validate | Serializers.ValidatePartial |

`Serializers.NameOnlyPatch` proves, for that body, that the as-written rules refuse it and the corrected rules accept it. The endpoints use the corrected rules.
