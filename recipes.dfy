/** The catalog, recipes and the per-user recipe relations
    (backend/recipes/models.py): rows, field validators, orderings and
    `__str__` formats. */
module Recipes {
  import opened Text
  import opened Ordering

  const IngredientNameMaxLength := 200
  const UnitMaxLength := 10
  const TagNameMaxLength := 60
  const ColorMaxLength := 7
  const SlugMaxLength := 100
  const RecipeNameMaxLength := 200

  /** MinValueValidator(1) on cooking_time and amount. The amount column
      also has a default, but the recipe write path never applies it: an
      entry without an amount fails there (`Serializers.ValidateIngredients`). */
  const MinCookingTime := 1
  const MinAmount := 1

  datatype Ingredient = Ingredient(id: nat, name: string, measurementUnit: string)

  datatype Tag = Tag(id: nat, name: string, color: string, slug: string)

  /** A recipe row; `pubDate` is the server-assigned creation time. The image
      is not modelled. */
  datatype Recipe = Recipe(id: nat, author: nat, name: string, text: string, cookingTime: int, pubDate: int)

  /** A row of the recipe/ingredient through table. */
  datatype RecipeIngredient = RecipeIngredient(recipe: nat, ingredient: nat, amount: int)

  /** A row of the recipe/tag many-to-many table. */
  datatype RecipeTag = RecipeTag(recipe: nat, tag: nat)

  datatype FavoriteRecipe = FavoriteRecipe(user: nat, recipe: nat)

  datatype ShoppingCart = ShoppingCart(user: nat, recipe: nat)

  predicate IsHexDigit(c: char)
  {
    '0' <= c <= '9' || 'a' <= c <= 'f' || 'A' <= c <= 'F'
  }

  /** `[A-Fa-f0-9]{n}` matching the whole of `s`. */
  predicate HexRun(s: string, n: nat)
  {
    |s| == n && forall i :: 0 <= i < |s| ==> IsHexDigit(s[i])
  }

  /** `#([A-Fa-f0-9]{6}|[A-Fa-f0-9]{3})`, the pattern between `^` and `$`. */
  predicate ColorBody(c: string)
  {
    |c| >= 1 && c[0] == '#' && (HexRun(c[1..], 6) || HexRun(c[1..], 3))
  }

  /** The colour validator `^#([A-Fa-f0-9]{6}|[A-Fa-f0-9]{3})$`. The pattern
      is searched without MULTILINE, so `$` matches at the end of the value
      or just before one final newline. */
  predicate MatchesColorRegex(c: string)
  {
    ColorBody(c) || (|c| >= 1 && c[|c| - 1] == '\n' && ColorBody(c[..|c| - 1]))
  }

  /** The pattern itself is '#' and three or six hex digits. */
  lemma ColorBodyShape(c: string)
    ensures ColorBody(c) <==>
      (|c| == 4 || |c| == 7) && c[0] == '#' && forall i :: 1 <= i < |c| ==> IsHexDigit(c[i])
  {
    if (|c| == 4 || |c| == 7) && c[0] == '#' && (forall i :: 1 <= i < |c| ==> IsHexDigit(c[i])) {
      assert forall i :: 0 <= i < |c[1..]| ==> c[1..][i] == c[i + 1];
    }
  }

  /** A colour passes both the validator and the column's max_length of 7
      exactly when it is the pattern, or the pattern with three digits
      followed by one newline. */
  lemma ColorShape(c: string)
    ensures MatchesColorRegex(c) && |c| <= ColorMaxLength <==>
      ColorBody(c) || (|c| == 5 && c[4] == '\n' && ColorBody(c[..4]))
  {
    ColorBodyShape(c);
    if |c| >= 1 {
      ColorBodyShape(c[..|c| - 1]);
    }
  }

  /** The validator lets a final newline through, and a six-digit colour
      with one is then refused only by max_length. */
  lemma ColorTrailingNewline()
    ensures MatchesColorRegex("#abc\n") && |"#abc\n"| <= ColorMaxLength
    ensures MatchesColorRegex("#aabbcc\n") && |"#aabbcc\n"| > ColorMaxLength
  {
    assert "#abc\n"[..4] == "#abc";
    assert HexRun("#abc"[1..], 3);
    assert "#aabbcc\n"[..7] == "#aabbcc";
    assert HexRun("#aabbcc"[1..], 6);
  }

  predicate IsSlugChar(c: char)
  {
    c == '-' || c == '_' || '0' <= c <= '9' || 'a' <= c <= 'z' || 'A' <= c <= 'Z'
  }

  /** SlugField's validator `^[-a-zA-Z0-9_]+\Z`. */
  predicate IsSlug(s: string)
  {
    |s| >= 1 && forall i :: 0 <= i < |s| ==> IsSlugChar(s[i])
  }

  predicate IngredientOk(i: Ingredient)
  {
    |i.name| <= IngredientNameMaxLength && |i.measurementUnit| <= UnitMaxLength
  }

  predicate TagOk(t: Tag)
  {
    && |t.name| <= TagNameMaxLength
    && |t.color| <= ColorMaxLength && MatchesColorRegex(t.color)
    && |t.slug| <= SlugMaxLength && IsSlug(t.slug)
  }

  predicate CookingTimeOk(t: int) { t >= MinCookingTime }

  predicate AmountOk(a: int) { a >= MinAmount }

  /** Catalog storage constraints: primary keys, `unique_ingredient` on
      (name, measurement_unit), and `unique=True` on a tag's name, colour
      and slug. */
  ghost predicate CatalogOk(ingredients: seq<Ingredient>, tags: seq<Tag>)
  {
    && (forall i :: i in ingredients ==> IngredientOk(i))
    && (forall i, j :: 0 <= i < j < |ingredients| ==>
          ingredients[i].id != ingredients[j].id
          && (ingredients[i].name, ingredients[i].measurementUnit) != (ingredients[j].name, ingredients[j].measurementUnit))
    && (forall t :: t in tags ==> TagOk(t))
    && (forall i, j :: 0 <= i < j < |tags| ==>
          && tags[i].id != tags[j].id
          && tags[i].name != tags[j].name
          && tags[i].color != tags[j].color
          && tags[i].slug != tags[j].slug)
  }

  /** `f'{name} ({unit}) - {amount}'` for a recipe's ingredient row. */
  function RecipeIngredientStr(ingredient: Ingredient, amount: nat): (r: string)
    ensures |r| == |ingredient.name| + |ingredient.measurementUnit| + 6 + |DecimalString(amount)|
    ensures r[..|ingredient.name|] == ingredient.name
    ensures var n := DecimalString(amount); r[|r| - |n|..] == n && DigitsValue(r[|r| - |n|..]) == amount
    ensures r[|ingredient.name|..|r| - |DecimalString(amount)|] == " (" + ingredient.measurementUnit + ") - "
  {
    DecimalRoundTrip(amount);
    var middle := " (" + ingredient.measurementUnit + ") - ";
    var r := ingredient.name + middle + DecimalString(amount);
    assert r[|r| - |DecimalString(amount)|..] == DecimalString(amount);
    assert r[|ingredient.name|..|r| - |DecimalString(amount)|] == middle;
    r
  }

  /** Meta.ordering = ['-pub_date'] on recipes. */
  function NewerOrSame(a: Recipe, b: Recipe): bool { a.pubDate >= b.pubDate }

  /** Meta.ordering = ['name'] on ingredients. */
  function NameOrder(a: Ingredient, b: Ingredient): bool { LexLe(a.name, b.name) }

  lemma NameOrderIsTotalPreorder()
    ensures TotalPreorder(NameOrder)
  {
    forall a: Ingredient, b: Ingredient ensures NameOrder(a, b) || NameOrder(b, a) {
      LexLeTotal(a.name, b.name);
    }
    forall a: Ingredient, b: Ingredient, c: Ingredient | NameOrder(a, b) && NameOrder(b, c)
      ensures NameOrder(a, c)
    {
      LexLeTransitive(a.name, b.name, c.name);
    }
  }

  /** The recipes, newest first: the same rows, ordered by descending publication time. */
  function NewestFirst(recipes: seq<Recipe>): (r: seq<Recipe>)
    ensures multiset(r) == multiset(recipes)
    ensures forall i, j :: 0 <= i < j < |r| ==> r[i].pubDate >= r[j].pubDate
  {
    var r := SortBy(recipes, NewerOrSame);
    assert forall i, j :: 0 <= i < j < |r| ==> NewerOrSame(r[i], r[j]);
    r
  }

  /** The ingredient catalog listed by name. */
  function ByName(ingredients: seq<Ingredient>): (r: seq<Ingredient>)
    ensures multiset(r) == multiset(ingredients)
    ensures forall i, j :: 0 <= i < j < |r| ==> LexLe(r[i].name, r[j].name)
  {
    NameOrderIsTotalPreorder();
    var r := SortBy(ingredients, NameOrder);
    assert forall i, j :: 0 <= i < j < |r| ==> NameOrder(r[i], r[j]);
    r
  }
}
