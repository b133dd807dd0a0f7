/** The recipe write serializer (field validators, `validate`, `create`,
    `update`) and the read-side `get_*` queries of the serializers
    (backend/api/serializers.py). */
module Serializers {
  import opened Wrappers
  import opened Text
  import opened Users
  import opened Recipes
  import opened Db

  const CookingTimeMessage := "Время приготовления >= 1!"
  const NoIngredientsMessage := "Мин. 1 ингредиент в рецепте!"
  const AmountMessage := "Количество ингредиентов >= 1!"
  const DuplicateIngredientMessage := "Ингредиент должен быть уникальным!"
  const NoTagsMessage := "Нужен хотя бы один тэг для рецепта!"

  function UnknownTagMessage(name: string): string
  {
    "Тэга " + name + " не существует!"
  }

  /** What is wrong with one field of the payload. */
  datatype Problem = Required | UnknownPk(pk: nat) | Blank | TooLong | Invalid(message: string)

  datatype FieldError = FieldError(field: string, problem: Problem)

  /** Why a request is refused: field errors, errors raised by `validate`
      and a unique-together violation answer 400, `get_object_or_404`
      answers 404; a KeyError, an ingredient entry without an amount
      (`int(None)`) and a `recipes_limit` that `int()` or queryset slicing
      refuses are unhandled server errors (500). */
  datatype Failure =
    | FieldErrors(errors: seq<FieldError>)
    | NonFieldError(message: string)
    | NotFound
    | MissingKey(key: string)
    | NotUniqueTogether
    | BadLimit(limit: string)
    | AbsentAmount

  /** One `{id, amount}` entry of the `ingredients` list as the nested
      serializer lets it through: `amount` is optional there, because the
      model column has a default. */
  datatype EntryInput = EntryInput(ingredient: nat, amount: Option<int>)

  /** An entry of the validated list, which always carries an amount. */
  datatype IngredientEntry = IngredientEntry(ingredient: nat, amount: int)

  /** The request payload of a recipe write; an absent key is None. */
  datatype RecipeInput = RecipeInput(
    name: Option<string>,
    text: Option<string>,
    cookingTime: Option<int>,
    tags: Option<seq<nat>>,
    ingredients: Option<seq<EntryInput>>)

  /** The payload once its fields are validated: tag keys are resolved to
      tag rows, as PrimaryKeyRelatedField does. */
  datatype RecipeData = RecipeData(
    name: Option<string>,
    text: Option<string>,
    cookingTime: Option<int>,
    tags: Option<seq<Tag>>,
    ingredients: Option<seq<IngredientEntry>>)

  // ---------------------------------------------------------------------
  // Field validators

  /** `validate_cooking_time`: refuses a value below 1, else returns it. */
  function ValidateCookingTime(cookingTime: int): (r: Result<int, string>)
    ensures r.Ok? <==> CookingTimeOk(cookingTime)
    ensures r.Ok? ==> r.value == cookingTime
    ensures r.Err? ==> r.error == CookingTimeMessage
  {
    if cookingTime < 1 then Err(CookingTimeMessage) else Ok(cookingTime)
  }

  /** How the `ingredients` field is refused: with a validation message
      (400), or by an exception the view does not handle (500). */
  datatype Rejection = Refuse(message: string) | Crash

  predicate SomeAmountBelowOne(entries: seq<EntryInput>)
  {
    exists e :: e in entries && e.amount.Some? && e.amount.value < 1
  }

  predicate SomeAmountAbsent(entries: seq<EntryInput>)
  {
    exists e :: e in entries && e.amount.None?
  }

  /** The `ingredients` field: an empty list is refused with its message; an
      amount below 1 anywhere is refused (the nested field's minimum, checked
      before `validate_ingredients` runs); otherwise an entry without an
      amount makes `int(None)` raise; else every entry carries its amount. */
  function ValidateIngredients(entries: seq<EntryInput>): (r: Result<seq<IngredientEntry>, Rejection>)
    ensures r.Ok? <==> |entries| > 0 && forall e :: e in entries ==> e.amount.Some? && AmountOk(e.amount.value)
    ensures r.Ok? ==> |r.value| == |entries| && forall k :: 0 <= k < |entries| ==>
      r.value[k].ingredient == entries[k].ingredient && Some(r.value[k].amount) == entries[k].amount
    ensures entries == [] ==> r == Err(Refuse(NoIngredientsMessage))
    ensures entries != [] && SomeAmountBelowOne(entries) ==> r == Err(Refuse(AmountMessage))
    ensures r == Err(Crash) <==> entries != [] && !SomeAmountBelowOne(entries) && SomeAmountAbsent(entries)
  {
    if entries == [] then Err(Refuse(NoIngredientsMessage))
    else if SomeAmountBelowOne(entries) then Err(Refuse(AmountMessage))
    else if SomeAmountAbsent(entries) then Err(Crash)
    else
      assert forall k :: 0 <= k < |entries| ==> entries[k] in entries && entries[k].amount.Some?;
      Ok(seq(|entries|, k requires 0 <= k < |entries| => IngredientEntry(entries[k].ingredient, entries[k].amount.value)))
  }

  /** The payload's ingredient list makes field validation raise. */
  predicate IngredientsCrash(input: RecipeInput)
  {
    input.ingredients.Some? && ValidateIngredients(input.ingredients.value) == Err(Crash)
  }

  function FindTag(tags: seq<Tag>, id: nat): (r: Option<Tag>)
    ensures r.Some? <==> HasTag(tags, id)
    ensures r.Some? ==> r.value in tags && r.value.id == id
  {
    if tags == [] then None
    else if tags[0].id == id then Some(tags[0])
    else
      assert tags == [tags[0]] + tags[1..];
      FindTag(tags[1..], id)
  }

  /** A list of tag keys resolved to rows; the first key that names no tag
      is the error. */
  function ResolveTags(ids: seq<nat>, tags: seq<Tag>): (r: Result<seq<Tag>, nat>)
    ensures r.Ok? <==> forall k :: 0 <= k < |ids| ==> HasTag(tags, ids[k])
    ensures r.Ok? ==> |r.value| == |ids| && forall k :: 0 <= k < |ids| ==> r.value[k] in tags && r.value[k].id == ids[k]
    ensures r.Err? ==> r.error in ids && !HasTag(tags, r.error)
    ensures r.Err? ==> exists k :: 0 <= k < |ids| && ids[k] == r.error && !HasTag(tags, ids[k])
                                     && forall j :: 0 <= j < k ==> HasTag(tags, ids[j])
  {
    if ids == [] then Ok([])
    else match FindTag(tags, ids[0])
      case None => Err(ids[0])
      case Some(t) =>
        match ResolveTags(ids[1..], tags)
        case Err(pk) =>
          assert exists k :: 0 <= k < |ids| && ids[k] == pk && !HasTag(tags, ids[k])
                              && forall j :: 0 <= j < k ==> HasTag(tags, ids[j]) by {
            var k :| 0 <= k < |ids[1..]| && ids[1..][k] == pk && !HasTag(tags, ids[1..][k])
                     && forall j :: 0 <= j < k ==> HasTag(tags, ids[1..][j]);
            assert ids[k + 1] == pk;
            assert forall j :: 0 < j < k + 1 ==> ids[j] == ids[1..][j - 1];
          }
          Err(pk)
        case Ok(rest) => Ok([t] + rest)
  }

  /** The errors of one field: a missing key is an error unless the write is
      partial; a present value is checked by `check`. */
  function FieldCheck<T>(field: string, value: Option<T>, partial: bool, check: T -> Option<Problem>): seq<FieldError>
  {
    match value
    case None => if partial then [] else [FieldError(field, Required)]
    case Some(v) => match check(v) case None => [] case Some(p) => [FieldError(field, p)]
  }

  function TagsProblem(tags: seq<Tag>): seq<nat> -> Option<Problem>
  {
    (ids: seq<nat>) => match ResolveTags(ids, tags) case Ok(_) => None case Err(pk) => Some(UnknownPk(pk))
  }

  function IngredientsProblem(entries: seq<EntryInput>): Option<Problem>
  {
    match ValidateIngredients(entries) case Err(Refuse(m)) => Some(Invalid(m)) case _ => None
  }

  /** `name` and `text` are built from the model columns as `CharField`s
      that trim whitespace and refuse blank values; the length limit applies
      to the trimmed value. */
  function NameProblem(name: string): Option<Problem>
  {
    var v := Strip(name);
    if v == [] then Some(Blank) else if |v| > RecipeNameMaxLength then Some(TooLong) else None
  }

  function TextProblem(text: string): Option<Problem>
  {
    if Strip(text) == [] then Some(Blank) else None
  }

  /** The value a trimming `CharField` passes on. */
  function Trimmed(v: Option<string>): Option<string>
  {
    match v case None => None case Some(s) => Some(Strip(s))
  }

  /** A value as a trimming, non-blank `CharField` lets it through. */
  predicate TrimmedNonBlank(s: string)
  {
    s != [] && Strip(s) == s
  }

  lemma NameAccepted(name: string)
    requires NameProblem(name).None?
    ensures TrimmedNonBlank(Strip(name)) && |Strip(name)| <= RecipeNameMaxLength
  {
    StripIdempotent(name);
  }

  lemma TextAccepted(text: string)
    requires TextProblem(text).None?
    ensures TrimmedNonBlank(Strip(text))
  {
    StripIdempotent(text);
  }

  function CookingTimeProblem(cookingTime: int): Option<Problem>
  {
    match ValidateCookingTime(cookingTime) case Ok(_) => None case Err(m) => Some(Invalid(m))
  }

  /** The field errors of a payload, field by field in declaration order. */
  function FieldErrorsOf(input: RecipeInput, partial: bool, tags: seq<Tag>): seq<FieldError>
  {
    FieldCheck("tags", input.tags, partial, TagsProblem(tags))
    + FieldCheck("ingredients", input.ingredients, partial, IngredientsProblem)
    + FieldCheck("name", input.name, partial, NameProblem)
    + FieldCheck("text", input.text, partial, TextProblem)
    + FieldCheck("cooking_time", input.cookingTime, partial, CookingTimeProblem)
  }

  /** What the field validators promise about the data they let through. */
  ghost predicate FieldsAcceptable(data: RecipeData, tags: seq<Tag>)
  {
    && (data.cookingTime.Some? ==> CookingTimeOk(data.cookingTime.value))
    && (data.name.Some? ==> |data.name.value| <= RecipeNameMaxLength)
    && (data.ingredients.Some? ==>
          |data.ingredients.value| > 0 && forall e :: e in data.ingredients.value ==> AmountOk(e.amount))
    && (data.tags.Some? ==> forall t :: t in data.tags.value ==> t in tags)
  }

  /** Each present field passes its own check. */
  predicate FieldsPass(input: RecipeInput, tags: seq<Tag>)
  {
    && (input.tags.Some? ==> ResolveTags(input.tags.value, tags).Ok?)
    && (input.ingredients.Some? ==> IngredientsProblem(input.ingredients.value).None?)
    && (input.name.Some? ==> NameProblem(input.name.value).None?)
    && (input.text.Some? ==> TextProblem(input.text.value).None?)
    && (input.cookingTime.Some? ==> CookingTimeProblem(input.cookingTime.value).None?)
  }

  predicate HasEveryKey(input: RecipeInput)
  {
    input.name.Some? && input.text.Some? && input.cookingTime.Some? && input.tags.Some? && input.ingredients.Some?
  }

  lemma NoFieldErrors(input: RecipeInput, partial: bool, tags: seq<Tag>)
    requires FieldErrorsOf(input, partial, tags) == []
    ensures FieldsPass(input, tags)
    ensures !partial ==> HasEveryKey(input)
  {
    assert FieldCheck("tags", input.tags, partial, TagsProblem(tags)) == [];
    assert FieldCheck("ingredients", input.ingredients, partial, IngredientsProblem) == [];
    assert FieldCheck("name", input.name, partial, NameProblem) == [];
    assert FieldCheck("text", input.text, partial, TextProblem) == [];
    assert FieldCheck("cooking_time", input.cookingTime, partial, CookingTimeProblem) == [];
  }

  /** The data the field pass hands on: tag keys resolved, every ingredient
      entry carrying its amount, `name` and `text` stripped. */
  function AcceptedData(input: RecipeInput, tags: seq<Tag>): (d: RecipeData)
    requires FieldsPass(input, tags) && !IngredientsCrash(input)
    ensures FieldsAcceptable(d, tags)
    ensures d.name.Some? ==> TrimmedNonBlank(d.name.value)
    ensures d.text.Some? ==> TrimmedNonBlank(d.text.value)
    ensures && d.name == Trimmed(input.name) && d.text == Trimmed(input.text)
            && d.cookingTime == input.cookingTime
            && (d.tags.Some? <==> input.tags.Some?)
            && (d.ingredients.Some? <==> input.ingredients.Some?)
    ensures input.ingredients.Some? ==>
      var raw := input.ingredients.value;
      |d.ingredients.value| == |raw| && forall k :: 0 <= k < |raw| ==>
        d.ingredients.value[k].ingredient == raw[k].ingredient && Some(d.ingredients.value[k].amount) == raw[k].amount
  {
    var resolved := match input.tags
      case None => None
      case Some(ids) => match ResolveTags(ids, tags) case Ok(ts) => Some(ts) case Err(_) => None;
    var entries := match input.ingredients
      case None => None
      case Some(raw) => match ValidateIngredients(raw) case Ok(es) => Some(es) case Err(_) => None;
    assert input.name.Some? ==> TrimmedNonBlank(Strip(input.name.value)) && |Strip(input.name.value)| <= RecipeNameMaxLength by {
      if input.name.Some? { NameAccepted(input.name.value); }
    }
    assert input.text.Some? ==> TrimmedNonBlank(Strip(input.text.value)) by {
      if input.text.Some? { TextAccepted(input.text.value); }
    }
    RecipeData(Trimmed(input.name), Trimmed(input.text), input.cookingTime, resolved, entries)
  }

  /** A present value that is empty or all whitespace. */
  predicate BlankValue(v: Option<string>)
  {
    v.Some? && forall i :: 0 <= i < |v.value| ==> IsSpace(v.value[i])
  }

  /** A blank `name` or `text` is refused with a blank-field error on that
      field, unless the ingredients crash the request first. */
  lemma BlankRefused(input: RecipeInput, partial: bool, tags: seq<Tag>)
    requires !IngredientsCrash(input)
    requires BlankValue(input.name) || BlankValue(input.text)
    ensures ValidateFields(input, partial, tags).Err?
    ensures BlankValue(input.name) ==> FieldError("name", Blank) in ValidateFields(input, partial, tags).error.errors
    ensures BlankValue(input.text) ==> FieldError("text", Blank) in ValidateFields(input, partial, tags).error.errors
  {
    var errors := FieldErrorsOf(input, partial, tags);
    var before := FieldCheck("tags", input.tags, partial, TagsProblem(tags))
      + FieldCheck("ingredients", input.ingredients, partial, IngredientsProblem);
    if BlankValue(input.name) {
      StripEmpty(input.name.value);
      assert FieldCheck("name", input.name, partial, NameProblem) == [FieldError("name", Blank)];
      assert errors[|before|] == FieldError("name", Blank);
    }
    if BlankValue(input.text) {
      StripEmpty(input.text.value);
      var upToName := before + FieldCheck("name", input.name, partial, NameProblem);
      assert FieldCheck("text", input.text, partial, TextProblem) == [FieldError("text", Blank)];
      assert errors[|upToName|] == FieldError("text", Blank);
    }
  }

  /** Field-level validation: every field error is collected; with none,
      the payload is handed on as `AcceptedData`. A full write (not
      partial) needs every key. An ingredient list that makes
      `validate_ingredients` raise fails the whole request, whatever the
      other fields hold. */
  function ValidateFields(input: RecipeInput, partial: bool, tags: seq<Tag>): (r: Result<RecipeData, Failure>)
    ensures r == Err(AbsentAmount) <==> IngredientsCrash(input)
    ensures !IngredientsCrash(input) ==> (r.Err? <==> FieldErrorsOf(input, partial, tags) != [])
    ensures !IngredientsCrash(input) && r.Err? ==> r.error == FieldErrors(FieldErrorsOf(input, partial, tags))
    ensures r.Ok? ==> FieldsAcceptable(r.value, tags)
    ensures r.Ok? && r.value.name.Some? ==> TrimmedNonBlank(r.value.name.value)
    ensures r.Ok? && r.value.text.Some? ==> TrimmedNonBlank(r.value.text.value)
    ensures r.Ok? ==> && r.value.name == Trimmed(input.name) && r.value.text == Trimmed(input.text)
                      && r.value.cookingTime == input.cookingTime
                      && (r.value.tags.Some? <==> input.tags.Some?)
                      && (r.value.ingredients.Some? <==> input.ingredients.Some?)
    ensures r.Ok? && input.ingredients.Some? ==>
      var raw := input.ingredients.value;
      |r.value.ingredients.value| == |raw| && forall k :: 0 <= k < |raw| ==>
        r.value.ingredients.value[k].ingredient == raw[k].ingredient && Some(r.value.ingredients.value[k].amount) == raw[k].amount
    ensures r.Ok? && !partial ==> && r.value.name.Some? && r.value.text.Some? && r.value.cookingTime.Some?
                                  && r.value.tags.Some? && r.value.ingredients.Some?
  {
    var errors := FieldErrorsOf(input, partial, tags);
    if IngredientsCrash(input) then Err(AbsentAmount)
    else if errors != [] then Err(FieldErrors(errors))
    else
      NoFieldErrors(input, partial, tags);
      Ok(AcceptedData(input, tags))
  }

  // ---------------------------------------------------------------------
  // validate()

  predicate DistinctIngredients(entries: seq<IngredientEntry>)
  {
    forall i, j :: 0 <= i < j < |entries| ==> entries[i].ingredient != entries[j].ingredient
  }

  /** The walk of `validate` over the ingredient list from a point on,
      `seen` being the ingredients met before: an unknown key is a 404, an
      ingredient met before is refused as not unique. */
  function IngredientWalk(entries: seq<IngredientEntry>, catalog: seq<Ingredient>, seen: seq<nat>): (r: Option<Failure>)
    ensures r == None || r == Some(NotFound) || r == Some(NonFieldError(DuplicateIngredientMessage))
    ensures r == Some(NotFound) ==> exists k :: 0 <= k < |entries| && !HasIngredient(catalog, entries[k].ingredient)
    ensures r == Some(NonFieldError(DuplicateIngredientMessage)) ==>
      exists k :: 0 <= k < |entries| && (entries[k].ingredient in seen || entries[k].ingredient in IdsOf(entries[..k]))
  {
    if entries == [] then None
    else if !HasIngredient(catalog, entries[0].ingredient) then Some(NotFound)
    else if entries[0].ingredient in seen then Some(NonFieldError(DuplicateIngredientMessage))
    else
      var r := IngredientWalk(entries[1..], catalog, seen + [entries[0].ingredient]);
      assert forall k :: 0 < k <= |entries| - 1 ==> IdsOf(entries[..k + 1]) == [entries[0].ingredient] + IdsOf(entries[1..][..k]) by {
        forall k | 0 < k <= |entries| - 1 { IdsOfCons(entries, k); }
      }
      r
  }

  function IdsOf(entries: seq<IngredientEntry>): (ids: seq<nat>)
    ensures |ids| == |entries| && forall k :: 0 <= k < |entries| ==> ids[k] == entries[k].ingredient
  {
    seq(|entries|, k requires 0 <= k < |entries| => entries[k].ingredient)
  }

  lemma IdsOfCons(entries: seq<IngredientEntry>, k: nat)
    requires 0 < k < |entries|
    ensures IdsOf(entries[..k + 1]) == [entries[0].ingredient] + IdsOf(entries[1..][..k])
  {
  }

  /** The walk passes exactly when every key names a catalog ingredient,
      none was met before, and none repeats. */
  lemma {:induction false} IngredientWalkPasses(entries: seq<IngredientEntry>, catalog: seq<Ingredient>, seen: seq<nat>)
    ensures IngredientWalk(entries, catalog, seen) == None <==>
      && (forall e :: e in entries ==> HasIngredient(catalog, e.ingredient))
      && (forall e :: e in entries ==> e.ingredient !in seen)
      && DistinctIngredients(entries)
  {
    if entries != [] {
      var e0 := entries[0];
      IngredientWalkPasses(entries[1..], catalog, seen + [e0.ingredient]);
      assert forall e :: e in entries <==> e == e0 || e in entries[1..];
      if DistinctIngredients(entries) {
        assert forall e :: e in entries[1..] ==> e.ingredient != e0.ingredient;
      }
      if DistinctIngredients(entries[1..]) && forall e :: e in entries[1..] ==> e.ingredient != e0.ingredient {
        forall i, j | 0 <= i < j < |entries| ensures entries[i].ingredient != entries[j].ingredient {
          if i > 0 {
            assert entries[i] == entries[1..][i - 1] && entries[j] == entries[1..][j - 1];
          } else {
            assert entries[j] in entries[1..];
          }
        }
      }
    }
  }

  /** The ingredient loop of `validate`. */
  method CheckIngredients(entries: seq<IngredientEntry>, catalog: seq<Ingredient>) returns (r: Option<Failure>)
    ensures r == IngredientWalk(entries, catalog, [])
    ensures r.None? <==> (forall e :: e in entries ==> HasIngredient(catalog, e.ingredient)) && DistinctIngredients(entries)
  {
    var seen: seq<nat> := [];
    var i := 0;
    while i < |entries|
      invariant 0 <= i <= |entries|
      invariant IngredientWalk(entries, catalog, []) == IngredientWalk(entries[i..], catalog, seen)
    {
      assert entries[i..][0] == entries[i] && entries[i..][1..] == entries[i + 1..];
      var id := entries[i].ingredient;
      if !HasIngredient(catalog, id) {
        return Some(NotFound);
      }
      if id in seen {
        return Some(NonFieldError(DuplicateIngredientMessage));
      }
      seen := seen + [id];
      i := i + 1;
    }
    IngredientWalkPasses(entries, catalog, []);
    return None;
  }

  predicate TagNameExists(tags: seq<Tag>, name: string)
  {
    exists t :: t in tags && t.name == name
  }

  /** The tag loop of `validate`: each tag's name (its `__str__`) must name
      a stored tag; the first that does not is reported. */
  method CheckTags(given: seq<Tag>, tags: seq<Tag>) returns (r: Option<Failure>)
    ensures r.None? <==> forall k :: 0 <= k < |given| ==> TagNameExists(tags, given[k].name)
    ensures r.Some? ==> exists k :: 0 <= k < |given| && !TagNameExists(tags, given[k].name)
                          && (forall j :: 0 <= j < k ==> TagNameExists(tags, given[j].name))
                          && r.value == NonFieldError(UnknownTagMessage(given[k].name))
    ensures (forall t :: t in given ==> t in tags) ==> r.None?
    ensures r.None? <==> FirstMissingTag(given, tags).None?
    ensures r.Some? ==> r.value == NonFieldError(UnknownTagMessage(given[FirstMissingTag(given, tags).value].name))
  {
    var i := 0;
    while i < |given|
      invariant 0 <= i <= |given|
      invariant forall j :: 0 <= j < i ==> TagNameExists(tags, given[j].name)
    {
      if !TagNameExists(tags, given[i].name) {
        FirstMissingTagAt(given, tags, i);
        return Some(NonFieldError(UnknownTagMessage(given[i].name)));
      }
      i := i + 1;
    }
    return None;
  }

  /** What `validate` accepts. With `keysRequired` an absent `ingredients`
      or `tags` key is refused, as the code at lines 159 and 168 does;
      without it an absent key is not checked. */
  ghost predicate ObjectValid(data: RecipeData, catalog: seq<Ingredient>, tags: seq<Tag>, keysRequired: bool)
  {
    && (keysRequired ==> data.ingredients.Some? && data.tags.Some?)
    && (data.ingredients.Some? ==>
          (forall e :: e in data.ingredients.value ==> HasIngredient(catalog, e.ingredient))
          && DistinctIngredients(data.ingredients.value))
    && (data.tags.Some? ==>
          |data.tags.value| > 0 && forall t :: t in data.tags.value ==> TagNameExists(tags, t.name))
  }

  /** The position of the first of `given` whose name names no stored tag. */
  function FirstMissingTag(given: seq<Tag>, tags: seq<Tag>): (r: Option<nat>)
    ensures r.None? <==> forall k :: 0 <= k < |given| ==> TagNameExists(tags, given[k].name)
    ensures r.Some? ==> r.value < |given| && !TagNameExists(tags, given[r.value].name)
                        && forall j :: 0 <= j < r.value ==> TagNameExists(tags, given[j].name)
  {
    if given == [] then None
    else if !TagNameExists(tags, given[0].name) then Some(0)
    else match FirstMissingTag(given[1..], tags)
      case None => None
      case Some(k) => Some(k + 1)
  }

  lemma FirstMissingTagAt(given: seq<Tag>, tags: seq<Tag>, i: nat)
    requires i < |given| && !TagNameExists(tags, given[i].name)
    requires forall j :: 0 <= j < i ==> TagNameExists(tags, given[j].name)
    ensures FirstMissingTag(given, tags) == Some(i)
  {
  }

  /** The refusal of the object-level check, in the order `validate` makes
      its checks: the ingredient walk (an unknown key is a 404, a repeat a
      400), then an empty tag list, then the first tag whose name is
      missing. A key the request did not carry is not checked. */
  function ObjectRefusal(data: RecipeData, catalog: seq<Ingredient>, tags: seq<Tag>): (r: Option<Failure>)
    ensures r.None? <==> ObjectValid(data, catalog, tags, false)
    ensures r.Some? ==> r.value.NotFound? || r.value.NonFieldError?
    ensures r == Some(NotFound) <==>
      data.ingredients.Some? && IngredientWalk(data.ingredients.value, catalog, []) == Some(NotFound)
  {
    if data.ingredients.Some? && IngredientWalk(data.ingredients.value, catalog, []).Some? then
      IngredientWalkPasses(data.ingredients.value, catalog, []);
      IngredientWalk(data.ingredients.value, catalog, [])
    else
      assert data.ingredients.Some? ==> IngredientWalk(data.ingredients.value, catalog, []).None?;
      assert data.ingredients.Some? ==>
        (forall e :: e in data.ingredients.value ==> HasIngredient(catalog, e.ingredient))
        && DistinctIngredients(data.ingredients.value) by {
        if data.ingredients.Some? { IngredientWalkPasses(data.ingredients.value, catalog, []); }
      }
      if data.tags.Some? && data.tags.value == [] then Some(NonFieldError(NoTagsMessage))
      else if data.tags.Some? && FirstMissingTag(data.tags.value, tags).Some? then
        var k := FirstMissingTag(data.tags.value, tags).value;
        assert data.tags.value[k] in data.tags.value;
        Some(NonFieldError(UnknownTagMessage(data.tags.value[k].name)))
      else
        assert data.tags.Some? ==> forall t :: t in data.tags.value ==> TagNameExists(tags, t.name) by {
          if data.tags.Some? {
            forall t | t in data.tags.value ensures TagNameExists(tags, t.name) {
              var k :| 0 <= k < |data.tags.value| && data.tags.value[k] == t;
            }
          }
        }
        None
  }

  /** `validate` as written: it reads `data['ingredients']` and
      `data['tags']` whether or not the request carried them. */
  method Validate(data: RecipeData, catalog: seq<Ingredient>, tags: seq<Tag>) returns (r: Result<RecipeData, Failure>)
    ensures r.Ok? <==> ObjectValid(data, catalog, tags, true)
    ensures r.Ok? ==> r.value == data
    ensures data.ingredients.None? ==> r == Err(MissingKey("ingredients"))
    ensures data.ingredients.Some? && IngredientWalk(data.ingredients.value, catalog, []).Some? ==>
      r == Err(IngredientWalk(data.ingredients.value, catalog, []).value)
    ensures data.ingredients.Some? && IngredientWalk(data.ingredients.value, catalog, []).None? && data.tags.None? ==>
      r == Err(MissingKey("tags"))
    ensures data.ingredients.Some? && IngredientWalk(data.ingredients.value, catalog, []).None? && data.tags == Some([]) ==>
      r == Err(NonFieldError(NoTagsMessage))
  {
    if data.ingredients.None? {
      return Err(MissingKey("ingredients"));
    }
    var e := CheckIngredients(data.ingredients.value, catalog);
    if e.Some? {
      return Err(e.value);
    }
    if data.tags.None? {
      return Err(MissingKey("tags"));
    }
    if |data.tags.value| == 0 {
      return Err(NonFieldError(NoTagsMessage));
    }
    var t := CheckTags(data.tags.value, tags);
    if t.Some? {
      return Err(t.value);
    }
    return Ok(data);
  }

  /** `validate` as its `update` counterpart evidently intends it: a key the
      request did not carry is not checked (and `update` leaves that part
      alone). Otherwise it behaves as `Validate`. */
  method ValidatePartial(data: RecipeData, catalog: seq<Ingredient>, tags: seq<Tag>) returns (r: Result<RecipeData, Failure>)
    ensures r.Ok? <==> ObjectValid(data, catalog, tags, false)
    ensures r.Ok? ==> r.value == data
    ensures r.Err? ==> r.error.NotFound? || r.error.NonFieldError?
    ensures data.ingredients.Some? && IngredientWalk(data.ingredients.value, catalog, []).Some? ==>
      r == Err(IngredientWalk(data.ingredients.value, catalog, []).value)
    ensures data.ingredients.Some? && data.tags.Some? ==> (r.Ok? <==> ObjectValid(data, catalog, tags, true))
    ensures ObjectRefusal(data, catalog, tags).None? ==> r == Ok(data)
    ensures ObjectRefusal(data, catalog, tags).Some? ==> r == Err(ObjectRefusal(data, catalog, tags).value)
  {
    if data.ingredients.Some? {
      var e := CheckIngredients(data.ingredients.value, catalog);
      if e.Some? {
        return Err(e.value);
      }
    }
    if data.tags.Some? {
      if |data.tags.value| == 0 {
        return Err(NonFieldError(NoTagsMessage));
      }
      var t := CheckTags(data.tags.value, tags);
      if t.Some? {
        return Err(t.value);
      }
    }
    return Ok(data);
  }

  /** A PATCH that changes only the name: `validate` as written refuses it
      for want of the `ingredients` key, the intended check lets it through. */
  lemma NameOnlyPatch(catalog: seq<Ingredient>, tags: seq<Tag>)
    ensures var data := RecipeData(Some("Борщ"), None, None, None, None);
      !ObjectValid(data, catalog, tags, true) && ObjectValid(data, catalog, tags, false)
  {
  }

  /** What a payload accepted by both validation stages satisfies. */
  ghost predicate Acceptable(data: RecipeData, catalog: seq<Ingredient>, tags: seq<Tag>)
  {
    && FieldsAcceptable(data, tags)
    && ObjectValid(data, catalog, tags, false)
  }

  /** `is_valid()`: field validation, then the object-level `validate`. */
  method IsValid(input: RecipeInput, partial: bool, catalog: seq<Ingredient>, tags: seq<Tag>)
    returns (r: Result<RecipeData, Failure>)
    ensures IngredientsCrash(input) ==> r == Err(AbsentAmount)
    ensures !IngredientsCrash(input) && FieldErrorsOf(input, partial, tags) != [] ==>
      r == Err(FieldErrors(FieldErrorsOf(input, partial, tags)))
    ensures r.Ok? <==> ValidateFields(input, partial, tags).Ok? && ObjectValid(ValidateFields(input, partial, tags).value, catalog, tags, false)
    ensures r.Ok? ==> r.value == ValidateFields(input, partial, tags).value && Acceptable(r.value, catalog, tags)
    ensures r.Ok? && !partial ==> ObjectValid(r.value, catalog, tags, true)
    ensures var f := ValidateFields(input, partial, tags);
      f.Ok? && ObjectRefusal(f.value, catalog, tags).Some? ==> r == Err(ObjectRefusal(f.value, catalog, tags).value)
    ensures ValidateFields(input, partial, tags).Ok? && r.Err? ==> r.error.NotFound? || r.error.NonFieldError?
  {
    var fields := ValidateFields(input, partial, tags);
    if fields.Err? {
      return Err(fields.error);
    }
    r := ValidatePartial(fields.value, catalog, tags);
  }

  // ---------------------------------------------------------------------
  // create() and update()

  /** The rows `create_ingredients` builds: one per entry, with the entry's
      ingredient and amount, all pointing at `recipe`. */
  function IngredientRows(entries: seq<IngredientEntry>, recipe: nat): (rows: seq<RecipeIngredient>)
    ensures |rows| == |entries|
    ensures forall k :: 0 <= k < |entries| ==>
      rows[k] == RecipeIngredient(recipe, entries[k].ingredient, entries[k].amount)
  {
    seq(|entries|, k requires 0 <= k < |entries| => RecipeIngredient(recipe, entries[k].ingredient, entries[k].amount))
  }

  /** The ingredient rows of one recipe. */
  function RowsOf(rows: seq<RecipeIngredient>, recipe: nat): seq<RecipeIngredient>
  {
    Filter(rows, (x: RecipeIngredient) => x.recipe == recipe)
  }

  /** The tag keys of one recipe. */
  function TagIdsOf(links: set<RecipeTag>, recipe: nat): set<nat>
  {
    set l | l in links && l.recipe == recipe :: l.tag
  }

  function TagIds(tags: seq<Tag>): set<nat>
  {
    set t | t in tags :: t.id
  }

  /** `recipe.tags.set(ids)`: the recipe's links become exactly `ids`. */
  function WithTags(links: set<RecipeTag>, recipe: nat, ids: set<nat>): set<RecipeTag>
  {
    (set l | l in links && l.recipe != recipe) + (set id | id in ids :: RecipeTag(recipe, id))
  }

  /** A full payload: every key present. */
  predicate Complete(data: RecipeData)
  {
    data.name.Some? && data.text.Some? && data.cookingTime.Some? && data.tags.Some? && data.ingredients.Some?
  }

  /** The tables after `create`: one new recipe row under the next key, its
      tag links, and its ingredient rows. */
  function AfterCreate(t: Tables, author: nat, data: RecipeData, now: int): Tables
    requires Complete(data)
  {
    var id := t.nextRecipeId;
    t.(recipes := t.recipes + [Recipe(id, author, data.name.value, data.text.value, data.cookingTime.value, now)],
       recipeTags := WithTags(t.recipeTags, id, TagIds(data.tags.value)),
       recipeIngredients := t.recipeIngredients + IngredientRows(data.ingredients.value, id),
       nextRecipeId := id + 1)
  }

  /** The recipe row after `super().update`: each field the payload carries
      replaces the stored one. */
  function UpdatedRecipe(r: Recipe, data: RecipeData): Recipe
  {
    r.(name := if data.name.Some? then data.name.value else r.name,
       text := if data.text.Some? then data.text.value else r.text,
       cookingTime := if data.cookingTime.Some? then data.cookingTime.value else r.cookingTime)
  }

  function ReplaceRecipe(recipes: seq<Recipe>, id: nat, data: RecipeData): (r: seq<Recipe>)
    ensures |r| == |recipes|
    ensures forall k :: 0 <= k < |recipes| ==>
      r[k] == if recipes[k].id == id then UpdatedRecipe(recipes[k], data) else recipes[k]
  {
    seq(|recipes|, k requires 0 <= k < |recipes| =>
      if recipes[k].id == id then UpdatedRecipe(recipes[k], data) else recipes[k])
  }

  /** The tables after `update`: the ingredient rows of the recipe replaced
      when the payload carries ingredients, its tags replaced when it
      carries tags, then the plain fields. */
  function AfterUpdate(t: Tables, id: nat, data: RecipeData): Tables
  {
    var rows := if data.ingredients.Some?
      then IngredientRowsWithout(t.recipeIngredients, {id}) + IngredientRows(data.ingredients.value, id)
      else t.recipeIngredients;
    var links := if data.tags.Some? then WithTags(t.recipeTags, id, TagIds(data.tags.value)) else t.recipeTags;
    t.(recipes := ReplaceRecipe(t.recipes, id, data), recipeIngredients := rows, recipeTags := links)
  }

  lemma {:induction false} FilterNoneMatch(rows: seq<RecipeIngredient>, recipe: nat)
    requires forall x :: x in rows ==> x.recipe != recipe
    ensures RowsOf(rows, recipe) == []
  {
    if rows != [] {
      FilterNoneMatch(rows[1..], recipe);
    }
  }

  lemma {:induction false} FilterAllMatch(rows: seq<RecipeIngredient>, recipe: nat)
    requires forall x :: x in rows ==> x.recipe == recipe
    ensures RowsOf(rows, recipe) == rows
  {
    FilterKeepsAll(rows, (x: RecipeIngredient) => x.recipe == recipe);
  }

  lemma {:induction false} RowsOfAppend(s: seq<RecipeIngredient>, t: seq<RecipeIngredient>, recipe: nat)
    ensures RowsOf(s + t, recipe) == RowsOf(s, recipe) + RowsOf(t, recipe)
  {
    if s == [] {
      assert s + t == t;
    } else {
      assert (s + t)[0] == s[0] && (s + t)[1..] == s[1..] + t;
      RowsOfAppend(s[1..], t, recipe);
    }
  }

  lemma {:induction false} RowsOfWithout(rows: seq<RecipeIngredient>, gone: nat, recipe: nat)
    ensures RowsOf(IngredientRowsWithout(rows, {gone}), recipe) == if recipe == gone then [] else RowsOf(rows, recipe)
  {
    if rows != [] {
      RowsOfWithout(rows[1..], gone, recipe);
      assert rows == [rows[0]] + rows[1..];
    }
  }

  /** `set` replaces the tags of one recipe and of no other. */
  lemma TagIdsOfWithTags(links: set<RecipeTag>, recipe: nat, ids: set<nat>, other: nat)
    ensures TagIdsOf(WithTags(links, recipe, ids), other) == if other == recipe then ids else TagIdsOf(links, other)
  {
    var w := WithTags(links, recipe, ids);
    if other == recipe {
      forall id | id in ids ensures id in TagIdsOf(w, other) {
        assert RecipeTag(recipe, id) in w;
      }
    } else {
      forall id | id in TagIdsOf(links, other) ensures id in TagIdsOf(w, other) {
        var l :| l in links && l.recipe == other && l.tag == id;
        assert l in w;
      }
    }
  }

  /** After `create`, the new recipe has exactly the given tags and exactly
      one ingredient row per entry, in order; earlier recipes keep theirs. */
  lemma CreateStoresPayload(t: Tables, author: nat, data: RecipeData, now: int)
    requires WellFormed(t) && Complete(data)
    ensures var u := AfterCreate(t, author, data, now);
      && TagIdsOf(u.recipeTags, t.nextRecipeId) == TagIds(data.tags.value)
      && RowsOf(u.recipeIngredients, t.nextRecipeId) == IngredientRows(data.ingredients.value, t.nextRecipeId)
      && (forall other :: other != t.nextRecipeId ==>
            TagIdsOf(u.recipeTags, other) == TagIdsOf(t.recipeTags, other)
            && RowsOf(u.recipeIngredients, other) == RowsOf(t.recipeIngredients, other))
  {
    var id := t.nextRecipeId;
    var added := IngredientRows(data.ingredients.value, id);
    forall other { TagIdsOfWithTags(t.recipeTags, id, TagIds(data.tags.value), other); }
    forall x | x in t.recipeIngredients ensures x.recipe != id {
      var r :| r in t.recipes && r.id == x.recipe;
    }
    FilterNoneMatch(t.recipeIngredients, id);
    FilterAllMatch(added, id);
    RowsOfAppend(t.recipeIngredients, added, id);
    forall other | other != id
      ensures RowsOf(t.recipeIngredients + added, other) == RowsOf(t.recipeIngredients, other)
    {
      RowsOfAppend(t.recipeIngredients, added, other);
      FilterNoneMatch(added, other);
    }
  }

  /** After `update`, the recipe's ingredient rows are the new entries when
      the payload carries `ingredients` and are untouched otherwise; its tags
      likewise; every other recipe keeps its rows and tags. */
  lemma UpdateReplacesParts(t: Tables, id: nat, data: RecipeData)
    ensures var u := AfterUpdate(t, id, data);
      && RowsOf(u.recipeIngredients, id) ==
           (if data.ingredients.Some? then IngredientRows(data.ingredients.value, id) else RowsOf(t.recipeIngredients, id))
      && TagIdsOf(u.recipeTags, id) ==
           (if data.tags.Some? then TagIds(data.tags.value) else TagIdsOf(t.recipeTags, id))
      && (data.ingredients.None? ==> u.recipeIngredients == t.recipeIngredients)
      && (data.tags.None? ==> u.recipeTags == t.recipeTags)
      && (forall other :: other != id ==>
            TagIdsOf(u.recipeTags, other) == TagIdsOf(t.recipeTags, other)
            && RowsOf(u.recipeIngredients, other) == RowsOf(t.recipeIngredients, other))
  {
    if data.tags.Some? {
      forall other { TagIdsOfWithTags(t.recipeTags, id, TagIds(data.tags.value), other); }
    }
    if data.ingredients.Some? {
      var kept := IngredientRowsWithout(t.recipeIngredients, {id});
      var added := IngredientRows(data.ingredients.value, id);
      RowsOfAppend(kept, added, id);
      RowsOfWithout(t.recipeIngredients, id, id);
      FilterAllMatch(added, id);
      forall other | other != id
        ensures RowsOf(kept + added, other) == RowsOf(t.recipeIngredients, other)
      {
        RowsOfAppend(kept, added, other);
        RowsOfWithout(t.recipeIngredients, id, other);
        FilterNoneMatch(added, other);
      }
    }
  }

  // ---------------------------------------------------------------------
  // Well-formedness of create() and update()

  lemma {:induction false} DistinctRowsCount(entries: seq<IngredientEntry>, recipe: nat, x: RecipeIngredient)
    requires DistinctIngredients(entries)
    ensures multiset(IngredientRows(entries, recipe))[x] <= 1
  {
    if entries != [] {
      var rows := IngredientRows(entries, recipe);
      var rest := IngredientRows(entries[1..], recipe);
      assert rows == [rows[0]] + rest;
      DistinctRowsCount(entries[1..], recipe, x);
      forall y | y in rest ensures y.ingredient != entries[0].ingredient {
        var k :| 0 <= k < |rest| && rest[k] == y;
        assert y.ingredient == entries[k + 1].ingredient;
      }
    }
  }

  /** Rows of other recipes followed by the rows built for `recipe` from
      distinct entries hold one row per (recipe, ingredient). */
  lemma JoinRowsUnique(kept: seq<RecipeIngredient>, entries: seq<IngredientEntry>, recipe: nat)
    requires OneRowPerIngredient(kept)
    requires forall x :: x in kept ==> x.recipe != recipe
    requires DistinctIngredients(entries)
    ensures OneRowPerIngredient(kept + IngredientRows(entries, recipe))
  {
    var added := IngredientRows(entries, recipe);
    forall x, y | x in kept + added && y in kept + added && x.recipe == y.recipe && x.ingredient == y.ingredient
      ensures x == y
    {
      if x in added && y in added {
        var i :| 0 <= i < |added| && added[i] == x;
        var j :| 0 <= j < |added| && added[j] == y;
        assert entries[i].ingredient == entries[j].ingredient;
      }
    }
    forall x ensures multiset(kept + added)[x] <= 1 {
      DistinctRowsCount(entries, recipe, x);
      if x.recipe == recipe {
        assert x !in kept;
      } else {
        assert x !in added;
      }
    }
  }

  /** The rows built for `recipe` satisfy the row constraints. */
  lemma AddedRowsOk(entries: seq<IngredientEntry>, recipe: nat, recipes: seq<Recipe>, catalog: seq<Ingredient>)
    requires HasRecipe(recipes, recipe)
    requires forall e :: e in entries ==> HasIngredient(catalog, e.ingredient) && AmountOk(e.amount)
    ensures forall x :: x in IngredientRows(entries, recipe) ==>
      x.recipe == recipe && HasRecipe(recipes, x.recipe) && HasIngredient(catalog, x.ingredient) && AmountOk(x.amount)
  {
    var added := IngredientRows(entries, recipe);
    forall x | x in added
      ensures x.recipe == recipe && HasIngredient(catalog, x.ingredient) && AmountOk(x.amount)
    {
      var k :| 0 <= k < |added| && added[k] == x;
      assert entries[k] in entries;
    }
  }

  /** The links `set` builds point at `recipe` and at stored tags. */
  lemma AddedLinksOk(links: set<RecipeTag>, recipe: nat, given: seq<Tag>, recipes: seq<Recipe>, tags: seq<Tag>)
    requires TagLinksOk((set l | l in links && l.recipe != recipe), recipes, tags)
    requires HasRecipe(recipes, recipe)
    requires forall t :: t in given ==> t in tags
    ensures TagLinksOk(WithTags(links, recipe, TagIds(given)), recipes, tags)
  {
    forall l | l in WithTags(links, recipe, TagIds(given)) ensures HasRecipe(recipes, l.recipe) && HasTag(tags, l.tag) {
      if l.recipe == recipe {
        var t :| t in given && t.id == l.tag;
      }
    }
  }

  predicate UpdateAcceptable(data: RecipeData)
  {
    && (data.cookingTime.Some? ==> CookingTimeOk(data.cookingTime.value))
    && (data.name.Some? ==> |data.name.value| <= RecipeNameMaxLength)
  }

  lemma CreateRecipesOk(t: Tables, author: nat, data: RecipeData, now: int)
    requires WellFormed(t) && Complete(data) && HasUser(t.users, author)
    requires FieldsAcceptable(data, t.tags)
    ensures RecipesOk(AfterCreate(t, author, data, now).recipes, t.users, t.nextRecipeId + 1)
    ensures forall x :: HasRecipe(t.recipes, x) ==> HasRecipe(AfterCreate(t, author, data, now).recipes, x)
    ensures HasRecipe(AfterCreate(t, author, data, now).recipes, t.nextRecipeId)
  {
    var rs := AfterCreate(t, author, data, now).recipes;
    assert rs[|rs| - 1] in rs;
    forall x | HasRecipe(t.recipes, x) ensures HasRecipe(rs, x) {
      var r :| r in t.recipes && r.id == x;
      assert r in rs;
    }
    forall i, j | 0 <= i < j < |rs| ensures rs[i].id != rs[j].id {
      if j == |rs| - 1 {
        assert rs[i] in t.recipes;
      }
    }
  }

  lemma CreateRowsOk(t: Tables, author: nat, data: RecipeData, now: int)
    requires WellFormed(t) && Complete(data) && HasUser(t.users, author)
    requires Acceptable(data, t.ingredients, t.tags)
    ensures var u := AfterCreate(t, author, data, now);
      && IngredientRowsOk(u.recipeIngredients, u.recipes, t.ingredients)
      && TagLinksOk(u.recipeTags, u.recipes, t.tags)
      && RecipesComplete(u.recipes, u.recipeIngredients, u.recipeTags)
  {
    var u := AfterCreate(t, author, data, now);
    var id := t.nextRecipeId;
    var entries := data.ingredients.value;
    CreateRecipesOk(t, author, data, now);
    forall x | x in t.recipeIngredients ensures x.recipe != id {
      var r :| r in t.recipes && r.id == x.recipe;
    }
    JoinRowsUnique(t.recipeIngredients, entries, id);
    AddedRowsOk(entries, id, u.recipes, t.ingredients);
    AddedLinksOk(t.recipeTags, id, data.tags.value, u.recipes, t.tags);
    var added := IngredientRows(entries, id);
    forall r | r in u.recipes ensures HasIngredientRow(u.recipeIngredients, r.id) && HasTagLink(u.recipeTags, r.id) {
      if r.id == id {
        assert added[0] in u.recipeIngredients;
        assert RecipeTag(id, data.tags.value[0].id) in u.recipeTags;
      } else {
        assert r in t.recipes;
        var x :| x in t.recipeIngredients && x.recipe == r.id;
        assert x in u.recipeIngredients;
        var l :| l in t.recipeTags && l.recipe == r.id;
        assert l in u.recipeTags;
      }
    }
  }

  /** `create` keeps every storage constraint. */
  lemma CreateKeepsWellFormed(t: Tables, author: nat, data: RecipeData, now: int)
    requires WellFormed(t) && Complete(data) && HasUser(t.users, author)
    requires Acceptable(data, t.ingredients, t.tags)
    ensures WellFormed(AfterCreate(t, author, data, now))
  {
    CreateRecipesOk(t, author, data, now);
    CreateRowsOk(t, author, data, now);
  }

  lemma ReplaceRecipeKeys(recipes: seq<Recipe>, id: nat, data: RecipeData)
    ensures forall x :: HasRecipe(ReplaceRecipe(recipes, id, data), x) <==> HasRecipe(recipes, x)
  {
    var rs := ReplaceRecipe(recipes, id, data);
    forall x | HasRecipe(recipes, x) ensures HasRecipe(rs, x) {
      var k :| 0 <= k < |recipes| && recipes[k].id == x;
      assert rs[k] in rs;
    }
    forall x | HasRecipe(rs, x) ensures HasRecipe(recipes, x) {
      var k :| 0 <= k < |rs| && rs[k].id == x;
      assert recipes[k] in recipes;
    }
  }

  lemma UpdateRecipesOk(t: Tables, id: nat, data: RecipeData)
    requires WellFormed(t) && UpdateAcceptable(data)
    ensures RecipesOk(ReplaceRecipe(t.recipes, id, data), t.users, t.nextRecipeId)
  {
    var rs := ReplaceRecipe(t.recipes, id, data);
    forall r | r in rs
      ensures HasUser(t.users, r.author) && CookingTimeOk(r.cookingTime)
              && |r.name| <= RecipeNameMaxLength && r.id < t.nextRecipeId
    {
      var k :| 0 <= k < |rs| && rs[k] == r;
      assert t.recipes[k] in t.recipes;
    }
  }

  lemma UpdateRowsOk(t: Tables, id: nat, data: RecipeData)
    requires WellFormed(t) && HasRecipe(t.recipes, id)
    requires Acceptable(data, t.ingredients, t.tags)
    ensures var u := AfterUpdate(t, id, data);
      && IngredientRowsOk(u.recipeIngredients, u.recipes, t.ingredients)
      && TagLinksOk(u.recipeTags, u.recipes, t.tags)
  {
    var u := AfterUpdate(t, id, data);
    ReplaceRecipeKeys(t.recipes, id, data);
    if data.ingredients.Some? {
      var entries := data.ingredients.value;
      var kept := IngredientRowsWithout(t.recipeIngredients, {id});
      IngredientRowsWithoutUnique(t.recipeIngredients, {id});
      JoinRowsUnique(kept, entries, id);
      AddedRowsOk(entries, id, u.recipes, t.ingredients);
    }
    if data.tags.Some? {
      AddedLinksOk(t.recipeTags, id, data.tags.value, u.recipes, t.tags);
    }
  }

  lemma UpdateComplete(t: Tables, id: nat, data: RecipeData)
    requires WellFormed(t) && HasRecipe(t.recipes, id)
    requires Acceptable(data, t.ingredients, t.tags)
    ensures var u := AfterUpdate(t, id, data);
      RecipesComplete(u.recipes, u.recipeIngredients, u.recipeTags)
  {
    var u := AfterUpdate(t, id, data);
    forall r | r in u.recipes ensures HasIngredientRow(u.recipeIngredients, r.id) && HasTagLink(u.recipeTags, r.id) {
      var k :| 0 <= k < |u.recipes| && u.recipes[k] == r;
      var old_r := t.recipes[k];
      assert old_r in t.recipes && old_r.id == r.id;
      if data.ingredients.Some? && r.id == id {
        assert IngredientRows(data.ingredients.value, id)[0] in u.recipeIngredients;
      } else {
        var x :| x in t.recipeIngredients && x.recipe == r.id;
        assert x in u.recipeIngredients;
      }
      if data.tags.Some? && r.id == id {
        assert RecipeTag(id, data.tags.value[0].id) in u.recipeTags;
      } else {
        var l :| l in t.recipeTags && l.recipe == r.id;
        assert l in u.recipeTags;
      }
    }
  }

  /** `update` keeps every storage constraint. */
  lemma UpdateKeepsWellFormed(t: Tables, id: nat, data: RecipeData)
    requires WellFormed(t) && HasRecipe(t.recipes, id)
    requires Acceptable(data, t.ingredients, t.tags)
    ensures WellFormed(AfterUpdate(t, id, data))
  {
    UpdateRecipesOk(t, id, data);
    UpdateRowsOk(t, id, data);
    UpdateComplete(t, id, data);
    ReplaceRecipeKeys(t.recipes, id, data);
  }

  // ---------------------------------------------------------------------
  // The writes on the store

  /** `create_ingredients`: one bulk insert of the rows the entries describe. */
  method CreateIngredients(db: Store, entries: seq<IngredientEntry>, recipe: nat)
    modifies db
    ensures db.Snapshot() == old(db.Snapshot()).(recipeIngredients := old(db.recipeIngredients) + IngredientRows(entries, recipe))
  {
    db.recipeIngredients := db.recipeIngredients + IngredientRows(entries, recipe);
  }

  /** `recipe.tags.set(...)`. */
  method SetTags(db: Store, recipe: nat, ids: set<nat>)
    modifies db
    ensures db.Snapshot() == old(db.Snapshot()).(recipeTags := WithTags(old(db.recipeTags), recipe, ids))
  {
    db.recipeTags := WithTags(db.recipeTags, recipe, ids);
  }

  /** `instance.ingredients.clear()`: the recipe's through rows are deleted. */
  method ClearIngredients(db: Store, recipe: nat)
    modifies db
    ensures db.Snapshot() == old(db.Snapshot()).(recipeIngredients := IngredientRowsWithout(old(db.recipeIngredients), {recipe}))
  {
    db.recipeIngredients := IngredientRowsWithout(db.recipeIngredients, {recipe});
  }

  /** `create`: the recipe row under the next key, its tags, its ingredient
      rows. It runs as one transaction, and nothing in it can fail once the
      payload is validated. */
  method Create(db: Store, author: nat, data: RecipeData, now: int) returns (id: nat)
    requires db.Valid() && HasUser(db.users, author)
    requires Complete(data) && Acceptable(data, db.ingredients, db.tags)
    modifies db
    ensures id == old(db.nextRecipeId)
    ensures db.Valid()
    ensures db.Snapshot() == AfterCreate(old(db.Snapshot()), author, data, now)
  {
    CreateKeepsWellFormed(db.Snapshot(), author, data, now);
    id := db.nextRecipeId;
    db.recipes := db.recipes + [Recipe(id, author, data.name.value, data.text.value, data.cookingTime.value, now)];
    db.nextRecipeId := id + 1;
    SetTags(db, id, TagIds(data.tags.value));
    CreateIngredients(db, data.ingredients.value, id);
  }

  /** `update`: the ingredient rows are cleared and rebuilt only when the
      payload carries `ingredients`, the tags replaced only when it carries
      `tags`; then the plain fields are saved. */
  method Update(db: Store, id: nat, data: RecipeData)
    requires db.Valid() && HasRecipe(db.recipes, id)
    requires Acceptable(data, db.ingredients, db.tags)
    modifies db
    ensures db.Valid()
    ensures db.Snapshot() == AfterUpdate(old(db.Snapshot()), id, data)
  {
    UpdateKeepsWellFormed(db.Snapshot(), id, data);
    if data.ingredients.Some? {
      ClearIngredients(db, id);
      CreateIngredients(db, data.ingredients.value, id);
    }
    if data.tags.Some? {
      SetTags(db, id, TagIds(data.tags.value));
    }
    db.recipes := ReplaceRecipe(db.recipes, id, data);
  }

  // ---------------------------------------------------------------------
  // SubscribeSerializer

  /** `SubscribeSerializer.is_valid` on `{user, author}`: the author key must
      name a stored user, and the UniqueTogetherValidator refuses a pair that
      is already stored. The follower is the authenticated caller. */
  function ValidateSubscription(users: seq<User>, subs: seq<Subscribe>, user: nat, author: nat): (r: Result<Subscribe, Failure>)
    ensures r.Ok? <==> HasUser(users, author) && Subscribe(user, author) !in subs
    ensures r.Ok? ==> r.value == Subscribe(user, author)
    ensures !HasUser(users, author) ==> r == Err(FieldErrors([FieldError("author", UnknownPk(author))]))
    ensures HasUser(users, author) && Subscribe(user, author) in subs ==> r == Err(NotUniqueTogether)
  {
    if !HasUser(users, author) then Err(FieldErrors([FieldError("author", UnknownPk(author))]))
    else if Subscribe(user, author) in subs then Err(NotUniqueTogether)
    else Ok(Subscribe(user, author))
  }

  // ---------------------------------------------------------------------
  // Read-side queries

  /** `CustomUserSerializer.get_is_subscribed`: false for an anonymous
      viewer, else whether the viewer follows `author`. */
  function IsSubscribed(subs: seq<Subscribe>, viewer: Option<nat>, author: nat): bool
  {
    viewer.Some? && Subscribe(viewer.value, author) in subs
  }

  /** `SubscribeShowSerializer.get_is_subscribed`, whose viewer is always
      authenticated. */
  function ShowIsSubscribed(subs: seq<Subscribe>, viewer: nat, author: nat): bool
  {
    Subscribe(viewer, author) in subs
  }

  /** `RecipeSerializer.get_is_favorited` for an authenticated viewer. */
  function IsFavorited(favorites: seq<FavoriteRecipe>, viewer: nat, recipe: nat): bool
  {
    FavoriteRecipe(viewer, recipe) in favorites
  }

  /** `RecipeSerializer.get_is_in_shopping_cart` for an authenticated viewer. */
  function IsInShoppingCart(carts: seq<ShoppingCart>, viewer: nat, recipe: nat): bool
  {
    ShoppingCart(viewer, recipe) in carts
  }

  function ByAuthor(recipes: seq<Recipe>, author: nat): seq<Recipe>
  {
    Filter(recipes, (r: Recipe) => r.author == author)
  }

  /** `Recipe.objects.filter(author=obj)`, in the model's default order. */
  function AuthorRecipes(recipes: seq<Recipe>, author: nat): (r: seq<Recipe>)
    ensures multiset(r) == multiset(ByAuthor(recipes, author))
    ensures forall x :: x in r <==> x in recipes && x.author == author
    ensures forall i, j :: 0 <= i < j < |r| ==> r[i].pubDate >= r[j].pubDate
  {
    var mine := ByAuthor(recipes, author);
    var r := NewestFirst(mine);
    assert forall x :: x in mine <==> x in recipes && x.author == author;
    assert forall x :: x in r <==> x in multiset(r);
    assert forall x :: x in mine <==> x in multiset(mine);
    r
  }

  /** `get_recipes_count`: the number of recipe rows by `author`. */
  function GetRecipesCount(recipes: seq<Recipe>, author: nat): (n: nat)
    ensures n <= |recipes|
    ensures n == 0 <==> forall x :: x in recipes ==> x.author != author
  {
    if recipes == [] then 0
    else
      assert recipes == [recipes[0]] + recipes[1..];
      (if recipes[0].author == author then 1 else 0) + GetRecipesCount(recipes[1..], author)
  }

  /** The count is the length of the author's listing. */
  lemma {:induction false} CountIsListingLength(recipes: seq<Recipe>, author: nat)
    ensures |AuthorRecipes(recipes, author)| == GetRecipesCount(recipes, author)
  {
    if recipes != [] {
      CountIsListingLength(recipes[1..], author);
    }
    var r := AuthorRecipes(recipes, author);
    assert |r| == |multiset(r)| == |multiset(ByAuthor(recipes, author))|;
  }

  function Min(a: int, b: int): int { if a <= b then a else b }

  /** `get_recipes`: the author's recipes, newest first; a non-empty
      `recipes_limit` keeps the first that many. A limit that is not an
      integer, or is negative, makes the request fail. */
  function GetRecipes(recipes: seq<Recipe>, author: nat, limit: Option<string>): (r: Result<seq<Recipe>, Failure>)
    ensures r.Err? <==>
      (limit.Some? && limit.value != "" && (ParseInt(limit.value).None? || ParseInt(limit.value).value < 0))
    ensures r.Err? ==> r.error == BadLimit(limit.value)
    ensures r.Ok? ==> forall x :: x in r.value ==> x in recipes && x.author == author
    ensures r.Ok? ==> forall i, j :: 0 <= i < j < |r.value| ==> r.value[i].pubDate >= r.value[j].pubDate
    ensures r.Ok? ==> |r.value| <= GetRecipesCount(recipes, author)
    ensures r.Ok? ==> |r.value| <= |AuthorRecipes(recipes, author)| && r.value == AuthorRecipes(recipes, author)[..|r.value|]
    ensures (limit.None? || limit == Some("")) ==>
      (r.Ok? && |r.value| == GetRecipesCount(recipes, author) && forall x :: x in recipes && x.author == author ==> x in r.value)
    ensures limit.Some? && ParseInt(limit.value).Some? && ParseInt(limit.value).value >= 0 ==>
      r.Ok? && |r.value| == Min(ParseInt(limit.value).value, GetRecipesCount(recipes, author))
  {
    var all := AuthorRecipes(recipes, author);
    CountIsListingLength(recipes, author);
    if limit.None? || limit.value == "" then Ok(all)
    else match ParseInt(limit.value)
      case None => Err(BadLimit(limit.value))
      case Some(n) =>
        if n < 0 then Err(BadLimit(limit.value))
        else
          var k := Min(n, |all|);
          assert forall x :: x in all[..k] ==> x in all;
          Ok(all[..k])
  }
}
