/** `download_shopping_cart` (backend/api/views.py): the amounts of every
    ingredient of every recipe in the user's cart, summed per
    (name, measurement unit), rendered as a numbered text attachment. */
module ShoppingList {
  import opened Wrappers
  import opened Text
  import opened Recipes
  import opened Db

  const Header := "Список покупок: \n\n"
  /** The empty-cart text; its first letter is a Latin 'C', as in the source. */
  const EmptyCartMessage := "Cписок покупок отсутствует!"
  const FileName := "my_shopping_cart.txt"
  const ContentType := "text/plain"

  /** One ingredient row of one cart row, with the ingredient's name and unit. */
  datatype Item = Item(name: string, unit: string, amount: int)

  /** One group of the aggregation: a (name, unit) pair and its summed amount. */
  datatype Line = Line(name: string, unit: string, total: int)

  /** The response: its body and its Content-Disposition header. */
  datatype Attachment = Attachment(body: string, contentType: string, disposition: string)

  function FindIngredient(catalog: seq<Ingredient>, id: nat): (r: Option<Ingredient>)
    ensures r.Some? <==> HasIngredient(catalog, id)
    ensures r.Some? ==> r.value in catalog && r.value.id == id
  {
    if catalog == [] then None
    else if catalog[0].id == id then Some(catalog[0])
    else
      assert catalog == [catalog[0]] + catalog[1..];
      FindIngredient(catalog[1..], id)
  }

  /** The items of one recipe: one per ingredient row, in row order. */
  function RecipeItems(rows: seq<RecipeIngredient>, catalog: seq<Ingredient>, recipe: nat): seq<Item>
  {
    if rows == [] then []
    else
      var here := if rows[0].recipe == recipe then
        match FindIngredient(catalog, rows[0].ingredient)
        case Some(i) => [Item(i.name, i.measurementUnit, rows[0].amount)]
        case None => []
      else [];
      here + RecipeItems(rows[1..], catalog, recipe)
  }

  /** The items of every cart row of `user`; a recipe in the cart twice
      contributes its items twice. */
  function CartItems(carts: seq<ShoppingCart>, rows: seq<RecipeIngredient>, catalog: seq<Ingredient>, user: nat): seq<Item>
  {
    if carts == [] then []
    else
      (if carts[0].user == user then RecipeItems(rows, catalog, carts[0].recipe) else [])
      + CartItems(carts[1..], rows, catalog, user)
  }

  /** Reference definition of a group's amount: the sum over the items with
      that name and unit. */
  function SumFor(items: seq<Item>, name: string, unit: string): int
  {
    if items == [] then 0
    else
      var last := items[|items| - 1];
      SumFor(items[..|items| - 1], name, unit) + (if last.name == name && last.unit == unit then last.amount else 0)
  }

  predicate HasKey(lines: seq<Line>, name: string, unit: string)
  {
    exists l :: l in lines && l.name == name && l.unit == unit
  }

  predicate DistinctKeys(lines: seq<Line>)
  {
    forall i, j :: 0 <= i < j < |lines| ==> (lines[i].name, lines[i].unit) != (lines[j].name, lines[j].unit)
  }

  /** The total of the line with that key, 0 when there is none. */
  function TotalFor(lines: seq<Line>, name: string, unit: string): int
  {
    if lines == [] then 0
    else if lines[0].name == name && lines[0].unit == unit then lines[0].total
    else TotalFor(lines[1..], name, unit)
  }

  /** Adds one item to the groups: to its group when there is one, else as
      a new last group. */
  function AddItem(lines: seq<Line>, it: Item): (r: seq<Line>)
    requires DistinctKeys(lines)
    ensures DistinctKeys(r)
    ensures forall name, unit :: HasKey(r, name, unit) <==> HasKey(lines, name, unit) || (name == it.name && unit == it.unit)
    ensures forall name, unit ::
      (TotalFor(r, name, unit) == TotalFor(lines, name, unit) + (if name == it.name && unit == it.unit then it.amount else 0))
  {
    if lines == [] then [Line(it.name, it.unit, it.amount)]
    else
      assert lines == [lines[0]] + lines[1..];
      if lines[0].name == it.name && lines[0].unit == it.unit then
        var r := [lines[0].(total := lines[0].total + it.amount)] + lines[1..];
        assert forall name, unit :: HasKey(r, name, unit) <==> HasKey(lines, name, unit) by {
          forall name, unit | HasKey(lines, name, unit) ensures HasKey(r, name, unit) {
            var l :| l in lines && l.name == name && l.unit == unit;
            if l != lines[0] { assert l in lines[1..]; }
          }
        }
        assert forall name, unit :: (name, unit) != (it.name, it.unit) ==> TotalFor(r[1..], name, unit) == TotalFor(lines[1..], name, unit);
        r
      else
        var rest := AddItem(lines[1..], it);
        var r := [lines[0]] + rest;
        assert forall l :: l in rest ==> (l.name, l.unit) != (lines[0].name, lines[0].unit) by {
          forall l | l in rest ensures (l.name, l.unit) != (lines[0].name, lines[0].unit) {
            assert HasKey(rest, l.name, l.unit);
            if HasKey(lines[1..], l.name, l.unit) {
              var l2 :| l2 in lines[1..] && l2.name == l.name && l2.unit == l.unit;
              var k :| 0 <= k < |lines[1..]| && lines[1..][k] == l2;
              assert lines[k + 1] == l2;
            }
          }
        }
        assert forall name, unit :: HasKey(r, name, unit) <==> HasKey(lines, name, unit) || (name == it.name && unit == it.unit) by {
          forall name, unit | HasKey(lines, name, unit) || (name == it.name && unit == it.unit)
            ensures HasKey(r, name, unit)
          {
            if (name, unit) == (lines[0].name, lines[0].unit) {
              assert r[0] in r;
            } else {
              if HasKey(lines, name, unit) {
                var l :| l in lines && l.name == name && l.unit == unit;
                assert l in lines[1..];
              }
              assert HasKey(rest, name, unit);
              var l2 :| l2 in rest && l2.name == name && l2.unit == unit;
              assert l2 in r;
            }
          }
          forall name, unit | HasKey(r, name, unit) ensures HasKey(lines, name, unit) || (name == it.name && unit == it.unit) {
            var l :| l in r && l.name == name && l.unit == unit;
            if l != lines[0] {
              assert l in rest;
              if HasKey(lines[1..], name, unit) {
                var l2 :| l2 in lines[1..] && l2.name == name && l2.unit == unit;
                assert l2 in lines;
              }
            }
          }
        }
        forall i, j | 0 <= i < j < |r| ensures (r[i].name, r[i].unit) != (r[j].name, r[j].unit) {
          if i == 0 { assert r[j] in rest; }
          else { assert r[i] == rest[i - 1] && r[j] == rest[j - 1]; }
        }
        r
  }

  /** The group-by: one line per distinct (name, unit), in order of first
      occurrence. */
  function Group(items: seq<Item>): (lines: seq<Line>)
    ensures DistinctKeys(lines)
    ensures forall name, unit :: HasKey(lines, name, unit) <==> exists it :: it in items && it.name == name && it.unit == unit
    ensures forall name, unit :: TotalFor(lines, name, unit) == SumFor(items, name, unit)
  {
    if items == [] then []
    else
      var init := items[..|items| - 1];
      var last := items[|items| - 1];
      assert items == init + [last];
      AddItem(Group(init), last)
  }

  lemma {:induction false} TotalOfLine(lines: seq<Line>, l: Line)
    requires DistinctKeys(lines) && l in lines
    ensures TotalFor(lines, l.name, l.unit) == l.total
  {
    if lines[0] != l {
      var k :| 0 <= k < |lines| && lines[k] == l;
      assert lines[1..][k - 1] == l;
      TotalOfLine(lines[1..], l);
    }
  }

  /** Every line of the grouping carries the summed amount of its group. */
  lemma GroupLineTotals(items: seq<Item>)
    ensures forall l :: l in Group(items) ==> l.total == SumFor(items, l.name, l.unit)
  {
    forall l | l in Group(items) ensures l.total == SumFor(items, l.name, l.unit) {
      TotalOfLine(Group(items), l);
    }
  }

  /** The groups of the user's cart. */
  function CartLines(t: Tables, user: nat): seq<Line>
  {
    Group(CartItems(t.carts, t.recipeIngredients, t.ingredients, user))
  }

  /** `f'{index}. {name} {amount} ({unit})'`. */
  function RenderLine(index: nat, l: Line): string
  {
    DecimalString(index) + ". " + l.name + " " + IntString(l.total) + " (" + l.unit + ")"
  }

  /** The lines rendered and numbered from `start`. */
  function Numbered(lines: seq<Line>, start: nat): (r: seq<string>)
    ensures |r| == |lines|
    ensures forall k :: 0 <= k < |lines| ==> r[k] == RenderLine(start + k, lines[k])
  {
    if lines == [] then [] else [RenderLine(start, lines[0])] + Numbered(lines[1..], start + 1)
  }

  /** The body: the header and the numbered lines joined by newlines, or the
      empty-cart text when there is no line. */
  function ListText(lines: seq<Line>): string
  {
    if lines == [] then EmptyCartMessage else Header + Join("\n", Numbered(lines, 1))
  }

  /** The empty-cart text is the body exactly when there is no line; any
      other body starts with the header. */
  lemma ListTextCases(lines: seq<Line>)
    ensures ListText(lines) == EmptyCartMessage <==> lines == []
    ensures lines != [] ==> ListText(lines)[..|Header|] == Header
  {
    if lines != [] {
      assert ListText(lines)[0] == Header[0] != EmptyCartMessage[0];
    }
  }

  lemma RenderLineOneLine(index: nat, l: Line)
    requires '\n' !in l.name && '\n' !in l.unit
    ensures '\n' !in RenderLine(index, l)
  {
    var d := DecimalString(index);
    var n := IntString(l.total);
    assert forall i :: 0 <= i < |d| ==> d[i] != '\n';
    var m := DecimalString(if l.total < 0 then -l.total else l.total);
    assert forall i :: 0 <= i < |m| ==> m[i] != '\n';
  }

  /** After the header, splitting the body on newlines gives back the
      numbered lines, one per group, when no name or unit holds a newline. */
  lemma ListTextLines(lines: seq<Line>)
    requires lines != []
    requires forall l :: l in lines ==> '\n' !in l.name && '\n' !in l.unit
    ensures Split(ListText(lines)[|Header|..], '\n') == Numbered(lines, 1)
  {
    var parts := Numbered(lines, 1);
    forall p | p in parts ensures '\n' !in p {
      var k :| 0 <= k < |parts| && parts[k] == p;
      assert lines[k] in lines;
      RenderLineOneLine(1 + k, lines[k]);
    }
    SplitJoin(parts, '\n');
    assert ListText(lines)[|Header|..] == Join("\n", parts);
  }

  /** `download_shopping_cart` for the authenticated `user`. */
  function DownloadShoppingCart(t: Tables, user: nat): (a: Attachment)
    ensures a.contentType == ContentType
    ensures a.disposition == "attachment; filename=" + FileName
  {
    Attachment(ListText(CartLines(t, user)), ContentType, "attachment; filename=my_shopping_cart.txt")
  }

  lemma {:induction false} CartItemsEmpty(carts: seq<ShoppingCart>, rows: seq<RecipeIngredient>, catalog: seq<Ingredient>, user: nat)
    requires forall c :: c in carts ==> c.user != user
    ensures CartItems(carts, rows, catalog, user) == []
  {
    if carts != [] {
      assert carts[0] in carts;
      CartItemsEmpty(carts[1..], rows, catalog, user);
    }
  }

  lemma {:induction false} RecipeItemsNonEmpty(rows: seq<RecipeIngredient>, catalog: seq<Ingredient>, recipe: nat)
    requires forall x :: x in rows ==> HasIngredient(catalog, x.ingredient)
    requires HasIngredientRow(rows, recipe)
    ensures RecipeItems(rows, catalog, recipe) != []
  {
    if rows[0].recipe != recipe {
      var x :| x in rows && x.recipe == recipe;
      assert x in rows[1..];
      RecipeItemsNonEmpty(rows[1..], catalog, recipe);
    }
  }

  lemma {:induction false} CartItemsNonEmpty(t: Tables, carts: seq<ShoppingCart>, user: nat)
    requires WellFormed(t)
    requires forall c :: c in carts ==> c in t.carts
    requires exists c :: c in carts && c.user == user
    ensures CartItems(carts, t.recipeIngredients, t.ingredients, user) != []
  {
    if carts[0].user == user {
      assert carts[0] in t.carts;
      var r :| r in t.recipes && r.id == carts[0].recipe;
      RecipeItemsNonEmpty(t.recipeIngredients, t.ingredients, carts[0].recipe);
    } else {
      var c :| c in carts && c.user == user;
      assert c in carts[1..];
      CartItemsNonEmpty(t, carts[1..], user);
    }
  }

  /** In a well-formed store the empty-cart text is sent exactly when the
      user has no cart row: every recipe in a cart has an ingredient. */
  lemma EmptyTextIffNoCartRow(t: Tables, user: nat)
    requires WellFormed(t)
    ensures DownloadShoppingCart(t, user).body == EmptyCartMessage <==> forall c :: c in t.carts ==> c.user != user
  {
    var items := CartItems(t.carts, t.recipeIngredients, t.ingredients, user);
    ListTextCases(CartLines(t, user));
    if forall c :: c in t.carts ==> c.user != user {
      CartItemsEmpty(t.carts, t.recipeIngredients, t.ingredients, user);
    } else {
      CartItemsNonEmpty(t, t.carts, user);
      assert items[0] in items;
      assert HasKey(CartLines(t, user), items[0].name, items[0].unit);
    }
  }

  lemma {:induction false} CartItemsAppend(carts: seq<ShoppingCart>, c: ShoppingCart, rows: seq<RecipeIngredient>, catalog: seq<Ingredient>, user: nat)
    ensures CartItems(carts + [c], rows, catalog, user) ==
      CartItems(carts, rows, catalog, user) + (if c.user == user then RecipeItems(rows, catalog, c.recipe) else [])
  {
    if carts == [] {
      assert [c] + [] == [c];
    } else {
      assert (carts + [c])[1..] == carts[1..] + [c];
      CartItemsAppend(carts[1..], c, rows, catalog, user);
    }
  }

  lemma {:induction false} SumForAppend(a: seq<Item>, b: seq<Item>, name: string, unit: string)
    ensures SumFor(a + b, name, unit) == SumFor(a, name, unit) + SumFor(b, name, unit)
  {
    if b != [] {
      assert (a + b)[..|a + b| - 1] == a + b[..|b| - 1];
      SumForAppend(a, b[..|b| - 1], name, unit);
    } else {
      assert a + b == a;
    }
  }

  /** Putting a recipe in the cart once more adds its amounts to every
      group once more: cart rows are counted, not recipes. */
  lemma AnotherCartRowAddsAgain(t: Tables, user: nat, recipe: nat, name: string, unit: string)
    ensures var more := t.(carts := t.carts + [ShoppingCart(user, recipe)]);
      TotalFor(CartLines(more, user), name, unit) ==
      TotalFor(CartLines(t, user), name, unit) + SumFor(RecipeItems(t.recipeIngredients, t.ingredients, recipe), name, unit)
  {
    CartItemsAppend(t.carts, ShoppingCart(user, recipe), t.recipeIngredients, t.ingredients, user);
    SumForAppend(CartItems(t.carts, t.recipeIngredients, t.ingredients, user),
                 RecipeItems(t.recipeIngredients, t.ingredients, recipe), name, unit);
  }
}
