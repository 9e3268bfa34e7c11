/** The shopping list download: the join rows of the recipes in the user's
    cart, grouped by (ingredient name, measurement unit) with their amounts
    summed, and rendered as one text line per group. The database returns the
    groups in no fixed order; the model builds them in one particular order and
    states every property independently of it. */
module ShoppingList {
  import opened Collections
  import opened Decimal
  import opened UserModels
  import opened RecipeModels

  /** A (name, unit, amount) triple: one joined row before grouping, or one
      group (with its sum) after. */
  datatype Entry = Entry(name: string, unit: string, amount: nat)

  function Key(e: Entry): (string, string)
  {
    (e.name, e.unit)
  }

  /** `RecipeIngredient.objects.filter(recipe__shopping_list__user=user)`. */
  function CartRows(rows: seq<RecipeIngredient>, cart: seq<(UserId, RecipeId)>, user: UserId): (mine: seq<RecipeIngredient>)
    ensures forall k | 0 <= k < |mine| :: mine[k] in rows && (user, mine[k].recipe) in cart
    ensures forall k | 0 <= k < |rows| && (user, rows[k].recipe) in cart :: rows[k] in mine
  {
    var keep := (r: RecipeIngredient) => (user, r.recipe) in cart;
    FilterSubset(rows, keep);
    FilterComplete(rows, keep);
    Filter(rows, keep)
  }

  /** `.values("ingredient__name", "ingredient__measurement_unit")` together with the amount. */
  function Joined(rows: seq<RecipeIngredient>, catalog: map<IngredientId, Ingredient>): (es: seq<Entry>)
    requires forall k | 0 <= k < |rows| :: rows[k].ingredient in catalog
    ensures |es| == |rows|
    ensures forall k | 0 <= k < |rows| ::
      es[k] == Entry(catalog[rows[k].ingredient].name, catalog[rows[k].ingredient].measurementUnit, rows[k].amount)
  {
    seq(|rows|, k requires 0 <= k < |rows| =>
      Entry(catalog[rows[k].ingredient].name, catalog[rows[k].ingredient].measurementUnit, rows[k].amount))
  }

  /** The total amount of the entries with key `key` (the reference for `Sum("amount")`). */
  function SumFor(es: seq<Entry>, key: (string, string)): nat
  {
    if es == [] then 0 else (if Key(es[0]) == key then es[0].amount else 0) + SumFor(es[1..], key)
  }

  function Total(es: seq<Entry>): nat
  {
    if es == [] then 0 else es[0].amount + Total(es[1..])
  }

  function KeySet(es: seq<Entry>): set<(string, string)>
  {
    if es == [] then {} else {Key(es[0])} + KeySet(es[1..])
  }

  /** No two groups share a (name, unit). */
  predicate DistinctKeys(es: seq<Entry>)
  {
    forall i, j | 0 <= i < j < |es| :: Key(es[i]) != Key(es[j])
  }

  /** Among groups with distinct keys, a group's amount is the sum for its key. */
  lemma {:induction false} SumForDistinct(gs: seq<Entry>, k: nat)
    requires DistinctKeys(gs) && k < |gs|
    ensures SumFor(gs, Key(gs[k])) == gs[k].amount
  {
    if k == 0 {
      SumForAbsent(gs[1..], Key(gs[0]));
    } else {
      SumForDistinct(gs[1..], k - 1);
    }
  }

  lemma {:induction false} SumForAbsent(es: seq<Entry>, key: (string, string))
    requires forall i | 0 <= i < |es| :: Key(es[i]) != key
    ensures SumFor(es, key) == 0
  {
    if es != [] {
      SumForAbsent(es[1..], key);
    }
  }

  /** Folds one entry into the groups: adds its amount to the group with the
      same key, or appends a new group. */
  function AddEntry(gs: seq<Entry>, e: Entry): (r: seq<Entry>)
    ensures forall key :: SumFor(r, key) == SumFor(gs, key) + (if key == Key(e) then e.amount else 0)
    ensures Total(r) == Total(gs) + e.amount
    ensures KeySet(r) == KeySet(gs) + {Key(e)}
    ensures DistinctKeys(gs) ==> DistinctKeys(r)
  {
    if gs == [] then [e]
    else if Key(gs[0]) == Key(e) then
      var r := [gs[0].(amount := gs[0].amount + e.amount)] + gs[1..];
      assert r[1..] == gs[1..];
      r
    else
      var rest := AddEntry(gs[1..], e);
      var r := [gs[0]] + rest;
      assert r[1..] == rest;
      assert DistinctKeys(gs) ==> Key(gs[0]) !in KeySet(gs[1..]) by {
        if DistinctKeys(gs) { KeysOfDistinct(gs); }
      }
      assert forall i | 0 <= i < |rest| :: Key(rest[i]) in KeySet(rest) by {
        KeySetMembers(rest);
      }
      r
  }

  lemma {:induction false} KeySetMembers(es: seq<Entry>)
    ensures forall i | 0 <= i < |es| :: Key(es[i]) in KeySet(es)
    ensures forall key | key in KeySet(es) :: exists i | 0 <= i < |es| :: Key(es[i]) == key
  {
    if es != [] {
      KeySetMembers(es[1..]);
      forall i | 1 <= i < |es| ensures es[i] == es[1..][i - 1] {}
      forall key | key in KeySet(es) ensures exists i | 0 <= i < |es| :: Key(es[i]) == key {
        if key != Key(es[0]) {
          var i :| 0 <= i < |es[1..]| && Key(es[1..][i]) == key;
          assert Key(es[i + 1]) == key;
        }
      }
    }
  }

  lemma KeysOfDistinct(gs: seq<Entry>)
    requires DistinctKeys(gs) && gs != []
    ensures Key(gs[0]) !in KeySet(gs[1..])
  {
    KeySetMembers(gs[1..]);
  }

  /** `.annotate(sum=Sum("amount"))` after grouping by (name, unit): one group
      per distinct key, each carrying the total amount for that key. */
  function Aggregate(es: seq<Entry>): (gs: seq<Entry>)
    ensures DistinctKeys(gs)
    ensures KeySet(gs) == KeySet(es)
    ensures forall key :: SumFor(gs, key) == SumFor(es, key)
    ensures Total(gs) == Total(es)
  {
    if es == [] then [] else AddEntry(Aggregate(es[1..]), es[0])
  }

  /** Each group's amount is the sum of the amounts of the rows with its
      (name, unit), and every key of the input has exactly one group. */
  lemma AggregateGroups(es: seq<Entry>)
    ensures forall k | 0 <= k < |Aggregate(es)| :: Aggregate(es)[k].amount == SumFor(es, Key(Aggregate(es)[k]))
    ensures forall i | 0 <= i < |es| :: exists k | 0 <= k < |Aggregate(es)| :: Key(Aggregate(es)[k]) == Key(es[i])
  {
    var gs := Aggregate(es);
    forall k | 0 <= k < |gs| ensures gs[k].amount == SumFor(es, Key(gs[k])) {
      SumForDistinct(gs, k);
    }
    KeySetMembers(gs);
    KeySetMembers(es);
  }

  /** The entries the download groups: the user's cart rows, joined with the catalog. */
  function CartEntries(rows: seq<RecipeIngredient>, catalog: map<IngredientId, Ingredient>,
                       cart: seq<(UserId, RecipeId)>, user: UserId): seq<Entry>
    requires forall k | 0 <= k < |rows| :: rows[k].ingredient in catalog
  {
    var mine := CartRows(rows, cart, user);
    assert forall k | 0 <= k < |mine| :: mine[k] in rows;
    Joined(mine, catalog)
  }

  /** The (name, unit) a join row is grouped under. */
  function RowKey(catalog: map<IngredientId, Ingredient>, r: RecipeIngredient): (string, string)
    requires r.ingredient in catalog
  {
    (catalog[r.ingredient].name, catalog[r.ingredient].measurementUnit)
  }

  /** The groups of the download, before rendering. */
  function CartGroups(rows: seq<RecipeIngredient>, catalog: map<IngredientId, Ingredient>,
                      cart: seq<(UserId, RecipeId)>, user: UserId): seq<Entry>
    requires forall k | 0 <= k < |rows| :: rows[k].ingredient in catalog
  {
    Aggregate(CartEntries(rows, catalog, cart, user))
  }

  /** The keys of the cart entries are exactly the keys of the rows of the
      user's cart recipes. */
  lemma CartEntryKeys(rows: seq<RecipeIngredient>, catalog: map<IngredientId, Ingredient>,
                      cart: seq<(UserId, RecipeId)>, user: UserId)
    requires forall k | 0 <= k < |rows| :: rows[k].ingredient in catalog
    ensures forall k | 0 <= k < |rows| && (user, rows[k].recipe) in cart ::
      RowKey(catalog, rows[k]) in KeySet(CartEntries(rows, catalog, cart, user))
    ensures forall key | key in KeySet(CartEntries(rows, catalog, cart, user)) ::
      exists k | 0 <= k < |rows| :: (user, rows[k].recipe) in cart && RowKey(catalog, rows[k]) == key
  {
    var mine := CartRows(rows, cart, user);
    var es := CartEntries(rows, catalog, cart, user);
    assert forall i | 0 <= i < |mine| :: Key(es[i]) == RowKey(catalog, mine[i]);
    KeySetMembers(es);
    forall k | 0 <= k < |rows| && (user, rows[k].recipe) in cart
      ensures RowKey(catalog, rows[k]) in KeySet(es)
    {
      var i :| 0 <= i < |mine| && mine[i] == rows[k];
      assert Key(es[i]) == RowKey(catalog, rows[k]);
    }
    forall key | key in KeySet(es)
      ensures exists k | 0 <= k < |rows| :: (user, rows[k].recipe) in cart && RowKey(catalog, rows[k]) == key
    {
      var i :| 0 <= i < |es| && Key(es[i]) == key;
      var k :| 0 <= k < |rows| && rows[k] == mine[i];
    }
  }

  /** The download has one group per (name, unit) of the rows of the user's
      cart recipes, and no other group; each group carries the total amount of
      those rows with its key. */
  lemma CartGroupsSummed(rows: seq<RecipeIngredient>, catalog: map<IngredientId, Ingredient>,
                         cart: seq<(UserId, RecipeId)>, user: UserId)
    requires forall k | 0 <= k < |rows| :: rows[k].ingredient in catalog
    ensures DistinctKeys(CartGroups(rows, catalog, cart, user))
    ensures forall j | 0 <= j < |CartGroups(rows, catalog, cart, user)| ::
      CartGroups(rows, catalog, cart, user)[j].amount
        == SumFor(CartEntries(rows, catalog, cart, user), Key(CartGroups(rows, catalog, cart, user)[j]))
    ensures forall k | 0 <= k < |rows| && (user, rows[k].recipe) in cart ::
      exists j | 0 <= j < |CartGroups(rows, catalog, cart, user)| ::
        Key(CartGroups(rows, catalog, cart, user)[j]) == RowKey(catalog, rows[k])
    ensures forall j | 0 <= j < |CartGroups(rows, catalog, cart, user)| ::
      exists k | 0 <= k < |rows| ::
        (user, rows[k].recipe) in cart && Key(CartGroups(rows, catalog, cart, user)[j]) == RowKey(catalog, rows[k])
  {
    var es := CartEntries(rows, catalog, cart, user);
    var gs := Aggregate(es);
    assert KeySet(gs) == KeySet(es);
    AggregateGroups(es);
    CartEntryKeys(rows, catalog, cart, user);
    KeySetMembers(gs);
    forall j | 0 <= j < |gs|
      ensures exists k | 0 <= k < |rows| :: (user, rows[k].recipe) in cart && Key(gs[j]) == RowKey(catalog, rows[k])
    {
      assert Key(gs[j]) in KeySet(es);
    }
  }

  /** Rows of recipes that are not in the user's cart change nothing. */
  lemma OtherRecipesContributeNothing(rows: seq<RecipeIngredient>, extra: seq<RecipeIngredient>,
                                      catalog: map<IngredientId, Ingredient>, cart: seq<(UserId, RecipeId)>, user: UserId)
    requires forall k | 0 <= k < |rows| :: rows[k].ingredient in catalog
    requires forall k | 0 <= k < |extra| :: extra[k].ingredient in catalog && (user, extra[k].recipe) !in cart
    ensures CartEntries(rows + extra, catalog, cart, user) == CartEntries(rows, catalog, cart, user)
  {
    var keep := (r: RecipeIngredient) => (user, r.recipe) in cart;
    FilterAppend(rows, extra, keep);
    FilterKeepsNone(extra, keep);
    assert Filter(rows + extra, keep) == Filter(rows, keep);
  }

  /** The total amount of the rows for one ingredient. */
  function IngredientTotal(rows: seq<RecipeIngredient>, ingredient: IngredientId): nat
  {
    if rows == [] then 0
    else (if rows[0].ingredient == ingredient then rows[0].amount else 0) + IngredientTotal(rows[1..], ingredient)
  }

  /** With unique ingredient names, the sum for an ingredient's (name, unit) is
      the sum over that ingredient's rows: grouping by (name, unit) is grouping
      by ingredient. */
  lemma {:induction false} GroupingIsByIngredient(rows: seq<RecipeIngredient>, catalog: map<IngredientId, Ingredient>,
                                                 i: IngredientId)
    requires IngredientNamesUnique(catalog) && i in catalog
    requires forall k | 0 <= k < |rows| :: rows[k].ingredient in catalog
    ensures SumFor(Joined(rows, catalog), (catalog[i].name, catalog[i].measurementUnit)) == IngredientTotal(rows, i)
  {
    if rows != [] {
      GroupingIsByIngredient(rows[1..], catalog, i);
      assert Joined(rows, catalog)[1..] == Joined(rows[1..], catalog);
    }
  }

  /** One line of the download: `"<name> - <sum> (<unit>)"`. */
  function Line(g: Entry): string
  {
    g.name + " - " + Show(g.amount) + " (" + g.unit + ")"
  }

  /** `"\n".join(...)` over the groups. */
  function Render(gs: seq<Entry>): (text: string)
    ensures gs == [] <==> text == []
    ensures gs != [] ==> text[|text| - 1] == ')'
  {
    if gs == [] then ""
    else if |gs| == 1 then Line(gs[0])
    else Line(gs[0]) + "\n" + Render(gs[1..])
  }

  /** Appending a group appends a separator and its line: separators stand only
      between lines. */
  lemma {:induction false} RenderAppend(gs: seq<Entry>, g: Entry)
    requires gs != []
    ensures Render(gs + [g]) == Render(gs) + "\n" + Line(g)
  {
    var s := gs + [g];
    assert s[0] == gs[0] && |s| > 1;
    if |gs| == 1 {
      assert s[1..] == [g];
    } else {
      assert s[1..] == gs[1..] + [g];
      RenderAppend(gs[1..], g);
      calc {
        Render(s);
        Line(gs[0]) + "\n" + Render(gs[1..] + [g]);
        Line(gs[0]) + "\n" + (Render(gs[1..]) + "\n" + Line(g));
        (Line(gs[0]) + "\n" + Render(gs[1..])) + "\n" + Line(g);
      }
    }
  }

  function Occurrences(s: string, c: char): nat
  {
    if s == [] then 0 else (if s[0] == c then 1 else 0) + Occurrences(s[1..], c)
  }

  lemma {:induction false} OccurrencesAppend(a: string, b: string, c: char)
    ensures Occurrences(a + b, c) == Occurrences(a, c) + Occurrences(b, c)
  {
    if a == [] {
      assert a + b == b;
    } else {
      assert (a + b)[1..] == a[1..] + b;
      OccurrencesAppend(a[1..], b, c);
    }
  }

  lemma {:induction false} OccurrencesAbsent(s: string, c: char)
    requires c !in s
    ensures Occurrences(s, c) == 0
  {
    if s != [] {
      OccurrencesAbsent(s[1..], c);
    }
  }

  /** Names and units free of newlines. */
  predicate SingleLineFields(gs: seq<Entry>)
  {
    forall k | 0 <= k < |gs| :: '\n' !in gs[k].name && '\n' !in gs[k].unit
  }

  /** n groups give n - 1 separators: n lines and no trailing newline. */
  lemma {:induction false} RenderSeparators(gs: seq<Entry>)
    requires gs != [] && SingleLineFields(gs)
    ensures Occurrences(Render(gs), '\n') == |gs| - 1
  {
    var line := Line(gs[0]);
    assert '\n' !in Show(gs[0].amount);
    assert '\n' !in line;
    OccurrencesAbsent(line, '\n');
    if |gs| > 1 {
      RenderSeparators(gs[1..]);
      OccurrencesAppend(line + "\n", Render(gs[1..]), '\n');
      OccurrencesAppend(line, "\n", '\n');
      assert Occurrences("\n", '\n') == 1;
    }
  }
}
