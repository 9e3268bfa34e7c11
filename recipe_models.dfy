/** The `recipes` app's models: the ingredient and tag catalogs, recipes, the
    `RecipeIngredient` join rows with their bounded amount, and the field
    validators and unique constraints on them. */
module RecipeModels {
  import opened Collections
  import opened Strings
  import opened UserModels

  type IngredientId = nat
  type TagId = nat
  type RecipeId = nat

  /** The deployment constants COOKING_TIME_MIN/MAX and INGREDIENT_AMOUNT_MIN/MAX. */
  datatype Bounds = Bounds(cookingTimeMin: int, cookingTimeMax: int, amountMin: int, amountMax: int)
  {
    /** Both ranges are non-empty and lie within a positive small integer column. */
    predicate Valid()
    {
      0 <= cookingTimeMin <= cookingTimeMax && 0 <= amountMin <= amountMax
    }
  }

  datatype Ingredient = Ingredient(name: string, measurementUnit: string)

  datatype Tag = Tag(name: string, slug: string)

  /** A recipe row together with its tag set (the implicit many-to-many table). */
  datatype Recipe = Recipe(
    name: string,
    text: string,
    cookingTime: int,
    image: string,
    author: UserId,
    tags: set<TagId>)

  /** One join row: `amount` of `ingredient` in `recipe`. */
  datatype RecipeIngredient = RecipeIngredient(recipe: RecipeId, ingredient: IngredientId, amount: nat)

  /** MinValueValidator(COOKING_TIME_MIN) and MaxValueValidator(COOKING_TIME_MAX), both inclusive. */
  predicate CookingTimeInRange(t: int, b: Bounds)
  {
    b.cookingTimeMin <= t <= b.cookingTimeMax
  }

  /** MinValueValidator(INGREDIENT_AMOUNT_MIN) and MaxValueValidator(INGREDIENT_AMOUNT_MAX), both inclusive. */
  predicate AmountInRange(a: int, b: Bounds)
  {
    b.amountMin <= a <= b.amountMax
  }

  /** `unique=True` on `Ingredient.name`. */
  predicate IngredientNamesUnique(catalog: map<IngredientId, Ingredient>)
  {
    forall i, j | i in catalog && j in catalog && catalog[i].name == catalog[j].name :: i == j
  }

  /** The `unique_ingredient` constraint on (name, measurement_unit). */
  predicate NameUnitPairsUnique(catalog: map<IngredientId, Ingredient>)
  {
    forall i, j | i in catalog && j in catalog && catalog[i] == catalog[j] :: i == j
  }

  /** Unique names make (name, measurement_unit) identify an ingredient, so the
      pair constraint never fires on its own and a group-by on (name, unit)
      is a group-by on the ingredient. */
  lemma NamesIdentifyIngredients(catalog: map<IngredientId, Ingredient>, i: IngredientId, j: IngredientId)
    requires IngredientNamesUnique(catalog)
    requires i in catalog && j in catalog
    ensures NameUnitPairsUnique(catalog)
    ensures catalog[i].name == catalog[j].name && catalog[i].measurementUnit == catalog[j].measurementUnit
            <==> i == j
  {
  }

  /** `unique=True` on `Tag.slug`. */
  predicate SlugsUnique(tags: map<TagId, Tag>)
  {
    forall i, j | i in tags && j in tags && tags[i].slug == tags[j].slug :: i == j
  }

  /** The `unique_recipe_ingredient` constraint: no two rows share (ingredient, recipe). */
  predicate OneRowPerPair(rows: seq<RecipeIngredient>)
  {
    && Distinct(rows)
    && forall i, j | 0 <= i < |rows| && 0 <= j < |rows|
         && rows[i].recipe == rows[j].recipe && rows[i].ingredient == rows[j].ingredient :: i == j
  }

  /** Every recipe has a name and a text that are non-empty once trimmed
      (`blank=False`, stored trimmed), a cooking time in range, an existing
      author and existing tags. */
  predicate RecipesValid(recipes: map<RecipeId, Recipe>, users: set<UserId>, tags: set<TagId>, b: Bounds)
  {
    forall id | id in recipes ::
      && Stripped(recipes[id].name) && Stripped(recipes[id].text)
      && CookingTimeInRange(recipes[id].cookingTime, b)
      && recipes[id].author in users
      && recipes[id].tags <= tags
  }

  /** Every join row has an amount in range and points at an existing recipe
      and ingredient, and no pair occurs twice. */
  predicate RowsValid(rows: seq<RecipeIngredient>, recipes: set<RecipeId>, ingredients: set<IngredientId>, b: Bounds)
  {
    && OneRowPerPair(rows)
    && forall k | 0 <= k < |rows| ::
         && AmountInRange(rows[k].amount, b)
         && rows[k].recipe in recipes
         && rows[k].ingredient in ingredients
  }

  /** The `Favorite` and `ShoppingList` tables: at most one row per (user, recipe)
      and both ends exist. */
  predicate PairsValid(pairs: seq<(UserId, RecipeId)>, users: set<UserId>, recipes: set<RecipeId>)
  {
    && Distinct(pairs)
    && forall k | 0 <= k < |pairs| :: pairs[k].0 in users && pairs[k].1 in recipes
  }

  function InRecipe(recipe: RecipeId): RecipeIngredient -> bool
  {
    (r: RecipeIngredient) => r.recipe == recipe
  }

  /** The join rows of one recipe (`recipe.ingredient_list`). */
  function RowsOf(rows: seq<RecipeIngredient>, recipe: RecipeId): seq<RecipeIngredient>
  {
    Filter(rows, InRecipe(recipe))
  }

  /** The rows that survive deleting the recipes `gone` and the ingredients `goneIngredients`. */
  function RowKept(gone: set<RecipeId>, goneIngredients: set<IngredientId>): RecipeIngredient -> bool
  {
    (r: RecipeIngredient) => r.recipe !in gone && r.ingredient !in goneIngredients
  }

  /** The (user, recipe) rows that survive deleting the users `gone` and the recipes `goneRecipes`. */
  function PairKept(gone: set<UserId>, goneRecipes: set<RecipeId>): ((UserId, RecipeId)) -> bool
  {
    (p: (UserId, RecipeId)) => p.0 !in gone && p.1 !in goneRecipes
  }

  /** Deleting rows keeps the table free of duplicate pairs. */
  lemma FilterKeepsOneRowPerPair(rows: seq<RecipeIngredient>, keep: RecipeIngredient -> bool)
    requires OneRowPerPair(rows)
    ensures OneRowPerPair(Filter(rows, keep))
  {
    FilterSubset(rows, keep);
    var r := Filter(rows, keep);
    forall i, j | 0 <= i < |r| && 0 <= j < |r| && r[i].recipe == r[j].recipe && r[i].ingredient == r[j].ingredient
      ensures i == j
    {
      var a :| 0 <= a < |rows| && rows[a] == r[i];
      var c :| 0 <= c < |rows| && rows[c] == r[j];
      assert a == c;
    }
  }

  /** Rows of a recipe no existing row belongs to can be appended without
      breaking the pair constraint. */
  lemma OneRowPerPairAppend(a: seq<RecipeIngredient>, b: seq<RecipeIngredient>)
    requires OneRowPerPair(a) && OneRowPerPair(b)
    requires forall i, j | 0 <= i < |a| && 0 <= j < |b| :: a[i].recipe != b[j].recipe
    ensures OneRowPerPair(a + b)
  {
    var t := a + b;
    forall i, j | 0 <= i < |t| && 0 <= j < |t| && t[i].recipe == t[j].recipe && t[i].ingredient == t[j].ingredient
      ensures i == j
    {
      assert t[i] == if i < |a| then a[i] else b[i - |a|];
      assert t[j] == if j < |a| then a[j] else b[j - |a|];
    }
  }

  /** A deletion keeps the row constraints for the recipes and ingredients that remain. */
  lemma RowsValidAfterFilter(rows: seq<RecipeIngredient>, keep: RecipeIngredient -> bool,
                             recipes: set<RecipeId>, ingredients: set<IngredientId>, b: Bounds)
    requires OneRowPerPair(rows) && forall k | 0 <= k < |rows| :: AmountInRange(rows[k].amount, b)
    requires forall k | 0 <= k < |rows| && keep(rows[k]) :: rows[k].recipe in recipes && rows[k].ingredient in ingredients
    ensures RowsValid(Filter(rows, keep), recipes, ingredients, b)
  {
    FilterKeepsOneRowPerPair(rows, keep);
    FilterSubset(rows, keep);
    var r := Filter(rows, keep);
    forall k | 0 <= k < |r|
      ensures AmountInRange(r[k].amount, b) && r[k].recipe in recipes && r[k].ingredient in ingredients
    {
      var j :| 0 <= j < |rows| && rows[j] == r[k];
    }
  }

  /** A deletion keeps the (user, recipe) table constraints for the rows that remain. */
  lemma PairsValidAfterFilter(pairs: seq<(UserId, RecipeId)>, keep: ((UserId, RecipeId)) -> bool,
                              users: set<UserId>, recipes: set<RecipeId>)
    requires Distinct(pairs)
    requires forall k | 0 <= k < |pairs| && keep(pairs[k]) :: pairs[k].0 in users && pairs[k].1 in recipes
    ensures PairsValid(Filter(pairs, keep), users, recipes)
  {
    FilterSubset(pairs, keep);
    var r := Filter(pairs, keep);
    forall k | 0 <= k < |r| ensures r[k].0 in users && r[k].1 in recipes {
      var j :| 0 <= j < |pairs| && pairs[j] == r[k];
    }
  }
}
