# Foodgram backend core in Dafny

This project models the core of the foodgram recipe-sharing backend (a
Django REST Framework application). It covers:

- The relational tables and their declared constraints: accounts, follows,
  the ingredient and tag catalogs, recipes, the recipe/ingredient join rows,
  favorites and shopping lists.
- The views that write them: subscribe, favorite and shopping-cart toggles,
  recipe create/update/delete, and the cascades on delete.
- The recipe write serializer's validation and its `create`/`update`.
- The shopping-list download: filter, group by (name, unit), sum, render.
- The short-link redirect.
- The read-side flags (`is_favorited`, `is_in_shopping_cart`,
  `is_subscribed`) and the capped nested recipe list of a subscription.

Layout, one module per file:

| file | module | models |
|---|---|---|
| `collections.dfy` | `Collections` | Option/Result, duplicate-free sequences, the row filter behind `filter()`, `exists()` and `filter().delete()` |
| `strings.dfy` | `Strings` | `str.isspace()` and the `strip()` that text fields apply before their blank check |
| `decimal.dfy` | `Decimal` | `str.isdigit()`, `str.isdecimal()`, `int(s)` and `str(n)` for non-negative integers |
| `user_models.dfy` | `UserModels` | `users/models.py`: username pattern, unique username and e-mail, `Subscription` constraints |
| `recipe_models.dfy` | `RecipeModels` | `recipes/models.py`: validators, unique constraints, foreign keys |
| `recipe_write.dfy` | `RecipeWrite` | `RecipeWriteSerializer` validation and the rows `create_ingredients` inserts |
| `shopping_list.dfy` | `ShoppingList` | `download_shopping_cart` and `shopping_list_to_txt` |
| `subscriber_recipes.dfy` | `SubscriberRecipes` | `SubscriberDetailSerializer.get_recipes` |
| `flags.dfy` | `Flags` | `get_serializer_method_field_value` and `get_is_subscribed` |
| `store.dfy` | `Store` | the tables as one object (`class Store`) and the views that change them |

The store is a class whose fields are the tables. Its invariant `Valid()`
holds every model constraint plus "every primary key is below `nextId`".
Each writing view is a method whose postcondition gives the whole new state
through `Snapshot()`. That new state is either a field update or a pure
transition function (`RecipeCreated`, `RecipeUpdated`, `RecipeDeleted`,
`IngredientDeleted`, `UserDeleted`). A `...KeepsValid` lemma proves that each
transition preserves the constraints.

Deployment constants are parameters, not fixed numbers:

- COOKING_TIME_MIN/MAX and INGREDIENT_AMOUNT_MIN/MAX live in `Bounds`.
- PAGE_SIZE is passed to `GetRecipes`.

Removing an absent favorite, cart entry or subscription answers 400
(backend/api/views.py:143-147, 226-232, 288-292). `StatusCode` therefore maps
`NotFavorited`, `NotInCart` and `NotSubscribed` to 400. Only a missing recipe
or user gives 404.

## Model

| member | source | states |
|---|---|---|
| Collections.DistinctIffNoShrink | backend/api/serializers.py:168 | `len(value) != len(set(value))` holds exactly when the list has a repeated element |
| Collections.Filter | backend/api/views.py:139-141 | `filter(...).delete()` keeps only rows satisfying the condition; nothing is lost exactly when every row satisfies it (`deleted_count == 0`) |
| Strings.Trim | backend/recipes/models.py:60-66 | `strip()`: the slice between the leading and the trailing whitespace, with whitespace on neither end |
| Strings.TrimBlankIff | backend/recipes/models.py:60-66 | stripping leaves nothing exactly when the text is all whitespace; otherwise what is left is not blank |
| Strings.TrimIdempotent | backend/recipes/models.py:60-66 | stripping twice is stripping once |
| Decimal.Show | backend/api/views.py:237 | `str(n)`: a non-empty string of ASCII digits with no leading zero except for 0 |
| Decimal.ValueOfShow | backend/api/serializers.py:284-288 | `int(str(n)) == n`: the digit reader inverts the decimal writer |
| UserModels.TrailingNewlineAccepted | backend/users/models.py:16-20 | the username pattern as written accepts `"bob\n"`, which is not a valid username |
| UserModels.ValidUsernameIsStrict | backend/users/models.py:16-20 | the corrected username predicate admits no newline and nothing the pattern as written rejects |
| UserModels.LoginIdentifiesOneAccount | backend/users/models.py:44 | with unique e-mails, a login (`USERNAME_FIELD = 'email'`) names at most one account, and each account's own e-mail names exactly it |
| UserModels.SubscriptionsValidAfterFilter | backend/users/models.py:79-88 | deleting subscriptions keeps `unique_follow`, `check_follower_author` and the foreign keys for the rows that remain |
| RecipeModels.NamesIdentifyIngredients | backend/recipes/models.py:11-30 | unique ingredient names imply the `unique_ingredient` (name, unit) constraint, and (name, unit) identifies one ingredient |
| RecipeModels.FilterKeepsOneRowPerPair | backend/recipes/models.py:144-149 | deleting join rows keeps `unique_recipe_ingredient` |
| RecipeModels.OneRowPerPairAppend | backend/recipes/models.py:144-149 | rows of a recipe no existing row belongs to can be appended without breaking `unique_recipe_ingredient` |
| RecipeModels.RowsValidAfterFilter | backend/recipes/models.py:114-138 | deleting join rows keeps the amount validators, the pair constraint and the foreign keys to the remaining recipes and ingredients |
| RecipeModels.PairsValidAfterFilter | backend/recipes/models.py:155-210 | deleting favorite or shopping-list rows keeps their (user, recipe) unique constraint and foreign keys |
| RecipeWrite.ValidateTags | backend/api/serializers.py:164-171 | accepts exactly a non-empty list without repeats and returns it unchanged; empty gives "Добавьте тег", repeats give the uniqueness error |
| RecipeWrite.ValidateIngredients | backend/api/serializers.py:173-186 | accepts exactly a non-empty list whose ids are all in the catalog and pairwise different; empty gives its own error, every other rejection is the count mismatch |
| RecipeWrite.ExistingCountMatches | backend/api/serializers.py:177-181 | the count of catalog rows among the ids equals `len(ids)` exactly when the ids are distinct and all exist |
| RecipeWrite.ValidateImage | backend/api/serializers.py:188-193 | accepts exactly a present, non-empty image and returns it |
| RecipeWrite.TagsErrorIff | backend/api/serializers.py:142-171 | the `tags` field passes its related-field lookup and `validate_tags` exactly when the list is non-empty, distinct and all known |
| RecipeWrite.IngredientsErrorIff | backend/api/serializers.py:147-186 | the `ingredients` field passes the amount validators and `validate_ingredients` exactly when the list is non-empty, distinct, known and every amount is in range |
| RecipeWrite.NameErrorIff | backend/recipes/models.py:60-63 | the `name` field is rejected as blank exactly when it is all whitespace |
| RecipeWrite.TextErrorIff | backend/recipes/models.py:64-66 | the `text` field is rejected as blank exactly when it is all whitespace |
| RecipeWrite.DraftErrorsEmptyIff | backend/api/serializers.py:141-193 | a create payload has no errors exactly when tags, ingredients, image and cooking time are acceptable and name and text are not blank |
| RecipeWrite.PatchErrorsEmptyIff | backend/api/serializers.py:222-230 | a patch without tags or without ingredients is always rejected; a patch is accepted exactly when both are present and acceptable, every present field is valid and a present name or text is not blank |
| RecipeWrite.NewRows | backend/api/serializers.py:204-211 | one join row per payload entry, in insertion order, with that entry's ingredient and amount |
| RecipeWrite.NewRowsValid | backend/recipes/models.py:126-149 | rows from an accepted ingredient list satisfy the amount validators, the catalog foreign key and `unique_recipe_ingredient` |
| ShoppingList.CartRows | backend/api/views.py:251-253 | exactly the join rows whose recipe is in the user's shopping list |
| ShoppingList.Joined | backend/api/views.py:254 | each row becomes (ingredient name, measurement unit, amount) from the catalog |
| ShoppingList.AddEntry | backend/api/views.py:255 | folding one entry into the groups adds its amount to its (name, unit) sum only, keeps the total and keeps the keys distinct |
| ShoppingList.Aggregate | backend/api/views.py:250-256 | the groups have distinct (name, unit) keys, the same key set as the input, the same per-key sums and the same total |
| ShoppingList.AggregateGroups | backend/api/views.py:250-256 | each group's amount is the sum of the input amounts with its key, and every input key has a group |
| ShoppingList.CartEntryKeys | backend/api/views.py:250-254 | the keys of the cart entries are exactly the (name, unit) keys of the rows of the user's cart recipes |
| ShoppingList.CartGroupsSummed | backend/api/views.py:249-256 | the download has one group per (name, unit) of the user's cart rows and no other, each with the total amount of the rows with its key |
| ShoppingList.OtherRecipesContributeNothing | backend/api/views.py:251-253 | rows of recipes outside the user's shopping list do not change the download's entries |
| ShoppingList.GroupingIsByIngredient | backend/api/views.py:254-255 | with unique ingredient names, the (name, unit) sum equals the sum over that ingredient's rows |
| ShoppingList.Render | backend/api/views.py:234-240 | the text is empty exactly when there are no groups, and otherwise ends with a line's closing parenthesis (no trailing newline) |
| ShoppingList.RenderAppend | backend/api/views.py:236 | adding a group adds one separator and that group's line |
| ShoppingList.RenderSeparators | backend/api/views.py:234-240 | n groups give exactly n - 1 newlines, so one line per group |
| SubscriberRecipes.ParseLimitAsWritten | backend/api/serializers.py:283-288 | the `isdigit()` guard then `int()`: PAGE_SIZE when the guard fails, `ValueError` for a digit string that is not decimal, otherwise its value |
| SubscriberRecipes.SuperscriptLimitFails | backend/api/serializers.py:283-288 | `recipes_limit=²` passes `isdigit()` and makes `int()` raise, while the corrected reader gives PAGE_SIZE |
| SubscriberRecipes.ParseLimitAgrees | backend/api/serializers.py:283-288 | the corrected reader agrees with the code wherever the code returns a value; the code fails exactly on digit strings that are not decimal |
| SubscriberRecipes.ParseLimitCases | backend/api/serializers.py:283-288 | a decimal limit is read back as itself, in any modelled script (`"٣٠"` is 30); an absent, empty, signed or non-decimal value gives PAGE_SIZE |
| SubscriberRecipes.AuthoredBy | backend/api/serializers.py:291 | exactly the listing's recipes by the author |
| SubscriberRecipes.GetRecipes | backend/api/serializers.py:281-294 | a prefix of the author's recipes of length min(count, limit), all by the author |
| Flags.RelationFlag | backend/api/utils.py:1-10 | the flag is true exactly when the context holds an authenticated viewer who has the (viewer, recipe) row; false for a falsy context or an anonymous user |
| Flags.IsSubscribed | backend/api/serializers.py:40-44 | true exactly when a request with an authenticated viewer exists and the viewer follows the author |
| Flags.FlagFollowsToggle | backend/api/utils.py:7-9 | adding the viewer's row raises the flag, deleting it lowers it, and other rows never change it |
| Store.StatusCode | backend/api/views.py:102-149 | 404 exactly for a missing object, 400 for every other rejection, 201 for created, 204 for deleted |
| Store.ReplacedRowsOfSelf | backend/api/serializers.py:232-233 | after `update`, the recipe's ingredient list is exactly the payload's rows, in insertion order |
| Store.ReplacedRowsOfOther | backend/api/serializers.py:232 | deleting and re-inserting one recipe's rows leaves every other recipe's ingredient list unchanged |
| Store.AppendedRowsOf | backend/api/serializers.py:219 | rows inserted for a new recipe are exactly that recipe's ingredient list |
| Store.RowsValidAppend | backend/recipes/models.py:114-149 | row tables over disjoint recipes concatenate into a valid row table |
| Store.AppendFreshRows | backend/recipes/models.py:114-149 | rows from an accepted payload for a new recipe keep the join-row constraints |
| Store.PutRecipeKeepsValid | backend/recipes/models.py:73-100 | writing a valid recipe under a key with no rows, plus accepted rows, keeps every constraint |
| Store.NewRecipeNotBlank | backend/recipes/models.py:60-66 | the row `create` stores for an accepted payload has a stripped, non-blank name and text |
| Store.AcceptedDraftFits | backend/api/serializers.py:213-220 | a payload without validation errors has an image and non-negative amounts, and its stored row satisfies every recipe constraint |
| Store.InsertKeepsValid | backend/api/serializers.py:213-220 | inserting a recipe row that satisfies the recipe constraints under the next free key, with accepted rows, keeps every constraint and gives the recipe exactly those rows |
| Store.CreateKeepsValid | backend/api/serializers.py:213-220 | creating a payload without validation errors keeps every constraint, leaves the next key free and gives the recipe exactly the payload's rows |
| Store.UpdateKeepsValid | backend/api/serializers.py:222-234 | an accepted patch has tags and ingredients, and `update` keeps every constraint |
| Store.DeleteRecipeKeepsValid | backend/recipes/models.py:114-119 | deleting a recipe with its cascaded join, favorite and shopping-list rows keeps every constraint |
| Store.DeleteIngredientKeepsValid | backend/recipes/models.py:120-125 | deleting an ingredient with its cascaded join rows keeps every constraint |
| Store.UsersValidAfterRemove | backend/users/models.py:11-29 | removing an account keeps the username pattern and the uniqueness of usernames and e-mails |
| Store.RecipesValidAfterAuthorRemoved | backend/recipes/models.py:90-95 | removing an author with the cascade of their recipes leaves every remaining recipe with an existing author |
| Store.DeleteUserKeepsValid | backend/users/models.py:62-73 | deleting an account with every cascade (recipes, join rows, favorites, shopping lists, follows on both sides) keeps every constraint |
| Store.Store.AddUser | backend/users/models.py:11-29 | an account is saved exactly when the username satisfies the corrected `ValidUsername` (so `"bob\n"` is refused, and its ASCII `\w` refuses "Иван", which the source accepts), the e-mail is non-empty and both are unused; nothing else changes |
| Store.Store.AddIngredient | backend/recipes/models.py:11-15 | an ingredient is saved exactly when its name is unused |
| Store.Store.AddTag | backend/recipes/models.py:43-47 | a tag is saved exactly when its slug is unused |
| Store.Store.Subscribe | backend/api/views.py:102-149 | POST: unknown author 404, self 400, duplicate 400, else the one follow row is appended (201). DELETE: unknown id 404, no row 400, else exactly that row is removed (204). The constraints are kept |
| Store.Store.ShoppingCart | backend/api/views.py:204-232 | unknown recipe 404; POST on a present row 400, else row appended (201); DELETE on an absent row 400, else exactly that row removed (204) |
| Store.Store.Favorite | backend/api/views.py:267-292 | the same toggle on the favorites table, with its own conflict and absence errors |
| Store.Store.CreateIngredients | backend/api/serializers.py:204-211 | the loop appends exactly `NewRows(recipe, entries)` to the join table |
| Store.Store.CreateRecipe | backend/api/serializers.py:164-220 | rejected with the field errors, changing nothing, exactly when validation fails (blank name or text included); otherwise the recipe is created under a fresh key with stripped name and text and the payload's rows |
| Store.Store.InsertRecipe | backend/api/serializers.py:213-220 | `Recipe.objects.create` of a row satisfying the recipe constraints, then `create_ingredients`: the row is stored under an unused key and the recipe gets exactly the given rows |
| Store.Store.UpdateRecipe | backend/api/serializers.py:222-234 | unknown recipe 404; validation errors (blank name or text included) change nothing; otherwise tags replaced, rows replaced, present fields written, name and text stripped |
| Store.Store.DeleteRecipe | backend/recipes/models.py:114-119 | the recipe goes with its join, favorite and shopping-list rows (on_delete=CASCADE) |
| Store.Store.DeleteIngredient | backend/recipes/models.py:120-125 | the ingredient goes with the join rows that use it |
| Store.Store.DeleteUser | backend/users/models.py:62-73 | the account goes with every row that cascades from it |
| Store.Store.DownloadShoppingCart | backend/api/views.py:249-258 | the text renders groups with distinct (name, unit) keys, one for each key of the user's cart rows and no other, each carrying the total amount of those rows |
| Store.Store.ShortUrl | backend/api/views.py:295-300 | a redirect to `/recipes/<pk>/` exactly when the recipe exists, otherwise not found |
| Store.FavoriteTwice | backend/api/views.py:270-292 | a repeated favorite POST is a conflict; a repeated DELETE finds nothing to remove |
| Store.SubscribeTwice | backend/api/views.py:105-149 | a repeated subscribe POST is a conflict; a repeated DELETE finds nothing to remove |

## Left out

- Permissions and authentication (`IsAuthenticated`, `IsAdminAuthorOrReadOnly`, tokens, passwords): the acting user is a parameter that names an existing account.
- Images and base64 decoding: an image is a string, and only its presence and emptiness are modelled.
- Pagination, listing order and the serializers' JSON output (including `recipes_count`): the nested recipe list is a prefix of a listing passed in the table's order.
- The order of groups in the download: the database yields groups in no fixed order. The model builds one order, and every property is stated per key, independent of order.
- `max_length` on text fields and e-mail format validation: they are field-format checks that no modelled operation depends on.
- Required fields missing from a create payload: a `Draft` carries every field, so the "This field is required" errors are not modelled.
- The `PositiveSmallIntegerField` column bound (32767): the amount and cooking-time bounds are parameters, assumed to lie within the column.
- UserModels.ValidUsername: `\w` is modelled on ASCII (letters, digits, underscore), so a username such as "Иван", which Python's Unicode `\w` accepts, is refused by the model.
- Decimal.IsDigitChar: `str.isdigit()` and `str.isdecimal()` cover the scripts listed in `decimal.dfy`, not every Unicode digit.
- Flags.RelationFlag: returns the truth value; the source returns the falsy context itself (None or `{}`), and a context without a `"request"` key (a KeyError in the source) is not modelled.
- `Ingredient.objects.get` raising DoesNotExist in `create_ingredients`: unreachable after `validate_ingredients`. The model stores the entry's id directly, and the callers of `CreateIngredients` pass only accepted entries.
- `get_link`, the avatar endpoints, tag and ingredient listing and search: read-only or framework plumbing outside the core.
- Tag deletion: the core never deletes a tag.
- Transactions and concurrent requests: each method runs as one atomic step.
- The reference-data import command: ingestion, not part of the core.

## Findings

| source | as written | input that shows it | evidently intended | confidence | as-written member | corrected member |
|---|---|---|---|---|---|---|
| backend/users/models.py:16-20 | `RegexValidator(r'^[\w.@+-]+$')` checks with `re.search`, where `$` also matches just before a final newline | the username `"bob\n"` passes the validator | only characters of `[\w.@+-]` in the whole username (an end anchor such as `\Z`) | high for Python's `$` semantics; not executed | UserModels.TrailingNewlineAccepted | UserModels.ValidUsernameIsStrict |
| backend/api/serializers.py:283-288 | `int(limit) if ... limit.isdigit() else PAGE_SIZE`: `isdigit()` also admits digits that are not decimal, which `int()` cannot read | `?recipes_limit=²` raises `ValueError` (a 500 response) | a limit that is not a decimal number falls back to PAGE_SIZE (guard with `isdecimal()`) | high for Python's `isdigit()`/`int()` semantics; not executed | SubscriberRecipes.SuperscriptLimitFails | SubscriberRecipes.ParseLimitAgrees |
